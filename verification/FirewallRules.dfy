/** The DOCKER-USER rules of the panel, and what a chain of them does to a packet
    (internal/docker/firewall.go:62-86, 153-165). A rule is its meaning, not its argument list. */
module FirewallRules {

  /** A network: an IPv4 address as a number and the length of its prefix. */
  datatype Net = Net(address: nat, length: nat)

  datatype Rule =
    | DropFrequent(port: int, burst: int)
    | Record(port: int)
    | AcceptSyn(port: int, rate: int, burst: int)
    | DropSyn(port: int)
    | AcceptFrom(port: int, net: Net)
    | DropAll(port: int)
    | Foreign(id: int)

  function Address(a: nat, b: nat, c: nat, d: nat): nat {
    ((a * 256 + b) * 256 + c) * 256 + d
  }

  const LOOPBACK := Net(Address(127, 0, 0, 1), 32)
  const CLASS_A := Net(Address(10, 0, 0, 0), 8)
  const CLASS_B := Net(Address(172, 16, 0, 0), 12)
  const CLASS_C := Net(Address(192, 168, 0, 0), 16)

  /** BuildPortRules. */
  function BuildPortRules(port: int, rate: int, burst: int): seq<Rule> {
    [DropFrequent(port, burst), Record(port), AcceptSyn(port, rate, burst), DropSyn(port)]
  }

  /** BuildIsolationRules. */
  function BuildIsolationRules(port: int): seq<Rule> {
    [AcceptFrom(port, LOOPBACK), AcceptFrom(port, CLASS_A), AcceptFrom(port, CLASS_B),
     AcceptFrom(port, CLASS_C), DropAll(port)]
  }

  // ---------------------------------------------------------------- packets

  datatype Packet = Packet(port: int, source: nat, opensConnection: bool, syn: bool)

  /** What the matches that keep state answer for this packet: whether its source already opened
      `burst` connections to the port within the minute, whether the SYN budget of the port has room,
      and what a rule that is not the panel's does. */
  datatype Gauge = Gauge(frequent: (int, int) -> bool, room: (int, int, int) -> bool, foreign: int -> Verdict)

  datatype Verdict = Accept | Drop | Through

  /** The first verdict a packet meets, and whether its source was recorded on the way. */
  datatype Outcome = Outcome(verdict: Verdict, recorded: bool)

  function Block(length: nat): nat
  {
    if length == 32 then 1 else if length == 16 then 0x1_0000 else if length == 12 then 0x10_0000 else 0x100_0000
  }

  predicate Within(source: nat, net: Net) {
    source / Block(net.length) == net.address / Block(net.length)
  }

  function Hit(rule: Rule, p: Packet, g: Gauge): Verdict {
    match rule
    case Foreign(id) => g.foreign(id)
    case DropFrequent(port, burst) =>
      if p.port == port && p.opensConnection && g.frequent(port, burst) then Drop else Through
    case Record(_) => Through
    case AcceptSyn(port, rate, burst) =>
      if p.port == port && p.syn && g.room(port, rate, burst) then Accept else Through
    case DropSyn(port) => if p.port == port && p.syn then Drop else Through
    case AcceptFrom(port, net) => if p.port == port && Within(p.source, net) then Accept else Through
    case DropAll(port) => if p.port == port then Drop else Through
  }

  predicate Records(rule: Rule, p: Packet) {
    rule.Record? && rule.port == p.port && p.opensConnection
  }

  function Walk(chain: seq<Rule>, p: Packet, g: Gauge): Outcome {
    if chain == [] then Outcome(Through, false)
    else if Hit(chain[0], p, g) != Through then Outcome(Hit(chain[0], p, g), false)
    else
      var rest := Walk(chain[1..], p, g);
      Outcome(rest.verdict, rest.recorded || Records(chain[0], p))
  }

  /** Two stretches of rules in turn: the second is reached when the first let the packet through. */
  function Then(first: Outcome, second: Outcome): Outcome {
    if first.verdict != Through then first else Outcome(second.verdict, first.recorded || second.recorded)
  }

  lemma {:induction false} WalkAppend(a: seq<Rule>, b: seq<Rule>, p: Packet, g: Gauge)
    ensures Walk(a + b, p, g) == Then(Walk(a, p, g), Walk(b, p, g))
  {
    if a == [] {
      assert a + b == b;
    } else {
      assert (a + b)[1..] == a[1..] + b;
      WalkAppend(a[1..], b, p, g);
    }
  }

  // ---------------------------------------------------------------- blocks

  /** The sources an isolated port accepts: loopback and the private networks. */
  predicate PrivateSource(source: nat) {
    || source == Address(127, 0, 0, 1)
    || Address(10, 0, 0, 0) <= source <= Address(10, 255, 255, 255)
    || Address(172, 16, 0, 0) <= source <= Address(172, 31, 255, 255)
    || Address(192, 168, 0, 0) <= source <= Address(192, 168, 255, 255)
  }

  lemma NetsArePrivate(source: nat)
    ensures Within(source, LOOPBACK) <==> source == Address(127, 0, 0, 1)
    ensures Within(source, CLASS_A) <==> Address(10, 0, 0, 0) <= source <= Address(10, 255, 255, 255)
    ensures Within(source, CLASS_B) <==> Address(172, 16, 0, 0) <= source <= Address(172, 31, 255, 255)
    ensures Within(source, CLASS_C) <==> Address(192, 168, 0, 0) <= source <= Address(192, 168, 255, 255)
  {
  }

  /** A packet walks past the rules of other ports. */
  lemma {:induction false} WalksPast(chain: seq<Rule>, p: Packet, g: Gauge)
    requires forall r :: r in chain ==> !r.Foreign? && r.port != p.port
    ensures Walk(chain, p, g) == Outcome(Through, false)
  {
    if chain != [] {
      assert chain[0] in chain;
      WalksPast(chain[1..], p, g);
    }
  }

  /** The isolation block decides every packet to its port. */
  lemma IsolationDecides(p: Packet, g: Gauge)
    ensures Walk(BuildIsolationRules(p.port), p, g) == Outcome(if PrivateSource(p.source) then Accept else Drop, false)
    ensures Walk(BuildIsolationRules(p.port), p, g).verdict == Accept <==>
      || p.source == 0x7F00_0001 || 0x0A00_0000 <= p.source < 0x0B00_0000
      || 0xAC10_0000 <= p.source < 0xAC20_0000 || 0xC0A8_0000 <= p.source < 0xC0A9_0000
  {
    var b := BuildIsolationRules(p.port);
    NetsArePrivate(p.source);
    assert b[1..][1..] == b[2..] && b[2..][1..] == b[3..] && b[3..][1..] == b[4..] && b[4..][1..] == [];
    WalkStep(b, 0, p, g);
    WalkStep(b, 1, p, g);
    WalkStep(b, 2, p, g);
    WalkStep(b, 3, p, g);
    WalkStep(b, 4, p, g);
  }

  lemma WalkStep(chain: seq<Rule>, i: nat, p: Packet, g: Gauge)
    requires i < |chain|
    ensures Walk(chain[i..], p, g) ==
      if Hit(chain[i], p, g) != Through then Outcome(Hit(chain[i], p, g), false)
      else Outcome(Walk(chain[i + 1..], p, g).verdict, Walk(chain[i + 1..], p, g).recorded || Records(chain[i], p))
  {
    assert chain[i..][1..] == chain[i + 1..];
  }

  /** What the rate-limiting block does to a packet to its port: sources over their own limit are cut
      off first; every other opening packet is recorded for its source, and SYNs then share the port's
      budget. */
  function Limited(p: Packet, rate: int, burst: int, g: Gauge): Outcome {
    if p.opensConnection && g.frequent(p.port, burst) then Outcome(Drop, false)
    else if !p.syn then Outcome(Through, p.opensConnection)
    else Outcome(if g.room(p.port, rate, burst) then Accept else Drop, p.opensConnection)
  }

  lemma LimitingDecides(p: Packet, rate: int, burst: int, g: Gauge)
    ensures Walk(BuildPortRules(p.port, rate, burst), p, g) == Limited(p, rate, burst, g)
    ensures var out, cutOff := Walk(BuildPortRules(p.port, rate, burst), p, g),
          p.opensConnection && g.frequent(p.port, burst);
      && (out.verdict == Drop <==> cutOff || (p.syn && !g.room(p.port, rate, burst)))
      && (out.verdict == Accept <==> !cutOff && p.syn && g.room(p.port, rate, burst))
      && (out.recorded <==> p.opensConnection && !cutOff)
  {
    var b := BuildPortRules(p.port, rate, burst);
    WalkStep(b, 0, p, g);
    WalkStep(b, 1, p, g);
    WalkStep(b, 2, p, g);
    WalkStep(b, 3, p, g);
    assert b[4..] == [];
  }
}
