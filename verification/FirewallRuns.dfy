/** Every run of port set-ups keeps each port's rules one block in build order, so the verdict for a
    port is decided by its last set-up alone (internal/docker/firewall.go, internal/docker/client.go:860-886). */
module FirewallRuns {
  import opened FirewallRules
  import opened Firewall

  // ---------------------------------------------------------------- inserting and removing

  /** Rules that are at the top as far as they are there at all end up all there, in order. This
      covers a first application and a retry right after an insert failed. */
  lemma InsertBelow(above: Chain, rule: Rule, chain: Chain)
    ensures At(above + chain, |above|, rule) == above + [rule] + chain
  {
    assert (above + chain)[..|above|] == above && (above + chain)[|above|..] == chain;
  }

  lemma MissingRuleIsNew(top: seq<Rule>, missing: seq<Rule>, chain: Chain, n: nat)
    requires Distinct(top + missing) && Disjoint(missing, chain) && |top| < n <= |top + missing|
    ensures (top + missing)[n - 1] !in (top + missing)[..n - 1] + chain
  {
    assert (top + missing)[n - 1] == missing[n - 1 - |top|];
  }

  lemma RuleIsThere(top: seq<Rule>, missing: seq<Rule>, chain: Chain, n: nat)
    requires 0 < n <= |top| && Inserted(top + chain, top + missing, n - 1) == top + chain
    ensures Inserted(top + chain, top + missing, n) == top + chain
  {
    assert (top + chain)[n - 1] == (top + missing)[n - 1];
  }

  lemma InsertOneMore(top: seq<Rule>, missing: seq<Rule>, chain: Chain, n: nat)
    requires Distinct(top + missing) && Disjoint(missing, chain) && |top| < n <= |top + missing|
    requires Inserted(top + chain, top + missing, n - 1) == (top + missing)[..n - 1] + chain
    ensures Inserted(top + chain, top + missing, n) == (top + missing)[..n] + chain
  {
    var rules := top + missing;
    MissingRuleIsNew(top, missing, chain, n);
    InsertBelow(rules[..n - 1], rules[n - 1], chain);
    assert rules[..n] == rules[..n - 1] + [rules[n - 1]];
  }

  lemma {:induction false} InsertCompletes(top: seq<Rule>, missing: seq<Rule>, chain: Chain, n: nat)
    requires Distinct(top + missing) && Disjoint(missing, chain) && n <= |top + missing|
    ensures Inserted(top + chain, top + missing, n) == if n <= |top| then top + chain else (top + missing)[..n] + chain
  {
    var rules := top + missing;
    if n > 0 {
      InsertCompletes(top, missing, chain, n - 1);
      if n <= |top| {
        RuleIsThere(top, missing, chain, n);
      } else {
        assert rules[..|top|] == top;
        InsertOneMore(top, missing, chain, n);
      }
    }
  }

  lemma InsertAllNew(rules: seq<Rule>, chain: Chain)
    requires Distinct(rules) && Disjoint(rules, chain)
    ensures Inserted(chain, rules, |rules|) == rules + chain
  {
    InsertCompletes([], rules, chain, |rules|);
    assert [] + chain == chain && [] + rules == rules && rules[..|rules|] == rules;
  }

  lemma {:induction false} InsertAllThere(rules: seq<Rule>, chain: Chain, n: nat)
    requires n <= |rules| && forall r :: r in rules ==> r in chain
    ensures Inserted(chain, rules, n) == chain
  {
    if n > 0 { InsertAllThere(rules, chain, n - 1); }
  }

  lemma {:induction false} GoneFrom(above: Chain, rule: Rule, below: Chain)
    requires rule !in above
    ensures Gone(above + [rule] + below, rule) == above + below
  {
    var chain := above + [rule] + below;
    if above == [] {
      assert chain[1..] == below;
    } else {
      assert chain[0] == above[0] && chain[1..] == above[1..] + [rule] + below;
      GoneFrom(above[1..], rule, below);
    }
  }

  lemma {:induction false} GoneAbsent(chain: Chain, rule: Rule)
    requires rule !in chain
    ensures Gone(chain, rule) == chain
  {
    if chain != [] { GoneAbsent(chain[1..], rule); }
  }

  lemma {:induction false} RemovedBlock(above: Chain, rules: seq<Rule>, below: Chain)
    requires Disjoint(rules, above)
    ensures Removed(above + (rules + below), rules) == above + below
    decreases |rules|
  {
    if rules == [] {
      assert rules + below == below;
    } else {
      assert rules[0] in rules && above + (rules + below) == above + [rules[0]] + (rules[1..] + below);
      GoneFrom(above, rules[0], rules[1..] + below);
      RemovedBlock(above, rules[1..], below);
    }
  }

  lemma {:induction false} RemovedAbsent(chain: Chain, rules: seq<Rule>)
    requires Disjoint(rules, chain)
    ensures Removed(chain, rules) == chain
    decreases |rules|
  {
    if rules != [] {
      assert rules[0] in rules;
      GoneAbsent(chain, rules[0]);
      RemovedAbsent(chain, rules[1..]);
    }
  }

  // ---------------------------------------------------------------- blocks

  predicate OfPort(chain: Chain, port: int) {
    forall r :: r in chain ==> !r.Foreign? && r.port == port
  }

  predicate NotOfPort(chain: Chain, port: int) {
    forall r :: r in chain ==> r.Foreign? || r.port != port
  }

  predicate ForeignOnly(chain: Chain) {
    forall r :: r in chain ==> r.Foreign?
  }

  lemma BlocksAreOfTheirPort(a: Action, rate: int, burst: int)
    ensures OfPort(BlockOf(a, rate, burst), a.port) && Distinct(BlockOf(a, rate, burst))
    ensures |BlockOf(a, rate, burst)| == if a.Publish? then 4 else 5
  {
  }

  lemma KindsDiffer(port: int, rate: int, burst: int)
    ensures Disjoint(BuildPortRules(port, rate, burst), BuildIsolationRules(port))
    ensures Disjoint(BuildIsolationRules(port), BuildPortRules(port, rate, burst))
  {
  }

  /** Each port at most once. */
  predicate OncePerPort(blocks: seq<Action>) {
    forall i, j :: 0 <= i < j < |blocks| ==> blocks[i].port != blocks[j].port
  }

  predicate NoPort(blocks: seq<Action>, port: int) {
    forall i :: 0 <= i < |blocks| ==> blocks[i].port != port
  }

  lemma {:induction false} FlatAppend(a: seq<Action>, b: seq<Action>, rate: int, burst: int)
    ensures Flat(a + b, rate, burst) == Flat(a, rate, burst) + Flat(b, rate, burst)
  {
    if a == [] {
      assert a + b == b;
    } else {
      assert (a + b)[1..] == a[1..] + b;
      FlatAppend(a[1..], b, rate, burst);
    }
  }

  lemma {:induction false} FlatAvoids(blocks: seq<Action>, port: int, rate: int, burst: int)
    requires NoPort(blocks, port)
    ensures NotOfPort(Flat(blocks, rate, burst), port)
    ensures forall r :: r in Flat(blocks, rate, burst) ==> !r.Foreign?
  {
    if blocks != [] {
      BlocksAreOfTheirPort(blocks[0], rate, burst);
      FlatAvoids(blocks[1..], port, rate, burst);
    }
  }

  /** The set-up of a port moves its block to the top unless it already is of that kind. */
  function SetUp(blocks: seq<Action>, action: Action): seq<Action> {
    if action in blocks then blocks else [action] + Others(blocks, action.port)
  }

  function Others(blocks: seq<Action>, port: int): seq<Action> {
    if blocks == [] then []
    else if blocks[0].port == port then Others(blocks[1..], port)
    else [blocks[0]] + Others(blocks[1..], port)
  }

  lemma {:induction false} OthersKeepsOrder(blocks: seq<Action>, port: int)
    requires OncePerPort(blocks)
    ensures OncePerPort(Others(blocks, port)) && NoPort(Others(blocks, port), port)
    ensures forall a :: a in Others(blocks, port) <==> a in blocks && a.port != port
  {
    if blocks != [] {
      OthersKeepsOrder(blocks[1..], port);
      assert forall a :: a in blocks[1..] ==> a.port != blocks[0].port;
    }
  }

  lemma {:induction false} OthersOfNone(blocks: seq<Action>, port: int)
    requires NoPort(blocks, port)
    ensures Others(blocks, port) == blocks
  {
    if blocks != [] {
      assert blocks[0].port != port;
      OthersOfNone(blocks[1..], port);
    }
  }

  lemma {:induction false} OthersOfOne(blocks: seq<Action>, i: nat)
    requires OncePerPort(blocks) && i < |blocks|
    ensures Others(blocks, blocks[i].port) == blocks[..i] + blocks[i + 1..]
  {
    var port := blocks[i].port;
    if i == 0 {
      OthersOfNone(blocks[1..], port);
    } else {
      OthersOfOne(blocks[1..], i - 1);
      assert blocks[1..][..i - 1] == blocks[1..i] && blocks[1..][i..] == blocks[i + 1..];
      assert blocks[..i] == [blocks[0]] + blocks[1..i];
    }
  }

  /** The other kind of block for the same port. */
  function Opposite(action: Action): Action {
    match action
    case Publish(port) => Proxy(port)
    case Proxy(port) => Publish(port)
  }

  lemma StepIsRemoveThenInsert(chain: Chain, a: Action, rate: int, burst: int)
    ensures Step(chain, a, rate, burst) ==
      Inserted(Removed(chain, BlockOf(Opposite(a), rate, burst)), BlockOf(a, rate, burst), |BlockOf(a, rate, burst)|)
  {
  }

  lemma AbsentFromOthers(blocks: seq<Action>, tail: Chain, a: Action, rate: int, burst: int)
    requires NoPort(blocks, a.port) && ForeignOnly(tail)
    ensures Disjoint(BlockOf(a, rate, burst), Flat(blocks, rate, burst) + tail)
  {
    BlocksAreOfTheirPort(a, rate, burst);
    FlatAvoids(blocks, a.port, rate, burst);
  }

  lemma Regroup(x: Chain, b: Chain, y: Chain, tail: Chain)
    ensures (x + (b + y)) + tail == x + (b + (y + tail))
    ensures (x + y) + tail == x + (y + tail)
  {
  }

  /** The chain around one block. */
  lemma FlatAround(blocks: seq<Action>, tail: Chain, i: nat, rate: int, burst: int)
    requires i < |blocks|
    ensures Flat(blocks, rate, burst) + tail
         == Flat(blocks[..i], rate, burst) + (BlockOf(blocks[i], rate, burst) +
              (Flat(blocks[i + 1..], rate, burst) + tail))
    ensures Flat(blocks[..i] + blocks[i + 1..], rate, burst) + tail
         == Flat(blocks[..i], rate, burst) + (Flat(blocks[i + 1..], rate, burst) + tail)
  {
    var a, above, below := blocks[i], blocks[..i], blocks[i + 1..];
    assert blocks == above + ([a] + below) && ([a] + below)[1..] == below;
    FlatAppend(above, [a] + below, rate, burst);
    FlatAppend(above, below, rate, burst);
    Regroup(Flat(above, rate, burst), BlockOf(a, rate, burst), Flat(below, rate, burst), tail);
  }

  lemma PortsAway(blocks: seq<Action>, i: nat)
    requires OncePerPort(blocks) && i < |blocks|
    ensures NoPort(blocks[..i], blocks[i].port) && NoPort(blocks[i + 1..], blocks[i].port)
  {
  }

  lemma PortsKeepApart(block: Chain, chain: Chain, port: int)
    requires OfPort(block, port) && NotOfPort(chain, port)
    ensures Disjoint(block, chain)
  {
  }

  /** A block taken out of the chain leaves the others as they are. */
  lemma RemoveOpposite(blocks: seq<Action>, tail: Chain, i: nat, rate: int, burst: int)
    requires OncePerPort(blocks) && ForeignOnly(tail) && i < |blocks|
    ensures Removed(Flat(blocks, rate, burst) + tail, BlockOf(blocks[i], rate, burst))
         == Flat(Others(blocks, blocks[i].port), rate, burst) + tail
  {
    var above, b := Flat(blocks[..i], rate, burst), BlockOf(blocks[i], rate, burst);
    FlatAround(blocks, tail, i, rate, burst);
    OthersOfOne(blocks, i);
    PortsAway(blocks, i);
    FlatAvoids(blocks[..i], blocks[i].port, rate, burst);
    BlocksAreOfTheirPort(blocks[i], rate, burst);
    PortsKeepApart(b, above, blocks[i].port);
    RemovedBlock(above, b, Flat(blocks[i + 1..], rate, burst) + tail);
  }

  /** The opposite block, if there, is gone after the first half of a set-up. */
  lemma FirstHalf(blocks: seq<Action>, tail: Chain, a: Action, rate: int, burst: int)
    requires OncePerPort(blocks) && ForeignOnly(tail) && a !in blocks
    ensures Removed(Flat(blocks, rate, burst) + tail, BlockOf(Opposite(a), rate, burst))
         == Flat(Others(blocks, a.port), rate, burst) + tail
  {
    var o := Opposite(a);
    if o in blocks {
      var i :| 0 <= i < |blocks| && blocks[i] == o;
      RemoveOpposite(blocks, tail, i, rate, burst);
    } else {
      assert forall b: Action :: b.port == a.port ==> b == a || b == o;
      OthersOfNone(blocks, a.port);
      AbsentFromOthers(blocks, tail, o, rate, burst);
      RemovedAbsent(Flat(blocks, rate, burst) + tail, BlockOf(o, rate, burst));
    }
  }

  /** One set-up on a chain of blocks over foreign rules. */
  lemma StepOnBlocks(blocks: seq<Action>, tail: Chain, a: Action, rate: int, burst: int)
    requires OncePerPort(blocks) && ForeignOnly(tail)
    ensures Step(Flat(blocks, rate, burst) + tail, a, rate, burst) == Flat(SetUp(blocks, a), rate, burst) + tail
    ensures OncePerPort(SetUp(blocks, a))
  {
    OthersKeepsOrder(blocks, a.port);
    if a in blocks {
      StayingPut(blocks, tail, a, rate, burst);
    } else {
      var others, b := Others(blocks, a.port), BlockOf(a, rate, burst);
      StepIsRemoveThenInsert(Flat(blocks, rate, burst) + tail, a, rate, burst);
      FirstHalf(blocks, tail, a, rate, burst);
      AbsentFromOthers(others, tail, a, rate, burst);
      BlocksAreOfTheirPort(a, rate, burst);
      InsertAllNew(b, Flat(others, rate, burst) + tail);
      assert SetUp(blocks, a)[1..] == others;
      Regroup([], b, Flat(others, rate, burst), tail);
      assert [] + (b + Flat(others, rate, burst)) == b + Flat(others, rate, burst);
      assert [] + (b + (Flat(others, rate, burst) + tail)) == b + (Flat(others, rate, burst) + tail);
    }
  }

  lemma DisjointFromParts(rules: seq<Rule>, x: Chain, b: Chain, y: Chain)
    requires Disjoint(rules, x) && Disjoint(rules, b) && Disjoint(rules, y)
    ensures Disjoint(rules, x + (b + y))
  {
  }

  /** Setting a port up as it already is changes nothing. */
  lemma StayingPut(blocks: seq<Action>, tail: Chain, a: Action, rate: int, burst: int)
    requires OncePerPort(blocks) && ForeignOnly(tail) && a in blocks
    ensures Step(Flat(blocks, rate, burst) + tail, a, rate, burst) == Flat(blocks, rate, burst) + tail
  {
    var i :| 0 <= i < |blocks| && blocks[i] == a;
    var chain, b, o := Flat(blocks, rate, burst) + tail, BlockOf(a, rate, burst), BlockOf(Opposite(a), rate, burst);
    var above, below := Flat(blocks[..i], rate, burst), Flat(blocks[i + 1..], rate, burst) + tail;
    StepIsRemoveThenInsert(chain, a, rate, burst);
    FlatAround(blocks, tail, i, rate, burst);
    PortsAway(blocks, i);
    AbsentFromOthers(blocks[i + 1..], tail, Opposite(a), rate, burst);
    FlatAvoids(blocks[..i], a.port, rate, burst);
    BlocksAreOfTheirPort(Opposite(a), rate, burst);
    PortsKeepApart(o, above, a.port);
    KindsDiffer(a.port, rate, burst);
    DisjointFromParts(o, above, b, below);
    RemovedAbsent(chain, o);
    assert forall r :: r in b ==> r in above + (b + below);
    InsertAllThere(b, chain, |b|);
  }

  // ---------------------------------------------------------------- runs

  function Blocks(actions: seq<Action>): seq<Action> {
    if actions == [] then [] else SetUp(Blocks(actions[..|actions| - 1]), actions[|actions| - 1])
  }

  /** In every run the chain is one block per port, in build order, above the foreign rules. */
  lemma {:induction false} RunIsBlocks(tail: Chain, actions: seq<Action>, rate: int, burst: int)
    requires ForeignOnly(tail)
    ensures Run(tail, actions, rate, burst) == Flat(Blocks(actions), rate, burst) + tail && OncePerPort(Blocks(actions))
    decreases |actions|
  {
    if actions == [] {
      assert [] + tail == tail;
    } else {
      RunIsBlocks(tail, actions[..|actions| - 1], rate, burst);
      StepOnBlocks(Blocks(actions[..|actions| - 1]), tail, actions[|actions| - 1], rate, burst);
    }
  }

  datatype Last = Never | Setting(action: Action)

  /** The last set-up of a port in a run. */
  function LastOf(actions: seq<Action>, port: int): Last {
    if actions == [] then Never
    else if actions[|actions| - 1].port == port then Setting(actions[|actions| - 1])
    else LastOf(actions[..|actions| - 1], port)
  }

  /** A port's block is that of its last set-up. */
  lemma {:induction false} LastSetUpStands(actions: seq<Action>, port: int)
    ensures OncePerPort(Blocks(actions))
    ensures match LastOf(actions, port)
      case Never => NoPort(Blocks(actions), port)
      case Setting(a) => a in Blocks(actions) && a.port == port
    decreases |actions|
  {
    if actions != [] {
      var front, last := actions[..|actions| - 1], actions[|actions| - 1];
      LastSetUpStands(front, port);
      OthersKeepsOrder(Blocks(front), last.port);
    }
  }

  /** The verdict for a packet after any run of set-ups, by the last set-up of its port: a proxied port
      accepts exactly loopback and private sources and drops everything else; a published one is cut
      per source, then shares its SYN budget; a port never set up only meets the foreign rules. What
      was set up for other ports never matters. */
  lemma LastSetUpDecides(tail: Chain, actions: seq<Action>, rate: int, burst: int, p: Packet, g: Gauge)
    requires ForeignOnly(tail)
    ensures Walk(Run(tail, actions, rate, burst), p, g) ==
      match LastOf(actions, p.port)
      case Never => Walk(tail, p, g)
      case Setting(Proxy(_)) => Outcome(if PrivateSource(p.source) then Accept else Drop, false)
      case Setting(Publish(_)) => Then(Limited(p, rate, burst, g), Walk(tail, p, g))
  {
    var blocks := Blocks(actions);
    RunIsBlocks(tail, actions, rate, burst);
    LastSetUpStands(actions, p.port);
    match LastOf(actions, p.port)
    case Never =>
      FlatAvoids(blocks, p.port, rate, burst);
      WalksPast(Flat(blocks, rate, burst), p, g);
      WalkAppend(Flat(blocks, rate, burst), tail, p, g);
    case Setting(a) =>
      var i :| 0 <= i < |blocks| && blocks[i] == a;
      WalkReachesTheBlock(blocks, tail, i, rate, burst, p, g);
      if a.Proxy? { IsolationDecides(p, g); } else { LimitingDecides(p, rate, burst, g); }
  }

  /** A packet walks past the blocks of other ports to its own block and then to the foreign rules. */
  lemma WalkReachesTheBlock(blocks: seq<Action>, tail: Chain, i: nat, rate: int, burst: int, p: Packet, g: Gauge)
    requires OncePerPort(blocks) && i < |blocks| && blocks[i].port == p.port
    ensures Walk(Flat(blocks, rate, burst) + tail, p, g)
      == Then(Walk(BlockOf(blocks[i], rate, burst), p, g), Walk(tail, p, g))
  {
    var x, b, y := Flat(blocks[..i], rate, burst), BlockOf(blocks[i], rate, burst), Flat(blocks[i + 1..], rate, burst);
    FlatAround(blocks, tail, i, rate, burst);
    PortsAway(blocks, i);
    FlatAvoids(blocks[..i], p.port, rate, burst);
    FlatAvoids(blocks[i + 1..], p.port, rate, burst);
    WalkBetween(x, b, y, tail, p, g);
  }

  lemma WalkBetween(x: Chain, b: Chain, y: Chain, tail: Chain, p: Packet, g: Gauge)
    requires forall r :: r in x ==> !r.Foreign? && r.port != p.port
    requires forall r :: r in y ==> !r.Foreign? && r.port != p.port
    ensures Walk(x + (b + (y + tail)), p, g) == Then(Walk(b, p, g), Walk(tail, p, g))
  {
    WalksPast(x, p, g);
    WalksPast(y, p, g);
    WalkAppend(x, b + (y + tail), p, g);
    WalkAppend(b, y + tail, p, g);
    WalkAppend(y, tail, p, g);
  }

  // ---------------------------------------------------------------- failed inserts

  /** Retrying right after an insert failed completes the block. */
  lemma RetryAtTheTopCompletes(rules: seq<Rule>, chain: Chain, done: nat)
    requires Distinct(rules) && Disjoint(rules, chain) && done <= |rules|
    ensures Inserted(Inserted(chain, rules, done), rules, |rules|) == rules + chain
  {
    InsertCompletes([], rules, chain, done);
    assert [] + rules == rules && [] + chain == chain;
    var top, missing := rules[..done], rules[done..];
    assert rules == top + missing;
    assert Inserted(chain, rules, done) == top + chain;
    InsertCompletes(top, missing, chain, |rules|);
    assert rules[..|rules|] == rules;
  }

  lemma RulesThereStay(above: Chain, rules: seq<Rule>, chain: Chain, done: nat)
    requires done <= |rules| && done <= |above|
    ensures Inserted(above + (rules[..done] + chain), rules, done)
         == above[..done] + (rules[done..done] + (above[done..] + (rules[..done] + chain)))
  {
    var there := rules[..done];
    var block := there + chain;
    var low := above + block;
    forall r | r in there ensures r in low {
      assert r in block;
    }
    InsertAllThere(there, low, done);
    SameStart(low, rules, done);
    CutAt(above, done, block);
    assert rules[done..done] + (above[done..] + block) == above[done..] + block;
  }

  lemma CutAt(above: Chain, n: nat, rest: Chain)
    requires n <= |above|
    ensures above + rest == above[..n] + (above[n..] + rest)
  {
    var top, low := above[..n], above[n..];
    assert above == top + low;
    assert (top + low) + rest == top + (low + rest);
  }

  lemma MissingRuleGoesIn(top: Chain, mid: Chain, rest: Chain, rule: Rule, n: nat)
    requires |top| + |mid| == n
    ensures At(top + (mid + rest), n, rule) == top + ((mid + [rule]) + rest)
  {
    var before := top + mid;
    assert top + (mid + rest) == before + rest;
    assert (before + rest)[..n] == before && (before + rest)[n..] == rest;
    assert before + [rule] + rest == top + ((mid + [rule]) + rest);
  }

  lemma RuleIsNew(above: Chain, rules: seq<Rule>, chain: Chain, done: nat, n: nat)
    requires Distinct(rules) && Disjoint(rules, above) && Disjoint(rules, chain)
    requires done < n <= |rules| && done <= |above|
    ensures rules[n - 1] !in above[..done] + (rules[done..n - 1] + (above[done..] + (rules[..done] + chain)))
  {
    assert rules[n - 1] in rules && rules[n - 1] !in above && rules[n - 1] !in chain;
    assert rules[n - 1] !in rules[done..n - 1] && rules[n - 1] !in rules[..done];
  }

  /** A retry below other rules does not: the missing rules go in near the top of the chain, above the
      ones that were already there. */
  lemma {:induction false} MissingRulesGoHigh(above: Chain, rules: seq<Rule>, chain: Chain, done: nat, n: nat)
    requires Distinct(rules) && Disjoint(rules, above) && Disjoint(rules, chain)
    requires done <= n <= |rules| && done <= |above|
    ensures Inserted(above + (rules[..done] + chain), rules, n)
         == above[..done] + (rules[done..n] + (above[done..] + (rules[..done] + chain)))
  {
    if n == done {
      RulesThereStay(above, rules, chain, done);
    } else {
      MissingRulesGoHigh(above, rules, chain, done, n - 1);
      var top, mid, rest := above[..done], rules[done..n - 1], above[done..] + (rules[..done] + chain);
      MissingRuleGoesIn(top, mid, rest, rules[n - 1], n - 1);
      RuleIsNew(above, rules, chain, done, n);
      assert rules[done..n] == mid + [rules[n - 1]];
    }
  }

  lemma FirstRulesOnTop(rules: seq<Rule>, chain: Chain, done: nat)
    requires Distinct(rules) && Disjoint(rules, chain) && done <= |rules|
    ensures Inserted(chain, rules, done) == rules[..done] + chain
  {
    assert [] + rules == rules && [] + chain == chain;
    InsertCompletes([], rules, chain, done);
  }

  /** So a packet to the port meets the rules that were missing first. */
  lemma LateRetryRotates(above: Chain, rules: seq<Rule>, chain: Chain, done: nat, p: Packet, g: Gauge)
    requires Distinct(rules) && OfPort(rules, p.port) && NotOfPort(chain, p.port) && done <= |rules| && done <= |above|
    requires forall r :: r in above ==> !r.Foreign? && r.port != p.port
    ensures Walk(Inserted(above + Inserted(chain, rules, done), rules, |rules|), p, g)
         == Then(Walk(rules[done..], p, g), Then(Walk(rules[..done], p, g), Walk(chain, p, g)))
  {
    PortsKeepApart(rules, chain, p.port);
    PortsKeepApart(rules, above, p.port);
    FirstRulesOnTop(rules, chain, done);
    MissingRulesGoHigh(above, rules, chain, done, |rules|);
    assert rules[done..|rules|] == rules[done..];
    var top, low := above[..done], above[done..];
    forall r | r in top ensures !r.Foreign? && r.port != p.port { assert r in above; }
    forall r | r in low ensures !r.Foreign? && r.port != p.port { assert r in above; }
    WalkBetween(top, rules[done..], low, rules[..done] + chain, p, g);
    WalkAppend(rules[..done], chain, p, g);
  }

  /** The verdict a set-up is meant to give: its own rules, then whatever the chain says without them. */
  function Intended(a: Action, chain: Chain, rate: int, burst: int, p: Packet, g: Gauge): Outcome {
    Then(Walk(BlockOf(a, rate, burst), p, g), Walk(chain, p, g))
  }

  ghost predicate AsIntended(result: Chain, a: Action, chain: Chain, rate: int, burst: int) {
    forall p: Packet, g: Gauge :: p.port == a.port ==> Walk(result, p, g) == Intended(a, chain, rate, burst, p, g)
  }

  /** When an isolation block broke off after some inserts and other rules came on top, the retry puts
      the final drop above the accepts that were there: the port refuses loopback. */
  lemma LateRetryShutsThePort(above: Chain, chain: Chain, done: nat, p: Packet, g: Gauge)
    requires 1 <= done <= 4 && done <= |above| && (forall r :: r in above ==> !r.Foreign? && r.port != p.port)
    requires NotOfPort(chain, p.port) && p.source == Address(127, 0, 0, 1)
    ensures var rules := BuildIsolationRules(p.port);
      Walk(Inserted(above + Inserted(chain, rules, done), rules, 5), p, g) == Outcome(Drop, false)
  {
    var rules := BuildIsolationRules(p.port);
    BlocksAreOfTheirPort(Proxy(p.port), 0, 0);
    LateRetryRotates(above, rules, chain, done, p, g);
    NetsArePrivate(p.source);
    WalkStep(rules, 1, p, g);
    WalkStep(rules, 2, p, g);
    WalkStep(rules, 3, p, g);
    WalkStep(rules, 4, p, g);
  }

  /** One input: the first accept was inserted, then a published port came on top. */
  lemma LateRetryAtOneInput(g: Gauge)
    ensures var rules, above := BuildIsolationRules(25566), BuildPortRules(25565, 10, 20);
      var p := Packet(25566, Address(127, 0, 0, 1), true, true);
      && Walk(Inserted(above + Inserted([], rules, 1), rules, 5), p, g).verdict == Drop
      && Walk(Inserted(above, rules, 5), p, g).verdict == Accept
  {
    var above, p := BuildPortRules(25565, 10, 20), Packet(25566, Address(127, 0, 0, 1), true, true);
    LateRetryShutsThePort(above, [], 1, p, g);
    BlocksAreOfTheirPort(Proxy(25566), 0, 0);
    BlocksAreOfTheirPort(Publish(25565), 10, 20);
    InsertAllNew(BuildIsolationRules(25566), above);
    IsolationDecides(p, g);
    WalkAppend(BuildIsolationRules(25566), above, p, g);
  }

  /** A packet and a state of the limiters for which a broken-off rate-limiting block goes wrong. */
  function Telltale(done: nat): Gauge {
    Gauge((port, burst) => done != 3, (port, rate, burst) => true, id => Through)
  }

  /** The same for the rate-limiting rules: after one or two inserts the retry lets through sources that
      are over their own limit, after three it drops what has room. */
  lemma LateRetryMisleadsTheLimit(above: Chain, chain: Chain, done: nat, rate: int, burst: int, p: Packet)
    requires 1 <= done <= 3 && done <= |above| && (forall r :: r in above ==> !r.Foreign? && r.port != p.port)
    requires NotOfPort(chain, p.port) && p.opensConnection && p.syn
    ensures var rules, g := BuildPortRules(p.port, rate, burst), Telltale(done);
      Walk(Inserted(above + Inserted(chain, rules, done), rules, 4), p, g).verdict
        == (if done == 3 then Drop else Accept)
      && Limited(p, rate, burst, g).verdict == if done == 3 then Accept else Drop
  {
    var rules, g := BuildPortRules(p.port, rate, burst), Telltale(done);
    BlocksAreOfTheirPort(Publish(p.port), rate, burst);
    LateRetryRotates(above, rules, chain, done, p, g);
    WalkStep(rules, 1, p, g);
    WalkStep(rules, 2, p, g);
    WalkStep(rules, 3, p, g);
  }

  /** A whole block is longer than any broken-off part it could be of use to. */
  lemma {:induction false} BlocksAreLong(blocks: seq<Action>, rate: int, burst: int)
    ensures |Flat(blocks, rate, burst)| >= 4 * |blocks|
  {
    if blocks != [] {
      BlocksAreOfTheirPort(blocks[0], rate, burst);
      BlocksAreLong(blocks[1..], rate, burst);
    }
  }

  /** A whole block above the chain, with rules of other ports around it, gives the port its verdicts. */
  lemma BlockAmongOthers(x: Chain, y: Chain, chain: Chain, a: Action, rate: int, burst: int)
    requires forall r :: r in x ==> !r.Foreign? && r.port != a.port
    requires forall r :: r in y ==> !r.Foreign? && r.port != a.port
    ensures AsIntended(x + (BlockOf(a, rate, burst) + (y + chain)), a, chain, rate, burst)
  {
    forall p: Packet, g: Gauge | p.port == a.port
      ensures Walk(x + (BlockOf(a, rate, burst) + (y + chain)), p, g) == Intended(a, chain, rate, burst, p, g)
    {
      WalkBetween(x, BlockOf(a, rate, burst), y, chain, p, g);
    }
  }

  lemma RetryWorks(blocks: seq<Action>, chain: Chain, a: Action, done: nat, rate: int, burst: int)
    requires NoPort(blocks, a.port) && NotOfPort(chain, a.port) && done <= |BlockOf(a, rate, burst)|
    requires blocks == [] || done == 0 || done == |BlockOf(a, rate, burst)|
    ensures var rules := BlockOf(a, rate, burst);
      AsIntended(Inserted(Flat(blocks, rate, burst) + Inserted(chain, rules, done), rules, |rules|),
                 a, chain, rate, burst)
  {
    var rules, above := BlockOf(a, rate, burst), Flat(blocks, rate, burst);
    BlocksAreOfTheirPort(a, rate, burst);
    FlatAvoids(blocks, a.port, rate, burst);
    PortsKeepApart(rules, chain, a.port);
    PortsKeepApart(rules, above, a.port);
    if blocks == [] {
      assert above + Inserted(chain, rules, done) == Inserted(chain, rules, done);
      RetryAtTheTopCompletes(rules, chain, done);
      BlockAmongOthers([], [], chain, a, rate, burst);
      assert [] + (rules + ([] + chain)) == rules + chain;
    } else if done == 0 {
      DisjointFromParts(rules, above, chain, []);
      assert above + (chain + []) == above + chain;
      InsertAllNew(rules, above + chain);
      BlockAmongOthers([], above, chain, a, rate, burst);
      assert [] + (rules + (above + chain)) == rules + (above + chain);
    } else {
      InsertAllNew(rules, chain);
      InsertAllThere(rules, above + (rules + chain), |rules|);
      BlockAmongOthers(above, [], chain, a, rate, burst);
      assert [] + chain == chain;
    }
  }

  /** After a failed insert and whatever was set up for other ports since, applying again gives the port
      its intended verdicts exactly when nothing was set up in between, or nothing or everything had
      been inserted. */
  lemma RetryWorksExactlyWhen(blocks: seq<Action>, chain: Chain, a: Action, done: nat, rate: int, burst: int)
    requires NoPort(blocks, a.port) && NotOfPort(chain, a.port) && done <= |BlockOf(a, rate, burst)|
    ensures var rules := BlockOf(a, rate, burst);
      AsIntended(Inserted(Flat(blocks, rate, burst) + Inserted(chain, rules, done), rules, |rules|),
                 a, chain, rate, burst)
      <==> blocks == [] || done == 0 || done == |rules|
  {
    var rules, above := BlockOf(a, rate, burst), Flat(blocks, rate, burst);
    BlocksAreOfTheirPort(a, rate, burst);
    if blocks == [] || done == 0 || done == |rules| {
      RetryWorks(blocks, chain, a, done, rate, burst);
    } else {
      FlatAvoids(blocks, a.port, rate, burst);
      BlocksAreLong(blocks, rate, burst);
      var p, g := Packet(a.port, Address(127, 0, 0, 1), true, true), Telltale(done);
      match a
      case Proxy(port) =>
        LateRetryShutsThePort(above, chain, done, p, g);
        IsolationDecides(p, g);
      case Publish(port) =>
        LateRetryMisleadsTheLimit(above, chain, done, rate, burst, p);
        LimitingDecides(p, rate, burst, g);
    }
  }

  lemma {:induction false} SameStart(chain: Chain, rules: seq<Rule>, n: nat)
    requires n <= |rules|
    ensures Inserted(chain, rules[..n], n) == Inserted(chain, rules, n)
  {
    SameStartFrom(chain, rules, n, n);
  }

  lemma {:induction false} SameStartFrom(chain: Chain, rules: seq<Rule>, n: nat, k: nat)
    requires k <= n <= |rules|
    ensures Inserted(chain, rules[..n], k) == Inserted(chain, rules, k)
  {
    if k > 0 { SameStartFrom(chain, rules, n, k - 1); }
  }
}
