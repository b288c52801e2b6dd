/** Editing the DOCKER-USER chain, and what any run of edits makes of a packet
    (internal/docker/firewall.go:94-214, internal/docker/client.go:860-886). */
module Firewall {
  import opened FirewallRules

  type Chain = seq<Rule>

  // ---------------------------------------------------------------- iptables

  /** `iptables -I` at a position counted from zero. */
  function At(chain: Chain, i: nat, rule: Rule): Chain
    requires i <= |chain|
  {
    chain[..i] + [rule] + chain[i..]
  }

  /** `iptables -D`: the first rule that matches goes. */
  function Gone(chain: Chain, rule: Rule): Chain {
    if chain == [] then [] else if chain[0] == rule then chain[1..] else [chain[0]] + Gone(chain[1..], rule)
  }

  /** The chain after the first `n` rules were looked up and, when missing, inserted at their position. */
  function Inserted(chain: Chain, rules: seq<Rule>, n: nat): Chain
    requires n <= |rules|
  {
    if n == 0 then chain
    else
      var before := Inserted(chain, rules, n - 1);
      if rules[n - 1] in before || n - 1 > |before| then before else At(before, n - 1, rules[n - 1])
  }

  function Removed(chain: Chain, rules: seq<Rule>): Chain
    decreases |rules|
  {
    if rules == [] then chain else Removed(Gone(chain, rules[0]), rules[1..])
  }

  predicate Distinct(rules: seq<Rule>) {
    forall i, j :: 0 <= i < j < |rules| ==> rules[i] != rules[j]
  }

  predicate Disjoint(a: seq<Rule>, b: seq<Rule>) {
    forall r :: r in a ==> r !in b
  }

  lemma {:induction false} GoneIsOneLess(chain: Chain, rule: Rule)
    requires rule in chain
    ensures |Gone(chain, rule)| == |chain| - 1 && forall r :: r in chain && r != rule ==> r in Gone(chain, rule)
  {
    if chain[0] != rule { GoneIsOneLess(chain[1..], rule); }
  }

  /** Only the first match of a rule goes, and without one nothing does. */
  lemma {:induction false} GoneIsTheFirst(before: Chain, rule: Rule, after: Chain)
    requires rule !in before
    ensures Gone(before + [rule] + after, rule) == before + after && Gone(before, rule) == before
  {
    if before == [] {
      assert before + [rule] + after == [rule] + after && before + after == after;
    } else {
      assert (before + [rule] + after)[1..] == before[1..] + [rule] + after;
      GoneIsTheFirst(before[1..], rule, after);
      assert before + after == [before[0]] + (before[1..] + after);
    }
  }

  /** Rules that are all in the chain fit into it. */
  lemma {:induction false} RulesFit(rules: seq<Rule>, chain: Chain)
    requires Distinct(rules) && forall r :: r in rules ==> r in chain
    ensures |rules| <= |chain|
    decreases |rules|
  {
    if rules != [] {
      assert rules[0] in rules;
      GoneIsOneLess(chain, rules[0]);
      forall r | r in rules[1..] ensures r in Gone(chain, rules[0]) {
        var i :| 0 <= i < |rules[1..]| && rules[1..][i] == r;
        assert rules[i + 1] == r;
      }
      RulesFit(rules[1..], Gone(chain, rules[0]));
    }
  }

  class FirewallManager {
    /** With this set no insert fails that iptables can do. */
    const reliable: bool
    const enabled: bool
    const defaultRate: int
    const defaultBurst: int
    var chain: Chain

    constructor (enabled: bool, rate: int, burst: int, chain: Chain, reliable: bool)
      ensures this.enabled == enabled && this.chain == chain && this.reliable == reliable
      ensures defaultRate > 0 && defaultBurst > 0
      ensures defaultRate == (if rate > 0 then rate else 10) && defaultBurst == (if burst > 0 then burst else 20)
    {
      this.enabled, this.chain, this.reliable := enabled, chain, reliable;
      defaultRate := if rate <= 0 then 10 else rate;
      defaultBurst := if burst <= 0 then 20 else burst;
    }

    function PortRules(port: int, rate: int, burst: int): seq<Rule> {
      BuildPortRules(port, if rate <= 0 then defaultRate else rate, if burst <= 0 then defaultBurst else burst)
    }

    /** One insert command; it can fail, and then changes nothing. */
    method Insert(i: nat, rule: Rule) returns (ok: bool)
      modifies this`chain
      ensures ok ==> i <= |old(chain)| && chain == At(old(chain), i, rule)
      ensures !ok ==> chain == old(chain)
      ensures reliable && i <= |old(chain)| ==> ok
    {
      ok := *;
      ok := (ok || reliable) && i <= |chain|;
      if ok { chain := At(chain, i, rule); }
    }

    /** The loop of both Apply methods: `done` rules were dealt with when it stopped. */
    method InsertAll(rules: seq<Rule>) returns (ok: bool, ghost done: nat)
      modifies this`chain
      ensures done <= |rules| && chain == Inserted(old(chain), rules, done) && (ok <==> done == |rules|)
      ensures forall j :: 0 <= j < done ==> rules[j] in chain
      ensures reliable && Distinct(rules) ==> ok
    {
      done := 0;
      for i := 0 to |rules|
        invariant done == i && chain == Inserted(old(chain), rules, i)
        invariant forall j :: 0 <= j < i ==> rules[j] in chain
      {
        if Distinct(rules) { RulesFit(rules[..i], chain); }
        if rules[i] !in chain {
          var inserted := Insert(i, rules[i]);
          if !inserted { return false, i; }
        }
        done := i + 1;
      }
      return true, done;
    }

    method RemoveAll(rules: seq<Rule>)
      modifies this`chain
      ensures chain == Removed(old(chain), rules)
    {
      for i := 0 to |rules|
        invariant Removed(chain, rules[i..]) == Removed(old(chain), rules)
      {
        assert rules[i..][0] == rules[i] && rules[i..][1..] == rules[i + 1..];
        chain := Gone(chain, rules[i]);
      }
      assert rules[|rules|..] == [];
    }

    method ApplyPortRateLimiting(port: int, rate: int, burst: int) returns (ok: bool, ghost done: nat)
      modifies this`chain
      ensures !enabled ==> ok && chain == old(chain)
      ensures enabled ==>
        done <= 4 && chain == Inserted(old(chain), PortRules(port, rate, burst), done) && (ok <==> done == 4)
      ensures reliable ==> ok
      ensures enabled && ok ==> forall r :: r in PortRules(port, rate, burst) ==> r in chain
    {
      done := 0;
      if !enabled { return true, done; }
      ok, done := InsertAll(PortRules(port, rate, burst));
    }

    method RemovePortRateLimiting(port: int, rate: int, burst: int)
      modifies this`chain
      ensures chain == if enabled then Removed(old(chain), PortRules(port, rate, burst)) else old(chain)
    {
      if !enabled { return; }
      RemoveAll(PortRules(port, rate, burst));
    }

    method ApplyProxyPortIsolation(port: int) returns (ok: bool, ghost done: nat)
      modifies this`chain
      ensures !enabled || port <= 0 ==> ok && chain == old(chain)
      ensures enabled && port > 0 ==>
        done <= 5 && chain == Inserted(old(chain), BuildIsolationRules(port), done) && (ok <==> done == 5)
      ensures reliable ==> ok
      ensures enabled && port > 0 && ok ==> forall r :: r in BuildIsolationRules(port) ==> r in chain
    {
      done := 0;
      if !enabled || port <= 0 { return true, done; }
      ok, done := InsertAll(BuildIsolationRules(port));
    }

    method RemoveProxyPortIsolation(port: int)
      modifies this`chain
      ensures chain == if enabled && port > 0 then Removed(old(chain), BuildIsolationRules(port)) else old(chain)
    {
      if !enabled || port <= 0 { return; }
      RemoveAll(BuildIsolationRules(port));
    }

    /** What creating a container does for its game port, published or behind the proxy: the other kind of
        rules goes, and `done` rules of this kind were dealt with when the inserts stopped. */
    method SetUpPort(port: int, proxied: bool, rate: int, burst: int) returns (ok: bool, ghost done: nat)
      modifies this`chain
      ensures var action := if proxied then Proxy(port) else Publish(port);
        var r, b := if rate <= 0 then defaultRate else rate, if burst <= 0 then defaultBurst else burst;
        enabled && port > 0 ==>
          && done <= |BlockOf(action, r, b)| && (ok <==> done == |BlockOf(action, r, b)|)
          && chain == StepUpTo(old(chain), action, r, b, done)
      ensures !enabled || port <= 0 ==> ok && chain == old(chain)
      ensures reliable ==> ok
    {
      ok, done := true, 0;
      if port <= 0 { return; }
      if proxied {
        RemovePortRateLimiting(port, rate, burst);
        ok, done := ApplyProxyPortIsolation(port);
      } else {
        RemoveProxyPortIsolation(port);
        ok, done := ApplyPortRateLimiting(port, rate, burst);
      }
    }
  }

  // ---------------------------------------------------------------- runs

  datatype Action = Publish(port: int) | Proxy(port: int)

  /** One set-up whose inserts stop after `done` rules. */
  function StepUpTo(chain: Chain, action: Action, rate: int, burst: int, done: nat): Chain
    requires done <= |BlockOf(action, rate, burst)|
  {
    match action
    case Publish(port) => Inserted(Removed(chain, BuildIsolationRules(port)), BuildPortRules(port, rate, burst), done)
    case Proxy(port) => Inserted(Removed(chain, BuildPortRules(port, rate, burst)), BuildIsolationRules(port), done)
  }

  /** One set-up whose inserts all succeed. */
  function Step(chain: Chain, action: Action, rate: int, burst: int): Chain {
    StepUpTo(chain, action, rate, burst, |BlockOf(action, rate, burst)|)
  }

  function Run(chain: Chain, actions: seq<Action>, rate: int, burst: int): Chain {
    if actions == [] then chain
    else Step(Run(chain, actions[..|actions| - 1], rate, burst), actions[|actions| - 1], rate, burst)
  }

  /** Each port once, with how it was set up. */
  function BlockOf(action: Action, rate: int, burst: int): seq<Rule> {
    match action
    case Publish(port) => BuildPortRules(port, rate, burst)
    case Proxy(port) => BuildIsolationRules(port)
  }

  function Flat(blocks: seq<Action>, rate: int, burst: int): Chain {
    if blocks == [] then [] else BlockOf(blocks[0], rate, burst) + Flat(blocks[1..], rate, burst)
  }
}
