/**
 The manager of one node (node/node.go) beside those of the other nodes: all of them
 replace the rule list of the same box. Between any two of its own steps the others
 may do anything to their rules.
 */
module NodeManagers {
  import opened Api
  import opened LimiterSync
  import opened RelayRules
  import opened SharedRouter

  /** The router of the box; `own` is what it was built with. */
  class BoxRouter {
    var rules: seq<Entry>
    const own: seq<Entry>

    ghost predicate Valid()
      reads this
    {
      OwnIsBox(own) && OwnFirst(rules, own)
    }

    constructor (own: seq<Entry>)
      requires OwnIsBox(own)
      ensures Valid() && rules == own == this.own
    {
      this.rules, this.own := own, own;
    }

    /** Every other node adding and removing rules of its own, with no write lost. */
    method Others(m: nat)
      requires Valid()
      modifies this`rules
      ensures Valid() && Of(rules, m) == old(Of(rules, m))
    {
      var next :| OwnFirst(next, own) && Of(next, m) == Of(rules, m);
      rules := next;
    }
  }

  class NodeManager {
    const id: nat
    const router: BoxRouter
    var relayRules: map<RuleTag, Rule>
    var built: nat

    ghost predicate Valid()
      reads this, router
    {
      id != BOX && router.Valid()
    }

    ghost function Kept(): File
      reads this
    {
      File(relayRules, built)
    }

    /** The router as this manager sees it. */
    ghost function State(): Router
      reads this, router
    {
      Router(Of(router.rules, id), relayRules, built)
    }

    constructor (id: nat, router: BoxRouter)
      requires id != BOX && router.Valid() && Of(router.rules, id) == []
      ensures Valid() && this.id == id && this.router == router && State() == Router([], map[], 0)
    {
      this.id, this.router, this.relayRules, this.built := id, router, map[], 0;
    }

    /** The critical section of addRouterRule. */
    method Append(mainTag: string, relayTag: string, s: Subscription)
      requires Valid()
      modifies this`relayRules, this`built, router`rules
      ensures Valid()
      ensures router.rules == Written(old(router.rules), id, old(Kept()), AddOne(mainTag, relayTag, s))
      ensures Kept() == Refiled(old(Kept()), AddOne(mainTag, relayTag, s))
      ensures State() == AddRule(old(State()), mainTag, relayTag, s)
      ensures |router.rules| == |old(router.rules)| + 1 && router.rules[..|old(router.rules)|] == old(router.rules)
      ensures var last := router.rules[|old(router.rules)|];
              last.owner == id && Relaying(last.rule, mainTag, relayTag, s)
    {
      WrittenParts(router.rules, id, Kept(), AddOne(mainTag, relayTag, s), id);
      WrittenKeepsOwn(router.rules, id, Kept(), AddOne(mainTag, relayTag, s), router.own);
      var rule := RuleFor(built, mainTag, relayTag, s);
      built := built + 1;
      var current := router.rules;
      router.rules := current + [Entry(id, rule)];
      relayRules := relayRules[RuleTag(relayTag, s.id) := rule];
    }

    /** The critical section of removeRouterRule, for a rule on file. */
    method Splice(tag: RuleTag)
      requires Valid() && tag in relayRules
      modifies this`relayRules, router`rules
      ensures Valid()
      ensures router.rules == Written(old(router.rules), id, old(Kept()), RemoveOne(tag))
      ensures Kept() == Refiled(old(Kept()), RemoveOne(tag))
      ensures State() == RemoveRule(old(State()), tag)
    {
      WrittenParts(router.rules, id, Kept(), RemoveOne(tag), id);
      WrittenKeepsOwn(router.rules, id, Kept(), RemoveOne(tag), router.own);
      var current := router.rules;
      router.rules := Spliced(current, Entry(id, relayRules[tag]));
      relayRules := relayRules - {tag};
    }

    static method Spliced(current: seq<Entry>, entry: Entry) returns (updated: seq<Entry>)
      ensures updated == Dropped(current, entry)
    {
      updated := [];
      for i := 0 to |current|
        invariant updated == Dropped(current[..i], entry)
      {
        assert current[..i + 1][..i] == current[..i];
        if current[i] != entry {
          updated := updated + [current[i]];
        }
      }
      assert current[..|current|] == current;
    }

    /** Building or starting the rule may fail; then nothing of this node's has changed. */
    method AddRouterRule(mainTag: string, relayTag: string, s: Subscription, builds: bool) returns (ok: bool)
      requires Valid()
      modifies this`relayRules, this`built, router`rules
      ensures Valid() && (ok <==> builds)
      ensures State() == if ok then AddRule(old(State()), mainTag, relayTag, s) else old(State())
      ensures ok ==> var rules := State().rules;
                     && rules != [] && Relaying(rules[|rules| - 1], mainTag, relayTag, s)
                     && relayRules == old(relayRules)[RuleTag(relayTag, s.id) := rules[|rules| - 1]]
    {
      router.Others(id);
      if !builds { return false; }
      Append(mainTag, relayTag, s);
      ok := true;
    }

    /** Reaching the router's list may fail, but is only tried for a rule on file. */
    method RemoveRouterRule(tag: RuleTag, reached: bool) returns (ok: bool)
      requires Valid()
      modifies this`relayRules, router`rules
      ensures Valid() && (ok <==> reached || tag !in old(relayRules))
      ensures State() == if ok then RemoveRule(old(State()), tag) else old(State())
    {
      router.Others(id);
      if tag !in relayRules { return true; }
      if !reached { return false; }
      Splice(tag);
      ok := true;
    }

    /** The subscription at `fail` has an outbound or a rule that cannot be built: the rules before it stay. */
    method AddRelayTag(relayTag: string, mainTag: string, subs: seq<Subscription>, fail: nat) returns (ok: bool)
      requires Valid()
      modifies this`relayRules, this`built, router`rules
      ensures Valid() && (ok <==> |subs| <= fail)
      ensures State() == AddRules(old(State()), mainTag, relayTag, if fail < |subs| then subs[..fail] else subs)
      ensures var made := if fail < |subs| then fail else |subs|;
              && |State().rules| == |old(State()).rules| + made && old(State()).rules <= State().rules
              && forall i :: 0 <= i < made ==>
                   Relaying(State().rules[|old(State()).rules| + i], mainTag, relayTag, subs[i])
    {
      AddRulesAppends(State(), mainTag, relayTag, if fail < |subs| then subs[..fail] else subs);
      ghost var todo := if fail < |subs| then subs[..fail] else subs;
      assert todo[0..] == todo;
      for i := 0 to |subs|
        invariant Valid() && i <= |todo|
        invariant AddRules(State(), mainTag, relayTag, todo[i..]) == AddRules(old(State()), mainTag, relayTag, todo)
      {
        ok := AddRouterRule(mainTag, relayTag, subs[i], i != fail);
        if !ok { return; }
        assert todo[i..][1..] == todo[i + 1..];
      }
      ok := true;
    }

    method RemoveRelayRules(relayTag: string, subs: seq<Subscription>, fail: nat) returns (ok: bool)
      requires Valid()
      modifies this`relayRules, router`rules
      ensures Valid() && (State(), ok) == RemoveUpTo(old(State()), relayTag, subs, fail)
    {
      assert subs[0..] == subs;
      for i := 0 to |subs|
        invariant Valid()
        invariant RemoveUpTo(State(), relayTag, subs[i..], fail - i) == RemoveUpTo(old(State()), relayTag, subs, fail)
      {
        assert subs[i..][1..] == subs[i + 1..];
        ok := RemoveRouterRule(RuleTag(relayTag, subs[i].id), i != fail);
        if !ok { return; }
      }
      ok := true;
    }
  }
}
