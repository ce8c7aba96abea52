/**
 Relay rules in the router (node/node.go, node/router.go): one rule a
 subscription, appended to the router's own list and taken out again by the tag
 under which the manager remembers it.
 */
module RelayRules {
  import opened Api
  import opened Commons
  import opened SlotTable
  import opened LimiterSync

  /** RelayRuleTag. */
  datatype RuleTag = RuleTag(relayTag: string, id: int)

  /** The serial stands for the identity of the rule object: no two rules built have the same. */
  datatype Rule = Rule(serial: nat, inbound: string, authUser: string, outbound: RuleTag)

  /** The router's list, the manager's map, and how many rule objects there have been. */
  datatype Router = Router(rules: seq<Rule>, relayRules: map<RuleTag, Rule>, built: nat)

  function RuleFor(serial: nat, mainTag: string, relayTag: string, s: Subscription): Rule {
    Rule(serial, mainTag, BuildUserTag(mainTag, s.email), RuleTag(relayTag, s.id))
  }

  /** The rule takes this subscription's connections on this inbound to the subscription's own outbound. */
  predicate Relaying(rule: Rule, mainTag: string, relayTag: string, s: Subscription) {
    && rule.inbound == mainTag
    && rule.authUser == mainTag + "_" + s.email
    && rule.outbound.relayTag == relayTag && rule.outbound.id == s.id
  }

  function AddRule(r: Router, mainTag: string, relayTag: string, s: Subscription): Router {
    var rule := RuleFor(r.built, mainTag, relayTag, s);
    Router(r.rules + [rule], r.relayRules[RuleTag(relayTag, s.id) := rule], r.built + 1)
  }

  function AddRules(r: Router, mainTag: string, relayTag: string, subs: seq<Subscription>): Router
    decreases |subs|
  {
    if subs == [] then r else AddRules(AddRule(r, mainTag, relayTag, subs[0]), mainTag, relayTag, subs[1..])
  }

  function Without(rules: seq<Rule>, rule: Rule): seq<Rule> {
    if rules == [] then []
    else Without(rules[..|rules| - 1], rule) + if rules[|rules| - 1] != rule then [rules[|rules| - 1]] else []
  }

  function RemoveRule(r: Router, tag: RuleTag): Router {
    if tag !in r.relayRules then r
    else r.(rules := Without(r.rules, r.relayRules[tag]), relayRules := r.relayRules - {tag})
  }

  function RemoveRules(r: Router, relayTag: string, subs: seq<Subscription>): Router
    decreases |subs|
  {
    if subs == [] then r else RemoveRules(RemoveRule(r, RuleTag(relayTag, subs[0].id)), relayTag, subs[1..])
  }

  lemma {:induction false} WithoutMembers(rules: seq<Rule>, rule: Rule, x: Rule)
    ensures x in Without(rules, rule) <==> x in rules && x != rule
  {
    if rules != [] {
      var n := |rules| - 1;
      WithoutMembers(rules[..n], rule, x);
      assert rules == rules[..n] + [rules[n]];
    }
  }

  lemma {:induction false} WithoutAbsent(rules: seq<Rule>, rule: Rule)
    requires rule !in rules
    ensures Without(rules, rule) == rules
  {
    if rules != [] {
      var n := |rules| - 1;
      var front, last := rules[..n], rules[n];
      WithoutAbsent(front, rule);
      assert Without(rules, rule) == front + [last];
    }
  }

  // ----- What adding amounts to -----

  ghost predicate Older(rules: seq<Rule>, serial: nat) {
    forall r :: r in rules ==> r.serial < serial
  }

  /** One rule a subscription, in the list's order. */
  function Made(start: nat, mainTag: string, relayTag: string, subs: seq<Subscription>): seq<Rule> {
    seq(|subs|, i requires 0 <= i < |subs| => RuleFor(start + i, mainTag, relayTag, subs[i]))
  }

  function TagsOf(relayTag: string, subs: seq<Subscription>): set<RuleTag> {
    set s | s in subs :: RuleTag(relayTag, s.id)
  }

  /** The manager remembers exactly the rules made, each under its own tag. */
  ghost predicate Filed(m: map<RuleTag, Rule>, start: nat, mainTag: string, relayTag: string, subs: seq<Subscription>) {
    && m.Keys == TagsOf(relayTag, subs)
    && forall i :: 0 <= i < |subs| ==>
         RuleTag(relayTag, subs[i].id) in m &&
         m[RuleTag(relayTag, subs[i].id)] == RuleFor(start + i, mainTag, relayTag, subs[i])
  }

  lemma {:induction false} AddRulesAppends(r: Router, mainTag: string, relayTag: string, subs: seq<Subscription>)
    ensures var r' := AddRules(r, mainTag, relayTag, subs);
            && r'.rules == r.rules + Made(r.built, mainTag, relayTag, subs)
            && r'.built == r.built + |subs|
            && r'.relayRules.Keys == r.relayRules.Keys + TagsOf(relayTag, subs)
            && (forall k :: k in r.relayRules && k !in TagsOf(relayTag, subs) ==> r'.relayRules[k] == r.relayRules[k])
    decreases |subs|
  {
    if subs != [] {
      AddRulesAppends(AddRule(r, mainTag, relayTag, subs[0]), mainTag, relayTag, subs[1..]);
      assert subs == [subs[0]] + subs[1..];
      assert Made(r.built, mainTag, relayTag, subs) ==
             [RuleFor(r.built, mainTag, relayTag, subs[0])] + Made(r.built + 1, mainTag, relayTag, subs[1..]);
    }
  }

  lemma {:induction false} AddRulesFiles(r: Router, mainTag: string, relayTag: string, subs: seq<Subscription>, i: nat)
    requires UniqueIds(subs) && i < |subs|
    ensures var tag, r' := RuleTag(relayTag, subs[i].id), AddRules(r, mainTag, relayTag, subs);
            tag in r'.relayRules && r'.relayRules[tag] == RuleFor(r.built + i, mainTag, relayTag, subs[i])
    decreases |subs|
  {
    var r1 := AddRule(r, mainTag, relayTag, subs[0]);
    if i == 0 {
      AddRulesAppends(r1, mainTag, relayTag, subs[1..]);
      assert RuleTag(relayTag, subs[0].id) !in TagsOf(relayTag, subs[1..]);
    } else {
      AddRulesFiles(r1, mainTag, relayTag, subs[1..], i - 1);
    }
  }

  /** From a router without relay rules: the list grows by one rule a subscription, all of them on file. */
  lemma AddRulesMakesAll(r: Router, mainTag: string, relayTag: string, subs: seq<Subscription>)
    requires UniqueIds(subs) && r.relayRules == map[]
    ensures var r' := AddRules(r, mainTag, relayTag, subs);
            && r'.rules == r.rules + Made(r.built, mainTag, relayTag, subs) && r'.built == r.built + |subs|
            && Filed(r'.relayRules, r.built, mainTag, relayTag, subs)
  {
    AddRulesAppends(r, mainTag, relayTag, subs);
    forall i | 0 <= i < |subs|
      ensures var tag, r' := RuleTag(relayTag, subs[i].id), AddRules(r, mainTag, relayTag, subs);
              tag in r'.relayRules && r'.relayRules[tag] == RuleFor(r.built + i, mainTag, relayTag, subs[i])
    {
      AddRulesFiles(r, mainTag, relayTag, subs, i);
    }
  }

  /** The rules a list adds take its connections where they should go, one by one. */
  lemma AddedRulesRelay(r: Router, mainTag: string, relayTag: string, subs: seq<Subscription>, i: nat)
    requires i < |subs|
    ensures var r' := AddRules(r, mainTag, relayTag, subs);
            && |r'.rules| == |r.rules| + |subs| && r.rules <= r'.rules
            && Relaying(r'.rules[|r.rules| + i], mainTag, relayTag, subs[i])
  {
    AddRulesAppends(r, mainTag, relayTag, subs);
  }

  // ----- What removing undoes -----

  lemma {:induction false} WithoutMiddle(a: seq<Rule>, rule: Rule, b: seq<Rule>)
    requires rule !in a && rule !in b
    ensures Without(a + [rule] + b, rule) == a + b
    decreases |b|
  {
    var s := a + [rule] + b;
    if b == [] {
      assert s[..|s| - 1] == a;
      WithoutAbsent(a, rule);
    } else {
      var n := |b| - 1;
      assert s[..|s| - 1] == a + [rule] + b[..n] && s[|s| - 1] == b[n];
      WithoutMiddle(a, rule, b[..n]);
      assert a + b == a + b[..n] + [b[n]];
    }
  }

  lemma MadeFirst(start: nat, mainTag: string, relayTag: string, subs: seq<Subscription>)
    requires subs != []
    ensures var first, rest :=
              RuleFor(start, mainTag, relayTag, subs[0]), Made(start + 1, mainTag, relayTag, subs[1..]);
            Made(start, mainTag, relayTag, subs) == [first] + rest && first !in rest
  {
  }

  lemma RestTags(relayTag: string, subs: seq<Subscription>)
    requires UniqueIds(subs) && subs != []
    ensures var tag := RuleTag(relayTag, subs[0].id);
            tag !in TagsOf(relayTag, subs[1..]) && TagsOf(relayTag, subs) == TagsOf(relayTag, subs[1..]) + {tag}
  {
    assert subs == [subs[0]] + subs[1..];
  }

  lemma FiledRest(m: map<RuleTag, Rule>, start: nat, mainTag: string, relayTag: string, subs: seq<Subscription>)
    requires UniqueIds(subs) && subs != [] && Filed(m, start, mainTag, relayTag, subs)
    ensures Filed(m - {RuleTag(relayTag, subs[0].id)}, start + 1, mainTag, relayTag, subs[1..])
  {
    var tag, rest := RuleTag(relayTag, subs[0].id), subs[1..];
    RestTags(relayTag, subs);
    var m' := m - {tag};
    assert m'.Keys == TagsOf(relayTag, rest);
    forall i | 0 <= i < |rest|
      ensures RuleTag(relayTag, rest[i].id) in m'
      ensures m'[RuleTag(relayTag, rest[i].id)] == RuleFor(start + 1 + i, mainTag, relayTag, rest[i])
    {
      var s := subs[i + 1];
      assert rest[i] == s && RuleTag(relayTag, s.id) in m && RuleTag(relayTag, s.id) != tag;
    }
  }

  lemma {:induction false} RemoveRulesUndoes(r: Router, base: seq<Rule>, start: nat, mainTag: string, relayTag: string,
                                             subs: seq<Subscription>)
    requires UniqueIds(subs) && Older(base, start)
    requires r.rules == base + Made(start, mainTag, relayTag, subs)
    requires Filed(r.relayRules, start, mainTag, relayTag, subs)
    ensures RemoveRules(r, relayTag, subs) == Router(base, map[], r.built)
    decreases |subs|
  {
    if subs == [] {
      assert r.rules == base;
      assert r.relayRules.Keys == {};
    } else {
      var first := RuleFor(start + 0, mainTag, relayTag, subs[0]);
      MadeFirst(start, mainTag, relayTag, subs);
      FiledRest(r.relayRules, start, mainTag, relayTag, subs);
      var rest := Made(start + 1, mainTag, relayTag, subs[1..]);
      assert r.rules == base + [first] + rest;
      WithoutMiddle(base, first, rest);
      assert r.relayRules[RuleTag(relayTag, subs[0].id)] == first;
      RemoveRulesUndoes(RemoveRule(r, RuleTag(relayTag, subs[0].id)), base, start + 1, mainTag, relayTag, subs[1..]);
    }
  }

  // ----- Where a connection goes -----

  predicate Matches(rule: Rule, inbound: string, user: string) { rule.inbound == inbound && rule.authUser == user }

  /** The first rule that matches a connection, by its inbound and user, names its outbound. */
  function Route(rules: seq<Rule>, inbound: string, user: string): Option<RuleTag> {
    if rules == [] then None
    else
      var before := Route(rules[..|rules| - 1], inbound, user);
      if before.Some? then before
      else if Matches(rules[|rules| - 1], inbound, user) then Some(rules[|rules| - 1].outbound)
      else None
  }

  lemma {:induction false} RouteConcat(a: seq<Rule>, b: seq<Rule>, inbound: string, user: string)
    ensures Route(a + b, inbound, user) ==
            if Route(a, inbound, user).Some? then Route(a, inbound, user) else Route(b, inbound, user)
    decreases |b|
  {
    if b == [] {
      assert a + b == a;
    } else {
      var n := |b| - 1;
      assert (a + b)[..|a + b| - 1] == a + b[..n] && (a + b)[|a + b| - 1] == b[n];
      RouteConcat(a, b[..n], inbound, user);
    }
  }

  lemma {:induction false} UnmatchedRoutesNowhere(rules: seq<Rule>, inbound: string, user: string)
    requires forall r :: r in rules ==> !Matches(r, inbound, user)
    ensures Route(rules, inbound, user) == None
  {
    if rules != [] {
      UnmatchedRoutesNowhere(rules[..|rules| - 1], inbound, user);
      assert rules[|rules| - 1] in rules;
    }
  }

  /** A rule between rules that do not match decides. */
  lemma OnlyMatchDecides(a: seq<Rule>, rule: Rule, b: seq<Rule>, inbound: string, user: string)
    requires Matches(rule, inbound, user)
    requires forall r :: r in a || r in b ==> !Matches(r, inbound, user)
    ensures Route(a + [rule] + b, inbound, user) == Some(rule.outbound)
  {
    UnmatchedRoutesNowhere(a, inbound, user);
    assert (a + [rule])[..|a|] == a;
    RouteConcat(a + [rule], b, inbound, user);
  }

  lemma OthersDoNotMatch(start: nat, mainTag: string, relayTag: string, subs: seq<Subscription>, i: nat, j: nat)
    requires Proper(subs) && i < |subs| && j < |subs| && i != j
    ensures !Matches(RuleFor(start + j, mainTag, relayTag, subs[j]), mainTag, mainTag + "_" + subs[i].email)
  {
    assert subs[i] in subs && subs[j] in subs;
    UserTagInjective(mainTag, subs[i].email, subs[j].email);
  }

  /** The rules of a list send a connection of the node's inbound to its own user's outbound ... */
  lemma MadeRoutes(start: nat, mainTag: string, relayTag: string, subs: seq<Subscription>, i: nat)
    requires Proper(subs) && i < |subs|
    ensures Route(Made(start, mainTag, relayTag, subs), mainTag, mainTag + "_" + subs[i].email) ==
            Some(RuleTag(relayTag, subs[i].id))
  {
    var user, rules := mainTag + "_" + subs[i].email, Made(start, mainTag, relayTag, subs);
    forall j | 0 <= j < |rules| && j != i ensures !Matches(rules[j], mainTag, user) {
      OthersDoNotMatch(start, mainTag, relayTag, subs, i, j);
    }
    assert rules == rules[..i] + [rules[i]] + rules[i + 1..];
    OnlyMatchDecides(rules[..i], rules[i], rules[i + 1..], mainTag, user);
  }

  /** ... and touch no other connection. */
  lemma MadeRoutesNoOther(start: nat, mainTag: string, relayTag: string, subs: seq<Subscription>, inbound: string,
                          user: string)
    requires inbound == mainTag ==> forall s :: s in subs ==> user != mainTag + "_" + s.email
    ensures Route(Made(start, mainTag, relayTag, subs), inbound, user) == None
  {
    UnmatchedRoutesNowhere(Made(start, mainTag, relayTag, subs), inbound, user);
  }

  // ----- Ids that repeat leave a rule behind -----

  /** In the list, and no longer on file under any tag but `tag`. */
  ghost predicate OnlyUnder(r: Router, rule: Rule, tag: RuleTag) {
    && rule in r.rules && rule.serial < r.built
    && forall k :: k in r.relayRules && r.relayRules[k] == rule ==> k == tag
  }

  ghost predicate Lost(r: Router, rule: Rule) {
    && rule in r.rules && rule.serial < r.built
    && forall k :: k in r.relayRules ==> r.relayRules[k] != rule
  }

  lemma {:induction false} LostStaysThroughAdds(r: Router, mainTag: string, relayTag: string, subs: seq<Subscription>,
                                                rule: Rule)
    requires Lost(r, rule)
    ensures Lost(AddRules(r, mainTag, relayTag, subs), rule)
    decreases |subs|
  {
    if subs != [] {
      LostStaysThroughAdds(AddRule(r, mainTag, relayTag, subs[0]), mainTag, relayTag, subs[1..], rule);
    }
  }

  lemma {:induction false} LostStaysThroughRemoves(r: Router, relayTag: string, subs: seq<Subscription>, rule: Rule)
    requires Lost(r, rule)
    ensures Lost(RemoveRules(r, relayTag, subs), rule)
    decreases |subs|
  {
    if subs != [] {
      var tag := RuleTag(relayTag, subs[0].id);
      if tag in r.relayRules {
        WithoutMembers(r.rules, r.relayRules[tag], rule);
      }
      LostStaysThroughRemoves(RemoveRule(r, tag), relayTag, subs[1..], rule);
    }
  }

  /** A second rule under the same tag takes the first one's place on file, not in the list. */
  lemma {:induction false} RefiledIsLost(r: Router, mainTag: string, relayTag: string, subs: seq<Subscription>,
                                         rule: Rule, j: nat)
    requires j < |subs| && OnlyUnder(r, rule, RuleTag(relayTag, subs[j].id))
    ensures Lost(AddRules(r, mainTag, relayTag, subs), rule)
    decreases |subs|
  {
    var r1 := AddRule(r, mainTag, relayTag, subs[0]);
    if j == 0 {
      LostStaysThroughAdds(r1, mainTag, relayTag, subs[1..], rule);
    } else {
      RefiledIsLost(r1, mainTag, relayTag, subs[1..], rule, j - 1);
    }
  }

  ghost predicate FiledOlder(r: Router) {
    forall k :: k in r.relayRules ==> r.relayRules[k].serial < r.built
  }

  lemma {:induction false} RepeatedIsLost(r: Router, mainTag: string, relayTag: string, subs: seq<Subscription>,
                                          i: nat, j: nat)
    requires i < j < |subs| && subs[i].id == subs[j].id && FiledOlder(r)
    ensures Lost(AddRules(r, mainTag, relayTag, subs), RuleFor(r.built + i, mainTag, relayTag, subs[i]))
    decreases |subs|
  {
    var r1 := AddRule(r, mainTag, relayTag, subs[0]);
    if i == 0 {
      RefiledIsLost(r1, mainTag, relayTag, subs[1..], RuleFor(r.built, mainTag, relayTag, subs[0]), j - 1);
    } else {
      RepeatedIsLost(r1, mainTag, relayTag, subs[1..], i - 1, j - 1);
    }
  }

  /** Setting a relay up and taking it down again gives the router's list back exactly when no id repeats. */
  lemma UndoneIffUniqueIds(r: Router, mainTag: string, relayTag: string, subs: seq<Subscription>)
    requires r.relayRules == map[] && Older(r.rules, r.built)
    ensures RemoveRules(AddRules(r, mainTag, relayTag, subs), relayTag, subs).rules == r.rules <==> UniqueIds(subs)
  {
    var r' := AddRules(r, mainTag, relayTag, subs);
    if UniqueIds(subs) {
      AddRulesMakesAll(r, mainTag, relayTag, subs);
      RemoveRulesUndoes(r', r.rules, r.built, mainTag, relayTag, subs);
    } else {
      var i, j :| 0 <= i < j < |subs| && subs[i].id == subs[j].id;
      RepeatedIsLost(r, mainTag, relayTag, subs, i, j);
      LostStaysThroughRemoves(r', relayTag, subs, RuleFor(r.built + i, mainTag, relayTag, subs[i]));
    }
  }

  // ----- Removing that fails part way -----

  /**
   The rule at `fail` cannot be taken out of the router, which only matters if it
   is on file; then the ones after it stay too. Says whether all went well.
   */
  function RemoveUpTo(r: Router, relayTag: string, subs: seq<Subscription>, fail: int): (Router, bool)
    decreases |subs|
  {
    if subs == [] then (r, true)
    else if fail == 0 && RuleTag(relayTag, subs[0].id) in r.relayRules then (r, false)
    else RemoveUpTo(RemoveRule(r, RuleTag(relayTag, subs[0].id)), relayTag, subs[1..], fail - 1)
  }

  lemma {:induction false} RemoveUpToAll(r: Router, relayTag: string, subs: seq<Subscription>, fail: int)
    requires fail < 0 || |subs| <= fail
    ensures RemoveUpTo(r, relayTag, subs, fail) == (RemoveRules(r, relayTag, subs), true)
    decreases |subs|
  {
    if subs != [] {
      RemoveUpToAll(RemoveRule(r, RuleTag(relayTag, subs[0].id)), relayTag, subs[1..], fail - 1);
    }
  }

  // ----- Rules nobody will remove -----

  /** No tag of the list leads to the rule. */
  ghost predicate NotUnder(r: Router, relayTag: string, subs: seq<Subscription>, rule: Rule) {
    forall s :: s in subs && RuleTag(relayTag, s.id) in r.relayRules ==> r.relayRules[RuleTag(relayTag, s.id)] != rule
  }

  /** A rule on file under the tag where removing fails, and under no tag before it, stays. */
  lemma {:induction false} FailedRemovalLeaves(r: Router, relayTag: string, subs: seq<Subscription>, fail: nat,
                                               rule: Rule)
    requires UniqueIds(subs) && fail < |subs| && rule in r.rules && RuleTag(relayTag, subs[fail].id) in r.relayRules
    requires NotUnder(r, relayTag, subs[..fail], rule)
    ensures var r' := RemoveUpTo(r, relayTag, subs, fail).0; rule in r'.rules && r'.built == r.built
    decreases |subs|
  {
    if fail > 0 {
      var tag, rest := RuleTag(relayTag, subs[0].id), subs[1..];
      assert subs[..fail][0] == subs[0] && rest[fail - 1] == subs[fail];
      if tag in r.relayRules {
        WithoutMembers(r.rules, r.relayRules[tag], rule);
      }
      forall s | s in rest[..fail - 1] ensures s in subs[..fail] {
        var i :| 0 <= i < fail - 1 && rest[i] == s;
        assert subs[..fail][i + 1] == s;
      }
      FailedRemovalLeaves(RemoveRule(r, tag), relayTag, rest, fail - 1, rule);
    }
  }

  /** From a relay completely set up, a removal that fails leaves at least the rule it failed at. */
  lemma RemoveUpToLeaves(r: Router, base: seq<Rule>, start: nat, mainTag: string, relayTag: string,
                         subs: seq<Subscription>, fail: nat)
    requires UniqueIds(subs) && fail < |subs|
    requires r.rules == base + Made(start, mainTag, relayTag, subs)
    requires Filed(r.relayRules, start, mainTag, relayTag, subs)
    ensures var r' := RemoveUpTo(r, relayTag, subs, fail).0;
            RuleFor(start + fail, mainTag, relayTag, subs[fail]) in r'.rules && r'.built == r.built
  {
    var rule := RuleFor(start + fail, mainTag, relayTag, subs[fail]);
    assert Made(start, mainTag, relayTag, subs)[fail] == rule;
    assert r.rules[|base| + fail] == rule;
    forall s | s in subs[..fail] && RuleTag(relayTag, s.id) in r.relayRules
      ensures r.relayRules[RuleTag(relayTag, s.id)] != rule
    {
      var i :| 0 <= i < fail && subs[i] == s;
      assert r.relayRules[RuleTag(relayTag, subs[i].id)] == RuleFor(start + i, mainTag, relayTag, subs[i]);
    }
    FailedRemovalLeaves(r, relayTag, subs, fail, rule);
  }

  /** The list is `base` and one rule for each of `subs`, all of them on file. */
  ghost predicate InPlace(r: Router, base: seq<Rule>, start: nat, mainTag: string, relayTag: string,
                          subs: seq<Subscription>) {
    r.rules == base + Made(start, mainTag, relayTag, subs) && Filed(r.relayRules, start, mainTag, relayTag, subs)
  }

  lemma FirstComesOut(r: Router, base: seq<Rule>, start: nat, mainTag: string, relayTag: string,
                      subs: seq<Subscription>)
    requires UniqueIds(subs) && Older(base, start) && subs != []
    requires InPlace(r, base, start, mainTag, relayTag, subs)
    ensures RuleTag(relayTag, subs[0].id) in r.relayRules
    ensures InPlace(RemoveRule(r, RuleTag(relayTag, subs[0].id)), base, start + 1, mainTag, relayTag, subs[1..])
  {
    var first, rest := RuleFor(start + 0, mainTag, relayTag, subs[0]), Made(start + 1, mainTag, relayTag, subs[1..]);
    MadeFirst(start, mainTag, relayTag, subs);
    FiledRest(r.relayRules, start, mainTag, relayTag, subs);
    assert r.rules == base + [first] + rest;
    WithoutMiddle(base, first, rest);
    assert r.relayRules[RuleTag(relayTag, subs[0].id)] == first;
  }

  /**
   From a relay completely set up, a removal that fails at one rule has removed exactly
   the rules before it: that one and all after it stay, in order and on file.
   */
  lemma {:induction false} RemoveUpToStops(r: Router, base: seq<Rule>, start: nat, mainTag: string, relayTag: string,
                                           subs: seq<Subscription>, fail: nat, end: nat, left: seq<Subscription>)
    requires UniqueIds(subs) && Older(base, start) && fail < |subs| && end == start + fail && left == subs[fail..]
    requires InPlace(r, base, start, mainTag, relayTag, subs)
    ensures var (r', ok) := RemoveUpTo(r, relayTag, subs, fail); !ok && InPlace(r', base, end, mainTag, relayTag, left)
    decreases fail
  {
    FirstComesOut(r, base, start, mainTag, relayTag, subs);
    if fail == 0 {
      assert subs[0..] == subs;
    } else {
      var r1, rest := RemoveRule(r, RuleTag(relayTag, subs[0].id)), subs[1..];
      assert RemoveUpTo(r, relayTag, subs, fail) == RemoveUpTo(r1, relayTag, rest, fail - 1);
      RestIsUnique(subs);
      RemoveUpToStops(r1, base, start + 1, mainTag, relayTag, rest, fail - 1, end, left);
    }
  }

  lemma RestIsUnique(subs: seq<Subscription>)
    requires UniqueIds(subs) && subs != []
    ensures UniqueIds(subs[1..])
  {
  }

  lemma {:induction false} NotUnderStays(r: Router, relayTag: string, subs: seq<Subscription>, fail: int, rule: Rule)
    requires rule in r.rules && NotUnder(r, relayTag, subs, rule)
    ensures var r' := RemoveUpTo(r, relayTag, subs, fail).0; rule in r'.rules && r'.built == r.built
    decreases |subs|
  {
    if subs != [] {
      var tag := RuleTag(relayTag, subs[0].id);
      assert subs[0] in subs;
      if tag in r.relayRules {
        WithoutMembers(r.rules, r.relayRules[tag], rule);
      }
      assert forall s :: s in subs[1..] ==> s in subs;
      NotUnderStays(RemoveRule(r, tag), relayTag, subs[1..], fail - 1, rule);
    }
  }

  /** What a list was just given is all newer than the router was. */
  lemma {:induction false} AddedAreNew(r: Router, mainTag: string, relayTag: string, subs: seq<Subscription>,
                                       tag: RuleTag)
    requires tag in TagsOf(relayTag, subs)
    ensures var r' := AddRules(r, mainTag, relayTag, subs); tag in r'.relayRules && r'.relayRules[tag].serial >= r.built
    decreases |subs|
  {
    var r1 := AddRule(r, mainTag, relayTag, subs[0]);
    AddRulesAppends(r1, mainTag, relayTag, subs[1..]);
    if tag in TagsOf(relayTag, subs[1..]) {
      AddedAreNew(r1, mainTag, relayTag, subs[1..], tag);
    } else {
      assert subs == [subs[0]] + subs[1..];
      assert tag == RuleTag(relayTag, subs[0].id);
    }
  }

  /** A rule from before is in the list still, and no tag of the new list leads to it. */
  lemma OlderIsNotUnder(r: Router, mainTag: string, relayTag: string, subs: seq<Subscription>, rule: Rule)
    requires rule in r.rules && rule.serial < r.built
    ensures var r' := AddRules(r, mainTag, relayTag, subs);
            rule in r'.rules && rule.serial < r'.built && NotUnder(r', relayTag, subs, rule)
  {
    var r' := AddRules(r, mainTag, relayTag, subs);
    AddRulesAppends(r, mainTag, relayTag, subs);
    forall s | s in subs && RuleTag(relayTag, s.id) in r'.relayRules
      ensures r'.relayRules[RuleTag(relayTag, s.id)] != rule
    {
      AddedAreNew(r, mainTag, relayTag, subs, RuleTag(relayTag, s.id));
    }
  }
}
