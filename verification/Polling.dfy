/**
 What a poll does to a node and its relay (controller/controller.go), on values:
 the fields of the controller beside the router, one step a poll, whatever the
 panel answers and whatever fails; and what every run of polls comes to.
 */
module Polling {
  import opened Api
  import opened Commons
  import opened SlotTable
  import opened LimiterSync
  import opened RelayRules

  /** `rest` stands for every other field a running inbound is built from. */
  datatype NodeInfo = NodeInfo(id: int, protocol: string, listenPort: nat, relayType: int, relayNodeId: int,
                               rest: string, speedLimit: nat, ignoreIPs: seq<string>, updateInterval: int)

  datatype RelayNode = RelayNode(nodeType: string, port: nat)

  /** What a request to the panel comes back with. */
  datatype Answer<+T> = Got(value: T) | NotModified | Failed

  /**
   Everything one poll meets outside the controller. `relayFail` and `dropFail` are
   the subscriptions whose relay cannot be built and whose rule cannot be removed.
   */
  datatype Poll = Poll(node: Answer<NodeInfo>, subs: Answer<seq<Subscription>>, removeNode: bool, addNode: bool,
                       transit: Option<RelayNode>, relayFail: nat, dropFail: nat,
                       removeSubs: bool, addSubs: bool, replaceSubs: bool)

  predicate ChangedStructurally(old': NodeInfo, new': NodeInfo) {
    old'.(speedLimit := 0, ignoreIPs := [], updateInterval := 0) !=
    new'.(speedLimit := 0, ignoreIPs := [], updateInterval := 0)
  }

  /** The inbound stays exactly when nothing but speed limit, ignore list and poll interval differ. */
  lemma ChangedStructurallyIff(o: NodeInfo, n: NodeInfo)
    ensures !ChangedStructurally(o, n) <==>
            n == o.(speedLimit := n.speedLimit, ignoreIPs := n.ignoreIPs, updateInterval := n.updateInterval)
  {
    assert n == n.(speedLimit := 0, ignoreIPs := [], updateInterval := 0)
                 .(speedLimit := n.speedLimit, ignoreIPs := n.ignoreIPs, updateInterval := n.updateInterval);
  }

  function IntText(n: int): string { if n < 0 then "-" + Decimal(-n) else Decimal(n) }

  function NodeTag(info: NodeInfo): string {
    info.protocol + "_" + Decimal(info.listenPort) + "_" + IntText(info.id)
  }

  /** A node tag has a separator of ours, NUL or a bar, exactly when the protocol name has it. */
  lemma NodeTagSeparator(info: NodeInfo, c: char)
    requires c in {'\0', '|'}
    ensures c in NodeTag(info) <==> c in info.protocol
  {
    DecimalDigits(info.listenPort);
    DecimalDigits(if info.id < 0 then -info.id else info.id);
    assert c !in Decimal(info.listenPort) && c !in IntText(info.id) && c !in "_";
  }

  lemma IntTextParsed(n: int)
    ensures '_' !in IntText(n) && IntText(n) != ""
    ensures n == if IntText(n)[0] == '-' then -Parsed(IntText(n)[1..]) else Parsed(IntText(n))
  {
    var m := if n < 0 then -n else n;
    DecimalDigits(m);
    DecimalParsed(m);
    assert Decimal(m)[0] in Decimal(m);
  }

  lemma LaterCutIsInside(a: string, b: string, a': string, b': string)
    requires a + "_" + b == a' + "_" + b' && |a| < |a'|
    ensures '_' in b
  {
    var s := a + "_" + b;
    assert b[|a'| - |a| - 1] == s[|a'|] == (a' + "_" + b')[|a'|];
  }

  /** A text is cut at its last underscore in one way. */
  lemma LastCut(a: string, b: string, a': string, b': string)
    requires a + "_" + b == a' + "_" + b' && '_' !in b && '_' !in b'
    ensures a == a' && b == b'
  {
    var s := a + "_" + b;
    if |a| < |a'| {
      LaterCutIsInside(a, b, a', b');
    } else if |a'| < |a| {
      LaterCutIsInside(a', b', a, b);
    } else {
      assert a == s[..|a|] == a' && b == s[|a| + 1..] == b';
    }
  }

  /** The tags of two nodes differ unless protocol, port and id are the same, whatever the protocol name holds. */
  lemma NodeTagInjective(a: NodeInfo, b: NodeInfo)
    ensures NodeTag(a) == NodeTag(b) <==> a.protocol == b.protocol && a.listenPort == b.listenPort && a.id == b.id
  {
    if NodeTag(a) == NodeTag(b) {
      IntTextParsed(a.id);
      IntTextParsed(b.id);
      IntTextParsed(a.listenPort);
      IntTextParsed(b.listenPort);
      LastCut(a.protocol + "_" + Decimal(a.listenPort), IntText(a.id),
              b.protocol + "_" + Decimal(b.listenPort), IntText(b.id));
      LastCut(a.protocol, Decimal(a.listenPort), b.protocol, Decimal(b.listenPort));
      DecimalParsed(a.listenPort);
      DecimalParsed(b.listenPort);
    }
  }

  function RelayTag(relay: RelayNode, info: NodeInfo): string {
    "relay_" + relay.nodeType + "_" + Decimal(relay.port) + "_" + IntText(info.relayNodeId)
  }

  /** Two tags, written out. */
  lemma TagsWrittenOut(info: NodeInfo)
    requires info.protocol == "vless" && info.listenPort == 443 && info.id == 12 && info.relayNodeId == 9
    ensures NodeTag(info) == "vless_443_12" && RelayTag(RelayNode("trojan", 8443), info) == "relay_trojan_8443_9"
  {
    assert Decimal(44) == "44" && Decimal(84) == "84" && Decimal(844) == "844";
    assert Decimal(443) == "443" && Decimal(12) == "12" && Decimal(8443) == "8443";
  }

  /** So do the tags of two relays. */
  lemma RelayTagInjective(x: RelayNode, a: NodeInfo, y: RelayNode, b: NodeInfo)
    ensures RelayTag(x, a) == RelayTag(y, b) <==>
            x.nodeType == y.nodeType && x.port == y.port && a.relayNodeId == b.relayNodeId
  {
    if RelayTag(x, a) == RelayTag(y, b) {
      IntTextParsed(a.relayNodeId);
      IntTextParsed(b.relayNodeId);
      IntTextParsed(x.port);
      IntTextParsed(y.port);
      LastCut("relay_" + x.nodeType + "_" + Decimal(x.port), IntText(a.relayNodeId),
              "relay_" + y.nodeType + "_" + Decimal(y.port), IntText(b.relayNodeId));
      LastCut("relay_" + x.nodeType, Decimal(x.port), "relay_" + y.nodeType, Decimal(y.port));
      DecimalParsed(x.port);
      DecimalParsed(y.port);
      assert ("relay_" + x.nodeType)[6..] == x.nodeType && ("relay_" + y.nodeType)[6..] == y.nodeType;
    }
  }

  /** A rule and its outbound are known by this text; the pair stands for it, since no two pairs share one. */
  function RuleTagText(tag: RuleTag): string { tag.relayTag + "_" + IntText(tag.id) }

  lemma RuleTagTextInjective(a: RuleTag, b: RuleTag)
    ensures RuleTagText(a) == RuleTagText(b) <==> a == b
  {
    if RuleTagText(a) == RuleTagText(b) {
      IntTextParsed(a.id);
      IntTextParsed(b.id);
      LastCut(a.relayTag, IntText(a.id), b.relayTag, IntText(b.id));
    }
  }

  predicate WantsRelay(info: NodeInfo) { info.relayType == 2 && info.relayNodeId > 0 }

  // ----- What a poll comes to, from its answers alone -----

  predicate Unanswered(p: Poll) { p.node.Failed? || p.subs.Failed? }

  function InfoAfter(p: Poll, info: NodeInfo): NodeInfo { if p.node.Got? then p.node.value else info }

  function ListAfter(p: Poll, list: seq<Subscription>): seq<Subscription> { if p.subs.Got? then p.subs.value else list }

  predicate Rebuilds(p: Poll, info: NodeInfo) { p.node.Got? && ChangedStructurally(info, p.node.value) }

  /** The inbound could not be replaced: the poll stops half way. */
  predicate Aborts(p: Poll, info: NodeInfo) { Rebuilds(p, info) && !(p.removeNode && p.addNode) }

  predicate Completes(p: Poll, info: NodeInfo) { !Unanswered(p) && !Aborts(p, info) }

  /** The relay comes down, and goes up again if it is still wanted. */
  predicate Renews(p: Poll, info: NodeInfo) { Rebuilds(p, info) || p.subs.Got? }

  predicate StartsRelay(p: Poll, info: NodeInfo) { WantsRelay(info) && p.transit.Some? }

  // ----- The step -----

  /** The controller's fields beside the router. */
  datatype Side =
    Side(router: Router, info: NodeInfo, list: seq<Subscription>, tag: string, relay: bool, relayTag: string)

  /** RemoveRelayRules and what follows it; its error is only logged. */
  function TakenDown(s: Side, p: Poll): Side {
    if !s.relay then s
    else s.(router := RemoveUpTo(s.router, s.relayTag, s.list, p.dropFail).0, relay := false, relayTag := "")
  }

  /** setupRelay for a list. */
  function SetUp(s: Side, p: Poll, subs: seq<Subscription>): Side {
    if s.relay || !StartsRelay(p, s.info) then s
    else
      var relayTag := RelayTag(p.transit.value, s.info);
      s.(router := AddRules(s.router, s.tag, relayTag, if p.relayFail < |subs| then subs[..p.relayFail] else subs),
         relay := |subs| <= p.relayFail, relayTag := relayTag)
  }

  function Polled(s: Side, p: Poll): Side {
    if Unanswered(p) then s
    else
      var down := if Renews(p, s.info) then TakenDown(s, p) else s;
      if Aborts(p, s.info) then down
      else
        var moved := down.(info := InfoAfter(p, s.info),
                           tag := if Rebuilds(p, s.info) then NodeTag(p.node.value) else s.tag);
        var list := ListAfter(p, s.list);
        (if Renews(p, s.info) then SetUp(moved, p, list) else moved).(list := list)
  }

  /**
   What a poll leaves in the fields, from the answers of the panel and what failed: a
   missing answer changes nothing, an inbound that could not be replaced only takes the
   relay down, and otherwise the fields follow the answers.
   */
  ghost predicate Outcome(s: Side, p: Poll, s': Side) {
    var newInbound := p.node.Got? && ChangedStructurally(s.info, p.node.value);
    if p.node.Failed? || p.subs.Failed? then s' == s
    else if newInbound && !(p.removeNode && p.addNode) then
      s'.tag == s.tag && s'.info == s.info && s'.list == s.list && !s'.relay
    else
      && s'.info == (if p.node.Got? then p.node.value else s.info)
      && s'.list == (if p.subs.Got? then p.subs.value else s.list)
      && s'.tag == (if newInbound then NodeTag(p.node.value) else s.tag)
      && if newInbound || p.subs.Got? then
           && s'.relay == (s'.info.relayType == 2 && s'.info.relayNodeId > 0 &&
                           p.transit.Some? && |s'.list| <= p.relayFail)
           && (s'.relay ==> s'.relayTag == RelayTag(p.transit.value, s'.info))
         else s'.relay == s.relay && s'.relayTag == s.relayTag
  }

  lemma PollOutcome(s: Side, p: Poll)
    ensures Outcome(s, p, Polled(s, p))
  {
  }

  // ----- The router against the fields -----

  ghost predicate Consistent(r: Router, own: seq<Rule>, relay: bool, mainTag: string, relayTag: string,
                             subs: seq<Subscription>)
  {
    if relay then
      && |subs| <= r.built && Older(own, r.built - |subs|)
      && r.rules == own + Made(r.built - |subs|, mainTag, relayTag, subs)
      && Filed(r.relayRules, r.built - |subs|, mainTag, relayTag, subs)
    else
      r.rules == own && r.relayRules == map[] && Older(own, r.built)
  }

  /**
   The router has its own rules, then one per current subscription when the relay
   is up, in list order and for the current tags, and none otherwise.
   */
  ghost predicate Reconciled(s: Side, own: seq<Rule>) {
    Consistent(s.router, own, s.relay, s.tag, s.relayTag, s.list)
  }

  /** A rule is in the router that is not its own. */
  ghost predicate Stray(r: Router, own: seq<Rule>, rule: Rule) {
    rule in r.rules && rule !in own && rule.serial < r.built
  }

  ghost predicate Littered(r: Router, own: seq<Rule>) {
    exists rule :: Stray(r, own, rule)
  }

  /** A stray rule that taking the relay down would not remove. */
  ghost predicate Leftover(s: Side, own: seq<Rule>, rule: Rule) {
    Stray(s.router, own, rule) && (s.relay ==> NotUnder(s.router, s.relayTag, s.list, rule))
  }

  ghost predicate Spoiled(s: Side, own: seq<Rule>) {
    exists rule :: Leftover(s, own, rule)
  }

  /**
   The poll leaves rules behind: taking the relay down fails somewhere, or setting it
   up fails after its first rule.
   */
  predicate LeavesRules(s: Side, p: Poll) {
    && !Unanswered(p) && Renews(p, s.info)
    && ((s.relay && p.dropFail < |s.list|) || HalfBuilds(s, p))
  }

  predicate HalfBuilds(s: Side, p: Poll) {
    Completes(p, s.info) && StartsRelay(p, InfoAfter(p, s.info)) && 0 < p.relayFail < |ListAfter(p, s.list)|
  }

  lemma SetUpIsConsistent(r: Router, own: seq<Rule>, mainTag: string, relayTag: string, subs: seq<Subscription>)
    requires UniqueIds(subs) && Consistent(r, own, false, mainTag, relayTag, subs)
    ensures Consistent(AddRules(r, mainTag, relayTag, subs), own, true, mainTag, relayTag, subs)
  {
    AddRulesMakesAll(r, mainTag, relayTag, subs);
  }

  lemma TakenDownIsConsistent(r: Router, own: seq<Rule>, mainTag: string, relayTag: string, subs: seq<Subscription>)
    requires UniqueIds(subs) && Consistent(r, own, true, mainTag, relayTag, subs)
    ensures Consistent(RemoveRules(r, relayTag, subs), own, false, mainTag, relayTag, subs)
  {
    RemoveRulesUndoes(r, own, r.built - |subs|, mainTag, relayTag, subs);
    assert Older(own, r.built);
  }

  /** A relay that failed on the way leaves a stray rule, unless no rule had been added yet. */
  lemma HalfWayIsLittered(r: Router, own: seq<Rule>, mainTag: string, relayTag: string, subs: seq<Subscription>)
    requires r.rules == own && Older(own, r.built) && subs != []
    ensures Littered(AddRules(r, mainTag, relayTag, subs), own)
  {
    AddRulesAppends(r, mainTag, relayTag, subs);
    var r' := AddRules(r, mainTag, relayTag, subs);
    var first := Made(r.built, mainTag, relayTag, subs)[0];
    assert r'.rules[|own|] == first;
    assert Stray(r', own, first);
  }

  /** A relay that failed on the way is consistent with having none only if no rule had been added yet. */
  lemma HalfWayIsConsistentIff(r: Router, own: seq<Rule>, mainTag: string, relayTag: string, subs: seq<Subscription>)
    requires Consistent(r, own, false, mainTag, relayTag, subs)
    ensures Consistent(AddRules(r, mainTag, relayTag, subs), own, false, mainTag, relayTag, subs) <==> subs == []
  {
    AddRulesAppends(r, mainTag, relayTag, subs);
    var r' := AddRules(r, mainTag, relayTag, subs);
    assert |r'.rules| == |own| + |subs|;
  }

  /** In order, a rule that is not the router's own is one the relay can take down. */
  lemma OrderedIsUnder(s: Side, own: seq<Rule>, rule: Rule)
    requires Reconciled(s, own) && rule in s.router.rules && rule !in own
    ensures s.relay && !NotUnder(s.router, s.relayTag, s.list, rule)
  {
    if s.relay {
      var start := s.router.built - |s.list|;
      var i :| 0 <= i < |s.router.rules| && s.router.rules[i] == rule;
      assert i >= |own|;
      var j := i - |own|;
      assert rule == Made(start, s.tag, s.relayTag, s.list)[j];
      assert s.list[j] in s.list;
    }
  }

  lemma SpoiledIsNot(s: Side, own: seq<Rule>)
    requires Spoiled(s, own)
    ensures !Reconciled(s, own)
  {
    var rule :| Leftover(s, own, rule);
    if Reconciled(s, own) {
      OrderedIsUnder(s, own, rule);
    }
  }

  /**
   With the relay up, the i-th rule of the node matches the i-th subscription on the
   node's own inbound, and leads to that subscription's relay outbound.
   */
  lemma RelayRuleAt(s: Side, own: seq<Rule>, i: nat)
    requires Reconciled(s, own) && s.relay && i < |s.list|
    ensures |s.router.rules| == |own| + |s.list|
    ensures var rule := s.router.rules[|own| + i];
            && rule.inbound == s.tag && rule.authUser == s.tag + "_" + s.list[i].email
            && rule.outbound.relayTag == s.relayTag && rule.outbound.id == s.list[i].id
            && Relaying(rule, s.tag, s.relayTag, s.list[i])
  {
    assert s.router.rules[|own| + i] == Made(s.router.built - |s.list|, s.tag, s.relayTag, s.list)[i];
  }

  /** The subscription a connection belongs to, when the node relays it. */
  ghost predicate Relays(s: Side, inbound: string, user: string, sub: Subscription) {
    s.relay && inbound == s.tag && sub in s.list && user == s.tag + "_" + sub.email
  }

  lemma RelayedSub(s: Side, own: seq<Rule>, inbound: string, user: string, sub: Subscription)
    requires Reconciled(s, own) && Proper(s.list) && Route(own, inbound, user) == None
    requires Relays(s, inbound, user, sub)
    ensures Route(s.router.rules, inbound, user) == Some(RuleTag(s.relayTag, sub.id))
  {
    var start := s.router.built - |s.list|;
    RouteConcat(own, Made(start, s.tag, s.relayTag, s.list), inbound, user);
    var i :| 0 <= i < |s.list| && s.list[i] == sub;
    MadeRoutes(start, s.tag, s.relayTag, s.list, i);
  }

  lemma RelayedNowhere(s: Side, own: seq<Rule>, inbound: string, user: string)
    requires Reconciled(s, own) && Route(own, inbound, user) == None
    requires forall sub :: !Relays(s, inbound, user, sub)
    ensures Route(s.router.rules, inbound, user) == None
  {
    if s.relay {
      var start := s.router.built - |s.list|;
      RouteConcat(own, Made(start, s.tag, s.relayTag, s.list), inbound, user);
      forall sub | sub in s.list && inbound == s.tag ensures user != s.tag + "_" + sub.email {
        assert !Relays(s, inbound, user, sub);
      }
      MadeRoutesNoOther(start, s.tag, s.relayTag, s.list, inbound, user);
    }
  }

  /**
   In order, every connection the router's own rules leave alone goes where it should: a
   subscription's connection on this node to the outbound of that subscription, and any
   other connection past the relay rules.
   */
  lemma RelayedToOwn(s: Side, own: seq<Rule>, inbound: string, user: string)
    requires Reconciled(s, own) && Proper(s.list) && Route(own, inbound, user) == None
    ensures forall sub :: Relays(s, inbound, user, sub) ==>
              Route(s.router.rules, inbound, user) == Some(RuleTag(s.relayTag, sub.id))
    ensures (forall sub :: !Relays(s, inbound, user, sub)) ==> Route(s.router.rules, inbound, user) == None
  {
    forall sub | Relays(s, inbound, user, sub)
      ensures Route(s.router.rules, inbound, user) == Some(RuleTag(s.relayTag, sub.id))
    {
      RelayedSub(s, own, inbound, user, sub);
    }
    if forall sub :: !Relays(s, inbound, user, sub) { RelayedNowhere(s, own, inbound, user); }
  }

  // ----- One poll -----

  /** A relay that was in order comes down in order, or leaves a stray rule where removing fails. */
  lemma TakenDownCases(s: Side, own: seq<Rule>, p: Poll)
    requires Reconciled(s, own) && UniqueIds(s.list)
    ensures var s' := TakenDown(s, p);
            if s.relay && p.dropFail < |s.list| then Littered(s'.router, own) else Reconciled(s', own)
  {
    if s.relay {
      if p.dropFail < |s.list| {
        var start := s.router.built - |s.list|;
        RemoveUpToLeaves(s.router, own, start, s.tag, s.relayTag, s.list, p.dropFail);
        var rule := RuleFor(start + p.dropFail, s.tag, s.relayTag, s.list[p.dropFail]);
        assert Stray(TakenDown(s, p).router, own, rule);
      } else {
        RemoveUpToAll(s.router, s.relayTag, s.list, p.dropFail);
        TakenDownIsConsistent(s.router, own, s.tag, s.relayTag, s.list);
      }
    }
  }

  lemma SpoiledComesDown(s: Side, own: seq<Rule>, p: Poll)
    requires Spoiled(s, own)
    ensures Littered(TakenDown(s, p).router, own)
  {
    var rule :| Leftover(s, own, rule);
    if s.relay {
      NotUnderStays(s.router, s.relayTag, s.list, p.dropFail, rule);
    }
    assert Stray(TakenDown(s, p).router, own, rule);
  }

  /** Setting a relay up removes no stray rule, and files none of them. */
  lemma LitteredGoesUp(s: Side, own: seq<Rule>, p: Poll, subs: seq<Subscription>)
    requires Littered(s.router, own) && !s.relay
    ensures Spoiled(SetUp(s, p, subs).(list := subs), own)
  {
    var rule :| Stray(s.router, own, rule);
    if StartsRelay(p, s.info) {
      var added := if p.relayFail < |subs| then subs[..p.relayFail] else subs;
      OlderIsNotUnder(s.router, s.tag, RelayTag(p.transit.value, s.info), added, rule);
    }
    assert Leftover(SetUp(s, p, subs).(list := subs), own, rule);
  }

  lemma CleanGoesUp(s: Side, own: seq<Rule>, p: Poll, subs: seq<Subscription>)
    requires !s.relay && Reconciled(s, own) && UniqueIds(subs)
    ensures var s' := SetUp(s, p, subs).(list := subs);
            if StartsRelay(p, s.info) && 0 < p.relayFail < |subs| then Spoiled(s', own) else Reconciled(s', own)
  {
    if StartsRelay(p, s.info) {
      var relayTag := RelayTag(p.transit.value, s.info);
      if p.relayFail >= |subs| {
        SetUpIsConsistent(s.router, own, s.tag, relayTag, subs);
      } else if p.relayFail > 0 {
        HalfWayIsLittered(s.router, own, s.tag, relayTag, subs[..p.relayFail]);
        var s' := SetUp(s, p, subs).(list := subs);
        var rule :| Stray(s'.router, own, rule);
        assert Leftover(s', own, rule);
      }
    }
  }

  lemma LitteredIsSpoiled(s: Side, own: seq<Rule>)
    requires Littered(s.router, own) && !s.relay
    ensures Spoiled(s, own)
  {
    var rule :| Stray(s.router, own, rule);
    assert Leftover(s, own, rule);
  }

  /** The fields a renewed relay starts from. */
  function Moved(s: Side, p: Poll): Side {
    TakenDown(s, p).(info := InfoAfter(p, s.info), tag := if Rebuilds(p, s.info) then NodeTag(p.node.value) else s.tag)
  }

  /** A poll that leaves nothing behind keeps the router in order, and one that does spoils it. */
  lemma PollDecides(s: Side, own: seq<Rule>, p: Poll)
    requires Reconciled(s, own) && UniqueIds(s.list) && UniqueIds(ListAfter(p, s.list))
    ensures if LeavesRules(s, p) then Spoiled(Polled(s, p), own) else Reconciled(Polled(s, p), own)
  {
    if !Unanswered(p) && Renews(p, s.info) {
      TakenDownCases(s, own, p);
      if Aborts(p, s.info) {
        if LeavesRules(s, p) { LitteredIsSpoiled(TakenDown(s, p), own); }
      } else if s.relay && p.dropFail < |s.list| {
        LitteredGoesUp(Moved(s, p), own, p, ListAfter(p, s.list));
      } else {
        CleanGoesUp(Moved(s, p), own, p, ListAfter(p, s.list));
      }
    }
  }

  lemma PollKeepsOrderIff(s: Side, own: seq<Rule>, p: Poll)
    requires UniqueIds(s.list) && UniqueIds(ListAfter(p, s.list))
    ensures Reconciled(s, own) ==> (Reconciled(Polled(s, p), own) <==> !LeavesRules(s, p))
  {
    if Reconciled(s, own) {
      PollDecides(s, own, p);
      if LeavesRules(s, p) { SpoiledIsNot(Polled(s, p), own); }
    }
  }

  lemma TakenDownRestoresIff(s: Side, own: seq<Rule>, p: Poll)
    requires Reconciled(s, own) && UniqueIds(s.list)
    ensures TakenDown(s, p).router.rules == own <==> !(s.relay && p.dropFail < |s.list|)
  {
    TakenDownCases(s, own, p);
  }

  /** What was left behind is never removed again. */
  lemma SpoiledStays(s: Side, own: seq<Rule>, p: Poll)
    requires Spoiled(s, own)
    ensures Spoiled(Polled(s, p), own)
  {
    if !Unanswered(p) && Renews(p, s.info) {
      SpoiledComesDown(s, own, p);
      if Aborts(p, s.info) {
        LitteredIsSpoiled(TakenDown(s, p), own);
      } else {
        LitteredGoesUp(Moved(s, p), own, p, ListAfter(p, s.list));
      }
    } else {
      var rule :| Leftover(s, own, rule);
      assert Leftover(Polled(s, p), own, rule);
    }
  }

  // ----- Every run -----

  function PollAll(s: Side, polls: seq<Poll>): Side
    decreases |polls|
  {
    if polls == [] then s else Polled(PollAll(s, polls[..|polls| - 1]), polls[|polls| - 1])
  }

  predicate LeftRules(s: Side, polls: seq<Poll>)
    decreases |polls|
  {
    polls != [] &&
    var init := polls[..|polls| - 1];
    LeftRules(s, init) || LeavesRules(PollAll(s, init), polls[|polls| - 1])
  }

  ghost predicate ListsUnique(polls: seq<Poll>) {
    forall p :: p in polls && p.subs.Got? ==> UniqueIds(p.subs.value)
  }

  /**
   Over every run of polls, whatever they meet: the router is in order exactly when
   no poll so far left rules behind, and once one did it is spoiled for good.
   */
  lemma {:induction false} ReconciledUnlessLeft(s: Side, own: seq<Rule>, polls: seq<Poll>)
    requires Reconciled(s, own) && UniqueIds(s.list) && ListsUnique(polls)
    ensures var s' := PollAll(s, polls);
            && UniqueIds(s'.list)
            && (Reconciled(s', own) <==> !LeftRules(s, polls))
            && (LeftRules(s, polls) ==> Spoiled(s', own))
    decreases |polls|
  {
    if polls != [] {
      var init, p := polls[..|polls| - 1], polls[|polls| - 1];
      assert polls == init + [p];
      ReconciledUnlessLeft(s, own, init);
      var before := PollAll(s, init);
      if LeftRules(s, init) {
        SpoiledStays(before, own, p);
      } else {
        PollDecides(before, own, p);
      }
      if LeftRules(s, polls) {
        SpoiledIsNot(PollAll(s, polls), own);
      }
    }
  }

  /**
   At the end of a run, taking the relay down restores the router's own rules
   exactly when nothing was left behind.
   */
  lemma ClosingRestoresIff(s: Side, own: seq<Rule>, polls: seq<Poll>, last: Poll)
    requires Reconciled(s, own) && UniqueIds(s.list) && ListsUnique(polls)
    ensures var s' := PollAll(s, polls);
            TakenDown(s', last).router.rules == own <==>
              !LeftRules(s, polls) && !(s'.relay && last.dropFail < |s'.list|)
  {
    ReconciledUnlessLeft(s, own, polls);
    var s' := PollAll(s, polls);
    if LeftRules(s, polls) {
      SpoiledComesDown(s', own, last);
    } else {
      TakenDownCases(s', own, last);
    }
  }
}
