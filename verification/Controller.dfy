/**
 The controller of a node (controller/controller.go): Start, one poll after the
 other, and Close, with the router and the limiter they keep in step.
 */
module Controller {
  import opened Api
  import opened Commons
  import opened LimiterSync
  import opened NodeManagers
  import opened Polling

  /**
   When the limiter still agrees with the list: always under a new tag, where it is
   rebuilt; otherwise if the emails settle and nothing the protocol refused is missed.
   */
  ghost predicate LimiterKeepsUp(p: Poll, replaced: bool, newTag: bool, o: seq<Subscription>, n: seq<Subscription>) {
    if replaced then newTag || EmailsSettle(o, n)
    else p.subs.Got? ==> EmailsSettle(o, n) && NothingMissed(o, n, p.removeSubs, p.addSubs)
  }

  /** Under `tag`, the limiter has what a rebuild from `list` gives. */
  ghost predicate Holds(limiter: Limiter, tag: string, list: seq<Subscription>)
    reads limiter, limiter.inbound.Values
  {
    && tag in limiter.inbound && limiter.inbound[tag].tag == tag
    && limiter.inbound[tag].subscriptions == Stored(map[], tag, list)
  }

  /** Under `tag`, the limiter goes by these node settings. */
  ghost predicate GoesBy(limiter: Limiter, tag: string, info: NodeInfo)
    reads limiter, limiter.inbound.Values
  {
    && tag in limiter.inbound && limiter.inbound[tag].tag == tag
    && limiter.inbound[tag].nodeSpeedLimit == info.speedLimit && limiter.inbound[tag].ignoreIPs == info.ignoreIPs
  }

  class Controller {
    const nodes: NodeManager
    const limiter: Limiter
    var tag: string
    var nodeInfo: NodeInfo
    var subscriptionList: seq<Subscription>
    var relay: bool
    var relayTag: string

    /** The fields beside this node's part of the router. */
    ghost function State(): Side
      reads this, nodes, nodes.router
    {
      Side(nodes.State(), nodeInfo, subscriptionList, tag, relay, relayTag)
    }

    ghost predicate LimiterMatches()
      reads this, limiter, limiter.inbound.Values
    {
      Holds(limiter, tag, subscriptionList)
    }

    /** A controller before Start: the node has no rule in the router. */
    constructor (nodes: NodeManager, limiter: Limiter, info: NodeInfo)
      requires nodes.Valid() && nodes.relayRules == map[] && nodes.State().rules == []
      ensures this.nodes == nodes && this.limiter == limiter
      ensures !relay && subscriptionList == [] && Reconciled(State(), [])
    {
      this.nodes, this.limiter := nodes, limiter;
      tag, nodeInfo, subscriptionList, relay, relayTag := "", info, [], false, "";
    }

    method SetupRelay(subs: seq<Subscription>, p: Poll) returns (ok: bool)
      requires nodes.Valid()
      modifies this`relay, this`relayTag, nodes, nodes.router
      ensures nodes.Valid()
      ensures State() == SetUp(old(State()), p, subs)
      ensures ok <==> !WantsRelay(nodeInfo) || relay
    {
      if nodeInfo.relayType != 2 || nodeInfo.relayNodeId <= 0 { return true; }
      if relay { return true; }
      if p.transit.None? { return false; }
      relayTag := RelayTag(p.transit.value, nodeInfo);
      ok := nodes.AddRelayTag(relayTag, tag, subs, p.relayFail);
      if !ok { return false; }
      relay := true;
    }

    /** A poll takes the relay down before anything it depends on changes, and only logs what goes wrong. */
    method DropRelay(renew: bool, p: Poll)
      requires nodes.Valid()
      modifies this`relay, this`relayTag, nodes, nodes.router
      ensures nodes.Valid()
      ensures State() == if renew then TakenDown(old(State()), p) else old(State())
    {
      if relay && renew {
        var _ := nodes.RemoveRelayRules(relayTag, subscriptionList, p.dropFail);
        relay, relayTag := false, "";
      }
    }

    /** Start up to the tasks; an answer that is missing makes it fail. */
    method Start(p: Poll) returns (ok: bool)
      requires nodes.Valid()
      requires !relay && Reconciled(State(), [])
      requires p.subs.Got? ==> Proper(p.subs.value)
      modifies this, nodes, nodes.router, limiter
      ensures nodes.Valid()
      ensures fresh(limiter.inbound.Values - old(limiter.inbound.Values))
      ensures ok ==> Proper(subscriptionList) && Reconciled(State(), []) && LimiterMatches()
      ensures ok <==> p.node.Got? && p.subs.Got? && p.addNode && p.addSubs &&
                      (p.node.value.relayType == 2 && p.node.value.relayNodeId > 0 ==>
                         p.transit.Some? && |p.subs.value| <= p.relayFail)
      ensures ok ==> p.node.Got? && nodeInfo == p.node.value && tag == NodeTag(nodeInfo)
      ensures ok ==> p.subs.Got? && subscriptionList == p.subs.value
      ensures ok ==> relay == (nodeInfo.relayType == 2 && nodeInfo.relayNodeId > 0)
      ensures ok ==> GoesBy(limiter, tag, nodeInfo)
      ensures ok ==> AllHeld(limiter.inbound[tag].subscriptions, tag, subscriptionList)
    {
      if !p.node.Got? { return false; }
      nodeInfo := p.node.value;
      tag := NodeTag(nodeInfo);
      if !p.subs.Got? { return false; }
      subscriptionList := p.subs.value;
      if !p.addNode || !p.addSubs { return false; }
      CleanGoesUp(State(), [], p, subscriptionList);
      ok := SetupRelay(subscriptionList, p);
      if !ok { return false; }
      limiter.AddLimiter(tag, nodeInfo.speedLimit, nodeInfo.ignoreIPs, subscriptionList);
    }

    /** The limiter after the inbound was replaced, possibly under another tag. */
    method RebuildLimiter(oldTag: string, newSubs: seq<Subscription>)
      requires Proper(subscriptionList) && Proper(newSubs)
      modifies limiter, limiter.inbound.Values
      ensures fresh(limiter.inbound.Values - old(limiter.inbound.Values))
      ensures oldTag != tag ==> Holds(limiter, tag, newSubs) && oldTag !in limiter.inbound
      ensures oldTag != tag || old(tag in limiter.inbound && limiter.inbound[tag].tag == tag) ==>
                GoesBy(limiter, tag, nodeInfo)
      ensures oldTag == tag && old(LimiterMatches()) ==>
              (Holds(limiter, tag, newSubs) <==> EmailsSettle(subscriptionList, newSubs))
    {
      if oldTag != tag {
        limiter.DeleteLimiter(oldTag);
        limiter.AddLimiter(tag, nodeInfo.speedLimit, nodeInfo.ignoreIPs, newSubs);
      } else if tag in limiter.inbound {
        var info := limiter.inbound[tag];
        info.UpdateNodeInfo(nodeInfo.speedLimit, nodeInfo.ignoreIPs);
        ghost var _ := info.ApplyDiff(subscriptionList, newSubs, true, true, true);
      }
    }

    method SyncLimiter(newSubs: seq<Subscription>, p: Poll, ghost oldInfo: NodeInfo)
      requires Proper(subscriptionList) && Proper(newSubs)
      modifies limiter.inbound.Values
      ensures old(GoesBy(limiter, tag, oldInfo)) && (p.node.Got? || nodeInfo == oldInfo) ==>
              GoesBy(limiter, tag, nodeInfo)
      ensures old(LimiterMatches()) && !p.subs.Got? ==> LimiterMatches()
      ensures old(LimiterMatches()) && p.subs.Got? ==>
                (Holds(limiter, tag, newSubs) <==>
                   EmailsSettle(subscriptionList, newSubs) &&
                   NothingMissed(subscriptionList, newSubs, p.removeSubs, p.addSubs))
    {
      if tag in limiter.inbound {
        var info := limiter.inbound[tag];
        if p.node.Got? {
          info.UpdateNodeInfo(nodeInfo.speedLimit, nodeInfo.ignoreIPs);
        }
        if p.subs.Got? {
          ghost var _ := info.ApplyDiff(subscriptionList, newSubs, p.removeSubs, p.addSubs, p.replaceSubs);
        }
      }
    }

    /** The branch of a poll that replaces the inbound. */
    method ReplaceInbound(p: Poll, newInfo: NodeInfo, newSubs: seq<Subscription>) returns (failed: bool)
      requires nodes.Valid()
      requires Proper(subscriptionList) && Proper(newSubs) && !relay
      modifies this`tag, this`nodeInfo, this`relay, this`relayTag, nodes, nodes.router, limiter, limiter.inbound.Values
      ensures nodes.Valid()
      ensures fresh(limiter.inbound.Values - old(limiter.inbound.Values))
      ensures failed <==> !(p.removeNode && p.addNode)
      ensures State() == if failed then old(State())
                         else SetUp(old(State()).(info := newInfo, tag := NodeTag(newInfo)), p, newSubs)
      ensures old(GoesBy(limiter, tag, nodeInfo)) ==> GoesBy(limiter, tag, nodeInfo)
      ensures failed && old(LimiterMatches()) ==> LimiterMatches()
      ensures !failed && old(LimiterMatches()) ==>
                (Holds(limiter, tag, newSubs) <==> LimiterKeepsUp(p, true, old(tag) != tag, subscriptionList, newSubs))
    {
      var oldTag, oldInfo := tag, nodeInfo;
      nodeInfo, tag := newInfo, NodeTag(newInfo);
      if !p.removeNode || !p.addNode {
        nodeInfo, tag := oldInfo, oldTag;
        return true;
      }
      var _ := SetupRelay(newSubs, p);
      RebuildLimiter(oldTag, newSubs);
      failed := false;
    }

    /** The other branch: the inbound stays, its users and the relay follow the list. */
    method FollowList(p: Poll, newInfo: NodeInfo, newSubs: seq<Subscription>)
      requires nodes.Valid()
      requires Proper(subscriptionList) && Proper(newSubs)
      modifies this`nodeInfo, this`relay, this`relayTag, nodes, nodes.router, limiter.inbound.Values
      ensures nodes.Valid()
      ensures var s := old(State()).(info := if p.node.Got? then newInfo else old(nodeInfo));
              State() == if p.subs.Got? then SetUp(s, p, newSubs) else s
      ensures old(GoesBy(limiter, tag, nodeInfo)) ==> GoesBy(limiter, tag, nodeInfo)
      ensures old(LimiterMatches()) && !p.subs.Got? ==> LimiterMatches()
      ensures old(LimiterMatches()) && p.subs.Got? ==>
                (Holds(limiter, tag, newSubs) <==> LimiterKeepsUp(p, false, false, subscriptionList, newSubs))
    {
      ghost var oldInfo := nodeInfo;
      if p.node.Got? {
        nodeInfo := newInfo;
      }
      SyncLimiter(newSubs, p, oldInfo);
      if p.subs.Got? {
        var _ := SetupRelay(newSubs, p);
      }
    }

    /** A poll with all its answers in. */
    method Apply(p: Poll, structural: bool, newInfo: NodeInfo, newSubs: seq<Subscription>) returns (failed: bool)
      requires nodes.Valid()
      requires Proper(subscriptionList) && Proper(newSubs)
      modifies this, nodes, nodes.router, limiter, limiter.inbound.Values
      ensures nodes.Valid()
      ensures fresh(limiter.inbound.Values - old(limiter.inbound.Values))
      ensures failed <==> structural && !(p.removeNode && p.addNode)
      ensures var renew := structural || p.subs.Got?;
              var down := if renew then TakenDown(old(State()), p) else old(State());
              var moved := down.(info := if structural || p.node.Got? then newInfo else down.info,
                                 tag := if structural then NodeTag(newInfo) else down.tag);
              State() == if failed then down
                         else (if renew then SetUp(moved, p, newSubs) else moved).(list := newSubs)
      ensures old(GoesBy(limiter, tag, nodeInfo)) ==> GoesBy(limiter, tag, nodeInfo)
      ensures failed && old(LimiterMatches()) ==> LimiterMatches()
      ensures !failed && old(LimiterMatches()) && (structural || p.subs.Got?) ==>
                (LimiterMatches() <==> LimiterKeepsUp(p, structural, old(tag) != tag, old(subscriptionList), newSubs))
      ensures !failed && old(LimiterMatches()) && !(structural || p.subs.Got?) ==>
                Holds(limiter, tag, old(subscriptionList))
    {
      DropRelay(structural || p.subs.Got?, p);
      if structural {
        failed := ReplaceInbound(p, newInfo, newSubs);
      } else {
        FollowList(p, newInfo, newSubs);
        failed := false;
      }
      if !failed {
        subscriptionList := newSubs;
      }
    }

    /** One poll, from any state, one that earlier polls left in disorder included. */
    method ApiMonitor(p: Poll) returns (failed: bool)
      requires nodes.Valid()
      requires Proper(subscriptionList) && (p.subs.Got? ==> Proper(p.subs.value))
      modifies this, nodes, nodes.router, limiter, limiter.inbound.Values
      ensures nodes.Valid()
      ensures fresh(limiter.inbound.Values - old(limiter.inbound.Values))
      ensures Proper(subscriptionList) && State() == Polled(old(State()), p)
      ensures failed <==> p.node.Got? && !p.subs.Failed? && ChangedStructurally(old(nodeInfo), p.node.value) &&
                          !(p.removeNode && p.addNode)
      ensures Outcome(old(State()), p, State())
      ensures old(GoesBy(limiter, tag, nodeInfo)) ==> GoesBy(limiter, tag, nodeInfo)
      ensures p.node.Failed? || p.subs.Failed? ==>
              unchanged(this) && unchanged(nodes) && unchanged(nodes.router) && unchanged(limiter)
      ensures old(Reconciled(State(), [])) ==> (Reconciled(State(), []) <==> !LeavesRules(old(State()), p))
      ensures old(LimiterMatches()) ==>
                (LimiterMatches() <==>
                   (Completes(p, old(nodeInfo)) ==>
                      LimiterKeepsUp(p, Rebuilds(p, old(nodeInfo)), old(tag) != tag,
                                     old(subscriptionList), subscriptionList)))
    {
      if Unanswered(p) { return false; }
      var newInfo := InfoAfter(p, nodeInfo);
      var newSubs := ListAfter(p, subscriptionList);
      var structural := p.node.Got? && ChangedStructurally(nodeInfo, newInfo);
      failed := Apply(p, structural, newInfo, newSubs);
      PollKeepsOrderIff(old(State()), [], p);
      PollOutcome(old(State()), p);
    }

    /**
     A run: Start, and then any number of polls, each finding whatever it finds. The
     router has its own rules and one per current subscription, when the relay is up,
     exactly when no poll left rules behind. The limiter is what a rebuild would
     give as long as emails stay with their ids and the protocol takes every change.
     */
    method Monitor(first: Poll, polls: seq<Poll>, ghost emails: map<int, string>)
      returns (ok: bool, ghost started: Side)
      requires nodes.Valid()
      requires !relay && Reconciled(State(), [])
      requires forall p :: p in [first] + polls && p.subs.Got? ==> Proper(p.subs.value)
      modifies this, nodes, nodes.router, limiter, limiter.inbound.Values
      ensures nodes.Valid()
      ensures ok ==> Reconciled(started, []) && State() == PollAll(started, polls)
      ensures ok ==> first.subs.Got? && started.list == first.subs.value
      ensures ok ==> (Reconciled(State(), []) <==> !LeftRules(started, polls))
      ensures ok ==> GoesBy(limiter, tag, nodeInfo)
      ensures ok && (forall p :: p in [first] + polls ==> Steady(p, emails)) ==>
                LimiterMatches() && AllHeld(limiter.inbound[tag].subscriptions, tag, subscriptionList)
    {
      ghost var all := [first] + polls;
      assert first in all && forall p :: p in polls ==> p in all;
      ok := Start(first);
      started := State();
      if !ok { return; }
      PollThrough(polls, emails);
      StoredFinds(map[], tag, subscriptionList);
      ReconciledUnlessLeft(started, [], polls);
    }

    /** The polls of a run, one after the other. */
    method PollThrough(polls: seq<Poll>, ghost emails: map<int, string>)
      requires nodes.Valid()
      requires Proper(subscriptionList)
      requires forall p :: p in polls && p.subs.Got? ==> Proper(p.subs.value)
      modifies this, nodes, nodes.router, limiter, limiter.inbound.Values
      ensures nodes.Valid() && Proper(subscriptionList)
      ensures old(GoesBy(limiter, tag, nodeInfo)) ==> GoesBy(limiter, tag, nodeInfo)
      ensures State() == PollAll(old(State()), polls)
      ensures old(LimiterMatches() && FixedIds(subscriptionList, emails)) &&
              (forall p :: p in polls ==> Steady(p, emails)) ==>
                LimiterMatches()
    {
      ghost var steady :=
        LimiterMatches() && FixedIds(subscriptionList, emails) && forall p :: p in polls ==> Steady(p, emails);
      for i := 0 to |polls|
        invariant nodes.Valid() && Proper(subscriptionList) && State() == PollAll(old(State()), polls[..i])
        invariant old(GoesBy(limiter, tag, nodeInfo)) ==> GoesBy(limiter, tag, nodeInfo)
        invariant steady ==> LimiterMatches() && FixedIds(subscriptionList, emails)
        invariant fresh(limiter.inbound.Values - old(limiter.inbound.Values))
      {
        assert polls[i] in polls && polls[..i + 1][..i] == polls[..i];
        PollNext(polls[i], emails);
      }
      assert polls[..|polls|] == polls;
    }

    /**
     A poll that meets nothing worse than a refused inbound leaves the limiter in
     step, even when it stops half way.
     */
    method PollNext(p: Poll, ghost emails: map<int, string>)
      requires nodes.Valid()
      requires Proper(subscriptionList) && (p.subs.Got? ==> Proper(p.subs.value))
      modifies this, nodes, nodes.router, limiter, limiter.inbound.Values
      ensures nodes.Valid()
      ensures Proper(subscriptionList) && State() == Polled(old(State()), p)
      ensures old(GoesBy(limiter, tag, nodeInfo)) ==> GoesBy(limiter, tag, nodeInfo)
      ensures old(LimiterMatches() && FixedIds(subscriptionList, emails)) && Steady(p, emails) ==>
                LimiterMatches() && FixedIds(subscriptionList, emails)
      ensures fresh(limiter.inbound.Values - old(limiter.inbound.Values))
    {
      var failed := ApiMonitor(p);
      PollOutcome(old(State()), p);
      if FixedIds(old(subscriptionList), emails) && Steady(p, emails) {
        FixedIdsSettle(old(subscriptionList), subscriptionList, emails);
      }
    }

    /** The end. Where the router was in order and can be reached, it is left with its own rules. */
    method Close(p: Poll)
      requires nodes.Valid()
      modifies nodes, nodes.router, limiter
      ensures nodes.Valid()
      ensures nodes.State() == TakenDown(old(State()), p).router
      ensures old(Reconciled(State(), [])) && UniqueIds(subscriptionList) ==>
                (nodes.State().rules == [] <==> !(relay && p.dropFail < |subscriptionList|))
      ensures limiter.inbound == old(limiter.inbound) - {tag}
    {
      limiter.DeleteLimiter(tag);
      if Reconciled(State(), []) && UniqueIds(subscriptionList) {
        TakenDownRestoresIff(State(), [], p);
      }
      if relay {
        var _ := nodes.RemoveRelayRules(relayTag, subscriptionList, p.dropFail);
      }
    }
  }

  /** Emails fixed per id. */
  ghost predicate FixedIds(list: seq<Subscription>, emails: map<int, string>) {
    forall s :: s in list ==> s.id in emails && emails[s.id] == s.email
  }

  /** The panel keeps emails with their ids, and the protocol takes every change of the list. */
  ghost predicate Steady(p: Poll, emails: map<int, string>) {
    (p.subs.Got? ==> FixedIds(p.subs.value, emails)) && p.removeSubs && p.addSubs
  }

  lemma FixedIdsSettle(o: seq<Subscription>, n: seq<Subscription>, emails: map<int, string>)
    requires FixedIds(o, emails) && FixedIds(n, emails)
    ensures EmailsSettle(o, n) && NothingMissed(o, n, true, true)
  {
    assert EmailsFixed(o, n);
    FixedEmailsSettle(o, n);
  }
}
