/**
 One accounting cycle of a node: DrainDeltas (limiter/limiter.go) followed by
 reportTraffic, and the conservation law it keeps (subscription/manager.go).
 */
module TrafficMonitor {
  import opened Commons
  import opened Traffic
  import opened TrafficReport

  // ---------------------------------------------------------------- the law

  /** What the panel has been told about one subscription. */
  function Reported(received: seq<Record>, id: int, d: Dir): int
    decreases |received|
  {
    if received == [] then 0 else
    var last := received[|received| - 1];
    Reported(received[..|received| - 1], id, d)
      + (if last.id != id then 0 else if d.Up? then last.upload else last.download)
  }

  lemma {:induction false} ReportedConcat(a: seq<Record>, b: seq<Record>, id: int, d: Dir)
    ensures Reported(a + b, id, d) == Reported(a, id, d) + Reported(b, id, d)
    decreases |b|
  {
    if b == [] {
      assert a + b == a;
    } else {
      assert (a + b)[..|a + b| - 1] == a + b[..|b| - 1];
      ReportedConcat(a, b[..|b| - 1], id, d);
    }
  }

  /** Ids and counters belong together: subscription keys have different ids. */
  ghost predicate UniqueIds(subs: map<string, int>) {
    forall a, b :: a in subs && b in subs && a != b ==> subs[a] != subs[b]
  }

  /** Every byte ever added for a subscription is reported or still in its counter. */
  ghost predicate Conserved(v: View, subs: map<string, int>, received: seq<Record>) {
    forall e, d :: e in subs ==> ConservedAt(v, subs[e], received, e, d)
  }

  ghost predicate ConservedAt(v: View, id: int, received: seq<Record>, e: string, d: Dir) {
    Added(v, e, d) == Reported(received, id, d) + Current(v, e, d)
  }

  ghost predicate NonNegative(v: View) { forall e, d :: NonNegativeAt(v, e, d) }

  ghost predicate NonNegativeAt(v: View, e: string, d: Dir) { Current(v, e, d) >= 0 }

  /** Every byte ever added for e has been taken by `settled` or is still in the counter. */
  ghost predicate Balanced(v: View, settled: seq<PendingCounter>) {
    forall e, d :: BalancedAt(v, settled, e, d)
  }

  ghost predicate BalancedAt(v: View, settled: seq<PendingCounter>, e: string, d: Dir) {
    Added(v, e, d) == Taken(settled, e, d) + Current(v, e, d)
  }

  /** Each record was drained, non-negative, from the counter of the subscription whose id it carries. */
  ghost predicate From(p: Pending, subs: map<string, int>) {
    Aligned(p) && forall i :: 0 <= i < |p.result| ==> FromOne(p.result[i], p.counters[i], subs)
  }

  ghost predicate FromOne(r: Record, c: PendingCounter, subs: map<string, int>) {
    c.storage.email in subs && r.id == subs[c.storage.email] && c.up >= 0 && c.down >= 0
  }

  /** What the records tell the panel about e is what their counters take from e. */
  lemma {:induction false} TakenIsReported(p: Pending, subs: map<string, int>, e: string, d: Dir)
    requires From(p, subs) && UniqueIds(subs) && e in subs
    ensures Taken(p.counters, e, d) == Reported(p.result, subs[e], d)
    decreases |p.result|
  {
    if |p.result| > 0 {
      var n := |p.result| - 1;
      var init := Pending(p.result[..n], p.counters[..n]);
      assert From(init, subs) by {
        forall i | 0 <= i < n
          ensures Matching(init.result[i], init.counters[i]) && FromOne(init.result[i], init.counters[i], subs)
        {
          assert Matching(p.result[i], p.counters[i]) && FromOne(p.result[i], p.counters[i], subs);
        }
      }
      TakenIsReported(init, subs, e, d);
      assert Matching(p.result[n], p.counters[n]) && FromOne(p.result[n], p.counters[n], subs);
    }
  }

  /**
   Conservation over any stretch of time: if the counters lost exactly what the
   delivered records say, the law survives, whatever connections added meanwhile.
   */
  lemma ConservationKept(v: View, v': View, subs: map<string, int>, received: seq<Record>, delivered: Pending)
    requires Conserved(v, subs, received) && UniqueIds(subs)
    requires From(delivered, subs) && Advanced(v, v', delivered.counters)
    ensures Conserved(v', subs, received + delivered.result)
  {
    forall e, d | e in subs ensures ConservedAt(v', subs[e], received + delivered.result, e, d) {
      assert ConservedAt(v, subs[e], received, e, d);
      assert AdvancedAt(v, v', delivered.counters, e, d);
      TakenIsReported(delivered, subs, e, d);
      ReportedConcat(received, delivered.result, subs[e], d);
    }
  }

  /** The balance of every user survives any stretch of time: connections only add, settlement only moves. */
  lemma BalanceKept(v: View, v': View, settled: seq<PendingCounter>, delivered: seq<PendingCounter>)
    requires Balanced(v, settled) && Advanced(v, v', delivered)
    ensures Balanced(v', settled + delivered)
  {
    forall e, d ensures BalancedAt(v', settled + delivered, e, d) {
      assert BalancedAt(v, settled, e, d) && AdvancedAt(v, v', delivered, e, d);
      TakenConcat(settled, delivered, e, d);
    }
  }

  /**
   What was taken from the counters is what the panel was told, user by user, as
   long as an id has stood for one key: then the balance is conservation.
   */
  lemma BalancedIsConserved(v: View, ids: map<string, int>, settled: Pending)
    requires Balanced(v, settled.counters) && From(settled, ids) && UniqueIds(ids)
    ensures Conserved(v, ids, settled.result)
  {
    forall e, d | e in ids ensures ConservedAt(v, ids[e], settled.result, e, d) {
      assert BalancedAt(v, settled.counters, e, d);
      TakenIsReported(settled, ids, e, d);
    }
  }

  ghost predicate Within(subs: map<string, int>, ids: map<string, int>) {
    forall e :: e in subs ==> e in ids && ids[e] == subs[e]
  }

  lemma FromWithin(p: Pending, subs: map<string, int>, ids: map<string, int>)
    requires From(p, subs) && Within(subs, ids)
    ensures From(p, ids)
  {
    forall i | 0 <= i < |p.result| ensures FromOne(p.result[i], p.counters[i], ids) {
      assert FromOne(p.result[i], p.counters[i], subs);
    }
  }

  lemma AlignedAppend(p: Pending, q: Pending)
    requires Aligned(p) && Aligned(q)
    ensures Aligned(Append(p, q))
  {
    var r := Append(p, q);
    forall i | 0 <= i < |r.result| ensures Matching(r.result[i], r.counters[i]) {
      assert i < |p.result| ==> Matching(p.result[i], p.counters[i]);
      assert i >= |p.result| ==> Matching(q.result[i - |p.result|], q.counters[i - |p.result|]);
    }
  }

  lemma FromAppend(p: Pending, q: Pending, ids: map<string, int>)
    requires From(p, ids) && From(q, ids)
    ensures From(Append(p, q), ids)
  {
    var r := Append(p, q);
    forall i | 0 <= i < |r.result|
      ensures Matching(r.result[i], r.counters[i]) && FromOne(r.result[i], r.counters[i], ids)
    {
      if i < |p.result| {
        assert Matching(p.result[i], p.counters[i]) && FromOne(p.result[i], p.counters[i], ids);
      } else {
        var j := i - |p.result|;
        assert Matching(q.result[j], q.counters[j]) && FromOne(q.result[j], q.counters[j], ids);
      }
    }
  }

  /** A record that is delivered and one that is kept were both drained. */
  lemma PartsFrom(p: Pending, delivered: Pending, kept: Pending, subs: map<string, int>)
    requires From(p, subs) && Partition(p, delivered, kept)
    ensures From(delivered, subs) && From(kept, subs)
  {
    forall i | 0 <= i < |delivered.result|
      ensures Matching(delivered.result[i], delivered.counters[i]) &&
              FromOne(delivered.result[i], delivered.counters[i], subs)
    {
      PartFromOne(p, Items(delivered)[i], subs, multiset(Items(delivered)) + multiset(Items(kept)));
    }
    forall i | 0 <= i < |kept.result|
      ensures Matching(kept.result[i], kept.counters[i]) && FromOne(kept.result[i], kept.counters[i], subs)
    {
      PartFromOne(p, Items(kept)[i], subs, multiset(Items(delivered)) + multiset(Items(kept)));
    }
  }

  lemma PartFromOne(p: Pending, item: Item, subs: map<string, int>, items: multiset<Item>)
    requires From(p, subs) && multiset(Items(p)) == items && item in items
    ensures Matching(item.0, item.1) && FromOne(item.0, item.1, subs)
  {
    assert item in Items(p);
    var i :| 0 <= i < |Items(p)| && Items(p)[i] == item;
    assert Matching(p.result[i], p.counters[i]) && FromOne(p.result[i], p.counters[i], subs);
  }

  // ---------------------------------------------------------------- draining

  /** Each subscription is drained of at least what it held at the start and at most what it holds at the end. */
  ghost predicate Drained(v: View, v': View, subs: set<string>, cs: seq<PendingCounter>) {
    forall e, d :: DrainedAt(v, v', subs, cs, e, d)
  }

  ghost predicate DrainedAt(v: View, v': View, subs: set<string>, cs: seq<PendingCounter>, e: string, d: Dir) {
    if e in subs then Current(v, e, d) <= Taken(cs, e, d) <= Current(v', e, d) else Taken(cs, e, d) == 0
  }

  /** One atomic load, with connections running before it. */
  method Load(tc: TrafficCounter, email: string, d: Dir) returns (n: int)
    requires tc.Valid()
    modifies tc, tc.counters.Values
    ensures tc.Valid() && tc.Kept(old(tc.counters)) && Advanced(old(tc.View()), tc.View(), [])
    ensures n == Current(tc.View(), email, d)
  {
    tc.Connections();
    if d.Up? { n := tc.GetUpCount(email); } else { n := tc.GetDownCount(email); }
  }

  method Fetch(tc: TrafficCounter, email: string) returns (s: TrafficStorage)
    requires tc.Valid()
    modifies tc, tc.counters.Values
    ensures tc.Valid() && tc.Kept(old(tc.counters)) && Advanced(old(tc.View()), tc.View(), [])
    ensures email in tc.counters && tc.counters[email] == s
  {
    tc.Connections();
    ghost var before := tc.View();
    s := tc.GetCounter(email);
    GrownThen(old(tc.View()), before, tc.View(), []);
  }

  lemma Rising(v: View, v': View, e: string)
    requires Advanced(v, v', [])
    ensures forall d :: Current(v, e, d) <= Current(v', e, d)
  {
    forall d ensures Current(v, e, d) <= Current(v', e, d) {
      assert AdvancedAt(v, v', [], e, d);
    }
  }

  method ReadBoth(tc: TrafficCounter, email: string) returns (up: int, down: int)
    requires tc.Valid() && NonNegative(tc.View())
    modifies tc, tc.counters.Values
    ensures tc.Valid() && tc.Kept(old(tc.counters)) && Advanced(old(tc.View()), tc.View(), [])
    ensures up >= 0 && down >= 0
    ensures forall d :: Current(old(tc.View()), email, d) <= Half(up, down, d) <= Current(tc.View(), email, d)
  {
    ghost var v0 := tc.View();
    up := Load(tc, email, Up);
    ghost var v1 := tc.View();
    down := Load(tc, email, Down);
    GrownThen(v0, v1, tc.View(), []);
    ReadBetween(v0, v1, tc.View(), email, up, down);
  }

  /** One subscription: read up, read down, and only if either is non-zero fetch the storage. */
  method DrainOne(tc: TrafficCounter, email: string, id: int) returns (drained: Option<Item>)
    requires tc.Valid() && NonNegative(tc.View())
    modifies tc, tc.counters.Values
    ensures tc.Valid() && tc.Kept(old(tc.counters)) && Advanced(old(tc.View()), tc.View(), [])
    ensures drained.Some? ==> var (r, c) := drained.value;
      r == Record(id, c.up, c.down) && c.up >= 0 && c.down >= 0 && c.storage.email == email && Owned(tc, [c])
    ensures forall d :: Current(old(tc.View()), email, d) <= ItemPart(drained, email, d) <= Current(tc.View(), email, d)
  {
    ghost var v0 := tc.View();
    var up, down := ReadBoth(tc, email);
    if up == 0 && down == 0 {
      return None;
    }
    ghost var v2 := tc.View();
    var storage := Fetch(tc, email);
    GrownThen(v0, v2, tc.View(), []);
    Rising(v2, tc.View(), email);
    drained := Some((Record(id, up, down), PendingCounter(storage, up, down)));
  }

  function Half(up: int, down: int, d: Dir): int { if d.Up? then up else down }

  /** The two loads happen at different moments; each direction is read between the first and the last. */
  lemma ReadBetween(v0: View, v1: View, v2: View, email: string, up: int, down: int)
    requires NonNegative(v0) && Advanced(v0, v1, []) && Advanced(v1, v2, [])
    requires up == Current(v1, email, Up) && down == Current(v2, email, Down)
    ensures up >= 0 && down >= 0
    ensures forall d :: Current(v0, email, d) <= Half(up, down, d) <= Current(v2, email, d)
  {
    Rising(v0, v1, email);
    Rising(v1, v2, email);
    assert NonNegativeAt(v0, email, Up) && NonNegativeAt(v0, email, Down);
  }

  ghost function ItemPart(item: Option<Item>, e: string, d: Dir): int {
    if item.None? then 0 else Part(item.value.1, e, d)
  }

  lemma DrainedMore(v0: View, v1: View, v2: View, done: set<string>, cs: seq<PendingCounter>, email: string,
                    drained: Option<Item>)
    requires Drained(v0, v1, done, cs) && email !in done
    requires Advanced(v0, v1, []) && Advanced(v1, v2, [])
    requires drained.Some? ==> drained.value.1.storage.email == email
    requires forall d :: Current(v1, email, d) <= ItemPart(drained, email, d) <= Current(v2, email, d)
    ensures Drained(v0, v2, done + {email}, if drained.Some? then cs + [drained.value.1] else cs)
  {
    var cs' := if drained.Some? then cs + [drained.value.1] else cs;
    forall e, d ensures DrainedAt(v0, v2, done + {email}, cs', e, d) {
      assert DrainedAt(v0, v1, done, cs, e, d) && AdvancedAt(v0, v1, [], e, d) && AdvancedAt(v1, v2, [], e, d);
      if drained.Some? {
        TakenConcat(cs, [drained.value.1], e, d);
        TakenOne(drained.value.1, e, d);
      }
    }
  }

  /** The result with one more item, if the subscription had any traffic. */
  function With(p: Pending, item: Option<Item>): Pending {
    if item.None? then p else Pending(p.result + [item.value.0], p.counters + [item.value.1])
  }

  lemma WithFrom(p: Pending, item: Option<Item>, email: string, subs: map<string, int>)
    requires From(p, subs) && email in subs
    requires item.Some? ==> var (r, c) := item.value;
      r == Record(subs[email], c.up, c.down) && c.up >= 0 && c.down >= 0 && c.storage.email == email
    ensures From(With(p, item), subs)
  {
  }

  /** Visits the subscriptions in any order; connections run throughout. */
  method DrainDeltas(tc: TrafficCounter, subs: map<string, int>) returns (pending: Option<Pending>)
    requires tc.Valid() && NonNegative(tc.View())
    modifies tc, tc.counters.Values
    ensures tc.Valid() && tc.Kept(old(tc.counters)) && Advanced(old(tc.View()), tc.View(), [])
    ensures var p := if pending.Some? then pending.value else EMPTY;
      Owned(tc, p.counters) && From(p, subs) && Drained(old(tc.View()), tc.View(), subs.Keys, p.counters)
    ensures pending.Some? ==> |pending.value.result| > 0
  {
    var p := EMPTY;
    var todo := subs.Keys;
    while todo != {}
      invariant todo <= subs.Keys
      invariant tc.Valid() && tc.Kept(old(tc.counters)) && Advanced(old(tc.View()), tc.View(), [])
      invariant NonNegative(tc.View()) && Owned(tc, p.counters) && From(p, subs)
      invariant Drained(old(tc.View()), tc.View(), subs.Keys - todo, p.counters)
      decreases |todo|
    {
      var email :| email in todo;
      ghost var before := tc.View();
      var drained := DrainOne(tc, email, subs[email]);
      DrainedMore(old(tc.View()), before, tc.View(), subs.Keys - todo, p.counters, email, drained);
      GrownThen(old(tc.View()), before, tc.View(), []);
      StillNonNegative(before, tc.View());
      WithFrom(p, drained, email, subs);
      assert subs.Keys - todo + {email} == subs.Keys - (todo - {email});
      todo := todo - {email};
      p := With(p, drained);
    }
    assert subs.Keys - todo == subs.Keys;
    pending := if |p.result| == 0 then None else Some(p);
  }

  lemma StillNonNegative(v: View, v': View)
    requires NonNegative(v) && Advanced(v, v', [])
    ensures NonNegative(v')
  {
    forall e, d ensures NonNegativeAt(v', e, d) {
      assert NonNegativeAt(v, e, d) && AdvancedAt(v, v', [], e, d);
    }
  }

  // ---------------------------------------------------------------- the cycle

  lemma {:induction false} TakenNonNegative(p: Pending, subs: map<string, int>, e: string, d: Dir)
    requires From(p, subs)
    ensures Taken(p.counters, e, d) >= 0
    decreases |p.result|
  {
    if |p.result| > 0 {
      var n := |p.result| - 1;
      var init := Pending(p.result[..n], p.counters[..n]);
      assert From(init, subs) by {
        forall i | 0 <= i < n
          ensures Matching(init.result[i], init.counters[i]) && FromOne(init.result[i], init.counters[i], subs)
        {
          assert Matching(p.result[i], p.counters[i]) && FromOne(p.result[i], p.counters[i], subs);
        }
      }
      TakenNonNegative(init, subs, e, d);
      assert FromOne(p.result[n], p.counters[n], subs);
    }
  }

  /** Subtracting what was drained, or any part of it, never takes a counter below zero. */
  lemma SettlingKeepsNonNegative(v0: View, v1: View, v2: View, subs: map<string, int>,
                                 p: Pending, delivered: Pending, kept: Pending)
    requires NonNegative(v1) && Drained(v0, v1, subs.Keys, p.counters) && From(p, subs)
    requires Partition(p, delivered, kept) && Advanced(v1, v2, delivered.counters)
    ensures NonNegative(v2)
  {
    PartsFrom(p, delivered, kept, subs);
    forall e, d ensures NonNegativeAt(v2, e, d) {
      assert NonNegativeAt(v1, e, d) && DrainedAt(v0, v1, subs.Keys, p.counters, e, d);
      assert TakenSplits(p, delivered, kept, e, d) && AdvancedAt(v1, v2, delivered.counters, e, d);
      TakenNonNegative(kept, subs, e, d);
    }
  }

  /** A cycle that keeps nothing back has taken, and reported, at least what every counter held when it started. */
  lemma CompleteCycle(v0: View, v1: View, subs: map<string, int>, p: Pending, delivered: Pending)
    requires From(p, subs) && Drained(v0, v1, subs.Keys, p.counters) && Partition(p, delivered, EMPTY)
    ensures forall e, d :: e in subs ==> Current(v0, e, d) <= Taken(delivered.counters, e, d)
    ensures UniqueIds(subs) ==> forall e, d :: e in subs ==> Current(v0, e, d) <= Reported(delivered.result, subs[e], d)
  {
    PartsFrom(p, delivered, EMPTY, subs);
    forall e, d | e in subs
      ensures Current(v0, e, d) <= Taken(delivered.counters, e, d)
      ensures UniqueIds(subs) ==> Current(v0, e, d) <= Reported(delivered.result, subs[e], d)
    {
      assert DrainedAt(v0, v1, subs.Keys, p.counters, e, d) && TakenSplits(p, delivered, EMPTY, e, d);
      if UniqueIds(subs) { TakenIsReported(delivered, subs, e, d); }
    }
  }

  /**
   The traffic half of SubscriptionMonitor, with whatever map the limiter holds.
   Whatever connections do and whichever calls fail, the counters lose exactly what
   the records the panel received were drained from, and none goes negative.
   */
  method MonitorTraffic(tc: TrafficCounter, subs: map<string, int>, pusher: bool, outcome: Outcome)
    returns (received: seq<Record>, ghost delivered: Pending, ghost kept: Pending)
    requires tc.Valid() && NonNegative(tc.View())
    modifies tc, tc.counters.Values
    ensures tc.Valid() && tc.Kept(old(tc.counters)) && NonNegative(tc.View())
    ensures received == delivered.result && From(delivered, subs)
    ensures Advanced(old(tc.View()), tc.View(), delivered.counters)
    ensures outcome.http || (pusher && forall k: nat :: outcome.push(k)) ==> kept == EMPTY
    ensures kept == EMPTY ==>
            forall e, d :: e in subs ==> Current(old(tc.View()), e, d) <= Taken(delivered.counters, e, d)
  {
    ghost var v0 := tc.View();
    var pending := DrainDeltas(tc, subs);
    ghost var v1 := tc.View();
    ghost var p := if pending.Some? then pending.value else EMPTY;
    StillNonNegative(v0, v1);
    received, delivered, kept := [], EMPTY, EMPTY;
    if pending.Some? {
      received, delivered, kept := ReportTraffic(tc, pending.value, pusher, outcome);
    }
    AdvancedThen(v0, v1, tc.View(), [], delivered.counters);
    assert [] + delivered.counters == delivered.counters;
    PartsFrom(p, delivered, kept, subs);
    SettlingKeepsNonNegative(v0, v1, tc.View(), subs, p, delivered, kept);
    if kept == EMPTY { CompleteCycle(v0, v1, subs, p, delivered); }
  }

  /** Every cycle draws on the ids of one map. */
  ghost predicate AllWithin(cycles: seq<map<string, int>>, ids: map<string, int>) {
    forall subs :: subs in cycles ==> Within(subs, ids)
  }

  /**
   Every run of the periodic task, from any state of the counters: `before` is what has
   been settled so far. Each cycle finds the limiter with the map polls have left it, and
   its calls come out as they may. Every byte ever added for a user is in a counter of a
   delivered record or still in the user's own, and with any cycle that gets through, all
   that the counters of its users held at the start has been settled. Where each id has
   stood for one key throughout, that is conservation in the panel's terms.
   */
  method MonitorForever(tc: TrafficCounter, cycles: seq<map<string, int>>, pusher: bool, outcomes: nat -> Outcome,
                        ghost before: Pending, ghost ids: map<string, int>)
    returns (history: seq<Record>, ghost settled: Pending)
    requires tc.Valid() && NonNegative(tc.View()) && Aligned(before) && Balanced(tc.View(), before.counters)
    modifies tc, tc.counters.Values
    ensures tc.Valid() && tc.Kept(old(tc.counters)) && NonNegative(tc.View())
    ensures history == settled.result && Aligned(settled)
    ensures Advanced(old(tc.View()), tc.View(), settled.counters)
    ensures Balanced(tc.View(), before.counters + settled.counters)
    ensures forall i :: 0 <= i < |cycles| && outcomes(i).http ==>
              TakesAll(old(tc.View()), cycles[i].Keys, settled.counters)
    ensures AllWithin(cycles, ids) && From(before, ids) ==> From(Append(before, settled), ids)
    ensures AllWithin(cycles, ids) && From(before, ids) && UniqueIds(ids) ==>
              Conserved(tc.View(), ids, before.result + history)
  {
    history, settled := [], EMPTY;
    assert before.counters + [] == before.counters && Append(before, EMPTY) == before;
    for i := 0 to |cycles|
      invariant tc.Valid() && tc.Kept(old(tc.counters)) && NonNegative(tc.View())
      invariant history == settled.result && Aligned(settled)
      invariant Advanced(old(tc.View()), tc.View(), settled.counters)
      invariant Balanced(tc.View(), before.counters + settled.counters)
      invariant forall j :: 0 <= j < i && outcomes(j).http ==>
                  TakesAll(old(tc.View()), cycles[j].Keys, settled.counters)
      invariant FromOneMap(cycles, before, settled, ids)
    {
      var received; ghost var delivered;
      received, delivered := MonitorNext(tc, cycles[i], pusher, outcomes(i), old(tc.View()), before, settled);
      forall j | 0 <= j < i && outcomes(j).http
        ensures TakesAll(old(tc.View()), cycles[j].Keys, settled.counters + delivered.counters)
      {
        TakesMore(old(tc.View()), cycles[j].Keys, settled.counters, delivered, cycles[i]);
      }
      FromMore(cycles, i, before, settled, delivered, ids);
      history, settled := history + received, Append(settled, delivered);
    }
    if AllWithin(cycles, ids) && From(before, ids) && UniqueIds(ids) {
      BalancedIsConserved(tc.View(), ids, Append(before, settled));
    }
  }

  /** What is settled comes from the one map, where all cycles and what was settled before do. */
  ghost predicate FromOneMap(cycles: seq<map<string, int>>, before: Pending, settled: Pending, ids: map<string, int>) {
    AllWithin(cycles, ids) && From(before, ids) ==> From(Append(before, settled), ids)
  }

  lemma FromMore(cycles: seq<map<string, int>>, i: nat, before: Pending, settled: Pending, delivered: Pending,
                 ids: map<string, int>)
    requires i < |cycles| && From(delivered, cycles[i]) && FromOneMap(cycles, before, settled, ids)
    ensures FromOneMap(cycles, before, Append(settled, delivered), ids)
  {
    if AllWithin(cycles, ids) && From(before, ids) {
      FromWithin(delivered, cycles[i], ids);
      FromAppend(Append(before, settled), delivered, ids);
      AppendAppend(before, settled, delivered);
    }
  }

  /** All these users held was taken. */
  ghost predicate TakesAll(v: View, users: set<string>, cs: seq<PendingCounter>) {
    forall e, d :: e in users ==> Current(v, e, d) <= Taken(cs, e, d)
  }

  lemma TakesMore(v: View, users: set<string>, cs: seq<PendingCounter>, delivered: Pending, subs: map<string, int>)
    requires TakesAll(v, users, cs) && From(delivered, subs)
    ensures TakesAll(v, users, cs + delivered.counters)
  {
    forall e, d | e in users ensures Current(v, e, d) <= Taken(cs + delivered.counters, e, d) {
      TakenConcat(cs, delivered.counters, e, d);
      TakenNonNegative(delivered, subs, e, d);
    }
  }

  /** One more cycle on top of what has been settled. */
  method MonitorNext(tc: TrafficCounter, subs: map<string, int>, pusher: bool, outcome: Outcome,
                     ghost start: View, ghost before: Pending, ghost settled: Pending)
    returns (received: seq<Record>, ghost delivered: Pending)
    requires tc.Valid() && NonNegative(tc.View()) && Aligned(settled)
    requires Advanced(start, tc.View(), settled.counters) && Balanced(tc.View(), before.counters + settled.counters)
    modifies tc, tc.counters.Values
    ensures tc.Valid() && tc.Kept(old(tc.counters)) && NonNegative(tc.View())
    ensures received == delivered.result && From(delivered, subs) && Aligned(Append(settled, delivered))
    ensures Advanced(start, tc.View(), settled.counters + delivered.counters)
    ensures Balanced(tc.View(), before.counters + (settled.counters + delivered.counters))
    ensures outcome.http ==> TakesAll(start, subs.Keys, settled.counters + delivered.counters)
  {
    ghost var v := tc.View();
    ghost var kept;
    received, delivered, kept := MonitorTraffic(tc, subs, pusher, outcome);
    BalanceKept(v, tc.View(), before.counters + settled.counters, delivered.counters);
    Regroup(before.counters, settled.counters, delivered.counters);
    AdvancedThen(start, v, tc.View(), settled.counters, delivered.counters);
    AlignedAppend(settled, delivered);
    if outcome.http { TakesWhatIsLeft(start, v, subs.Keys, settled.counters, delivered.counters); }
  }

  /** What had not been taken from the starting counters before is taken with what is there. */
  lemma TakesWhatIsLeft(start: View, v: View, users: set<string>, settled: seq<PendingCounter>,
                        delivered: seq<PendingCounter>)
    requires Advanced(start, v, settled) && TakesAll(v, users, delivered)
    ensures TakesAll(start, users, settled + delivered)
  {
    forall e, d | e in users ensures Current(start, e, d) <= Taken(settled + delivered, e, d) {
      assert AdvancedAt(start, v, settled, e, d);
      TakenConcat(settled, delivered, e, d);
    }
  }

  // ---------------------------------------------------------------- moving to another tag

  /** Counters nobody else holds: all of them, and their storages, are new. */
  twostate predicate AllNew(new tc: TrafficCounter)
    reads tc
  {
    fresh(tc) && forall s :: s in tc.counters.Values ==> fresh(s)
  }

  /** Everything ever added is in a counter of a delivered record or in the counters still. */
  ghost predicate InBalance(tc: TrafficCounter, settled: Pending)
    reads tc, tc.counters.Values
  {
    tc.Valid() && NonNegative(tc.View()) && Aligned(settled) && Balanced(tc.View(), settled.counters)
  }

  /** The cycles under one tag, with counters of their own. */
  method MonitorStretch(cycles: seq<map<string, int>>, pusher: bool, outcomes: nat -> Outcome)
    returns (received: seq<Record>, tc: TrafficCounter, ghost settled: Pending)
    ensures AllNew(tc) && InBalance(tc, settled) && received == settled.result
  {
    tc := new TrafficCounter();
    received, settled := MonitorForever(tc, cycles, pusher, outcomes, EMPTY, map[]);
    assert [] + settled.counters == settled.counters;
  }

  ghost predicate Apart(tc: TrafficCounter, used: seq<TrafficCounter>)
    reads tc, used
  {
    forall i :: 0 <= i < |used| ==> used[i] != tc && used[i].counters.Values !! tc.counters.Values
  }

  /** Connections that still hold dropped counters; those made since are not touched. */
  method OldConnections(tc: TrafficCounter, ghost settled: Pending, ghost used: seq<TrafficCounter>)
    requires InBalance(tc, settled) && Apart(tc, used)
    modifies tc, tc.counters.Values
    ensures InBalance(tc, settled) && forall s :: s in tc.counters.Values ==> s in old(tc.counters.Values) || fresh(s)
    ensures forall i :: 0 <= i < |used| ==> unchanged(used[i]) && unchanged(used[i].counters.Values)
  {
    ghost var before := tc.View();
    tc.Connections();
    BalanceKept(before, tc.View(), settled.counters, []);
    StillNonNegative(before, tc.View());
    assert settled.counters + [] == settled.counters;
    forall s | s in tc.counters.Values ensures s in old(tc.counters.Values) || fresh(s) {
      var e :| e in tc.counters && tc.counters[e] == s;
    }
  }

  /**
   The monitor of a node that moves to another tag after each stretch of cycles. The
   old counters are dropped with whatever they hold, and connections opened under the
   old tag go on adding to them; dropped or not, what was ever added to them is in a
   counter of a delivered record or in them still.
   */
  method MonitorThroughMoves(stretches: seq<seq<map<string, int>>>, pusher: bool, outcomes: seq<nat -> Outcome>)
    returns (history: seq<Record>, used: seq<TrafficCounter>, ghost settled: seq<Pending>)
    requires |outcomes| == |stretches|
    ensures |used| == |settled| == |stretches| && history == Joined(settled).result
    ensures forall i :: 0 <= i < |used| ==> AllNew(used[i]) && InBalance(used[i], settled[i])
    decreases |stretches|
  {
    if stretches == [] {
      return [], [], [];
    }
    var first, tc; ghost var taken;
    first, tc, taken := MonitorStretch(stretches[0], pusher, outcomes[0]);
    history, used, settled := MonitorThroughMoves(stretches[1..], pusher, outcomes[1..]);
    assert Apart(tc, used);
    OldConnections(tc, taken, used);
    ghost var later, held := used, settled;
    assert forall i :: 0 <= i < |later| ==> AllNew(later[i]) && InBalance(later[i], held[i]);
    JoinedFirst(taken, held);
    history, used, settled := first + history, [tc] + used, [taken] + settled;
    forall i | 0 <= i < |used| ensures AllNew(used[i]) && InBalance(used[i], settled[i]) {
      if i > 0 { assert used[i] == later[i - 1] && settled[i] == held[i - 1]; }
    }
  }

  lemma {:induction false} JoinedFirst(c: Pending, cs: seq<Pending>)
    ensures Joined([c] + cs) == Append(c, Joined(cs))
    decreases |cs|
  {
    if cs == [] {
      assert [c] + cs == [] + [c];
      JoinedMore([], c);
    } else {
      var init, last := cs[..|cs| - 1], cs[|cs| - 1];
      JoinedFirst(c, init);
      assert [c] + cs == ([c] + init) + [last];
      JoinedMore([c] + init, last);
    }
  }

  /** All bytes ever added for e under a run of counters, and all bytes they hold. */
  ghost function AddedIn(views: seq<View>, e: string, d: Dir): int
    decreases |views|
  {
    if views == [] then 0 else AddedIn(views[..|views| - 1], e, d) + Added(views[|views| - 1], e, d)
  }

  ghost function HeldIn(views: seq<View>, e: string, d: Dir): int
    decreases |views|
  {
    if views == [] then 0 else HeldIn(views[..|views| - 1], e, d) + Current(views[|views| - 1], e, d)
  }

  /**
   Over any number of moves the bytes no delivered record accounts for are those the
   counters hold, dropped ones included.
   */
  lemma {:induction false} LostIsHeld(views: seq<View>, settled: seq<Pending>, e: string, d: Dir)
    requires |views| == |settled| && forall i :: 0 <= i < |views| ==> Balanced(views[i], settled[i].counters)
    ensures AddedIn(views, e, d) == Taken(Joined(settled).counters, e, d) + HeldIn(views, e, d)
    decreases |views|
  {
    if views != [] {
      var n := |views| - 1;
      LostIsHeld(views[..n], settled[..n], e, d);
      assert BalancedAt(views[n], settled[n].counters, e, d);
      TakenConcat(Joined(settled[..n]).counters, settled[n].counters, e, d);
    }
  }
}
