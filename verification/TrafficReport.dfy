/**
 Draining, batching and settling the counters: DrainDeltas, Chunk, ResetTraffic
 (limiter/limiter.go) and reportTraffic (subscription/manager.go), with
 connections running between any two steps and any push or report failing.
 */
module TrafficReport {
  import opened Commons
  import opened Traffic

  /** How the calls of one cycle come out: the push of each batch, and the HTTP report. */
  datatype Outcome = Outcome(push: nat -> bool, http: bool)

  /** A push or an HTTP report: the panel has the records exactly when the call succeeds. */
  method Deliver<T>(records: seq<T>, succeeds: bool) returns (ok: bool, received: seq<T>)
    ensures ok == succeeds && received == if succeeds then records else []
  {
    ok, received := succeeds, if succeeds then records else [];
  }

  // ---------------------------------------------------------------- batches

  const EMPTY := Pending([], [])

  function Append(p: Pending, q: Pending): Pending { Pending(p.result + q.result, p.counters + q.counters) }

  function Joined(chunks: seq<Pending>): Pending
    decreases |chunks|
  {
    if chunks == [] then EMPTY else Append(Joined(chunks[..|chunks| - 1]), chunks[|chunks| - 1])
  }

  lemma JoinedMore(chunks: seq<Pending>, c: Pending)
    ensures Joined(chunks + [c]) == Append(Joined(chunks), c)
  {
    assert (chunks + [c])[..|chunks|] == chunks;
  }

  lemma JoinedPrefix(chunks: seq<Pending>, i: nat)
    requires i < |chunks|
    ensures Joined(chunks[..i + 1]) == Append(Joined(chunks[..i]), chunks[i])
  {
    JoinedMore(chunks[..i], chunks[i]);
    assert chunks[..i] + [chunks[i]] == chunks[..i + 1];
  }

  ghost predicate WellSized(chunk: Pending, size: int) {
    && 0 < |chunk.result|
    && |chunk.result| == |chunk.counters|
    && (size > 0 ==> |chunk.result| <= size)
  }

  lemma ChunkJoins(p: Pending, chunks: seq<Pending>, start: nat, end: nat)
    requires start <= end <= |p.result| == |p.counters|
    requires Joined(chunks) == Pending(p.result[..start], p.counters[..start])
    ensures Joined(chunks + [Pending(p.result[start..end], p.counters[start..end])])
         == Pending(p.result[..end], p.counters[..end])
  {
    JoinedMore(chunks, Pending(p.result[start..end], p.counters[start..end]));
    assert p.result[..end] == p.result[..start] + p.result[start..end];
    assert p.counters[..end] == p.counters[..start] + p.counters[start..end];
  }

  /** The batches are the pending records and counters, in order and cut at the same places. */
  method Chunk(p: Option<Pending>, size: int) returns (chunks: seq<Pending>)
    requires p.Some? ==> |p.value.result| == |p.value.counters|
    ensures Joined(chunks) == if p.Some? then p.value else EMPTY
    ensures forall c :: c in chunks ==> WellSized(c, size)
    ensures size > 0 ==> forall i :: 0 <= i < |chunks| - 1 ==> |chunks[i].result| == size
    ensures size <= 0 ==> |chunks| <= 1
  {
    if p.None? || size <= 0 || |p.value.result| <= size {
      if p.None? || |p.value.result| == 0 { return []; }
      JoinedMore([], p.value);
      return [p.value];
    }
    var n := |p.value.result|;
    chunks := [];
    var start := 0;
    while start < n
      invariant 0 <= start <= n
      invariant Joined(chunks) == Pending(p.value.result[..start], p.value.counters[..start])
      invariant forall c :: c in chunks ==> WellSized(c, size)
      invariant forall i :: 0 <= i < |chunks| - 1 ==> |chunks[i].result| == size
      invariant start < n && chunks != [] ==> |chunks[|chunks| - 1].result| == size
    {
      var end := if start + size < n then start + size else n;
      var chunk := Pending(p.value.result[start..end], p.value.counters[start..end]);
      ChunkJoins(p.value, chunks, start, end);
      chunks := chunks + [chunk];
      start := end;
    }
    assert p.value.result[..n] == p.value.result && p.value.counters[..n] == p.value.counters;
  }

  /** The batches whose push came out one way. */
  function Picked(chunks: seq<Pending>, sent: nat -> bool, want: bool): seq<Pending>
    decreases |chunks|
  {
    if chunks == [] then []
    else
      var n := |chunks| - 1;
      if sent(n) == want then Picked(chunks[..n], sent, want) + [chunks[n]] else Picked(chunks[..n], sent, want)
  }

  /** The reference, record by record: each shares the fate of the hundred it is counted in. */
  function Sent(p: Pending, sent: nat -> bool, want: bool): Pending
    requires |p.result| == |p.counters|
    decreases |p.result|
  {
    if |p.result| == 0 then EMPTY
    else
      var n := |p.result| - 1;
      var before := Sent(Pending(p.result[..n], p.counters[..n]), sent, want);
      if sent(n / 100) == want
      then Pending(before.result + [p.result[n]], before.counters + [p.counters[n]])
      else before
  }

  lemma SentOne(p: Pending, last: Pending, sent: nat -> bool, want: bool)
    requires |p.result| == |p.counters| && |last.result| == |last.counters| == 1
    ensures Sent(Append(p, last), sent, want)
         == if sent(|p.result| / 100) == want then Append(Sent(p, sent, want), last) else Sent(p, sent, want)
  {
    var whole, n := Append(p, last), |p.result|;
    assert whole.result[..n] == p.result && whole.counters[..n] == p.counters;
    assert last == Pending([whole.result[n]], [whole.counters[n]]);
  }

  lemma {:induction false} SentMore(p: Pending, c: Pending, i: nat, sent: nat -> bool, want: bool)
    requires |p.result| == |p.counters| == 100 * i && |c.result| == |c.counters| <= 100
    ensures Sent(Append(p, c), sent, want) == Append(Sent(p, sent, want), if sent(i) == want then c else EMPTY)
    decreases |c.result|
  {
    if |c.result| == 0 {
      assert c == EMPTY && Append(p, c) == p;
      assert Append(Sent(p, sent, want), EMPTY) == Sent(p, sent, want);
    } else {
      var n := |c.result| - 1;
      var init, last := Pending(c.result[..n], c.counters[..n]), Pending([c.result[n]], [c.counters[n]]);
      assert c == Append(init, last);
      SentMore(p, init, i, sent, want);
      AppendAppend(p, init, last);
      assert |Append(p, init).result| / 100 == i;
      SentOne(Append(p, init), last, sent, want);
      AppendAppend(Sent(p, sent, want), init, last);
    }
  }

  lemma AppendAppend(a: Pending, b: Pending, c: Pending)
    ensures Append(Append(a, b), c) == Append(a, Append(b, c))
  {
  }

  lemma {:induction false} NothingKept(p: Pending, sent: nat -> bool)
    requires |p.result| == |p.counters| && forall k :: sent(k)
    ensures Sent(p, sent, false) == EMPTY
    decreases |p.result|
  {
    if |p.result| > 0 {
      var n := |p.result| - 1;
      NothingKept(Pending(p.result[..n], p.counters[..n]), sent);
    }
  }

  /** Batch by batch is record by record: every batch but the last has a hundred. */
  lemma {:induction false} PickedIsSent(chunks: seq<Pending>, sent: nat -> bool, want: bool)
    requires forall c :: c in chunks ==> WellSized(c, 100)
    requires forall i :: 0 <= i < |chunks| - 1 ==> |chunks[i].result| == 100
    ensures |Joined(chunks).result| == |Joined(chunks).counters| <= 100 * |chunks|
    ensures (forall c :: c in chunks ==> |c.result| == 100) ==> |Joined(chunks).result| == 100 * |chunks|
    ensures Joined(Picked(chunks, sent, want)) == Sent(Joined(chunks), sent, want)
    decreases |chunks|
  {
    if chunks != [] {
      var n := |chunks| - 1;
      PickedIsSent(chunks[..n], sent, want);
      assert chunks[n] in chunks && WellSized(chunks[n], 100);
      SentMore(Joined(chunks[..n]), chunks[n], n, sent, want);
      JoinedMore(Picked(chunks[..n], sent, want), chunks[n]);
      assert Append(Sent(Joined(chunks[..n]), sent, want), EMPTY) == Sent(Joined(chunks[..n]), sent, want);
    }
  }

  /** The batches of a cycle, split by the fate of their pushes. */
  lemma BatchesSplit(p: Pending, chunks: seq<Pending>, sent: nat -> bool)
    requires |p.result| == |p.counters| && Joined(chunks) == p
    requires forall c :: c in chunks ==> WellSized(c, 100)
    requires forall i :: 0 <= i < |chunks| - 1 ==> |chunks[i].result| == 100
    ensures Joined(Picked(chunks, sent, true)) == Sent(p, sent, true)
    ensures Joined(Picked(chunks, sent, false)) == Sent(p, sent, false)
    ensures (forall k :: sent(k)) ==> Joined(Picked(chunks, sent, false)) == EMPTY
  {
    PickedIsSent(chunks, sent, true);
    PickedIsSent(chunks, sent, false);
    if forall k :: sent(k) { NothingKept(p, sent); }
  }

  // ---------------------------------------------------------------- reset

  ghost predicate Owned(tc: TrafficCounter, cs: seq<PendingCounter>)
    reads tc
  {
    forall c :: c in cs ==> c.storage.email in tc.counters && tc.counters[c.storage.email] == c.storage
  }

  function UpHalf(c: PendingCounter): PendingCounter { c.(down := 0) }
  function DownHalf(c: PendingCounter): PendingCounter { c.(up := 0) }

  lemma HalvesAdvanced(v: View, v': View, c: PendingCounter)
    requires Advanced(v, v', [UpHalf(c)] + [DownHalf(c)])
    ensures Advanced(v, v', [c])
  {
    forall e, d ensures AdvancedAt(v, v', [c], e, d) {
      assert AdvancedAt(v, v', [UpHalf(c)] + [DownHalf(c)], e, d);
      TakenConcat([UpHalf(c)], [DownHalf(c)], e, d);
      TakenOne(UpHalf(c), e, d);
      TakenOne(DownHalf(c), e, d);
      TakenOne(c, e, d);
    }
  }

  /** One atomic subtraction, with connections running before it. */
  method Subtract(tc: TrafficCounter, c: PendingCounter)
    requires tc.Valid() && Owned(tc, [c])
    modifies tc, tc.counters.Values
    ensures tc.Valid() && tc.Kept(old(tc.counters)) && Advanced(old(tc.View()), tc.View(), [c])
  {
    ghost var v0 := tc.View();
    assert c in [c];
    tc.Connections();
    ghost var v1 := tc.View();
    tc.AddTo(c.storage, -c.up, -c.down, 0, 0);
    SubtractedAdvances(v1, tc.View(), c);
    AdvancedThen(v0, v1, tc.View(), [], [c]);
    assert [] + [c] == [c];
  }

  /** UpCounter.Add(-up) and DownCounter.Add(-down) are two atomic steps. */
  method ResetOne(tc: TrafficCounter, c: PendingCounter)
    requires tc.Valid() && Owned(tc, [c])
    modifies tc, tc.counters.Values
    ensures tc.Valid() && tc.Kept(old(tc.counters)) && Advanced(old(tc.View()), tc.View(), [c])
  {
    ghost var v0 := tc.View();
    assert c in [c];
    Subtract(tc, UpHalf(c));
    ghost var v1 := tc.View();
    Subtract(tc, DownHalf(c));
    AdvancedThen(v0, v1, tc.View(), [UpHalf(c)], [DownHalf(c)]);
    HalvesAdvanced(v0, tc.View(), c);
  }

  lemma SubtractedAdvances(v: View, v': View, c: PendingCounter)
    requires c.storage.email in v
    requires var n := v[c.storage.email]; v' == v[c.storage.email := n.(up := n.up - c.up, down := n.down - c.down)]
    ensures Advanced(v, v', [c])
  {
    forall e, d ensures AdvancedAt(v, v', [c], e, d) { TakenOne(c, e, d); }
  }

  method ResetTraffic(tc: TrafficCounter, p: Pending)
    requires tc.Valid() && Owned(tc, p.counters)
    modifies tc, tc.counters.Values
    ensures tc.Valid() && tc.Kept(old(tc.counters)) && Advanced(old(tc.View()), tc.View(), p.counters)
  {
    for i := 0 to |p.counters|
      invariant tc.Valid() && tc.Kept(old(tc.counters)) && Advanced(old(tc.View()), tc.View(), p.counters[..i])
    {
      ghost var before := tc.View();
      assert p.counters[i] in p.counters;
      ResetOne(tc, p.counters[i]);
      AdvancedThen(old(tc.View()), before, tc.View(), p.counters[..i], [p.counters[i]]);
      assert p.counters[..i + 1] == p.counters[..i] + [p.counters[i]];
    }
    assert p.counters[..|p.counters|] == p.counters;
  }

  // ---------------------------------------------------------------- settlement

  type Item = (Record, PendingCounter)

  ghost function Items(p: Pending): seq<Item>
    requires |p.result| == |p.counters|
  {
    seq(|p.result|, i requires 0 <= i < |p.result| => (p.result[i], p.counters[i]))
  }

  lemma ItemsAppend(p: Pending, q: Pending)
    requires |p.result| == |p.counters| && |q.result| == |q.counters|
    ensures Items(Append(p, q)) == Items(p) + Items(q)
  {
  }

  /** Each record of p, with its counter, is in exactly one of the two, exactly as often as in p. */
  ghost predicate Partition(p: Pending, delivered: Pending, kept: Pending) {
    && |p.result| == |p.counters| && |delivered.result| == |delivered.counters| && |kept.result| == |kept.counters|
    && multiset(Items(p)) == multiset(Items(delivered)) + multiset(Items(kept))
    && forall e, d :: TakenSplits(p, delivered, kept, e, d)
  }

  ghost predicate TakenSplits(p: Pending, a: Pending, b: Pending, e: string, d: Dir) {
    Taken(p.counters, e, d) == Taken(a.counters, e, d) + Taken(b.counters, e, d)
  }

  lemma DeliveredMore(p: Pending, delivered: Pending, kept: Pending, c: Pending)
    requires Partition(p, delivered, kept) && |c.result| == |c.counters|
    ensures Partition(Append(p, c), Append(delivered, c), kept)
  {
    ItemsAppend(p, c);
    ItemsAppend(delivered, c);
    forall e, d ensures TakenSplits(Append(p, c), Append(delivered, c), kept, e, d) {
      assert TakenSplits(p, delivered, kept, e, d);
      TakenConcat(p.counters, c.counters, e, d);
      TakenConcat(delivered.counters, c.counters, e, d);
    }
  }

  lemma KeptMore(p: Pending, delivered: Pending, kept: Pending, c: Pending)
    requires Partition(p, delivered, kept) && |c.result| == |c.counters|
    ensures Partition(Append(p, c), delivered, Append(kept, c))
  {
    ItemsAppend(p, c);
    ItemsAppend(kept, c);
    forall e, d ensures TakenSplits(Append(p, c), delivered, Append(kept, c), e, d) {
      assert TakenSplits(p, delivered, kept, e, d);
      TakenConcat(p.counters, c.counters, e, d);
      TakenConcat(kept.counters, c.counters, e, d);
    }
  }

  lemma PartitionAll(p: Pending, delivered: Pending, kept: Pending)
    requires Partition(p, delivered, kept)
    ensures Partition(p, Append(delivered, kept), EMPTY)
  {
    ItemsAppend(delivered, kept);
    forall e, d ensures TakenSplits(p, Append(delivered, kept), EMPTY, e, d) {
      assert TakenSplits(p, delivered, kept, e, d);
      TakenConcat(delivered.counters, kept.counters, e, d);
    }
  }

  /** The batches before i, split into what was delivered and what is undelivered. */
  ghost predicate Placed(chunks: seq<Pending>, i: nat, delivered: Pending, undelivered: seq<Pending>) {
    && i <= |chunks| && Partition(Joined(chunks[..i]), delivered, Joined(undelivered))
    && forall c :: c in undelivered ==> c in chunks
  }

  lemma DeliveredPlaced(chunks: seq<Pending>, i: nat, delivered: Pending, undelivered: seq<Pending>)
    requires i < |chunks| && |chunks[i].result| == |chunks[i].counters| && Placed(chunks, i, delivered, undelivered)
    ensures Placed(chunks, i + 1, Append(delivered, chunks[i]), undelivered)
  {
    JoinedPrefix(chunks, i);
    DeliveredMore(Joined(chunks[..i]), delivered, Joined(undelivered), chunks[i]);
  }

  lemma KeptPlaced(chunks: seq<Pending>, i: nat, delivered: Pending, undelivered: seq<Pending>)
    requires i < |chunks| && |chunks[i].result| == |chunks[i].counters| && Placed(chunks, i, delivered, undelivered)
    ensures Placed(chunks, i + 1, delivered, undelivered + [chunks[i]])
  {
    JoinedPrefix(chunks, i);
    JoinedMore(undelivered, chunks[i]);
    KeptMore(Joined(chunks[..i]), delivered, Joined(undelivered), chunks[i]);
  }

  lemma PickedPrefix(chunks: seq<Pending>, i: nat, sent: nat -> bool)
    requires i < |chunks|
    ensures var (yes, no) := (Picked(chunks[..i], sent, true), Picked(chunks[..i], sent, false));
            && Picked(chunks[..i + 1], sent, false) == (if sent(i) then no else no + [chunks[i]])
            && Joined(Picked(chunks[..i + 1], sent, true)) ==
               (if sent(i) then Append(Joined(yes), chunks[i]) else Joined(yes))
  {
    assert chunks[..i + 1][..i] == chunks[..i];
    JoinedMore(Picked(chunks[..i], sent, true), chunks[i]);
  }

  /** One batch: pushed and then reset, or left alone. */
  method PushOne(tc: TrafficCounter, chunk: Pending, pusher: bool, succeeds: bool)
    returns (ok: bool, received: seq<Record>)
    requires tc.Valid() && Owned(tc, chunk.counters)
    modifies tc, tc.counters.Values
    ensures tc.Valid() && tc.Kept(old(tc.counters))
    ensures ok == (pusher && succeeds) && received == if ok then chunk.result else []
    ensures ok ==> Advanced(old(tc.View()), tc.View(), chunk.counters)
    ensures !ok ==> tc.View() == old(tc.View())
  {
    ok, received := false, [];
    if pusher { ok, received := Deliver(chunk.result, succeeds); }
    if ok { ResetTraffic(tc, chunk); }
  }

  /** The batches before i, each with what became of its push. */
  ghost predicate Pushed(chunks: seq<Pending>, i: nat, sent: nat -> bool, delivered: Pending,
                         undelivered: seq<Pending>) {
    && Placed(chunks, i, delivered, undelivered)
    && delivered == Joined(Picked(chunks[..i], sent, true)) && undelivered == Picked(chunks[..i], sent, false)
  }

  lemma PushedMore(chunks: seq<Pending>, i: nat, sent: nat -> bool, delivered: Pending, undelivered: seq<Pending>)
    requires i < |chunks| && |chunks[i].result| == |chunks[i].counters|
    requires Pushed(chunks, i, sent, delivered, undelivered)
    ensures if sent(i) then Pushed(chunks, i + 1, sent, Append(delivered, chunks[i]), undelivered)
            else Pushed(chunks, i + 1, sent, delivered, undelivered + [chunks[i]])
  {
    PickedPrefix(chunks, i, sent);
    if sent(i) {
      DeliveredPlaced(chunks, i, delivered, undelivered);
    } else {
      KeptPlaced(chunks, i, delivered, undelivered);
    }
  }

  lemma {:induction false} NonePicked(chunks: seq<Pending>, sent: nat -> bool)
    requires forall k :: !sent(k)
    ensures Picked(chunks, sent, true) == []
    decreases |chunks|
  {
    if chunks != [] { NonePicked(chunks[..|chunks| - 1], sent); }
  }

  /** The batches, pushed one by one; the ones that failed are returned. */
  method PushChunks(tc: TrafficCounter, chunks: seq<Pending>, pusher: bool, push: nat -> bool)
    returns (undelivered: seq<Pending>, received: seq<Record>, ghost delivered: Pending)
    requires tc.Valid() && Owned(tc, Joined(chunks).counters)
    requires forall c :: c in chunks ==> |c.result| == |c.counters|
    modifies tc, tc.counters.Values
    ensures tc.Valid() && tc.Kept(old(tc.counters)) && Advanced(old(tc.View()), tc.View(), delivered.counters)
    ensures received == delivered.result
    ensures Partition(Joined(chunks), delivered, Joined(undelivered))
    ensures forall c :: c in undelivered ==> c in chunks
    ensures var sent := (k: nat) => pusher && push(k);
            delivered == Joined(Picked(chunks, sent, true)) && undelivered == Picked(chunks, sent, false)
    ensures !pusher ==> delivered == EMPTY
  {
    ghost var sent := (k: nat) => pusher && push(k);
    undelivered, received, delivered := [], [], EMPTY;
    for i := 0 to |chunks|
      invariant tc.Valid() && tc.Kept(old(tc.counters)) && Owned(tc, Joined(chunks).counters)
      invariant Advanced(old(tc.View()), tc.View(), delivered.counters)
      invariant received == delivered.result && Pushed(chunks, i, sent, delivered, undelivered)
    {
      ghost var before := tc.View();
      OwnedChunk(tc, chunks, chunks[i]);
      PushedMore(chunks, i, sent, delivered, undelivered);
      var ok, got := PushOne(tc, chunks[i], pusher, push(i));
      received := received + got;
      if ok {
        AdvancedThen(old(tc.View()), before, tc.View(), delivered.counters, chunks[i].counters);
        delivered := Append(delivered, chunks[i]);
      } else {
        undelivered := undelivered + [chunks[i]];
      }
    }
    assert chunks[..|chunks|] == chunks;
    if !pusher { NonePicked(chunks, sent); }
  }

  lemma {:induction false} OwnedChunk(tc: TrafficCounter, chunks: seq<Pending>, chunk: Pending)
    requires Owned(tc, Joined(chunks).counters) && chunk in chunks
    ensures Owned(tc, chunk.counters)
    decreases |chunks|
  {
    var init, last := chunks[..|chunks| - 1], chunks[|chunks| - 1];
    var joined := Joined(chunks).counters;
    assert joined == Joined(init).counters + last.counters;
    if chunk != last {
      forall c | c in Joined(init).counters ensures c in joined {}
      OwnedChunk(tc, init, chunk);
    } else {
      forall c | c in chunk.counters ensures c in joined {}
    }
  }

  lemma {:induction false} OwnedChunks(tc: TrafficCounter, chunks: seq<Pending>, some: seq<Pending>)
    requires Owned(tc, Joined(chunks).counters) && forall c :: c in some ==> c in chunks
    ensures Owned(tc, Joined(some).counters)
    decreases |some|
  {
    if some != [] {
      OwnedChunks(tc, chunks, some[..|some| - 1]);
      OwnedChunk(tc, chunks, some[|some| - 1]);
    }
  }

  /** The batches of a cycle and their pushes. */
  method PushAll(tc: TrafficCounter, p: Pending, pusher: bool, push: nat -> bool)
    returns (undelivered: seq<Pending>, received: seq<Record>, ghost delivered: Pending)
    requires tc.Valid() && Aligned(p) && Owned(tc, p.counters)
    modifies tc, tc.counters.Values
    ensures tc.Valid() && tc.Kept(old(tc.counters)) && Advanced(old(tc.View()), tc.View(), delivered.counters)
    ensures received == delivered.result && Owned(tc, Joined(undelivered).counters)
    ensures Partition(p, delivered, Joined(undelivered))
    ensures var sent := (k: nat) => pusher && push(k);
            delivered == Sent(p, sent, true) && Joined(undelivered) == Sent(p, sent, false)
    ensures pusher && (forall k: nat :: push(k)) ==> Joined(undelivered) == EMPTY
  {
    var chunks := Chunk(Some(p), REVERB_BATCH_SIZE);
    ghost var sent := (k: nat) => pusher && push(k);
    BatchesSplit(p, chunks, sent);
    undelivered, received, delivered := PushChunks(tc, chunks, pusher, push);
    OwnedChunks(tc, chunks, undelivered);
  }

  /**
   reportTraffic: each record is pushed, sent over HTTP, or kept, and the counters
   lose exactly the amounts of the delivered ones, once. Nothing is kept when the HTTP
   report succeeds; when it does not, exactly the records of the batches that were not
   pushed are.
   */
  method ReportTraffic(tc: TrafficCounter, p: Pending, pusher: bool, outcome: Outcome)
    returns (received: seq<Record>, ghost delivered: Pending, ghost kept: Pending)
    requires tc.Valid() && Aligned(p) && Owned(tc, p.counters)
    modifies tc, tc.counters.Values
    ensures tc.Valid() && tc.Kept(old(tc.counters)) && Advanced(old(tc.View()), tc.View(), delivered.counters)
    ensures received == delivered.result
    ensures Partition(p, delivered, kept)
    ensures outcome.http || (pusher && forall k: nat :: outcome.push(k)) ==> kept == EMPTY
    ensures !outcome.http ==>
              var sent := (k: nat) => pusher && outcome.push(k);
              delivered == Sent(p, sent, true) && kept == Sent(p, sent, false)
  {
    var undelivered;
    undelivered, received, delivered := PushAll(tc, p, pusher, outcome.push);
    kept := Joined(undelivered);
    if |undelivered| == 0 { return; }
    ghost var before := tc.View();
    var ok, got := ReportOverHttp(tc, undelivered, outcome.http);
    received := received + got;
    if ok {
      AdvancedThen(old(tc.View()), before, tc.View(), delivered.counters, kept.counters);
      PartitionAll(p, delivered, kept);
      delivered, kept := Append(delivered, kept), EMPTY;
    }
  }

  /** The fallback: one report for everything undelivered, then one reset per batch. */
  method ReportOverHttp(tc: TrafficCounter, chunks: seq<Pending>, succeeds: bool)
    returns (ok: bool, received: seq<Record>)
    requires tc.Valid() && Owned(tc, Joined(chunks).counters)
    modifies tc, tc.counters.Values
    ensures tc.Valid() && tc.Kept(old(tc.counters))
    ensures ok == succeeds && received == if ok then Joined(chunks).result else []
    ensures ok ==> Advanced(old(tc.View()), tc.View(), Joined(chunks).counters)
    ensures !ok ==> tc.View() == old(tc.View())
  {
    var records := CollectRecords(chunks);
    ok, received := Deliver(records, succeeds);
    if ok { ResetChunks(tc, chunks); }
  }

  method CollectRecords(chunks: seq<Pending>) returns (records: seq<Record>)
    ensures records == Joined(chunks).result
  {
    records := [];
    for i := 0 to |chunks|
      invariant records == Joined(chunks[..i]).result
    {
      JoinedPrefix(chunks, i);
      records := records + chunks[i].result;
    }
    assert chunks[..|chunks|] == chunks;
  }

  method ResetChunks(tc: TrafficCounter, chunks: seq<Pending>)
    requires tc.Valid() && Owned(tc, Joined(chunks).counters)
    modifies tc, tc.counters.Values
    ensures tc.Valid() && tc.Kept(old(tc.counters)) && Advanced(old(tc.View()), tc.View(), Joined(chunks).counters)
  {
    for i := 0 to |chunks|
      invariant tc.Valid() && tc.Kept(old(tc.counters)) && Owned(tc, Joined(chunks).counters)
      invariant Advanced(old(tc.View()), tc.View(), Joined(chunks[..i]).counters)
    {
      ghost var before := tc.View();
      OwnedChunk(tc, chunks, chunks[i]);
      ResetTraffic(tc, chunks[i]);
      AdvancedThen(old(tc.View()), before, tc.View(), Joined(chunks[..i]).counters, chunks[i].counters);
      JoinedPrefix(chunks, i);
    }
    assert chunks[..|chunks|] == chunks;
  }
}
