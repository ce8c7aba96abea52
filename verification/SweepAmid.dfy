/**
 The batched sweep of GetOnlineIPs (limiter/limiter.go) with the other nodes at
 work on the store, admissions of this node and expiries between any two of its
 own commands, and with any of its reads and deletes failing.
 */
module SweepAmid {
  import opened Commons
  import opened IpLimit
  import opened IpSweep

  /** What may happen between two commands of a sweep: anything but a command of the same node's sweep. */
  predicate Foreign(tag: string, e: Event) {
    match e
    case Expire(_) => true
    case Connect(_, _, _, value) => value.Uid?
    case _ => e.tag != tag && SEP !in e.tag
  }

  predicate OwnCommand(tag: string, e: Event) { (e.ReadHash? || e.DeleteClaimed?) && e.tag == tag }

  /** The claim is an address the node recorded, and still stored, with a subscription number a sweep can read. */
  ghost predicate Due(w: World, tag: string, c: Claim) {
    exists ip, id :: c.field == IpField(ip, tag) && Stores(HashAt(w.store, c.key), ip, tag, id)
  }

  lemma DueIsClaimed(w: World, tag: string, c: Claim)
    ensures Due(w, tag, c) <==> c.field in Claimed(HashAt(w.store, c.key), tag)
  {
    ClaimedMeans(HashAt(w.store, c.key), tag, c.field);
  }

  ghost predicate Reported(w: World, tag: string, c: Claim) { tag in w.sweeps && c in w.sweeps[tag].report }

  ghost predicate Expired(start: World, w: World, key: string) {
    |start.expiries| <= |w.expiries| && key in w.expiries[|start.expiries|..]
  }

  lemma OneOwner(field: string, a: string, b: string)
    requires SEP !in a && SEP !in b && Owns(a, field) && Owns(b, field)
    ensures a == b
  {
    var ip := field[..|field| - |a| - 1];
    assert field == ip + field[|ip|..] && ip + ([SEP] + a) == IpField(ip, a);
    OwnsIffOwnTag(ip, a, b);
  }

  lemma ExpiriesGrow(start: World, w: World, limits: string -> int, e: Event, key: string)
    requires |start.expiries| <= |w.expiries|
    ensures var w' := Step(w, limits, e);
            && |start.expiries| <= |w'.expiries|
            && (Expired(start, w', key) <==> Expired(start, w, key) || e == Expire(key))
  {
    var w', n := Step(w, limits, e), |start.expiries|;
    if e.Expire? { assert w'.expiries[n..] == w.expiries[n..] + [e.key]; }
  }

  /** What is reported stays reported while the sweep goes on. */
  lemma ReportGrows(w: World, limits: string -> int, e: Event, tag: string, c: Claim)
    requires Foreign(tag, e) || OwnCommand(tag, e)
    requires Reported(w, tag, c)
    ensures Reported(Step(w, limits, e), tag, c)
  {
  }

  /** An own address that is stored stays so, with its number, unless it expires or is deleted once reported. */
  lemma DueStays(start: World, w: World, limits: string -> int, e: Event, tag: string, c: Claim)
    requires SweepsReportFirst(w) && SEP !in tag && |start.expiries| <= |w.expiries|
    requires Foreign(tag, e) || OwnCommand(tag, e)
    requires Due(w, tag, c)
    ensures var w' := Step(w, limits, e); Due(w', tag, c) || Expired(start, w', c.key) || Reported(w', tag, c)
  {
    var w' := Step(w, limits, e);
    DueIsClaimed(w, tag, c);
    DueIsClaimed(w', tag, c);
    if c.field !in HashAt(w'.store, c.key) {
      OnlyOwnReportedFieldsLeave(w, limits, e, c.key, c.field);
      if e.Expire? {
        ExpiriesGrow(start, w, limits, e, c.key);
      } else if e.tag != tag {
        OneOwner(c.field, e.tag, tag);
      }
    }
  }

  /** The read of its key puts a stored address into the report. */
  lemma ReadReports(w: World, limits: string -> int, tag: string, c: Claim)
    requires tag in w.sweeps && Due(w, tag, c)
    ensures Reported(Step(w, limits, Event.ReadHash(tag, c.key)), tag, c)
  {
    DueIsClaimed(w, tag, c);
    assert c in ClaimsAt(HashAt(w.store, c.key), c.key, tag);
  }

  // ---------------------------------------------------------------- a sweep under way

  function At(limits: string -> int, trace: seq<Event>): World { Run(EMPTY, limits, trace) }

  /** At some moment since `from` the claim was stored. */
  ghost predicate Seen(limits: string -> int, trace: seq<Event>, from: nat, tag: string, c: Claim) {
    exists n :: from <= n <= |trace| && Due(At(limits, trace[..n]), tag, c)
  }

  /** Everything reported was stored under a key of this sweep after it began. */
  ghost predicate Sound(limits: string -> int, trace: seq<Event>, from: nat, tag: string, keys: set<string>,
                        report: set<Claim>) {
    forall c :: c in report ==> c.key in keys && Seen(limits, trace, from, tag, c)
  }

  /** Of what was stored at the start, what has not been read yet is still due. */
  ghost predicate Complete(start: World, w: World, tag: string, read: set<string>) {
    forall c :: Due(start, tag, c) ==>
      Expired(start, w, c.key) || Reported(w, tag, c) || (c.key !in read && Due(w, tag, c))
  }

  /** At some moment since `from` the field was not in its hash. */
  ghost predicate Absent(limits: string -> int, trace: seq<Event>, from: nat, c: Claim) {
    exists n :: from <= n <= |trace| && c.field !in HashAt(At(limits, trace[..n]).store, c.key)
  }

  /** What is reported has been deleted, or will be. */
  ghost predicate Deleting(limits: string -> int, trace: seq<Event>, from: nat, s: Sweep) {
    forall c :: c in s.report ==> c in s.toDelete || Absent(limits, trace, from, c)
  }

  ghost predicate UnderWay(limits: string -> int, trace: seq<Event>, from: nat, tag: string, keys: set<string>,
                           read: set<string>) {
    && from <= |trace|
    && var start, w := At(limits, trace[..from]), At(limits, trace);
    && |start.expiries| <= |w.expiries| && tag in w.sweeps
    && Sound(limits, trace, from, tag, keys, w.sweeps[tag].report)
    && Complete(start, w, tag, read)
    && Deleting(limits, trace, from, w.sweeps[tag])
  }

  lemma SeenStays(limits: string -> int, trace: seq<Event>, e: Event, from: nat, tag: string, c: Claim)
    requires Seen(limits, trace, from, tag, c)
    ensures Seen(limits, trace + [e], from, tag, c)
  {
    var n :| from <= n <= |trace| && Due(At(limits, trace[..n]), tag, c);
    assert (trace + [e])[..n] == trace[..n];
  }

  lemma SoundStays(limits: string -> int, trace: seq<Event>, e: Event, from: nat, tag: string, keys: set<string>)
    requires from <= |trace| && (Foreign(tag, e) || (OwnCommand(tag, e) && e.key in keys))
    requires tag in At(limits, trace).sweeps
    requires Sound(limits, trace, from, tag, keys, At(limits, trace).sweeps[tag].report)
    ensures tag in At(limits, trace + [e]).sweeps
    ensures Sound(limits, trace + [e], from, tag, keys, At(limits, trace + [e]).sweeps[tag].report)
  {
    var w := At(limits, trace);
    assert (trace + [e])[..|trace|] == trace && At(limits, trace + [e]) == Step(w, limits, e);
    forall c | c in Step(w, limits, e).sweeps[tag].report
      ensures c.key in keys && Seen(limits, trace + [e], from, tag, c)
    {
      if c in w.sweeps[tag].report {
        SeenStays(limits, trace, e, from, tag, c);
      } else {
        DueIsClaimed(w, tag, c);
        assert Due(At(limits, (trace + [e])[..|trace|]), tag, c);
      }
    }
  }

  lemma AbsentStays(limits: string -> int, trace: seq<Event>, e: Event, from: nat, c: Claim)
    requires Absent(limits, trace, from, c)
    ensures Absent(limits, trace + [e], from, c)
  {
    var n :| from <= n <= |trace| && c.field !in HashAt(At(limits, trace[..n]).store, c.key);
    assert (trace + [e])[..n] == trace[..n];
  }

  lemma DeletingStays(limits: string -> int, trace: seq<Event>, e: Event, from: nat, tag: string)
    requires from <= |trace| && (Foreign(tag, e) || OwnCommand(tag, e))
    requires tag in At(limits, trace).sweeps && Deleting(limits, trace, from, At(limits, trace).sweeps[tag])
    ensures tag in At(limits, trace + [e]).sweeps
    ensures Deleting(limits, trace + [e], from, At(limits, trace + [e]).sweeps[tag])
  {
    var w, all := At(limits, trace), trace + [e];
    assert all[..|trace|] == trace && all[..|all|] == all && At(limits, all) == Step(w, limits, e);
    forall c | c in At(limits, all).sweeps[tag].report
      ensures c in At(limits, all).sweeps[tag].toDelete || Absent(limits, all, from, c)
    {
      if c in w.sweeps[tag].report && c !in w.sweeps[tag].toDelete {
        AbsentStays(limits, trace, e, from, c);
      } else if e.DeleteClaimed? && e.tag == tag && e.key == c.key {
        assert c.field in FieldsOf(w.sweeps[tag].toDelete, c.key);
        assert c.field !in HashAt(At(limits, all[..|all|]).store, c.key);
      }
    }
  }

  lemma CompleteStays(start: World, w: World, limits: string -> int, e: Event, tag: string, read: set<string>)
    requires SweepsReportFirst(w) && SEP !in tag && |start.expiries| <= |w.expiries| && tag in w.sweeps
    requires Foreign(tag, e) || OwnCommand(tag, e)
    requires Complete(start, w, tag, read)
    ensures Complete(start, Step(w, limits, e), tag, if e.ReadHash? && e.tag == tag then read + {e.key} else read)
  {
    var w' := Step(w, limits, e);
    forall c | Due(start, tag, c)
      ensures || Expired(start, w', c.key) || Reported(w', tag, c)
              || (c.key !in (if e.ReadHash? && e.tag == tag then read + {e.key} else read) && Due(w', tag, c))
    {
      ExpiriesGrow(start, w, limits, e, c.key);
      if Reported(w, tag, c) {
        ReportGrows(w, limits, e, tag, c);
      } else if !Expired(start, w, c.key) {
        DueStays(start, w, limits, e, tag, c);
        if e == Event.ReadHash(tag, c.key) { ReadReports(w, limits, tag, c); }
      }
    }
  }

  /** Any step but one that begins or ends this sweep keeps it sound and complete. */
  lemma UnderWayStays(limits: string -> int, trace: seq<Event>, e: Event, from: nat, tag: string, keys: set<string>,
                      read: set<string>)
    requires SEP !in tag && UnderWay(limits, trace, from, tag, keys, read)
    requires Foreign(tag, e) || (OwnCommand(tag, e) && e.key in keys)
    ensures UnderWay(limits, trace + [e], from, tag, keys,
                     if e.ReadHash? && e.tag == tag then read + {e.key} else read)
  {
    var start, w := At(limits, trace[..from]), At(limits, trace);
    assert (trace + [e])[..from] == trace[..from] && (trace + [e])[..|trace|] == trace;
    RunKeepsReportFirst(EMPTY, limits, trace);
    SoundStays(limits, trace, e, from, tag, keys);
    DeletingStays(limits, trace, e, from, tag);
    CompleteStays(start, w, limits, e, tag, read);
    ExpiriesGrow(start, w, limits, e, "");
  }

  lemma BeginsUnderWay(limits: string -> int, trace: seq<Event>, tag: string, keys: set<string>)
    requires tag !in At(limits, trace).sweeps
    ensures UnderWay(limits, trace + [BeginSweep(tag)], |trace|, tag, keys, {})
  {
    var all := trace + [BeginSweep(tag)];
    assert all[..|trace|] == trace;
  }

  /** Everything stored at the start is still stored, expired since, or in a report. */
  ghost predicate NoneLost(start: World, w: World) {
    forall c: Claim :: c.field in HashAt(start.store, c.key) ==> Accounted(start, w, c)
  }

  /** Every address of this node that was stored at the start is in the report, or expired. */
  ghost predicate AllTold(start: World, w: World, tag: string, keys: set<string>, report: set<Claim>) {
    forall key, ip, id :: key in keys && Stores(HashAt(start.store, key), ip, tag, id) ==>
      Claim(key, IpField(ip, tag)) in report || Expired(start, w, key)
  }

  /** Everything in the report has been deleted; what is there now was recorded again since. */
  ghost predicate AllDeleted(limits: string -> int, trace: seq<Event>, from: nat, report: set<Claim>) {
    forall c :: c in report ==> Absent(limits, trace, from, c)
  }

  /** Handing the report over. */
  lemma Ends(limits: string -> int, trace: seq<Event>, from: nat, tag: string, keys: set<string>, read: set<string>)
    requires UnderWay(limits, trace, from, tag, keys, read)
    ensures var start, report := At(limits, trace[..from]), At(limits, trace).sweeps[tag].report;
            var all := trace + [EndSweep(tag)];
            var w := At(limits, all);
            && tag !in w.sweeps && w.outbox == At(limits, trace).outbox + [report]
            && Sound(limits, all, from, tag, keys, report)
            && AllTold(start, w, tag, read, report) && NoneLost(start, w)
            && (At(limits, trace).sweeps[tag].toDelete == {} ==> AllDeleted(limits, all, from, report))
  {
    var start, report, all := At(limits, trace[..from]), At(limits, trace).sweeps[tag].report, trace + [EndSweep(tag)];
    assert all[..|trace|] == trace;
    forall c | c in report ensures c.key in keys && Seen(limits, all, from, tag, c) {
      SeenStays(limits, trace, EndSweep(tag), from, tag, c);
    }
    if At(limits, trace).sweeps[tag].toDelete == {} {
      forall c | c in report ensures Absent(limits, all, from, c) {
        AbsentStays(limits, trace, EndSweep(tag), from, c);
      }
    }
    forall c: Claim | c.field in HashAt(start.store, c.key) ensures Accounted(start, At(limits, all), c) {
      assert all == trace[..from] + all[from..];
      RunConcat(EMPTY, limits, trace[..from], all[from..]);
      RunKeepsReportFirst(EMPTY, limits, trace[..from]);
      NothingLost(start, limits, all[from..], c);
    }
  }

  // ---------------------------------------------------------------- the sweep

  /** The store all nodes share; an unhealthy one may fail any read or delete. */
  class SharedStore {
    const limits: string -> int
    const healthy: bool
    var world: World
    ghost var trace: seq<Event>

    ghost predicate Valid()
      reads this
    {
      world == At(limits, trace)
    }

    method Take(e: Event)
      requires Valid()
      modifies this
      ensures Valid() && trace == old(trace) + [e]
    {
      trace := trace + [e];
      assert trace[..|trace| - 1] == old(trace);
      world := Step(world, limits, e);
    }

    /** What the sweep has claimed and not deleted yet. */
    ghost function Owed(tag: string): set<Claim>
      reads this
    {
      if tag in world.sweeps then world.sweeps[tag].toDelete else {}
    }

    /** The other nodes, this node's admissions, and time. */
    method Others(tag: string, ghost from: nat, ghost keys: set<string>, ghost read: set<string>)
      requires Valid() && SEP !in tag && UnderWay(limits, trace, from, tag, keys, read)
      modifies this
      ensures Valid() && old(trace) <= trace && UnderWay(limits, trace, from, tag, keys, read)
      ensures Owed(tag) == old(Owed(tag))
    {
      var n :| 0 <= n;
      for i := 0 to n
        invariant Valid() && old(trace) <= trace && UnderWay(limits, trace, from, tag, keys, read)
        invariant Owed(tag) == old(Owed(tag))
      {
        assert Foreign(tag, Expire(""));
        var e: Event :| Foreign(tag, e);
        UnderWayStays(limits, trace, e, from, tag, keys, read);
        Take(e);
      }
    }

    /** One command of the sweep, after whatever the others did. */
    method Command(e: Event, tag: string, ghost from: nat, ghost keys: set<string>, ghost read: set<string>)
      requires Valid() && SEP !in tag && UnderWay(limits, trace, from, tag, keys, read)
      requires OwnCommand(tag, e) && e.key in keys
      modifies this
      ensures Valid() && old(trace) <= trace
      ensures UnderWay(limits, trace, from, tag, keys, if e.ReadHash? then read + {e.key} else read)
      ensures forall c :: c in Owed(tag) ==>
                if e.ReadHash? then c in old(Owed(tag)) || c.key == e.key else c in old(Owed(tag)) && c.key != e.key
    {
      Others(tag, from, keys, read);
      UnderWayStays(limits, trace, e, from, tag, keys, read);
      Take(e);
    }

    /** The read of one hash; a failed one changes nothing. */
    method ReadOne(tag: string, key: string, ghost from: nat, ghost keys: set<string>, ghost already: set<string>)
      returns (ghost read: set<string>)
      requires Valid() && SEP !in tag && UnderWay(limits, trace, from, tag, keys, already) && key in keys
      modifies this
      ensures Valid() && old(trace) <= trace && UnderWay(limits, trace, from, tag, keys, read)
      ensures already <= read && (healthy ==> key in read)
      ensures forall c :: c in Owed(tag) ==> c in old(Owed(tag)) || c.key == key
    {
      read := already;
      var answers: bool := *;
      if healthy || answers {
        Command(Event.ReadHash(tag, key), tag, from, keys, already);
        read := already + {key};
      }
    }

    method ReadAll(tag: string, batch: seq<string>, ghost from: nat, ghost keys: set<string>,
                   ghost already: set<string>)
      returns (ghost read: set<string>)
      requires Valid() && SEP !in tag && UnderWay(limits, trace, from, tag, keys, already)
      requires forall key :: key in batch ==> key in keys
      modifies this
      ensures Valid() && old(trace) <= trace && UnderWay(limits, trace, from, tag, keys, read)
      ensures already <= read && (healthy ==> forall key :: key in batch ==> key in read)
      ensures forall c :: c in Owed(tag) ==> c in old(Owed(tag)) || c.key in batch
    {
      read := already;
      for i := 0 to |batch|
        invariant Valid() && old(trace) <= trace && UnderWay(limits, trace, from, tag, keys, read)
        invariant already <= read && (healthy ==> forall j :: 0 <= j < i ==> batch[j] in read)
        invariant forall c :: c in Owed(tag) ==> c in old(Owed(tag)) || c.key in batch
      {
        read := ReadOne(tag, batch[i], from, keys, read);
      }
    }

    /** The delete of what the reads claimed in one hash; a failed one leaves the fields. */
    method DeleteOne(tag: string, key: string, ghost from: nat, ghost keys: set<string>, ghost read: set<string>)
      requires Valid() && SEP !in tag && UnderWay(limits, trace, from, tag, keys, read) && key in keys
      modifies this
      ensures Valid() && old(trace) <= trace && UnderWay(limits, trace, from, tag, keys, read)
      ensures forall c :: c in Owed(tag) ==> c in old(Owed(tag)) && (healthy ==> c.key != key)
    {
      var answers: bool := *;
      if FieldsOf(world.sweeps[tag].toDelete, key) != {} {
        if healthy || answers { Command(DeleteClaimed(tag, key), tag, from, keys, read); }
      } else {
        assert forall c :: c in Owed(tag) && c.key == key ==> c.field in FieldsOf(Owed(tag), key);
      }
    }

    method DeleteAll(tag: string, batch: seq<string>, ghost from: nat, ghost keys: set<string>, ghost read: set<string>)
      requires Valid() && SEP !in tag && UnderWay(limits, trace, from, tag, keys, read)
      requires forall key :: key in batch ==> key in keys
      modifies this
      ensures Valid() && old(trace) <= trace && UnderWay(limits, trace, from, tag, keys, read)
      ensures forall c :: c in Owed(tag) ==> c in old(Owed(tag)) && (healthy ==> c.key !in batch)
    {
      for i := 0 to |batch|
        invariant Valid() && old(trace) <= trace && UnderWay(limits, trace, from, tag, keys, read)
        invariant forall c :: c in Owed(tag) ==> c in old(Owed(tag)) && (healthy ==> c.key !in batch[..i])
      {
        DeleteOne(tag, batch[i], from, keys, read);
        assert batch[..i + 1] == batch[..i] + [batch[i]];
      }
      assert batch[..|batch|] == batch;
    }

    /** One batch: its reads, then its deletes. */
    method SweepBatch(tag: string, batch: seq<string>, ghost from: nat, ghost keys: set<string>,
                      ghost already: set<string>)
      returns (ghost read: set<string>)
      requires Valid() && SEP !in tag && UnderWay(limits, trace, from, tag, keys, already)
      requires forall key :: key in batch ==> key in keys
      modifies this
      ensures Valid() && old(trace) <= trace && UnderWay(limits, trace, from, tag, keys, read)
      ensures already <= read && (healthy ==> forall key :: key in batch ==> key in read)
      ensures healthy && old(Owed(tag)) == {} ==> Owed(tag) == {}
    {
      read := ReadAll(tag, batch, from, keys, already);
      DeleteAll(tag, batch, from, keys, read);
    }

    /** The batches. */
    method SweepBatches(tag: string, targets: seq<string>, ghost from: nat, ghost keys: set<string>)
      returns (ghost read: set<string>)
      requires Valid() && SEP !in tag && UnderWay(limits, trace, from, tag, keys, {}) && Owed(tag) == {}
      requires forall key :: key in targets ==> key in keys
      modifies this
      ensures Valid() && old(trace) <= trace && UnderWay(limits, trace, from, tag, keys, read)
      ensures healthy ==> Owed(tag) == {} && forall key :: key in targets ==> key in read
    {
      read := {};
      var start := 0;
      while start < |targets|
        invariant 0 <= start <= |targets| && Valid() && old(trace) <= trace
        invariant UnderWay(limits, trace, from, tag, keys, read)
        invariant healthy ==> Owed(tag) == {} && forall j :: 0 <= j < start ==> targets[j] in read
      {
        var end := if start + REDIS_BATCH_SIZE < |targets| then start + REDIS_BATCH_SIZE else |targets|;
        var batch := targets[start..end];
        read := SweepBatch(tag, batch, from, keys, read);
        assert forall j :: start <= j < end ==> targets[j] == batch[j - start];
        start := end;
      }
    }

    /**
     A whole sweep amid everything else.  Nothing that was ever stored is lost; what
     is reported was stored under one of the keys while the sweep went on; and with
     a healthy store every address of this node that was stored when the sweep began
     is reported or has expired, and everything reported has been deleted.
     */
    method SweepAmidOthers(tag: string, targets: seq<string>) returns (ghost report: set<Claim>)
      requires Valid() && SEP !in tag && tag !in world.sweeps
      modifies this
      ensures Valid() && old(trace) <= trace
      ensures world.outbox != [] && world.outbox[|world.outbox| - 1] == report && tag !in world.sweeps
      ensures NoneLost(old(world), world)
      ensures Sound(limits, trace, |old(trace)|, tag, Elements(targets), report)
      ensures healthy ==> AllTold(old(world), world, tag, Elements(targets), report)
      ensures healthy ==> AllDeleted(limits, trace, |old(trace)|, report)
    {
      ghost var from, keys, start := |trace|, Elements(targets), trace;
      BeginsUnderWay(limits, trace, tag, keys);
      Take(BeginSweep(tag));
      ghost var read := SweepBatches(tag, targets, from, keys);
      Others(tag, from, keys, read);
      assert trace[..from] == start;
      report := HandOver(tag, from, keys, read);
      assert trace[..from] == start;
    }

    method HandOver(tag: string, ghost from: nat, ghost keys: set<string>, ghost read: set<string>)
      returns (ghost report: set<Claim>)
      requires Valid() && UnderWay(limits, trace, from, tag, keys, read)
      modifies this
      ensures Valid() && old(trace) <= trace
      ensures world.outbox == old(world.outbox) + [report] && tag !in world.sweeps
      ensures Sound(limits, trace, from, tag, keys, report)
      ensures var start := At(limits, trace[..from]);
              AllTold(start, world, tag, read, report) && NoneLost(start, world)
      ensures old(Owed(tag)) == {} ==> AllDeleted(limits, trace, from, report)
    {
      report := world.sweeps[tag].report;
      Ends(limits, trace, from, tag, keys, read);
      Take(EndSweep(tag));
      assert trace[..from] == old(trace)[..from];
    }
  }
}
