/**
 Traffic accounting: counters that connections bump at any moment
 (helper/counter), the drain, the batches and the settlement
 (limiter/limiter.go, subscription/manager.go).  Between any two atomic steps of
 the monitor `Connections` runs and may add bytes to any user.
 */
module Traffic {
  datatype Dir = Up | Down

  const REVERB_BATCH_SIZE: int := 100

  /** A user's counters, and the ledger of all bytes ever added to them. */
  datatype Counts = Counts(up: int, down: int, addedUp: int, addedDown: int)

  type View = map<string, Counts>

  function Current(v: View, e: string, d: Dir): int {
    if e !in v then 0 else if d.Up? then v[e].up else v[e].down
  }

  function Added(v: View, e: string, d: Dir): int {
    if e !in v then 0 else if d.Up? then v[e].addedUp else v[e].addedDown
  }

  /** Bytes that have left the counter of e. */
  function Settled(v: View, e: string, d: Dir): int { Added(v, e, d) - Current(v, e, d) }

  // ---------------------------------------------------------------- pending records

  /** What the panel is sent for one subscription. */
  datatype Record = Record(id: int, upload: int, download: int)

  datatype PendingCounter = PendingCounter(storage: TrafficStorage, up: int, down: int)

  /** Two slices that share their indices. */
  datatype Pending = Pending(result: seq<Record>, counters: seq<PendingCounter>)

  ghost predicate Aligned(p: Pending) {
    && |p.result| == |p.counters|
    && forall i :: 0 <= i < |p.result| ==> Matching(p.result[i], p.counters[i])
  }

  ghost predicate Matching(r: Record, c: PendingCounter) { r.upload == c.up && r.download == c.down }

  ghost function Part(c: PendingCounter, e: string, d: Dir): int {
    if c.storage.email != e then 0 else if d.Up? then c.up else c.down
  }

  /** What subtracting these counters takes from e. */
  ghost function Taken(cs: seq<PendingCounter>, e: string, d: Dir): int
    decreases |cs|
  {
    if cs == [] then 0 else Taken(cs[..|cs| - 1], e, d) + Part(cs[|cs| - 1], e, d)
  }

  lemma {:induction false} TakenConcat(a: seq<PendingCounter>, b: seq<PendingCounter>, e: string, d: Dir)
    ensures Taken(a + b, e, d) == Taken(a, e, d) + Taken(b, e, d)
    decreases |b|
  {
    if b == [] {
      assert a + b == a;
    } else {
      assert (a + b)[..|a + b| - 1] == a + b[..|b| - 1];
      TakenConcat(a, b[..|b| - 1], e, d);
    }
  }

  lemma TakenOne(c: PendingCounter, e: string, d: Dir)
    ensures Taken([c], e, d) == Part(c, e, d)
  {
    assert [c][..0] == [];
  }

  // ---------------------------------------------------------------- what a stretch of time does

  /**
   From v to v' exactly `cs` has been subtracted, and connections have only added:
   the settled bytes of every user grow by what cs takes from it, no more, no less.
   */
  ghost predicate Advanced(v: View, v': View, cs: seq<PendingCounter>) {
    v.Keys <= v'.Keys && forall e, d :: AdvancedAt(v, v', cs, e, d)
  }

  ghost predicate AdvancedAt(v: View, v': View, cs: seq<PendingCounter>, e: string, d: Dir) {
    Moved(v, v', e, d, Taken(cs, e, d))
  }

  ghost predicate Moved(v: View, v': View, e: string, d: Dir, taken: int) {
    && Settled(v', e, d) == Settled(v, e, d) + taken
    && Current(v, e, d) <= Current(v', e, d) + taken
  }

  lemma AdvancedThen(v: View, v': View, v'': View, a: seq<PendingCounter>, b: seq<PendingCounter>)
    requires Advanced(v, v', a) && Advanced(v', v'', b)
    ensures Advanced(v, v'', a + b)
  {
    forall e, d ensures AdvancedAt(v, v'', a + b, e, d) {
      assert AdvancedAt(v, v', a, e, d) && AdvancedAt(v', v'', b, e, d);
      TakenConcat(a, b, e, d);
    }
  }

  lemma GrownThen(v: View, v': View, v'': View, a: seq<PendingCounter>)
    requires Advanced(v, v', a) && Advanced(v', v'', [])
    ensures Advanced(v, v'', a)
  {
    AdvancedThen(v, v', v'', a, []);
    assert a + [] == a;
  }

  // ---------------------------------------------------------------- counters

  /** Two atomic counters; `email` and the added bytes are for the specification only. */
  class TrafficStorage {
    ghost const email: string
    var up: int
    var down: int
    ghost var addedUp: int
    ghost var addedDown: int

    constructor (ghost email: string)
      ensures this.email == email && up == down == addedUp == addedDown == 0
    {
      this.email := email;
      up, down, addedUp, addedDown := 0, 0, 0, 0;
    }
  }

  class TrafficCounter {
    var counters: map<string, TrafficStorage>

    constructor ()
      ensures Valid() && counters == map[]
    {
      counters := map[];
    }

    ghost predicate Valid()
      reads this, counters.Values
    {
      forall e :: e in counters ==> counters[e].email == e
    }

    ghost function View(): View
      reads this, counters.Values
    {
      map e | e in counters ::
        Counts(counters[e].up, counters[e].down, counters[e].addedUp, counters[e].addedDown)
    }

    /** No storage is ever dropped or replaced; new ones are new objects. */
    twostate predicate Kept(before: map<string, TrafficStorage>)
      reads this
    {
      && (forall e :: e in before ==> e in counters && counters[e] == before[e])
      && (forall e :: e in counters && e !in before ==> fresh(counters[e]))
    }

    /** LoadOrStore */
    method GetCounter(email: string) returns (s: TrafficStorage)
      requires Valid()
      modifies this
      ensures Valid() && Kept(old(counters)) && email in counters && counters[email] == s
      ensures View() == if email in old(counters) then old(View()) else old(View())[email := Counts(0, 0, 0, 0)]
      ensures Advanced(old(View()), View(), [])
    {
      if email in counters { return counters[email]; }
      s := new TrafficStorage(email);
      counters := counters[email := s];
    }

    method GetUpCount(email: string) returns (n: int)
      ensures n == Current(View(), email, Up)
    {
      n := if email in counters then counters[email].up else 0;
    }

    method GetDownCount(email: string) returns (n: int)
      ensures n == Current(View(), email, Down)
    {
      n := if email in counters then counters[email].down else 0;
    }

    /** An atomic add to one counter, seen through the map: nothing else moves. */
    method AddTo(s: TrafficStorage, up: int, down: int, ghost ledgerUp: int, ghost ledgerDown: int)
      requires Valid() && s.email in counters && counters[s.email] == s
      modifies s
      ensures Valid()
      ensures var c := old(View())[s.email];
              View() == old(View())[s.email :=
                Counts(c.up + up, c.down + down, c.addedUp + ledgerUp, c.addedDown + ledgerDown)]
    {
      s.up, s.down := s.up + up, s.down + down;
      s.addedUp, s.addedDown := s.addedUp + ledgerUp, s.addedDown + ledgerDown;
      forall e | e in counters && e != s.email ensures View()[e] == old(View())[e] {
        assert counters[e] != s;
      }
    }

    /** Connections of one user counting bytes. */
    method Count(email: string, up: nat, down: nat)
      requires Valid()
      modifies this, counters.Values
      ensures Valid() && Kept(old(counters)) && Advanced(old(View()), View(), [])
      ensures Added(View(), email, Up) == Added(old(View()), email, Up) + up
      ensures Added(View(), email, Down) == Added(old(View()), email, Down) + down
    {
      var s := GetCounter(email);
      ghost var before := View();
      AddTo(s, up, down, up, down);
      assert Advanced(before, View(), []);
      GrownThen(old(View()), before, View(), []);
    }

    /** Everything connections may do between two steps of the monitor. */
    method Connections()
      requires Valid()
      modifies this, counters.Values
      ensures Valid() && Kept(old(counters)) && Advanced(old(View()), View(), [])
    {
      var n :| 0 <= n;
      for i := 0 to n
        invariant Valid() && Kept(old(counters)) && Advanced(old(View()), View(), [])
      {
        ghost var before := View();
        var email: string, up, down :| up >= 0 && down >= 0;
        Count(email, up, down);
        GrownThen(old(View()), before, View(), []);
      }
    }
  }
}
