/**
 The periodic scheduler (helper/scheduler/periodic.go).  Timers, runs that have
 fired but not yet taken the lock, runs inside Execute, Start, Close and
 SetInterval interleave in any way; every step is one critical section.
 */
module Scheduler {
  import opened Commons

  /** A timer that has not fired: the generation it was armed for and its delay. */
  datatype Timer = Timer(gen: nat, due: int)

  /** A goroutine of `run`: before its first check, or inside Execute. */
  datatype Run = Run(gen: nat, executing: bool)

  /** The fields of Periodic, and what the runtime holds for it. */
  datatype Sched = Sched(interval: int, delay: bool, running: bool, gen: nat, timer: Option<nat>,
                         pending: map<nat, Timer>, runs: map<nat, Run>, nextId: nat)

  datatype Event =
    | Start
    | Close
    | SetInterval(interval: int)
    | Fire(id: nat)      // the timer expires and its goroutine starts
    | Check(id: nat)     // the first critical section of run
    | Finish(id: nat)    // Execute has returned: the second critical section of run

  function Initial(interval: int, delay: bool): Sched {
    Sched(interval, delay, false, 0, None, map[], map[], 0)
  }

  function Armed(s: Sched, due: int): Sched {
    s.(timer := Some(s.nextId), pending := s.pending[s.nextId := Timer(s.gen, due)], nextId := s.nextId + 1)
  }

  function Current(s: Sched, gen: nat): bool { s.running && s.gen == gen }

  function Step(s: Sched, e: Event): Sched {
    match e
    case Start =>
      if s.running then s
      else Armed(s.(running := true, gen := s.gen + 1), if s.delay then s.interval else 0)
    case Close =>
      s.(running := false, gen := s.gen + 1, timer := None,
         pending := if s.timer.Some? then s.pending - {s.timer.value} else s.pending)
    case SetInterval(interval) => s.(interval := interval)
    case Fire(id) =>
      if id !in s.pending then s
      else s.(pending := s.pending - {id}, runs := s.runs[id := Run(s.pending[id].gen, false)])
    case Check(id) =>
      if id !in s.runs || s.runs[id].executing then s
      else if !Current(s, s.runs[id].gen) then s.(runs := s.runs - {id})
      else s.(runs := s.runs[id := Run(s.gen, true)])
    case Finish(id) =>
      if id !in s.runs || !s.runs[id].executing then s
      else
        var done := s.(runs := s.runs - {id});
        if Current(s, s.runs[id].gen) then Armed(done, s.interval) else done
  }

  function Trace(s: Sched, events: seq<Event>): Sched
    decreases |events|
  {
    if events == [] then s else Step(Trace(s, events[..|events| - 1]), events[|events| - 1])
  }

  // ---------------------------------------------------------------- one live chain

  /** The timers and runs of one generation. */
  function Chain(s: Sched, gen: nat): set<nat> {
    (set id | id in s.pending && s.pending[id].gen == gen) + (set id | id in s.runs && s.runs[id].gen == gen)
  }

  /** A timer still armed is t.timer and of the current generation. */
  ghost predicate TimersCurrent(s: Sched) {
    forall id :: id in s.pending ==>
      id < s.nextId && id !in s.runs && s.timer == Some(id) && Current(s, s.pending[id].gen)
  }

  /** No two runs share a generation, nor do a run and an armed timer. */
  ghost predicate NoForks(s: Sched) {
    && (forall id :: id in s.runs ==> id < s.nextId && s.runs[id].gen <= s.gen)
    && (forall a, b :: a in s.runs && b in s.runs && a != b ==> s.runs[a].gen != s.runs[b].gen)
    && (forall a, b :: a in s.runs && b in s.pending ==> s.runs[a].gen != s.pending[b].gen)
  }

  ghost predicate Live(s: Sched, id: nat) {
    (id in s.pending && s.pending[id].gen == s.gen) || (id in s.runs && s.runs[id].gen == s.gen)
  }

  ghost predicate Inv(s: Sched) {
    && TimersCurrent(s) && NoForks(s)
    && (s.running <==> exists id: nat :: Live(s, id))
  }

  lemma StepKeepsLive(s: Sched, e: Event)
    requires Inv(s)
    ensures Step(s, e).running <==> exists id: nat :: Live(Step(s, e), id)
  {
    var s' := Step(s, e);
    if s'.running {
      if (e.Start? && !s.running) || (e.Finish? && s'.nextId > s.nextId) {
        assert Live(s', s.nextId);
      } else {
        var id: nat :| Live(s, id);
        assert Live(s', id);
      }
    } else {
      forall id: nat ensures !Live(s', id) { assert !s.running ==> !Live(s, id); }
    }
  }

  lemma StepKeepsInv(s: Sched, e: Event)
    requires Inv(s)
    ensures Inv(Step(s, e))
  {
    StepKeepsLive(s, e);
    var s' := Step(s, e);
    match e
    case Start =>
    case Close => assert s'.pending == map[];
    case SetInterval(_) =>
    case Fire(_) =>
    case Check(_) =>
    case Finish(id) =>
      if id in s.runs && s.runs[id].executing { assert Current(s, s.runs[id].gen) ==> s.pending == map[]; }
  }

  lemma {:induction false} TraceKeepsInv(interval: int, delay: bool, events: seq<Event>)
    ensures Inv(Trace(Initial(interval, delay), events))
    decreases |events|
  {
    if events != [] {
      TraceKeepsInv(interval, delay, events[..|events| - 1]);
      StepKeepsInv(Trace(Initial(interval, delay), events[..|events| - 1]), events[|events| - 1]);
    }
  }

  lemma LiveChain(s: Sched)
    requires Inv(s)
    ensures s.running ==> |Chain(s, s.gen)| == 1
    ensures !s.running ==> Chain(s, s.gen) == {} && s.pending == map[]
  {
    forall id: nat ensures Live(s, id) <==> id in Chain(s, s.gen) {}
    if s.running {
      var id: nat :| Live(s, id);
      assert Chain(s, s.gen) == {id};
    }
  }

  /**
   In every reachable state: running means exactly one timer or run carries the
   current generation, not running means none does and no timer is armed.
   */
  lemma SingleLiveChain(interval: int, delay: bool, events: seq<Event>)
    ensures var s := Trace(Initial(interval, delay), events);
            && (s.running ==> |Chain(s, s.gen)| == 1)
            && (!s.running ==> Chain(s, s.gen) == {} && s.pending == map[])
  {
    TraceKeepsInv(interval, delay, events);
    LiveChain(Trace(Initial(interval, delay), events));
  }

  /** Two runs inside Execute never belong to the same generation, and no generation ever forks. */
  lemma NoOverlap(interval: int, delay: bool, events: seq<Event>, gen: nat)
    ensures var s := Trace(Initial(interval, delay), events);
            && |Chain(s, gen)| <= 1
            && forall a, b :: a in s.runs && b in s.runs && s.runs[a].executing && s.runs[b].executing && a != b
                 ==> s.runs[a].gen != s.runs[b].gen
  {
    TraceKeepsInv(interval, delay, events);
    var s := Trace(Initial(interval, delay), events);
    if id :| id in Chain(s, gen) {
      assert Chain(s, gen) == {id};
    }
  }

  lemma ChainsOnlyShrink(s: Sched, e: Event, gen: nat)
    requires Inv(s) && (gen < s.gen || (gen == s.gen && !s.running))
    ensures var s' := Step(s, e);
            && (gen < s'.gen || (gen == s'.gen && !s'.running))
            && Chain(s', gen) <= Chain(s, gen)
  {
  }

  /** A generation that was closed never comes back: its runs only disappear. */
  lemma {:induction false} GenerationsPass(s: Sched, events: seq<Event>, gen: nat)
    requires Inv(s) && (gen < s.gen || (gen == s.gen && !s.running))
    ensures Inv(Trace(s, events)) && Chain(Trace(s, events), gen) <= Chain(s, gen)
    ensures gen < Trace(s, events).gen || (gen == Trace(s, events).gen && !Trace(s, events).running)
    decreases |events|
  {
    if events != [] {
      var init, e := events[..|events| - 1], events[|events| - 1];
      GenerationsPass(s, init, gen);
      StepKeepsInv(Trace(s, init), e);
      ChainsOnlyShrink(Trace(s, init), e, gen);
    }
  }

  /** Running, with nothing but one timer under way in the current generation, due after `due`. */
  ghost predicate Waiting(s: Sched, due: int) {
    s.running && exists id :: s.timer == Some(id) && s.pending == map[id := Timer(s.gen, due)]
  }

  /**
   In every reachable state: a run that executes under the current generation, and
   finishes while it is running, leaves exactly one timer, of that generation, due
   after the interval set at that moment. Any other run that finishes arms nothing.
   */
  lemma FinishRearms(interval: int, delay: bool, events: seq<Event>, id: nat)
    requires IsExecuting(Trace(Initial(interval, delay), events), id)
    ensures var s := Trace(Initial(interval, delay), events);
            var s' := Step(s, Finish(id));
            && id !in s'.runs && s'.gen == s.gen && s'.running == s.running
            && if s.running && s.runs[id].gen == s.gen then Waiting(s', s.interval)
               else s'.pending == s.pending && s'.timer == s.timer
  {
    TraceKeepsInv(interval, delay, events);
    var s := Trace(Initial(interval, delay), events);
    if s.running && s.runs[id].gen == s.gen {
      assert s.pending == map[];
      assert Step(s, Finish(id)).pending == map[s.nextId := Timer(s.gen, s.interval)];
    }
  }

  /** In every reachable state: starting arms one timer, due at once or, with the delay flag, after the interval. */
  lemma StartArms(interval: int, delay: bool, events: seq<Event>)
    requires !Trace(Initial(interval, delay), events).running
    ensures var s := Trace(Initial(interval, delay), events);
            Waiting(Step(s, Event.Start), if delay then s.interval else 0) && Step(s, Event.Start).gen == s.gen + 1
  {
    TraceKeepsInv(interval, delay, events);
    DelayStays(Initial(interval, delay), events);
    var s := Trace(Initial(interval, delay), events);
    LiveChain(s);
    assert Step(s, Event.Start).pending == map[s.nextId := Timer(s.gen + 1, if delay then s.interval else 0)];
  }

  lemma {:induction false} DelayStays(s: Sched, events: seq<Event>)
    ensures Trace(s, events).delay == s.delay
    decreases |events|
  {
    if events != [] {
      DelayStays(s, events[..|events| - 1]);
    }
  }

  /** In every state: Execute begins only while running, and under the current generation. */
  lemma ExecutesOnlyCurrent(s: Sched, e: Event, id: nat)
    requires IsExecuting(Step(s, e), id) && !IsExecuting(s, id)
    ensures s.running && s.runs[id].gen == s.gen && e == Check(id)
  {
  }

  /**
   A task that restarts itself from inside its own Execute: its old run ends
   without rescheduling and exactly the new chain remains, at the new interval.
   */
  lemma RestartFromInside(s: Sched, id: nat, interval: int)
    requires Inv(s) && id in s.runs && s.runs[id].executing && s.runs[id].gen == s.gen
    ensures var s' := Step(Step(Step(Step(s, Close), SetInterval(interval)), Event.Start), Finish(id));
            && s'.running && s'.gen == s.gen + 2 && id !in s'.runs
            && s'.pending == map[s.nextId := Timer(s.gen + 2, if s.delay then interval else 0)]
            && Chain(s', s'.gen) == {s.nextId}
  {
    var s1 := Step(s, Close);
    assert s1.pending == map[];
    var s3 := Step(Step(s1, SetInterval(interval)), Event.Start);
    assert s3.pending == map[s.nextId := Timer(s.gen + 2, if s.delay then interval else 0)];
    assert s3.runs == s.runs;
  }

  lemma {:induction false} TraceConcat(s: Sched, a: seq<Event>, b: seq<Event>)
    ensures Trace(s, a + b) == Trace(Trace(s, a), b)
    decreases |b|
  {
    if b == [] {
      assert a + b == a;
    } else {
      var n := |b| - 1;
      assert (a + b)[..|a + b| - 1] == a + b[..n] && (a + b)[|a + b| - 1] == b[n];
      TraceConcat(s, a, b[..n]);
    }
  }

  /** The run `id`, as long as it is there, belongs to the generation it always did. */
  ghost predicate RunOf(s: Sched, id: nat, gen: nat) {
    id < s.nextId && id !in s.pending && (id in s.runs ==> s.runs[id].gen == gen)
  }

  lemma {:induction false} RunKeepsGeneration(s: Sched, events: seq<Event>, id: nat, gen: nat)
    requires RunOf(s, id, gen)
    ensures RunOf(Trace(s, events), id, gen)
    decreases |events|
  {
    if events != [] {
      RunKeepsGeneration(s, events[..|events| - 1], id, gen);
    }
  }

  lemma {:induction false} GenerationsGrow(s: Sched, events: seq<Event>)
    ensures s.gen <= Trace(s, events).gen
    decreases |events|
  {
    if events != [] {
      GenerationsGrow(s, events[..|events| - 1]);
    }
  }

  lemma {:induction false} IntervalStays(s: Sched, events: seq<Event>)
    requires forall e :: e in events ==> !e.SetInterval?
    ensures Trace(s, events).interval == s.interval
    decreases |events|
  {
    if events != [] {
      IntervalStays(s, events[..|events| - 1]);
    }
  }

  lemma {:induction false} RunningStays(s: Sched, events: seq<Event>)
    requires s.running && forall e :: e in events ==> !e.Close?
    ensures Trace(s, events).running
    decreases |events|
  {
    if events != [] {
      RunningStays(s, events[..|events| - 1]);
    }
  }

  /** The three calls of a restart, with whatever else happens after each of them. */
  function RestartAmong(interval: int, a: seq<Event>, b: seq<Event>, c: seq<Event>): seq<Event> {
    [Close] + a + [SetInterval(interval)] + b + [Event.Start] + c
  }

  /** After a Close and anything else, the run it caught inside Execute ends without arming a timer. */
  lemma ClosedRunEnds(s: Sched, id: nat, rest: seq<Event>)
    requires Inv(s) && id in s.runs && s.runs[id].gen == s.gen
    ensures var w := Trace(s, [Close] + rest);
            && Inv(w) && w.gen > s.gen
            && Step(w, Finish(id)) == if IsExecuting(w, id) then w.(runs := w.runs - {id}) else w
  {
    StepKeepsInv(s, Close);
    FirstStep(s, Close, rest);
    GenerationsPass(Step(s, Close), rest, s.gen);
    GenerationsGrow(Step(s, Close), rest);
    RunKeepsGeneration(s, [Close] + rest, id, s.gen);
  }

  /** Started again, and at the new interval, unless somebody else closed it or set another. */
  lemma RestartTakesHold(s: Sched, interval: int, b: seq<Event>, c: seq<Event>)
    ensures var w := Trace(Trace(Trace(s, [SetInterval(interval)] + b), [Event.Start]), c);
            && ((forall e :: e in c ==> !e.Close?) ==> w.running)
            && ((forall e :: e in b + c ==> !e.SetInterval?) ==> w.interval == interval)
  {
    FirstStep(s, SetInterval(interval), b);
    var s2 := Trace(s, [SetInterval(interval)] + b);
    FirstStep(s2, Event.Start, []);
    assert [Event.Start] + [] == [Event.Start];
    var s3 := Trace(s2, [Event.Start]);
    if forall e :: e in c ==> !e.Close? {
      RunningStays(s3, c);
    }
    if forall e :: e in b + c ==> !e.SetInterval? {
      assert forall e :: e in b || e in c ==> e in b + c;
      IntervalStays(Step(s, SetInterval(interval)), b);
      IntervalStays(s3, c);
    }
  }

  /**
   The same with anything interleaved: timers, runs, other callers. The restarted
   task is running at the new interval, unless somebody else closed it or set
   another since, with one chain of a newer generation; the run that restarted it
   ends without rescheduling.
   */
  lemma RestartInterleaved(s: Sched, id: nat, interval: int, a: seq<Event>, b: seq<Event>, c: seq<Event>)
    requires Inv(s) && id in s.runs && s.runs[id].executing && s.runs[id].gen == s.gen
    ensures var w := Trace(s, RestartAmong(interval, a, b, c));
            && Inv(w) && w.gen > s.gen
            && (w.running ==> |Chain(w, w.gen)| == 1)
            && Step(w, Finish(id)) == (if IsExecuting(w, id) then w.(runs := w.runs - {id}) else w)
            && ((forall e :: e in c ==> !e.Close?) ==> w.running)
            && ((forall e :: e in b + c ==> !e.SetInterval?) ==> w.interval == interval)
  {
    var rest := a + [SetInterval(interval)] + b + [Event.Start] + c;
    assert RestartAmong(interval, a, b, c) == [Close] + rest;
    ClosedRunEnds(s, id, rest);
    LiveChain(Trace(s, [Close] + rest));
    RestartSplits(s, interval, a, b, c);
    RestartTakesHold(Trace(s, [Close] + a), interval, b, c);
  }

  predicate IsExecuting(s: Sched, id: nat) { id in s.runs && s.runs[id].executing }

  lemma FirstStep(s: Sched, e: Event, rest: seq<Event>)
    ensures Trace(s, [e] + rest) == Trace(Step(s, e), rest)
  {
    TraceConcat(s, [e], rest);
    assert [e][..0] == [];
    assert Trace(s, [e]) == Step(Trace(s, []), e);
  }

  lemma RestartSplits(s: Sched, interval: int, a: seq<Event>, b: seq<Event>, c: seq<Event>)
    ensures Trace(s, RestartAmong(interval, a, b, c)) ==
            Trace(Trace(Trace(Trace(s, [Close] + a), [SetInterval(interval)] + b), [Event.Start]), c)
  {
    var x, y, z := [Close] + a, [SetInterval(interval)] + b, [Event.Start];
    assert RestartAmong(interval, a, b, c) == x + y + z + c;
    TraceConcat(s, x + y + z, c);
    TraceConcat(s, x + y, z);
    TraceConcat(s, x, y);
  }

  // ---------------------------------------------------------------- the code

  class Periodic {
    var interval: int
    const delay: bool
    var running: bool
    var gen: nat
    var timer: Option<nat>

    // time.AfterFunc and the goroutines it starts
    var pending: map<nat, Timer>
    var runs: map<nat, Run>
    var nextId: nat

    ghost function State(): Sched
      reads this
    {
      Sched(interval, delay, running, gen, timer, pending, runs, nextId)
    }

    constructor (interval: int, delay: bool)
      ensures State() == Initial(interval, delay)
    {
      this.interval, this.delay, running, gen, timer := interval, delay, false, 0, None;
      pending, runs, nextId := map[], map[], 0;
    }

    method GetInterval() returns (d: int)
      ensures d == State().interval
    {
      d := interval;
    }

    method SetInterval(d: int)
      modifies this
      ensures State() == Step(old(State()), Event.SetInterval(d))
    {
      interval := d;
    }

    method Schedule(d: int, gen: nat)
      requires gen == this.gen
      modifies this
      ensures State() == Armed(old(State()), d)
    {
      timer, pending, nextId := Some(nextId), pending[nextId := Timer(gen, d)], nextId + 1;
    }

    method Start()
      modifies this
      ensures State() == Step(old(State()), Event.Start)
      ensures running && runs == old(runs)
      ensures old(running) ==> gen == old(gen) && pending == old(pending) && timer == old(timer)
      ensures !old(running) ==>
                && gen == old(gen) + 1 && timer == Some(old(nextId))
                && pending == old(pending)[old(nextId) := Timer(gen, if delay then interval else 0)]
    {
      if running { return; }
      running, gen := true, gen + 1;
      if delay { Schedule(interval, gen); } else { Schedule(0, gen); }
    }

    method Close()
      modifies this
      ensures State() == Step(old(State()), Event.Close)
      ensures !running && gen == old(gen) + 1 && timer == None && runs == old(runs)
      ensures pending == old(pending) - (if old(timer).Some? then {old(timer).value} else {})
    {
      running, gen := false, gen + 1;
      if timer != None {
        pending := pending - {timer.value};   // Stop; a fired timer is no longer there
        timer := None;
      }
    }

    method Fire(id: nat)
      modifies this
      ensures State() == Step(old(State()), Event.Fire(id))
      ensures pending == old(pending) - {id} && timer == old(timer)
      ensures runs == if id in old(pending) then old(runs)[id := Run(old(pending)[id].gen, false)] else old(runs)
    {
      if id in pending {
        pending, runs := pending - {id}, runs[id := Run(pending[id].gen, false)];
      }
    }

    /** run, up to the call of Execute */
    method BeginRun(id: nat)
      modifies this
      ensures State() == Step(old(State()), Event.Check(id))
      ensures pending == old(pending) && timer == old(timer)
      ensures runs == if id !in old(runs) || old(runs)[id].executing then old(runs)
                      else if running && old(runs)[id].gen == gen then old(runs)[id := Run(gen, true)]
                      else old(runs) - {id}
    {
      if id in runs && !runs[id].executing {
        if !running || gen != runs[id].gen {
          runs := runs - {id};
          return;
        }
        runs := runs[id := Run(gen, true)];
      }
    }

    /** run, after Execute has returned */
    method EndRun(id: nat)
      modifies this
      ensures State() == Step(old(State()), Event.Finish(id))
      ensures gen == old(gen) && running == old(running) && interval == old(interval)
      ensures if id in old(runs) && old(runs)[id].executing && running && old(runs)[id].gen == gen then
                && runs == old(runs) - {id} && timer == Some(old(nextId))
                && pending == old(pending)[old(nextId) := Timer(gen, interval)]
              else
                && runs == old(runs) - (if id in old(runs) && old(runs)[id].executing then {id} else {})
                && timer == old(timer) && pending == old(pending)
    {
      if id in runs && runs[id].executing {
        var mine := runs[id].gen;
        runs := runs - {id};
        if running && gen == mine { Schedule(interval, mine); }
      }
    }
  }
}
