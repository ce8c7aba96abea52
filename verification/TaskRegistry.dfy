/**
 Periodic tasks and their registry (helper/scheduler/scheduler.go), and the
 synchronisation of optional tasks with what a node wants
 (controller/cert_tasks.go).
 */
module TaskRegistry {
  import opened Commons
  import opened Scheduler

  /** Nothing of this scheduler will ever execute or arm a timer again unless it is started. */
  ghost predicate Dead(s: Sched) {
    !s.running && s.pending == map[] && forall id :: id in s.runs ==> s.runs[id].gen < s.gen
  }

  lemma StoppedIsDead(s: Sched)
    requires Inv(s) && !s.running
    ensures Dead(s)
  {
    forall id | id in s.runs ensures s.runs[id].gen < s.gen { assert !Live(s, id); }
    forall id ensures id !in s.pending {}
  }

  lemma DeadStep(s: Sched, e: Event)
    requires Inv(s) && Dead(s) && !e.Start?
    ensures var s' := Step(s, e);
            && Inv(s') && Dead(s')
            && forall id :: id in s'.runs ==> id in s.runs && s'.runs[id] == s.runs[id]
  {
    StepKeepsInv(s, e);
  }

  /** Dead stays dead: timers and finished runs of a closed scheduler never bring it back. */
  lemma {:induction false} DeadStaysDead(s: Sched, events: seq<Event>)
    requires Inv(s) && Dead(s) && forall e :: e in events ==> !e.Start?
    ensures Inv(Trace(s, events)) && Dead(Trace(s, events))
    ensures forall id :: id in Trace(s, events).runs ==> id in s.runs && Trace(s, events).runs[id] == s.runs[id]
    decreases |events|
  {
    if events != [] {
      var init := events[..|events| - 1];
      DeadStaysDead(s, init);
      DeadStep(Trace(s, init), events[|events| - 1]);
    }
  }

  function Without<T>(s: seq<T>, i: nat): seq<T>
    requires i < |s|
  {
    s[..i] + s[i + 1..]
  }

  lemma WithoutMembers<T>(s: seq<T>, i: nat)
    requires i < |s| && NoDup(s)
    ensures NoDup(Without(s, i))
    ensures forall x :: x in Without(s, i) <==> x in s && x != s[i]
  {
    var r := Without(s, i);
    forall x | x in s && x != s[i] ensures x in r {
      var j :| 0 <= j < |s| && s[j] == x;
      assert r[if j < i then j else j - 1] == x;
    }
    forall x | x in r ensures x in s && x != s[i] {
      var j :| 0 <= j < |r| && r[j] == x;
      assert s[if j < i then j else j + 1] == x;
    }
  }

  /** Closing, setting the interval and starting again, in one expression. */
  function Restarted(s: Sched, interval: int): Sched {
    Step(Step(if s.running then Step(s, Event.Close) else s, Event.SetInterval(interval)), Event.Start)
  }

  /** What starting a scheduler that is not running leaves to wait for. */
  function FirstDue(p: Sched): int { if p.delay then p.interval else 0 }

  lemma StartedWaits(s: Sched)
    requires Inv(s) && !s.running
    ensures Waiting(Step(s, Event.Start), FirstDue(s))
  {
    LiveChain(s);
    assert Step(s, Event.Start).pending == map[s.nextId := Timer(s.gen + 1, FirstDue(s))];
  }

  lemma RestartedWaits(s: Sched, interval: int)
    requires Inv(s)
    ensures Waiting(Restarted(s, interval), if s.delay then interval else 0) && Restarted(s, interval).gen > s.gen
  {
    var closed := if s.running then Step(s, Event.Close) else s;
    StepKeepsInv(s, Event.Close);
    StepKeepsInv(closed, Event.SetInterval(interval));
    StartedWaits(Step(closed, Event.SetInterval(interval)));
  }

  class PeriodicTask {
    const tag: string
    const periodic: Periodic
    var running: bool

    ghost predicate Valid()
      reads this, periodic
    {
      Inv(periodic.State()) && running == periodic.running
    }

    constructor (tag: string, interval: int, delay: bool)
      ensures Valid() && fresh(periodic) && !running
      ensures this.tag == tag && periodic.State() == Initial(interval, delay)
    {
      this.tag, running := tag, false;
      periodic := new Periodic(interval, delay);
    }

    method Start()
      requires Valid()
      modifies this, periodic
      ensures Valid() && running
      ensures periodic.State() == Step(old(periodic.State()), Event.Start)
    {
      StepKeepsInv(periodic.State(), Event.Start);
      if running { return; }
      periodic.Start();
      running := true;
    }

    method Close()
      requires Valid()
      modifies this, periodic
      ensures Valid() && Dead(periodic.State())
      ensures periodic.State() ==
              if old(running) then Step(old(periodic.State()), Event.Close) else old(periodic.State())
    {
      if running {
        StepKeepsInv(periodic.State(), Event.Close);
        periodic.Close();
        running := false;
      }
      StoppedIsDead(periodic.State());
    }

    method RestartWithInterval(interval: int)
      requires Valid()
      modifies this, periodic
      ensures Valid() && running && periodic.interval == interval
      ensures periodic.State() == Restarted(old(periodic.State()), interval)
      ensures Waiting(periodic.State(), if periodic.delay then interval else 0) && periodic.gen > old(periodic.gen)
    {
      RestartedWaits(periodic.State(), interval);
      Close();
      StepKeepsInv(periodic.State(), Event.SetInterval(interval));
      periodic.SetInterval(interval);
      Start();
    }

    /** A step of the runtime. */
    method Tick(e: Event)
      requires Valid() && IsTimer(e)
      modifies periodic
      ensures Valid() && periodic.State() == Step(old(periodic.State()), e)
      ensures periodic.interval == old(periodic.interval) && running == periodic.running
      ensures old(Dead(periodic.State())) ==> Dead(periodic.State())
    {
      TimerStep(periodic.State(), e);
      match e
      case Fire(id) => periodic.Fire(id);
      case Check(id) => periodic.BeginRun(id);
      case Finish(id) => periodic.EndRun(id);
    }
  }

  /** What the runtime does to a task: a timer fires, a run checks or finishes. */
  predicate IsTimer(e: Event) { e.Fire? || e.Check? || e.Finish? }

  lemma TimerStep(s: Sched, e: Event)
    requires Inv(s) && IsTimer(e)
    ensures var s' := Step(s, e);
            Inv(s') && s'.running == s.running && s'.interval == s.interval && (Dead(s) ==> Dead(s'))
  {
    StepKeepsInv(s, e);
    if Dead(s) { DeadStep(s, e); }
  }

  class Manager {
    var tasks: seq<PeriodicTask>

    ghost predicate Distinct()
      reads this
    {
      NoDup(tasks) && forall s, t :: s in tasks && t in tasks && s != t ==> s.tag != t.tag && s.periodic != t.periodic
    }

    ghost predicate Valid()
      reads this, tasks, set t | t in tasks :: t.periodic
    {
      Distinct() && forall t :: t in tasks ==> t.Valid()
    }

    constructor ()
      ensures Valid() && tasks == []
    {
      tasks := [];
    }

    /** The index of a tag, or -1. */
    method Find(tag: string) returns (i: int)
      ensures -1 <= i < |tasks|
      ensures i >= 0 ==> tasks[i].tag == tag
      ensures i < 0 ==> forall t :: t in tasks ==> t.tag != tag
    {
      i := 0;
      while i < |tasks|
        invariant 0 <= i <= |tasks|
        invariant forall j :: 0 <= j < i ==> tasks[j].tag != tag
      {
        if tasks[i].tag == tag { return; }
        i := i + 1;
      }
      i := -1;
    }

    method GetTask(tag: string) returns (t: PeriodicTask?)
      ensures t != null ==> t in tasks && t.tag == tag
      ensures t == null ==> forall u :: u in tasks ==> u.tag != tag
    {
      var i := Find(tag);
      t := if i < 0 then null else tasks[i];
    }

    /** Every task of another tag is where it was and as it was. */
    twostate predicate OthersKept(tag: string, before: seq<PeriodicTask>)
      reads this, before, set t | t in before :: t.periodic
    {
      && (forall t :: t in before && t.tag != tag ==> t in tasks && unchanged(t) && unchanged(t.periodic))
      && (forall t :: t in tasks && t.tag != tag ==> t in before)
    }

    /** Closes and drops the task of a tag, if there is one. */
    method RemoveTask(tag: string)
      requires Valid()
      modifies this, tasks, set t | t in tasks :: t.periodic
      ensures Valid() && OthersKept(tag, old(tasks))
      ensures forall t :: t in tasks ==> t.tag != tag && t in old(tasks)
      ensures forall t :: t in old(tasks) && t.tag == tag ==> t.Valid() && Dead(t.periodic.State())
      ensures forall t :: t in old(tasks) && t.tag == tag ==>
                t.periodic.State() ==
                if old(t.running) then Step(old(t.periodic.State()), Event.Close) else old(t.periodic.State())
    {
      var i := Find(tag);
      if i < 0 { return; }
      var t := tasks[i];
      WithoutMembers(tasks, i);
      t.Close();
      tasks := Without(tasks, i);
    }

    /** Replaces the task of the same tag, if there is one, and starts the new one; it may be the same again. */
    method AddAndStart(task: PeriodicTask)
      requires Valid() && task.Valid()
      requires forall t :: t in tasks && t != task ==> t.periodic != task.periodic
      modifies this, tasks, set t | t in tasks :: t.periodic, task, task.periodic
      ensures Valid() && OthersKept(task.tag, old(tasks))
      ensures task in tasks && task.running
      ensures task.periodic.State() ==
              Step(if task in old(tasks) && old(task.running) then Step(old(task.periodic.State()), Event.Close)
                   else old(task.periodic.State()), Event.Start)
      ensures forall t :: t in tasks && t.tag == task.tag ==> t == task
      ensures forall t :: t in old(tasks) && t.tag == task.tag && t != task ==> t.Valid() && Dead(t.periodic.State())
      ensures task in old(tasks) || !old(task.running) ==>
                Waiting(task.periodic.State(), FirstDue(old(task.periodic.State())))
    {
      RemoveTask(task.tag);
      if !task.running { StartedWaits(task.periodic.State()); }
      StartAndAppend(task);
    }

    method StartAndAppend(task: PeriodicTask)
      requires Valid() && task.Valid()
      requires forall t :: t in tasks ==> t.tag != task.tag && t.periodic != task.periodic
      modifies this, task, task.periodic
      ensures Valid() && tasks == old(tasks) + [task] && task.running
      ensures task.periodic.State() == Step(old(task.periodic.State()), Event.Start)
    {
      task.Start();
      tasks := tasks + [task];
    }

    /** syncTask: the tag is registered exactly when it is wanted, and then at the wanted interval. */
    method SyncTask(tag: string, wanted: bool, interval: int)
      requires Valid()
      modifies this, tasks, set t | t in tasks :: t.periodic
      ensures Valid() && OthersKept(tag, old(tasks))
      ensures wanted <==> exists t :: t in tasks && t.tag == tag
      ensures forall t :: t in tasks && t.tag == tag ==> t.periodic.interval == interval
      ensures forall t :: t in old(tasks) && t !in tasks ==> t.Valid() && Dead(t.periodic.State())
      ensures forall t :: t in tasks && t.tag == tag && (t !in old(tasks) || old(t.running)) ==> t.running
      ensures forall t :: t in tasks && t !in old(tasks) ==> fresh(t) && fresh(t.periodic)
      ensures forall t :: t in tasks && t !in old(tasks) ==> t.periodic.delay && Waiting(t.periodic.State(), interval)
      ensures forall t :: t in tasks && t in old(tasks) && t.tag == tag ==>
                if old(t.periodic.interval) == interval then unchanged(t) && unchanged(t.periodic)
                else Waiting(t.periodic.State(), if t.periodic.delay then interval else 0)
    {
      var t := GetTask(tag);
      var current := 0;
      if t != null { current := t.periodic.GetInterval(); }
      if !wanted && t != null {
        RemoveTask(tag);
      } else if wanted && t == null {
        var task := new PeriodicTask(tag, interval, true);
        AddAndStart(task);
      } else if wanted && t != null && current != interval {
        t.RestartWithInterval(interval);
      }
    }

    /** What apiMonitor does to a task whose interval has changed, if it is there. */
    method Retime(tag: string, interval: int)
      requires Valid()
      modifies tasks, set t | t in tasks :: t.periodic
      ensures Valid() && OthersKept(tag, old(tasks))
      ensures forall t :: t in tasks && t.tag == tag ==> t.running && t.periodic.interval == interval
    {
      var t := GetTask(tag);
      if t != null {
        t.RestartWithInterval(interval);
      }
    }

    /** The registered tasks are those of the map, each at its interval, and all of them run. */
    ghost predicate Runs(expected: map<string, int>)
      reads this, tasks, set t | t in tasks :: t.periodic
    {
      && Valid()
      && (forall t :: t in tasks ==> t.running && t.tag in expected && t.periodic.interval == expected[t.tag])
      && (forall tag :: tag in expected ==> exists t :: t in tasks && t.tag == tag)
    }

    twostate lemma TouchedRuns(turn: Turn)
      requires !turn.call.Tick?
      requires old(Runs(turn.expected)) && Touched(this, old(tasks), turn.call.tag, turn.Now())
      ensures Runs(turn.Now())
    {
      var tag, now := turn.call.tag, turn.Now();
      OtherTagsStay(turn);
      forall g | g in now ensures exists t :: t in tasks && t.tag == g {
        if g != tag {
          var t :| t in old(tasks) && t.tag == g;
          assert t in tasks;
        }
      }
      forall t | t in tasks ensures t.running && t.tag in now && t.periodic.interval == now[t.tag] {
        if t.tag != tag {
          assert t in old(tasks) && unchanged(t) && unchanged(t.periodic);
        }
      }
    }

    twostate lemma TouchedBuries(gone: set<PeriodicTask>)
      requires old(Valid()) && old(Buried(this, gone)) && Valid()
      requires forall t :: t in old(tasks) && t !in tasks ==> t.Valid() && Dead(t.periodic.State())
      requires forall t :: t in tasks && t !in old(tasks) ==> fresh(t) && fresh(t.periodic)
      requires forall t :: t in gone ==> unchanged(t) && unchanged(t.periodic)
      ensures Buried(this, gone + (Elements(old(tasks)) - Elements(tasks)))
    {
    }

    /** A step of the runtime touches no registration, interval or running flag. */
    twostate lemma TimerRuns(expected: map<string, int>)
      requires old(Runs(expected)) && unchanged(this)
      requires forall t :: t in tasks ==> unchanged(t) && t.Valid() && t.periodic.interval == old(t.periodic.interval)
      ensures Runs(expected)
    {
      forall t | t in tasks ensures t.running && t.tag in expected && t.periodic.interval == expected[t.tag] {
        assert old(t.running) && old(t.periodic.interval) == expected[t.tag];
      }
      forall g | g in expected ensures exists t :: t in tasks && t.tag == g {
        var t :| t in old(tasks) && t.tag == g;
        assert t in tasks;
      }
    }

    twostate lemma TimerBuries(gone: set<PeriodicTask>)
      requires old(Buried(this, gone)) && unchanged(this)
      requires forall t :: t in gone ==> t.Valid() && Dead(t.periodic.State())
      ensures Buried(this, gone)
    {
    }
  }

  // ----- Every run -----

  /** Calls of the registry, and steps of the runtime on any task there is or was. */
  datatype Call =
    | Register(tag: string, interval: int, delay: bool)
    | Unregister(tag: string)
    | Sync(tag: string, wanted: bool, interval: int)
    | Retime(tag: string, interval: int)
    | Tick(e: Event)

  /** The tags that should be registered, and their intervals. */
  function After(expected: map<string, int>, call: Call): map<string, int> {
    match call
    case Register(tag, interval, _) => expected[tag := interval]
    case Unregister(tag) => expected - {tag}
    case Sync(tag, wanted, interval) => if wanted then expected[tag := interval] else expected - {tag}
    case Retime(tag, interval) => if tag in expected then expected[tag := interval] else expected
    case Tick(_) => expected
  }

  /** A call, and what was expected before it. */
  datatype Turn = Turn(expected: map<string, int>, call: Call) {
    function Now(): map<string, int> { After(expected, call) }
  }

  lemma OtherTagsStay(turn: Turn)
    requires !turn.call.Tick?
    ensures forall g :: g != turn.call.tag ==>
              && (g in turn.Now() <==> g in turn.expected)
              && (g in turn.expected ==> turn.Now()[g] == turn.expected[g])
  {
  }

  function AfterAll(expected: map<string, int>, calls: seq<Call>): map<string, int>
    decreases |calls|
  {
    if calls == [] then expected else After(AfterAll(expected, calls[..|calls| - 1]), calls[|calls| - 1])
  }

  /** Tasks that were dropped or replaced: dead, and apart from the registered ones. */
  ghost predicate Buried(m: Manager, gone: set<PeriodicTask>)
    reads m, m.tasks, gone, set t | t in gone :: t.periodic
  {
    && (forall t :: t in gone ==> t !in m.tasks && t.Valid() && Dead(t.periodic.State()))
    && (forall t, u :: t in gone && u in m.tasks ==> t.periodic != u.periodic)
    && (forall t, u :: t in gone && u in gone && t != u ==> t.periodic != u.periodic)
  }

  /** What every call of the registry does: it touches one tag, buries what it drops, and registers only new tasks. */
  twostate predicate Touched(m: Manager, before: seq<PeriodicTask>, tag: string, now: map<string, int>)
    reads m, m.tasks, set t | t in m.tasks :: t.periodic, before, set t | t in before :: t.periodic
  {
    && m.Valid() && m.OthersKept(tag, before)
    && (tag in now <==> exists t :: t in m.tasks && t.tag == tag)
    && (forall t :: t in m.tasks && t.tag == tag ==> t.running && tag in now && t.periodic.interval == now[tag])
    && (forall t :: t in before && t !in m.tasks ==> t.Valid() && Dead(t.periodic.State()))
    && (forall t :: t in m.tasks && t !in before ==> fresh(t) && fresh(t.periodic))
  }

  /** One call of the registry. */
  method Perform(m: Manager, call: Call, ghost expected: map<string, int>)
    requires m.Runs(expected) && !call.Tick?
    modifies m, m.tasks, set t | t in m.tasks :: t.periodic
    ensures Touched(m, old(m.tasks), call.tag, After(expected, call))
  {
    match call {
      case Register(tag, interval, delay) =>
        var task := new PeriodicTask(tag, interval, delay);
        m.AddAndStart(task);
      case Unregister(tag) =>
        m.RemoveTask(tag);
      case Sync(tag, wanted, interval) =>
        m.SyncTask(tag, wanted, interval);
      case Retime(tag, interval) =>
        m.Retime(tag, interval);
    }
  }

  lemma Apart(m: Manager, t: PeriodicTask, gone: set<PeriodicTask>)
    requires m.Valid() && Buried(m, gone) && (t in m.tasks || t in gone)
    ensures t.Valid() && forall u :: (u in m.tasks || u in gone) && u != t ==> u.periodic != t.periodic
  {
  }

  /** A step of the runtime on any task, registered or dropped: neither the registered tasks nor the dead change. */
  method TickTask(m: Manager, t: PeriodicTask, e: Event, ghost expected: map<string, int>,
                  ghost gone: set<PeriodicTask>)
    requires m.Runs(expected) && Buried(m, gone) && IsTimer(e) && (t in m.tasks || t in gone)
    modifies t.periodic
    ensures m.Runs(expected) && Buried(m, gone)
  {
    Apart(m, t, gone);
    t.Tick(e);
    m.TimerRuns(expected);
    m.TimerBuries(gone);
  }

  /** One call of the registry, with what it drops. */
  method PerformBurying(m: Manager, call: Call, ghost expected: map<string, int>, gone: set<PeriodicTask>)
    returns (after: set<PeriodicTask>)
    requires m.Runs(expected) && Buried(m, gone) && !call.Tick?
    modifies m, m.tasks, set t | t in m.tasks :: t.periodic
    ensures m.Runs(After(expected, call)) && Buried(m, after)
    ensures after == gone + (Elements(old(m.tasks)) - Elements(m.tasks))
    ensures forall t :: t in m.tasks && t !in old(m.tasks) ==> fresh(t) && fresh(t.periodic)
  {
    ghost var before := m.tasks;
    var were := Elements(m.tasks);
    Perform(m, call, expected);
    after := gone + (were - Elements(m.tasks));
    m.TouchedRuns(Turn(expected, call));
    assert forall t :: t in gone ==> t !in before && unchanged(t) && unchanged(t.periodic);
    m.TouchedBuries(gone);
  }

  /** A set of objects that holds a registry, its tasks and those it dropped. */
  ghost predicate Covers(foot: set<object>, m: Manager, gone: set<PeriodicTask>)
    reads m
  {
    && m in foot
    && (forall t :: t in m.tasks ==> t in foot && t.periodic in foot)
    && (forall t :: t in gone ==> t in foot && t.periodic in foot)
  }

  method TickAny(m: Manager, e: Event, ghost expected: map<string, int>, gone: set<PeriodicTask>,
                 ghost foot: set<object>)
    requires m.Runs(expected) && Buried(m, gone) && Covers(foot, m, gone) && IsTimer(e)
    modifies foot - {m}
    ensures m.Runs(expected) && Buried(m, gone)
  {
    var there := Elements(m.tasks) + gone;
    if there != {} {
      var t :| t in there;
      TickTask(m, t, e, expected, gone);
    }
  }

  /** What a call drops and registers is covered too, by what was covered and by new objects. */
  method PerformCovered(m: Manager, call: Call, ghost expected: map<string, int>, gone: set<PeriodicTask>,
                        ghost foot: set<object>)
    returns (after: set<PeriodicTask>, ghost wider: set<object>)
    requires m.Runs(expected) && Buried(m, gone) && Covers(foot, m, gone) && !call.Tick?
    modifies foot
    ensures m.Runs(After(expected, call)) && Buried(m, after)
    ensures after == gone + (Elements(old(m.tasks)) - Elements(m.tasks))
    ensures Covers(wider, m, after) && forall o :: o in wider ==> o in foot || fresh(o)
  {
    after := PerformBurying(m, call, expected, gone);
    ghost var new': set<PeriodicTask> := set t | t in m.tasks && t !in old(m.tasks);
    wider := foot + new' + set t: PeriodicTask | t in new' :: t.periodic;
  }

  /** A call of the registry, or a step of the runtime on some task there is or was. */
  method Advance(m: Manager, call: Call, ghost expected: map<string, int>, gone: set<PeriodicTask>,
                 ghost foot: set<object>)
    returns (after: set<PeriodicTask>, ghost wider: set<object>)
    requires m.Runs(expected) && Buried(m, gone) && Covers(foot, m, gone) && (call.Tick? ==> IsTimer(call.e))
    modifies foot
    ensures m.Runs(After(expected, call)) && Buried(m, after)
    ensures gone <= after && Elements(old(m.tasks)) <= Elements(m.tasks) + after
    ensures Covers(wider, m, after) && forall o :: o in wider ==> o in foot || fresh(o)
  {
    if call.Tick? {
      after, wider := gone, foot;
      TickAny(m, call.e, expected, gone, foot);
    } else {
      after, wider := PerformCovered(m, call, expected, gone, foot);
    }
  }

  /**
   Any calls, with timers of registered and dropped tasks firing between
   them: what is registered, and at which interval, is what the calls say;
   all of it runs, one task a tag; a task registered before is registered
   still or dropped, and whatever was dropped, replaced ones included, is
   dead and stays so.
   */
  method Drive(
    m: Manager, calls: seq<Call>, ghost expected: map<string, int>, dropped: set<PeriodicTask>, ghost foot: set<object>)
    returns (gone: set<PeriodicTask>, ghost wider: set<object>)
    requires m.Runs(expected) && Buried(m, dropped) && Covers(foot, m, dropped)
    requires forall c :: c in calls && c.Tick? ==> IsTimer(c.e)
    modifies foot
    ensures m.Runs(AfterAll(expected, calls)) && Buried(m, gone)
    ensures dropped <= gone && Elements(old(m.tasks)) <= Elements(m.tasks) + gone
    ensures Covers(wider, m, gone) && forall o :: o in wider ==> o in foot || fresh(o)
  {
    gone, wider := dropped, foot;
    for i := 0 to |calls|
      invariant m.Runs(AfterAll(expected, calls[..i])) && Buried(m, gone)
      invariant Covers(wider, m, gone) && forall o :: o in wider ==> o in foot || fresh(o)
      invariant dropped <= gone && Elements(old(m.tasks)) <= Elements(m.tasks) + gone
    {
      assert calls[..i + 1][..i] == calls[..i];
      gone, wider := Advance(m, calls[i], AfterAll(expected, calls[..i]), gone, wider);
    }
    assert calls[..|calls|] == calls;
  }
}
