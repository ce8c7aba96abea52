/**
 The hot user table of an inbound (core/inbound/protocol/vless.go): users by
 slot, the map from names to slots, the published name snapshot and the table
 pushed to the service.  The push happens outside the lock, so pushes of
 concurrent calls may land in any order.
 */
module SlotTable {
  import opened Api
  import opened Commons

  datatype User = User(name: string, uuid: string, flow: string)

  /** The zero value: a deleted slot. */
  const DELETED := User("", "", "")

  /** One row of service.UpdateUsers. */
  datatype Row = Row(slot: nat, uuid: string, flow: string)

  datatype Table = Table(users: seq<User>, slotMap: map<string, nat>)

  /** slotMap is the exact inverse of the slots in use. */
  ghost predicate Inverse(t: Table) {
    && (forall n :: n in t.slotMap ==> t.slotMap[n] < |t.users| && t.users[t.slotMap[n]].name == n)
    && (forall s :: 0 <= s < |t.users| && t.users[s] != DELETED ==>
          t.users[s].name in t.slotMap && t.slotMap[t.users[s].name] == s)
  }

  function Upsert(t: Table, u: User): (r: Table)
    requires Inverse(t)
    ensures Inverse(r) && |t.users| <= |r.users|
  {
    if u.name in t.slotMap then t.(users := t.users[t.slotMap[u.name] := u])
    else Table(t.users + [u], t.slotMap[u.name := |t.users|])
  }

  function Delete(t: Table, name: string): (r: Table)
    requires Inverse(t)
    ensures Inverse(r) && |t.users| == |r.users|
  {
    if name in t.slotMap then Table(t.users[t.slotMap[name] := DELETED], t.slotMap - {name})
    else t
  }

  function AddAll(t: Table, us: seq<User>): (r: Table)
    requires Inverse(t)
    ensures Inverse(r) && |t.users| <= |r.users|
    decreases |us|
  {
    if us == [] then t else Upsert(AddAll(t, us[..|us| - 1]), us[|us| - 1])
  }

  function DeleteAll(t: Table, names: seq<string>): (r: Table)
    requires Inverse(t)
    ensures Inverse(r) && |t.users| == |r.users|
    decreases |names|
  {
    if names == [] then t else Delete(DeleteAll(t, names[..|names| - 1]), names[|names| - 1])
  }

  function Names(t: Table): seq<string> { seq(|t.users|, i requires 0 <= i < |t.users| => t.users[i].name) }

  /** The rows of the slots with a non-empty UUID, in slot order. */
  function Active(users: seq<User>): seq<Row>
    decreases |users|
  {
    if users == [] then [] else
    var s := |users| - 1;
    Active(users[..s]) + (if users[s].uuid != "" then [Row(s, users[s].uuid, users[s].flow)] else [])
  }

  // ---------------------------------------------------------------- refinement

  /** The plain map from names to users that the table stands for. */
  function Entries(t: Table): map<string, User>
    requires Inverse(t)
  {
    map n | n in t.slotMap :: t.users[t.slotMap[n]]
  }

  function PutAll(m: map<string, User>, us: seq<User>): map<string, User>
    decreases |us|
  {
    if us == [] then m else var last := us[|us| - 1]; PutAll(m, us[..|us| - 1])[last.name := last]
  }

  lemma UpsertRefines(t: Table, u: User)
    requires Inverse(t)
    ensures Entries(Upsert(t, u)) == Entries(t)[u.name := u]
  {
    var e := Entries(Upsert(t, u));
    assert e.Keys == t.slotMap.Keys + {u.name};
    forall n | n in e ensures e[n] == Entries(t)[u.name := u][n] {}
  }

  lemma DeleteOneRefines(t: Table, name: string)
    requires Inverse(t)
    ensures Entries(Delete(t, name)) == Entries(t) - {name}
  {
    var e := Entries(Delete(t, name));
    assert e.Keys == t.slotMap.Keys - {name};
    forall n | n in e ensures e[n] == Entries(t)[n] {}
  }

  /** AddUsers is upsert by name, DelUsers is delete by name. */
  lemma {:induction false} AddRefines(t: Table, us: seq<User>)
    requires Inverse(t)
    ensures Entries(AddAll(t, us)) == PutAll(Entries(t), us)
    decreases |us|
  {
    if us != [] {
      AddRefines(t, us[..|us| - 1]);
      UpsertRefines(AddAll(t, us[..|us| - 1]), us[|us| - 1]);
    }
  }

  lemma MinusMinus(m: map<string, User>, names: set<string>, n: string)
    ensures m - names - {n} == m - (names + {n})
  {
  }

  lemma {:induction false} DeleteRefines(t: Table, names: seq<string>)
    requires Inverse(t)
    ensures Entries(DeleteAll(t, names)) == Entries(t) - Elements(names)
    decreases |names|
  {
    if names != [] {
      var init, n := names[..|names| - 1], names[|names| - 1];
      DeleteRefines(t, init);
      DeleteOneRefines(DeleteAll(t, init), n);
      assert Elements(names) == Elements(init) + {n} by { assert names == init + [n]; }
      MinusMinus(Entries(t), Elements(init), n);
    }
  }

  /** The pushed rows are exactly the entries that have a UUID, each at its own slot. */
  lemma {:induction false} ActiveRows(users: seq<User>, row: Row)
    ensures row in Active(users) <==>
      row.slot < |users| && users[row.slot].uuid == row.uuid != "" && users[row.slot].flow == row.flow
    decreases |users|
  {
    if users != [] {
      ActiveRows(users[..|users| - 1], row);
    }
  }

  /** A row is pushed exactly when some name in the map has that UUID and flow and owns the slot. */
  lemma ActiveIsEntries(t: Table, row: Row)
    requires Inverse(t)
    ensures row in Active(t.users) <==>
      exists n :: n in t.slotMap && t.slotMap[n] == row.slot &&
        Entries(t)[n].uuid == row.uuid != "" && Entries(t)[n].flow == row.flow
  {
    ActiveRows(t.users, row);
    if row in Active(t.users) {
      var n := t.users[row.slot].name;
      assert n in t.slotMap && t.slotMap[n] == row.slot;
    }
  }

  // ---------------------------------------------------------------- initial users

  /** newVLESSInbound appends without looking names up, so a name maps to the last slot that carries it. */
  function LastSlots(us: seq<User>): map<string, nat>
    decreases |us|
  {
    if us == [] then map[] else var s := |us| - 1; LastSlots(us[..s])[us[s].name := s]
  }

  function Load(us: seq<User>): Table { Table(us, LastSlots(us)) }

  lemma {:induction false} LastSlotsAreLast(us: seq<User>)
    ensures forall n :: n in LastSlots(us) ==> LastSlots(us)[n] < |us| && us[LastSlots(us)[n]].name == n
    ensures forall s :: 0 <= s < |us| ==> us[s].name in LastSlots(us) && s <= LastSlots(us)[us[s].name]
    decreases |us|
  {
    if us != [] {
      LastSlotsAreLast(us[..|us| - 1]);
    }
  }

  ghost predicate NoRepeats(us: seq<User>) {
    forall i, j :: 0 <= i < j < |us| && us[i].name == us[j].name ==> us[i] == DELETED
  }

  /** That is right exactly when no name repeats: an earlier slot of the same name could never be deleted. */
  lemma LoadInverseIff(us: seq<User>)
    ensures Inverse(Load(us)) <==> NoRepeats(us)
  {
    LastSlotsAreLast(us);
    var t := Load(us);
    if Inverse(t) {
      forall i, j | 0 <= i < j < |us| && us[i].name == us[j].name ensures us[i] == DELETED {
        assert j <= t.slotMap[us[j].name];
      }
    }
    if NoRepeats(us) {
      forall s | 0 <= s < |us| && us[s] != DELETED ensures t.slotMap[us[s].name] == s {
        var last := t.slotMap[us[s].name];
        assert us[last].name == us[s].name;
      }
    }
  }

  // ---------------------------------------------------------------- names of slots

  function Digit(d: nat): char
    requires d < 10
  {
    '0' + d as char
  }

  /** F.ToString of a slot index. */
  function Decimal(n: nat): string {
    if n < 10 then [Digit(n)] else Decimal(n / 10) + [Digit(n % 10)]
  }

  function UserName(snap: seq<string>, slot: nat): string {
    if slot >= |snap| || snap[slot] == "" then Decimal(slot) else snap[slot]
  }

  lemma {:induction false} DecimalDigits(n: nat)
    ensures forall c :: c in Decimal(n) ==> '0' <= c <= '9'
    ensures Decimal(n) != ""
  {
    if n >= 10 { DecimalDigits(n / 10); }
  }

  /** The number a decimal text stands for. */
  function Parsed(text: string): int {
    if text == "" then 0
    else 10 * Parsed(text[..|text| - 1]) + text[|text| - 1] as int - '0' as int
  }

  lemma {:induction false} DecimalParsed(n: nat)
    ensures Parsed(Decimal(n)) == n
  {
    if n >= 10 {
      DecimalParsed(n / 10);
      assert Decimal(n)[..|Decimal(n)| - 1] == Decimal(n / 10);
    } else {
      assert Decimal(n)[..0] == "";
    }
  }

  /** The names this program registers are never empty and never look like a slot index. */
  lemma UserTagsAreNames(tag: string, email: string, slot: nat)
    ensures BuildUserTag(tag, email) != "" && BuildUserTag(tag, email) != Decimal(slot)
  {
    DecimalDigits(slot);
    assert '_' !in Decimal(slot);
    assert BuildUserTag(tag, email)[|tag|] == '_';
  }

  /** A slot resolves to a user exactly when that user is registered, and in that slot. */
  lemma ResolvesIff(t: Table, tag: string, email: string, slot: nat)
    requires Inverse(t)
    ensures var n := BuildUserTag(tag, email);
            UserName(Names(t), slot) == n <==> n in t.slotMap && t.slotMap[n] == slot
  {
    UserTagsAreNames(tag, email, slot);
  }

  // ---------------------------------------------------------------- concurrent calls

  /** Rows collected under the lock at some version of the table, not yet handed to the service. */
  datatype Push = Push(rows: seq<Row>, version: nat)

  /**
   `versions` is the history of the table, the last one being current; `born` is
   the name each slot was created for; `flight` are pushes that have not landed.
   */
  datatype World = World(versions: seq<Table>, snap: seq<string>, born: seq<string>,
                         flight: map<nat, Push>, service: Push)

  datatype Event =
    | Add(us: seq<User>)            // AddUsers up to the unlock
    | Del(names: seq<string>)       // DelUsers up to the unlock
    | Collect(call: nat)            // the locked half of syncService
    | Land(call: nat)               // service.UpdateUsers

  const FRESH := World([Table([], map[])], [], [], map[], Push([], 0))

  ghost predicate HasTable(w: World) {
    |w.versions| > 0 && Inverse(Now(w))
  }

  function Now(w: World): Table
    requires |w.versions| > 0
  {
    w.versions[|w.versions| - 1]
  }

  function Changed(w: World, t: Table): World {
    w.(versions := w.versions + [t], snap := Names(t),
       born := w.born + if |w.born| <= |t.users| then Names(t)[|w.born|..] else [])
  }

  function Step(w: World, e: Event): (w': World)
    requires HasTable(w)
    ensures HasTable(w')
  {
    match e
    case Add(us) => Changed(w, AddAll(Now(w), us))
    case Del(names) => Changed(w, DeleteAll(Now(w), names))
    case Collect(call) => w.(flight := w.flight[call := Push(Active(Now(w).users), |w.versions| - 1)])
    case Land(call) =>
      if call in w.flight then w.(service := w.flight[call], flight := w.flight - {call}) else w
  }

  function Run(w: World, events: seq<Event>): (w': World)
    requires HasTable(w)
    ensures HasTable(w')
    decreases |events|
  {
    if events == [] then w else Step(Run(w, events[..|events| - 1]), events[|events| - 1])
  }

  ghost predicate PushOk(w: World, p: Push) {
    && p.version < |w.versions|
    && |w.versions[p.version].users| <= |w.snap|
    && p.rows == Active(w.versions[p.version].users)
  }

  /** Slots carry the name they were born with or none; the snapshot is current; pushes are past tables. */
  ghost predicate WorldInv(w: World) {
    && HasTable(w)
    && w.snap == Names(Now(w)) && |w.born| == |w.snap|
    && (forall s :: 0 <= s < |w.snap| ==> w.snap[s] == w.born[s] || w.snap[s] == "")
    && (forall call :: call in w.flight ==> PushOk(w, w.flight[call]))
    && PushOk(w, w.service)
  }

  lemma {:induction false} AddKeepsNames(t: Table, us: seq<User>)
    requires Inverse(t)
    ensures forall s :: 0 <= s < |t.users| ==> AddAll(t, us).users[s].name == t.users[s].name
    decreases |us|
  {
    if us != [] {
      AddKeepsNames(t, us[..|us| - 1]);
    }
  }

  lemma {:induction false} DeleteKeepsNames(t: Table, names: seq<string>)
    requires Inverse(t)
    ensures forall s :: 0 <= s < |t.users| ==>
      DeleteAll(t, names).users[s].name in {t.users[s].name, ""}
    decreases |names|
  {
    if names != [] {
      DeleteKeepsNames(t, names[..|names| - 1]);
    }
  }

  lemma ChangedKeepsInv(w: World, t: Table)
    requires WorldInv(w) && Inverse(t) && |w.snap| <= |t.users|
    requires forall s :: 0 <= s < |w.snap| ==> t.users[s].name in {w.snap[s], ""}
    ensures WorldInv(Changed(w, t)) && w.born <= Changed(w, t).born
  {
    var w' := Changed(w, t);
    forall call | call in w'.flight ensures PushOk(w', w'.flight[call]) {
      assert PushOk(w, w.flight[call]);
    }
    assert PushOk(w, w.service);
  }

  lemma StepKeepsInv(w: World, e: Event)
    requires WorldInv(w)
    ensures WorldInv(Step(w, e)) && w.born <= Step(w, e).born
  {
    match e
    case Add(us) =>
      AddKeepsNames(Now(w), us);
      ChangedKeepsInv(w, AddAll(Now(w), us));
    case Del(names) =>
      DeleteKeepsNames(Now(w), names);
      ChangedKeepsInv(w, DeleteAll(Now(w), names));
    case Collect(call) =>
    case Land(call) =>
  }

  lemma {:induction false} RunKeepsInv(w: World, events: seq<Event>)
    requires WorldInv(w)
    ensures WorldInv(Run(w, events)) && w.born <= Run(w, events).born
    decreases |events|
  {
    if events != [] {
      RunKeepsInv(w, events[..|events| - 1]);
      StepKeepsInv(Run(w, events[..|events| - 1]), events[|events| - 1]);
    }
  }

  /** In every reachable state the published names resolve a slot to a user exactly when it is the user's. */
  lemma RunResolvesIff(events: seq<Event>, tag: string, email: string, slot: nat)
    ensures var w, n := Run(FRESH, events), BuildUserTag(tag, email);
            UserName(w.snap, slot) == n <==> n in Now(w).slotMap && Now(w).slotMap[n] == slot
  {
    RunKeepsInv(FRESH, events);
    ResolvesIff(Now(Run(FRESH, events)), tag, email, slot);
  }

  /** No step names a slot that has lost its name. */
  lemma {:induction false} EmptyStaysEmpty(w: World, events: seq<Event>, slot: nat)
    requires WorldInv(w) && slot < |w.snap| && w.snap[slot] == ""
    ensures var w' := Run(w, events); slot < |w'.snap| && w'.snap[slot] == ""
    decreases |events|
  {
    if events != [] {
      var before := Run(w, events[..|events| - 1]);
      EmptyStaysEmpty(w, events[..|events| - 1], slot);
      RunKeepsInv(w, events[..|events| - 1]);
      match events[|events| - 1]
      case Add(us) => AddKeepsNames(Now(before), us);
      case Del(names) => DeleteKeepsNames(Now(before), names);
      case Collect(_) =>
      case Land(_) =>
    }
  }

  /**
   Slots are never rebound: over every run, however calls and pushes interleave,
   a slot resolves to the one name it was created for or to its own number, a
   deleted one to its number ever after, and the name it was created for is fixed.
   */
  lemma NeverRebound(before: seq<Event>, after: seq<Event>, slot: nat)
    ensures var w, w' := Run(FRESH, before), Run(Run(FRESH, before), after);
            && w.born <= w'.born
            && (slot < |w.born| ==> UserName(w'.snap, slot) in {w.born[slot], Decimal(slot)})
            && (UserName(w.snap, slot) != Decimal(slot) ==> slot < |w.born| && UserName(w.snap, slot) == w.born[slot])
            && (slot < |w.snap| && w.snap[slot] == "" ==> UserName(w'.snap, slot) == Decimal(slot))
  {
    RunKeepsInv(FRESH, before);
    RunKeepsInv(Run(FRESH, before), after);
    var w := Run(FRESH, before);
    if slot < |w.snap| && w.snap[slot] == "" {
      EmptyStaysEmpty(w, after, slot);
    }
  }

  /** Every slot the service can authenticate lies inside the published snapshot. */
  lemma ServiceInsideSnapshot(events: seq<Event>, row: Row)
    requires row in Run(FRESH, events).service.rows
    ensures row.slot < |Run(FRESH, events).snap| && row.uuid != ""
  {
    RunKeepsInv(FRESH, events);
    var w := Run(FRESH, events);
    ActiveRows(w.versions[w.service.version].users, row);
  }

  /**
   What the service holds is the active rows of the table version its last push
   was collected at, so it is current whenever that push was collected after the
   last change.
   */
  lemma ServiceIsSomeVersion(events: seq<Event>)
    ensures var w := Run(FRESH, events);
            && w.service.version < |w.versions|
            && w.service.rows == Active(w.versions[w.service.version].users)
            && (w.service.version == |w.versions| - 1 ==> w.service.rows == Active(Now(w).users))
  {
    RunKeepsInv(FRESH, events);
  }

  // ---------------------------------------------------------------- when the service is current

  /** What a slot contributes to the service, if anything. */
  function ActiveAt(users: seq<User>, slot: nat): Option<Row> {
    if slot < |users| && users[slot].uuid != "" then Some(Row(slot, users[slot].uuid, users[slot].flow)) else None
  }

  /** Every slot has the same non-empty UUID and flow in both, or none in either; names do not matter. */
  ghost predicate SameActive(a: seq<User>, b: seq<User>) {
    forall slot: nat :: ActiveAt(a, slot) == ActiveAt(b, slot)
  }

  lemma ActiveInit(users: seq<User>, slot: nat)
    requires users != []
    ensures ActiveAt(users[..|users| - 1], slot) == if slot == |users| - 1 then None else ActiveAt(users, slot)
  {
  }

  lemma {:induction false} SameActiveSameRows(a: seq<User>, b: seq<User>)
    requires SameActive(a, b)
    ensures Active(a) == Active(b)
    decreases |a| + |b|, |b|
  {
    if |a| > |b| {
      assert ActiveAt(a, |a| - 1) == ActiveAt(b, |a| - 1) == None;
      var a' := a[..|a| - 1];
      forall slot: nat ensures ActiveAt(a', slot) == ActiveAt(b, slot) { ActiveInit(a, slot); }
      SameActiveSameRows(a', b);
    } else if |b| > |a| {
      SameActiveSameRows(b, a);
    } else if a != [] {
      assert ActiveAt(a, |a| - 1) == ActiveAt(b, |a| - 1);
      var a', b' := a[..|a| - 1], b[..|a| - 1];
      forall slot: nat ensures ActiveAt(a', slot) == ActiveAt(b', slot) {
        ActiveInit(a, slot);
        ActiveInit(b, slot);
      }
      SameActiveSameRows(a', b');
    }
  }

  /** Two tables push the same rows exactly when their active slots are the same. */
  lemma ActiveEqualIff(a: seq<User>, b: seq<User>)
    ensures Active(a) == Active(b) <==> SameActive(a, b)
  {
    if Active(a) == Active(b) {
      forall slot: nat ensures ActiveAt(a, slot) == ActiveAt(b, slot) {
        if ActiveAt(a, slot).Some? {
          ActiveRows(a, ActiveAt(a, slot).value);
          ActiveRows(b, ActiveAt(a, slot).value);
        }
        if ActiveAt(b, slot).Some? {
          ActiveRows(b, ActiveAt(b, slot).value);
          ActiveRows(a, ActiveAt(b, slot).value);
        }
      }
    }
    if SameActive(a, b) {
      SameActiveSameRows(a, b);
    }
  }

  ghost predicate ServiceCurrent(w: World)
    requires |w.versions| > 0
  {
    w.service.rows == Active(Now(w).users)
  }

  /** In every reachable state the service is current exactly when its last push saw the active slots of now. */
  lemma ServiceCurrentIff(events: seq<Event>)
    ensures var w := Run(FRESH, events);
            && w.service.version < |w.versions|
            && (ServiceCurrent(w) <==> SameActive(w.versions[w.service.version].users, Now(w).users))
  {
    RunKeepsInv(FRESH, events);
    var w := Run(FRESH, events);
    ActiveEqualIff(w.versions[w.service.version].users, Now(w).users);
  }

  function Lands(calls: seq<nat>): seq<Event> { seq(|calls|, i requires 0 <= i < |calls| => Land(calls[i])) }

  /** One or more pushes in flight, in some order. */
  ghost predicate Landable(w: World, calls: seq<nat>) {
    calls != [] && NoDup(calls) && forall call :: call in calls ==> call in w.flight
  }

  /** Pushes that land leave the table alone and are no longer in flight. */
  lemma {:induction false} LandingsClear(w: World, calls: seq<nat>)
    requires HasTable(w)
    ensures var w' := Run(w, Lands(calls)); Now(w') == Now(w) && w'.flight == w.flight - Elements(calls)
    decreases |calls|
  {
    if calls != [] {
      var n := |calls| - 1;
      LandingsClear(w, calls[..n]);
      assert Lands(calls)[..n] == Lands(calls[..n]);
      assert calls == calls[..n] + [calls[n]];
      assert Elements(calls) == Elements(calls[..n]) + {calls[n]};
    }
  }

  /** The push that lands last is the one the service keeps. */
  lemma LastLandingStays(w: World, calls: seq<nat>)
    requires HasTable(w) && Landable(w, calls)
    ensures var w' := Run(w, Lands(calls)); w'.service == w.flight[calls[|calls| - 1]] && Now(w') == Now(w)
  {
    var n := |calls| - 1;
    LandingsClear(w, calls);
    LandingsClear(w, calls[..n]);
    assert Lands(calls)[..n] == Lands(calls[..n]) && Lands(calls)[n] == Land(calls[n]);
    assert calls[n] !in calls[..n];
  }

  /**
   The race, exactly: in every reachable state, whichever pushes in flight land and
   in whichever order, the service ends up current if and only if each of them was
   collected from a table with the active slots of now.
   */
  lemma LandingsCurrentIff(events: seq<Event>)
    ensures var w := Run(FRESH, events);
            (forall calls :: Landable(w, calls) ==> ServiceCurrent(Run(w, Lands(calls)))) <==>
            (forall call :: call in w.flight ==> PushCurrent(w, call))
  {
    RunKeepsInv(FRESH, events);
    var w := Run(FRESH, events);
    forall call | call in w.flight
      ensures w.flight[call].rows == Active(Now(w).users) <==> PushCurrent(w, call)
    {
      assert PushOk(w, w.flight[call]);
      ActiveEqualIff(w.versions[w.flight[call].version].users, Now(w).users);
    }
    forall calls | Landable(w, calls)
      ensures ServiceCurrent(Run(w, Lands(calls))) <==> PushCurrent(w, calls[|calls| - 1])
    {
      LastLandingStays(w, calls);
    }
    forall call | call in w.flight ensures Landable(w, [call]) && [call][0] == call {
    }
  }

  /** The push was collected, at some version, from a table with the active slots of now. */
  ghost predicate PushCurrent(w: World, call: nat)
    requires |w.versions| > 0 && call in w.flight
  {
    w.flight[call].version < |w.versions| && SameActive(w.versions[w.flight[call].version].users, Now(w).users)
  }

  /** With one mutator at a time, each call ends with the service holding exactly the current rows. */
  lemma SequentialCallIsCurrent(w: World, e: Event, call: nat)
    requires HasTable(w) && (e.Add? || e.Del?)
    ensures var w' := Step(Step(Step(w, e), Collect(call)), Land(call));
            w'.service.rows == Active(Now(w').users)
  {
    var w1 := Step(w, e);
    var w2 := Step(w1, Collect(call));
    assert Now(w2) == Now(w1) && w2.flight[call].rows == Active(Now(w1).users);
  }

  /**
   With two, it need not: when the push of an older call lands after the push of a
   delete, every user the older call saw is back in the service, under a slot that
   no longer has a name.
   */
  lemma StalePushCanLand(w: World, name: string, older: nat, newer: nat)
    requires WorldInv(w) && name in Now(w).slotMap && Entries(Now(w))[name].uuid != "" && older != newer
    ensures var deleted := Step(Step(Step(w, Collect(older)), Del([name])), Collect(newer));
            var w' := Step(Step(deleted, Land(newer)), Land(older));
            var slot := Now(w).slotMap[name];
            && name !in Now(w').slotMap
            && Row(slot, Entries(Now(w))[name].uuid, Entries(Now(w))[name].flow) in w'.service.rows
            && UserName(w'.snap, slot) == Decimal(slot)
  {
    var t := Now(w);
    DeleteOne(t, name);
    ActiveRows(t.users, Row(t.slotMap[name], Entries(t)[name].uuid, Entries(t)[name].flow));
    var w1 := Step(w, Collect(older));
    assert Now(w1) == t && w1.flight[older].rows == Active(t.users);
    var w2 := Step(w1, Del([name]));
    assert Now(w2) == Delete(t, name) && w2.snap == Names(Delete(t, name));
    var w3 := Step(w2, Collect(newer));
    assert w3.flight[older] == w1.flight[older];
    var w4 := Step(w3, Land(newer));
    assert w4.flight[older] == w1.flight[older];
  }

  lemma DeleteOne(t: Table, name: string)
    requires Inverse(t)
    ensures DeleteAll(t, [name]) == Delete(t, name)
  {
    assert [name][..0] == [] && DeleteAll(t, []) == t;
  }
}
