/**
 The two user managers of a ShadowTLS-fronted node, as they are written: the slot
 table of the protocol inbound (core/inbound/protocol/vless.go) and the list of
 the wrapper in front of it (core/inbound/protocol/shadowtls.go), which is
 compacted in place.
 */
module HotUsers {
  import opened Commons
  import opened SlotTable

  // ---------------------------------------------------------------- the protocol inbound

  class VLESSInbound {
    var users: seq<User>
    var slotMap: map<string, nat>
    var nameSnap: seq<string>
    var service: seq<Row>

    ghost function Table(): Table
      reads this
    {
      SlotTable.Table(users, slotMap)
    }

    /** The service may lag behind: another call's push can have landed since. */
    ghost predicate Valid()
      reads this
    {
      Inverse(Table()) && nameSnap == Names(Table())
    }

    constructor (initial: seq<User>)
      ensures Table() == Load(initial)
      ensures (Valid() <==> NoRepeats(initial)) && service == Active(users)
    {
      users, slotMap := [], map[];
      new;
      for i := 0 to |initial|
        invariant users == initial[..i] && slotMap == LastSlots(initial[..i])
      {
        var slot := |users|;
        users := users + [initial[i]];
        slotMap := slotMap[initial[i].name := slot];
        assert initial[..i + 1][..i] == initial[..i];
      }
      assert initial[..|initial|] == initial;
      RebuildSnapLocked();
      SyncService();
      LoadInverseIff(initial);
    }

    method AddUsers(us: seq<User>)
      requires Valid()
      modifies this
      ensures Valid() && Table() == AddAll(old(Table()), us) && service == Active(users)
      ensures Entries(Table()) == PutAll(old(Entries(Table())), us)
    {
      for i := 0 to |us|
        invariant Table() == AddAll(old(Table()), us[..i])
      {
        assert us[..i + 1][..i] == us[..i];
        var u := us[i];
        if u.name in slotMap {
          users := users[slotMap[u.name] := u];
        } else {
          slotMap := slotMap[u.name := |users|];
          users := users + [u];
        }
      }
      assert us[..|us|] == us;
      RebuildSnapLocked();
      SyncService();
      AddRefines(old(Table()), us);
    }

    method DelUsers(names: seq<string>)
      requires Valid()
      modifies this
      ensures Valid() && Table() == DeleteAll(old(Table()), names) && service == Active(users)
      ensures Entries(Table()) == old(Entries(Table())) - Elements(names)
    {
      for i := 0 to |names|
        invariant Table() == DeleteAll(old(Table()), names[..i])
      {
        assert names[..i + 1][..i] == names[..i];
        var name := names[i];
        if name in slotMap {
          users := users[slotMap[name] := DELETED];
          slotMap := slotMap - {name};
        }
      }
      assert names[..|names|] == names;
      RebuildSnapLocked();
      SyncService();
      DeleteRefines(old(Table()), names);
    }

    method RebuildSnapLocked()
      modifies this`nameSnap
      ensures nameSnap == Names(Table())
    {
      var snap: seq<string> := [];
      for i := 0 to |users|
        invariant |snap| == i && forall s :: 0 <= s < i ==> snap[s] == users[s].name
      {
        snap := snap + [users[i].name];
      }
      nameSnap := snap;
    }

    method SyncService()
      modifies this`service
      ensures service == Active(users)
    {
      var rows: seq<Row> := [];
      for slot := 0 to |users|
        invariant rows == Active(users[..slot])
      {
        assert users[..slot + 1][..slot] == users[..slot];
        if users[slot].uuid != "" {
          rows := rows + [Row(slot, users[slot].uuid, users[slot].flow)];
        }
      }
      assert users[..|users|] == users;
      service := rows;
    }

    method UserName(slot: nat) returns (name: string)
      ensures name == SlotTable.UserName(nameSnap, slot)
    {
      if slot >= |nameSnap| { return Decimal(slot); }
      if nameSnap[slot] != "" { return nameSnap[slot]; }
      return Decimal(slot);
    }
  }

  // ---------------------------------------------------------------- the wrapper list

  /** A ShadowTLS user. */
  datatype Guest = Guest(name: string, password: string)

  predicate UniqueNames(gs: seq<Guest>) { forall i, j :: 0 <= i < j < |gs| ==> gs[i].name != gs[j].name }

  function Credentials(gs: seq<Guest>): map<string, string>
    decreases |gs|
  {
    if gs == [] then map[] else var last := gs[|gs| - 1]; Credentials(gs[..|gs| - 1])[last.name := last.password]
  }

  function Survivors(gs: seq<Guest>, gone: set<string>): seq<Guest>
    decreases |gs|
  {
    if gs == [] then [] else
    var last := gs[|gs| - 1];
    Survivors(gs[..|gs| - 1], gone) + (if last.name in gone then [] else [last])
  }

  lemma CredentialsMore(gs: seq<Guest>, g: Guest)
    ensures Credentials(gs + [g]) == Credentials(gs)[g.name := g.password]
  {
    assert (gs + [g])[..|gs|] == gs;
  }

  lemma SurvivorsMore(gs: seq<Guest>, g: Guest, gone: set<string>)
    ensures Survivors(gs + [g], gone) == Survivors(gs, gone) + (if g.name in gone then [] else [g])
  {
    assert (gs + [g])[..|gs|] == gs;
  }

  lemma SurvivorsStep(gs: seq<Guest>, i: nat, gone: set<string>)
    requires i < |gs|
    ensures Survivors(gs[..i + 1], gone)
         == if gs[i].name in gone then Survivors(gs[..i], gone) else Survivors(gs[..i], gone) + [gs[i]]
  {
    assert gs[..i + 1] == gs[..i] + [gs[i]];
    SurvivorsMore(gs[..i], gs[i], gone);
    assert Survivors(gs[..i], gone) + [] == Survivors(gs[..i], gone);
  }

  /** Compaction keeps the order: what is left of two lists together is what is left of each, one after the other. */
  lemma {:induction false} SurvivorsConcat(a: seq<Guest>, b: seq<Guest>, gone: set<string>)
    ensures Survivors(a + b, gone) == Survivors(a, gone) + Survivors(b, gone)
    decreases |b|
  {
    if b == [] {
      assert a + b == a;
    } else {
      var init, last := b[..|b| - 1], b[|b| - 1];
      assert a + b == a + init + [last] && b == init + [last];
      SurvivorsConcat(a, init, gone);
      SurvivorsMore(a + init, last, gone);
      SurvivorsMore(init, last, gone);
    }
  }

  /** Compaction removes exactly the named users. */
  lemma {:induction false} SurvivorsCredentials(gs: seq<Guest>, gone: set<string>)
    ensures Credentials(Survivors(gs, gone)) == Credentials(gs) - gone
    decreases |gs|
  {
    if gs != [] {
      var init, last := gs[..|gs| - 1], gs[|gs| - 1];
      SurvivorsCredentials(init, gone);
      SurvivorsMore(init, last, gone);
      assert gs == init + [last];
      CredentialsMore(init, last);
      if last.name in gone {
        assert Survivors(init, gone) + [] == Survivors(init, gone);
      } else {
        CredentialsMore(Survivors(init, gone), last);
      }
      MinusPut(Credentials(init), last.name, last.password, gone);
    }
  }

  lemma MinusPut(m: map<string, string>, n: string, p: string, gone: set<string>)
    ensures m[n := p] - gone == if n in gone then m - gone else (m - gone)[n := p]
  {
  }

  predicate Holds(gs: seq<Guest>, name: string) { exists i :: 0 <= i < |gs| && gs[i].name == name }

  lemma {:induction false} SurvivorsHold(gs: seq<Guest>, gone: set<string>, name: string)
    requires Holds(Survivors(gs, gone), name)
    ensures Holds(gs, name) && name !in gone
    decreases |gs|
  {
    var init, last := gs[..|gs| - 1], gs[|gs| - 1];
    SurvivorsMore(init, last, gone);
    assert gs == init + [last];
    if last.name == name && name !in gone {
      assert gs[|gs| - 1].name == name;
    } else {
      var i :| 0 <= i < |Survivors(gs, gone)| && Survivors(gs, gone)[i].name == name;
      assert Survivors(init, gone)[i].name == name;
      SurvivorsHold(init, gone, name);
      var j :| 0 <= j < |init| && init[j].name == name;
      assert gs[j].name == name;
    }
  }

  lemma {:induction false} SurvivorsUnique(gs: seq<Guest>, gone: set<string>)
    requires UniqueNames(gs)
    ensures UniqueNames(Survivors(gs, gone))
    decreases |gs|
  {
    if gs != [] {
      var init, last := gs[..|gs| - 1], gs[|gs| - 1];
      SurvivorsUnique(init, gone);
      SurvivorsMore(init, last, gone);
      assert gs == init + [last];
      var kept := Survivors(init, gone);
      forall i | 0 <= i < |kept| ensures kept[i].name != last.name {
        SurvivorsHold(init, gone, kept[i].name);
        var j :| 0 <= j < |init| && init[j].name == kept[i].name;
        assert gs[j].name == kept[i].name;
      }
    }
  }

  /** The last position of a name, or -1. */
  function LastIndex(gs: seq<Guest>, name: string): (i: int)
    ensures -1 <= i < |gs| && (i >= 0 ==> gs[i].name == name)
    ensures i < 0 ==> !Holds(gs, name)
    decreases |gs|
  {
    if gs == [] then -1
    else if gs[|gs| - 1].name == name then |gs| - 1
    else
      assert forall k :: 0 <= k < |gs| - 1 ==> gs[..|gs| - 1][k] == gs[k];
      LastIndex(gs[..|gs| - 1], name)
  }

  /** Upsert by name, in place for a name already there. */
  function PutGuest(gs: seq<Guest>, g: Guest): seq<Guest> {
    var i := LastIndex(gs, g.name);
    if i >= 0 then gs[i := g] else gs + [g]
  }

  function PutGuests(gs: seq<Guest>, us: seq<Guest>): seq<Guest>
    decreases |us|
  {
    if us == [] then gs else PutGuest(PutGuests(gs, us[..|us| - 1]), us[|us| - 1])
  }

  function PutCredentials(m: map<string, string>, us: seq<Guest>): map<string, string>
    decreases |us|
  {
    if us == [] then m else var last := us[|us| - 1]; PutCredentials(m, us[..|us| - 1])[last.name := last.password]
  }

  lemma {:induction false} ReplacedCredentials(gs: seq<Guest>, g: Guest)
    requires LastIndex(gs, g.name) >= 0
    ensures Credentials(gs[LastIndex(gs, g.name) := g]) == Credentials(gs)[g.name := g.password]
    decreases |gs|
  {
    var init, last := gs[..|gs| - 1], gs[|gs| - 1];
    var i := LastIndex(gs, g.name);
    var gs' := gs[i := g];
    if last.name == g.name {
      assert gs'[..|gs'| - 1] == init;
    } else {
      ReplacedCredentials(init, g);
      assert gs'[..|gs'| - 1] == init[i := g] && gs'[|gs'| - 1] == last;
    }
  }

  lemma PutGuestCredentials(gs: seq<Guest>, g: Guest)
    requires UniqueNames(gs)
    ensures Credentials(PutGuest(gs, g)) == Credentials(gs)[g.name := g.password]
    ensures UniqueNames(PutGuest(gs, g))
  {
    if LastIndex(gs, g.name) >= 0 {
      ReplacedCredentials(gs, g);
    } else {
      CredentialsMore(gs, g);
    }
  }

  lemma {:induction false} PutGuestsCredentials(gs: seq<Guest>, us: seq<Guest>)
    requires UniqueNames(gs)
    ensures Credentials(PutGuests(gs, us)) == PutCredentials(Credentials(gs), us)
    ensures UniqueNames(PutGuests(gs, us))
    decreases |us|
  {
    if us != [] {
      PutGuestsCredentials(gs, us[..|us| - 1]);
      PutGuestCredentials(PutGuests(gs, us[..|us| - 1]), us[|us| - 1]);
    }
  }

  lemma {:induction false} LastIndexKept(gs: seq<Guest>, g: Guest, name: string)
    ensures LastIndex(PutGuest(gs, g), name) ==
      if LastIndex(gs, g.name) < 0 && name == g.name then |gs| else LastIndex(gs, name)
    decreases |gs|
  {
    var i := LastIndex(gs, g.name);
    if i < 0 {
      assert (gs + [g])[..|gs|] == gs;
    } else {
      ReplacedIndex(gs, i, g, name);
    }
  }

  lemma {:induction false} ReplacedIndex(gs: seq<Guest>, i: nat, g: Guest, name: string)
    requires i < |gs| && gs[i].name == g.name
    ensures LastIndex(gs[i := g], name) == LastIndex(gs, name)
    decreases |gs|
  {
    var gs' := gs[i := g];
    if gs[|gs| - 1].name != name {
      if i < |gs| - 1 {
        assert gs'[..|gs| - 1] == gs[..|gs| - 1][i := g];
        ReplacedIndex(gs[..|gs| - 1], i, g, name);
      } else {
        assert gs'[..|gs| - 1] == gs[..|gs| - 1];
      }
    }
  }

  // ---------------------------------------------------------------- the wrapper

  /** In-place compaction: the survivors move down over the slots already read. */
  method MoveDown(a: array<Guest>, n: nat, gone: set<string>) returns (kept: nat)
    requires n <= a.Length
    modifies a
    ensures kept <= n && a[..kept] == Survivors(old(a[..n]), gone)
  {
    ghost var before := a[..n];
    kept := 0;
    for i := 0 to n
      invariant kept <= i
      invariant a[..kept] == Survivors(before[..i], gone)
      invariant forall k :: i <= k < n ==> a[k] == before[k]
    {
      var g := a[i];
      SurvivorsStep(before, i, gone);
      assert g == before[i];
      if g.name !in gone {
        ghost var out := a[..kept];
        a[kept] := g;
        kept := kept + 1;
        assert a[..kept] == out + [g];
      }
    }
    assert before[..n] == before;
  }

  /** The service for a list of users: none at all in version 3 when it is empty. */
  function ServiceOf(version: int, users: seq<Guest>): Option<seq<Guest>> {
    if version == 3 && users == [] then None else Some(users)
  }

  /** What rebuilding leaves stored; the library may refuse, except where it is not asked. */
  function Rebuilt(version: int, users: seq<Guest>, service: Option<seq<Guest>>, accepted: bool): Option<seq<Guest>> {
    if accepted || (version == 3 && users == []) then ServiceOf(version, users) else service
  }

  class ShadowTLSInbound {
    const version: int
    var buffer: array<Guest>            // backing array of the users slice
    var count: nat
    var service: Option<seq<Guest>>     // the users of the service last stored, None for a nil service

    ghost predicate Valid()
      reads this
    {
      count <= buffer.Length
    }

    ghost function Users(): seq<Guest>
      reads this, buffer
      requires Valid()
    {
      buffer[..count]
    }

    /** The stored service serves exactly the listed users; version 3 has none when the list is empty. */
    ghost predicate InService()
      reads this, buffer
      requires Valid()
    {
      service == ServiceOf(version, Users())
    }

    method Append(g: Guest)
      requires Valid()
      modifies this`buffer, this`count, buffer
      ensures Valid() && Users() == old(Users()) + [g]
      ensures buffer == old(buffer) || fresh(buffer)
    {
      if count == buffer.Length {
        var bigger := new Guest[2 * count + 1](_ => g);
        for i := 0 to count
          invariant count <= bigger.Length && buffer == old(buffer) && count == old(count)
          invariant bigger[..i] == old(Users())[..i] && buffer[..] == old(buffer[..])
        {
          bigger[i] := buffer[i];
        }
        buffer := bigger;
      }
      buffer[count] := g;
      count := count + 1;
    }

    /** rebuildService; a configuration the library does not accept leaves the old service stored. */
    method RebuildService(accepts: bool) returns (ok: bool)
      requires Valid()
      modifies this`service
      ensures ok <==> accepts || (version == 3 && count == 0)
      ensures version == 3 && count == 0 ==> ok && service == None
      ensures ok && !(version == 3 && count == 0) ==> service == Some(Users())
      ensures !ok ==> service == old(service)
      ensures ok ==> InService()
      ensures service == Rebuilt(version, Users(), old(service), ok)
    {
      if version == 3 && count == 0 {
        service := None;
        return true;
      }
      ok := accepts;
      if ok { service := Some(buffer[..count]); }
    }

    method AddUsers(us: seq<Guest>, accepts: bool) returns (ok: bool)
      requires Valid()
      modifies this, buffer
      ensures ok <==> accepts || (version == 3 && count == 0)
      ensures Valid() && Users() == PutGuests(old(Users()), us) && (buffer == old(buffer) || fresh(buffer))
      ensures ok ==> InService()
      ensures ok && version == 3 && Users() == [] ==> service == None
      ensures ok && !(version == 3 && Users() == []) ==> service == Some(Users())
      ensures !ok ==> service == old(service)
      ensures service == Rebuilt(version, Users(), old(service), ok)
      ensures UniqueNames(old(Users())) ==>
        UniqueNames(Users()) && Credentials(Users()) == PutCredentials(Credentials(old(Users())), us)
    {
      UpsertAll(us);
      if UniqueNames(old(Users())) { PutGuestsCredentials(old(Users()), us); }
      ok := RebuildService(accepts);
    }

    method UpsertAll(us: seq<Guest>)
      requires Valid()
      modifies this`buffer, this`count, buffer
      ensures Valid() && Users() == PutGuests(old(Users()), us) && (buffer == old(buffer) || fresh(buffer))
    {
      var idx := Index();
      for i := 0 to |us|
        invariant Valid() && Users() == PutGuests(old(Users()), us[..i]) && (buffer == old(buffer) || fresh(buffer))
        invariant Indexed(idx, Users())
      {
        assert us[..i + 1][..i] == us[..i];
        idx := Upsert(idx, us[i]);
      }
      assert us[..|us|] == us;
    }

    method Index() returns (idx: map<string, int>)
      requires Valid()
      ensures Indexed(idx, Users())
    {
      idx := map[];
      for i := 0 to count
        invariant Indexed(idx, buffer[..i])
      {
        assert buffer[..i + 1][..i] == buffer[..i];
        idx := idx[buffer[i].name := i];
      }
    }

    method Upsert(idx: map<string, int>, g: Guest) returns (idx': map<string, int>)
      requires Valid() && Indexed(idx, Users())
      modifies this`buffer, this`count, buffer
      ensures Valid() && Users() == PutGuest(old(Users()), g) && (buffer == old(buffer) || fresh(buffer))
      ensures Indexed(idx', Users())
    {
      idx' := idx;
      forall n ensures LastIndex(PutGuest(Users(), g), n) ==
        if LastIndex(Users(), g.name) < 0 && n == g.name then count else LastIndex(Users(), n)
      {
        LastIndexKept(Users(), g, n);
      }
      if g.name in idx {
        buffer[idx[g.name]] := g;
      } else {
        idx' := idx[g.name := count];
        Append(g);
      }
    }

    method DelUsers(names: seq<string>, accepts: bool) returns (ok: bool)
      requires Valid()
      modifies this, buffer
      ensures ok <==> accepts || (version == 3 && count == 0)
      ensures Valid() && buffer == old(buffer) && Users() == Survivors(old(Users()), Elements(names))
      ensures ok ==> InService()
      ensures ok && version == 3 && Users() == [] ==> service == None
      ensures ok && !(version == 3 && Users() == []) ==> service == Some(Users())
      ensures !ok ==> service == old(service)
      ensures service == Rebuilt(version, Users(), old(service), ok)
      ensures Credentials(Users()) == Credentials(old(Users())) - Elements(names)
      ensures UniqueNames(old(Users())) ==> UniqueNames(Users())
    {
      var gone := Gone(names);
      Compact(gone);
      SurvivorsCredentials(old(Users()), gone);
      if UniqueNames(old(Users())) { SurvivorsUnique(old(Users()), gone); }
      ok := RebuildService(accepts);
    }

    method Compact(gone: set<string>)
      requires Valid()
      modifies this`count, buffer
      ensures Valid() && Users() == Survivors(old(Users()), gone)
    {
      count := MoveDown(buffer, count, gone);
    }

    method Gone(names: seq<string>) returns (gone: set<string>)
      ensures gone == Elements(names)
    {
      gone := {};
      for i := 0 to |names|
        invariant gone == Elements(names[..i])
      {
        assert names[..i + 1] == names[..i] + [names[i]];
        gone := gone + {names[i]};
      }
      assert names[..|names|] == names;
    }
  }

  /** idx maps each listed name to its last position. */
  ghost predicate Indexed(idx: map<string, int>, gs: seq<Guest>) {
    forall n :: (n in idx <==> LastIndex(gs, n) >= 0) && (n in idx ==> idx[n] == LastIndex(gs, n))
  }
}
