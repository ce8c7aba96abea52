/**
 Subscriptions on a node fronted by ShadowTLS (subscription/manager.go): every
 subscription is registered twice, with the wrapper and with the protocol behind
 it, and the two must agree.
 */
module FrontedNode {
  import opened Api
  import opened Commons
  import opened SlotTable
  import opened HotUsers
  import ConnTracker

  function AsUsers(tag: string, flow: string, subs: seq<Subscription>): seq<User> {
    seq(|subs|, i requires 0 <= i < |subs| => User(BuildUserTag(tag, subs[i].email), subs[i].uuid, flow))
  }

  function AsGuests(tag: string, subs: seq<Subscription>): seq<Guest> {
    seq(|subs|, i requires 0 <= i < |subs| => Guest(BuildUserTag(tag, subs[i].email), subs[i].uuid))
  }

  /**
   The same names; for each name the password of the wrapper is the UUID of the
   protocol, and its flow is the node's.
   */
  ghost predicate SameUsers(entries: map<string, User>, credentials: map<string, string>, flow: string) {
    && entries.Keys == credentials.Keys
    && forall n :: n in entries ==> entries[n] == User(n, credentials[n], flow)
  }

  lemma {:induction false} AddKeepsSame(entries: map<string, User>, credentials: map<string, string>, tag: string,
                                        flow: string, subs: seq<Subscription>)
    requires SameUsers(entries, credentials, flow)
    ensures SameUsers(PutAll(entries, AsUsers(tag, flow, subs)), PutCredentials(credentials, AsGuests(tag, subs)), flow)
    decreases |subs|
  {
    if subs != [] {
      var n := |subs| - 1;
      AddKeepsSame(entries, credentials, tag, flow, subs[..n]);
      assert AsUsers(tag, flow, subs)[..n] == AsUsers(tag, flow, subs[..n]);
      assert AsGuests(tag, subs)[..n] == AsGuests(tag, subs[..n]);
    }
  }

  lemma DeleteKeepsSame(entries: map<string, User>, credentials: map<string, string>, flow: string, gone: set<string>)
    requires SameUsers(entries, credentials, flow)
    ensures SameUsers(entries - gone, credentials - gone, flow)
  {
  }

  /** A slot table has one wrapper list to agree with, as far as credentials go. */
  lemma SameUsersUnique(entries: map<string, User>, a: map<string, string>, b: map<string, string>, flow: string)
    requires SameUsers(entries, a, flow)
    ensures SameUsers(entries, b, flow) <==> a == b
  {
    if SameUsers(entries, b, flow) {
      assert forall n :: n in a ==> n in entries && a[n] == entries[n].uuid == b[n];
    }
  }

  /** Deleting on one side only goes unnoticed exactly when there was nothing to delete. */
  lemma DeleteDisagreesIff(entries: map<string, User>, credentials: map<string, string>, flow: string,
                           gone: set<string>)
    requires SameUsers(entries, credentials, flow)
    ensures SameUsers(entries - gone, credentials, flow) <==> gone !! credentials.Keys
  {
    DeleteKeepsSame(entries, credentials, flow, gone);
    SameUsersUnique(entries - gone, credentials - gone, credentials, flow);
    assert gone !! credentials.Keys ==> credentials - gone == credentials;
    assert (credentials - gone).Keys == credentials.Keys - gone;
  }

  class Node {
    const tag: string
    const flow: string
    const inner: VLESSInbound
    const front: ShadowTLSInbound
    const tracker: ConnTracker.Tracker

    /** A node is created before its subscriptions are fetched: both lists start empty. */
    constructor (tag: string, flow: string, inner: VLESSInbound, front: ShadowTLSInbound, tracker: ConnTracker.Tracker)
      requires inner.Valid() && inner.slotMap == map[] && front.Valid() && front.count == 0 && front.InService()
      ensures Valid() && Listed() && Agree()
      ensures this.tag == tag && this.flow == flow && this.inner == inner && this.front == front &&
              this.tracker == tracker
    {
      this.tag, this.flow, this.inner, this.front, this.tracker := tag, flow, inner, front, tracker;
    }

    ghost predicate Valid()
      reads this, inner, front
    {
      inner.Valid() && front.Valid()
    }

    /** The two user lists agree, and no name is listed twice. */
    ghost predicate Listed()
      reads this, inner, front, front.buffer
      requires Valid()
    {
      SameUsers(Entries(inner.Table()), Credentials(front.Users()), flow) && UniqueNames(front.Users())
    }

    /**
     They agree, and the stored wrapper service serves exactly the list: none at
     all, in version 3, when it is empty.
     */
    ghost predicate Agree()
      reads this, inner, front, front.buffer
      requires Valid()
    {
      Listed() && front.InService()
    }

    /** The node as a value. */
    ghost function Snapshot(): State
      reads this, inner, front, front.buffer
      requires Valid()
    {
      State(inner.Table(), front.Users(), front.version, front.service)
    }

    /**
     Registers with the protocol first and then with the wrapper. Each inbound may
     be missing, and the wrapper may refuse to rebuild its service.
     */
    method AddSubscriptions(subs: seq<Subscription>, innerFound: bool, frontFound: bool, accepts: bool)
      returns (ok: bool)
      requires Valid()
      modifies inner, front, front.buffer
      ensures Valid() && (front.buffer == old(front.buffer) || fresh(front.buffer))
      ensures ok ==> subs == [] || (innerFound && frontFound && front.InService())
      ensures ok <==> subs == [] || (innerFound && frontFound && (accepts || (front.version == 3 && front.count == 0)))
      ensures subs == [] || !innerFound ==> Snapshot() == old(Snapshot())
      ensures innerFound && frontFound ==> Snapshot() == Apply(old(Snapshot()), tag, flow, Op.Add(subs, ok))
      ensures subs != [] && innerFound && !frontFound ==> Snapshot() == old(Snapshot()).(table := inner.Table())
      ensures innerFound ==> Entries(inner.Table()) == PutAll(old(Entries(inner.Table())), AsUsers(tag, flow, subs))
      ensures old(Listed()) && (frontFound || !innerFound || subs == []) ==> Listed()
      ensures old(Listed()) && innerFound && !frontFound ==>
                (Listed() <==>
                 PutCredentials(Credentials(front.Users()), AsGuests(tag, subs)) == Credentials(front.Users()))
      ensures old(Agree()) && ok ==> Agree()
    {
      if |subs| == 0 { return true; }
      if !innerFound { return false; }
      if SameUsers(Entries(inner.Table()), Credentials(front.Users()), flow) {
        AddKeepsSame(Entries(inner.Table()), Credentials(front.Users()), tag, flow, subs);
      }
      var users, guests := Convert(subs);
      inner.AddUsers(users);
      if !frontFound {
        if old(Listed()) {
          SameUsersUnique(Entries(inner.Table()), PutCredentials(Credentials(front.Users()), AsGuests(tag, subs)),
                          Credentials(front.Users()), flow);
        }
        return false;
      }
      ok := front.AddUsers(guests, accepts);
    }

    method Convert(subs: seq<Subscription>) returns (users: seq<User>, guests: seq<Guest>)
      ensures users == AsUsers(tag, flow, subs) && guests == AsGuests(tag, subs)
    {
      users, guests := [], [];
      for i := 0 to |subs|
        invariant users == AsUsers(tag, flow, subs)[..i] && guests == AsGuests(tag, subs)[..i]
      {
        users := users + [User(BuildUserTag(tag, subs[i].email), subs[i].uuid, flow)];
        guests := guests + [Guest(BuildUserTag(tag, subs[i].email), subs[i].uuid)];
      }
    }

    /** Takes the users off both managers, skipping a wrapper that is not there. */
    method Unregister(emails: seq<string>, frontFound: bool, accepts: bool) returns (ok: bool)
      requires Valid()
      modifies inner, front, front.buffer
      ensures Valid() && front.buffer == old(front.buffer)
      ensures ok && frontFound ==> front.InService()
      ensures ok <==> !frontFound || accepts || (front.version == 3 && front.count == 0)
      ensures !frontFound ==> ok && Snapshot() == old(Snapshot()).(table := inner.Table())
      ensures frontFound && emails != [] ==> Snapshot() == Apply(old(Snapshot()), tag, flow, Op.Remove(emails, ok))
      ensures Entries(inner.Table()) == old(Entries(inner.Table())) - Elements(emails)
      ensures old(Listed()) && frontFound ==> Listed()
      ensures old(Listed()) && !frontFound ==> (Listed() <==> Elements(emails) !! Credentials(front.Users()).Keys)
    {
      inner.DelUsers(emails);
      if old(Listed()) {
        DeleteDisagreesIff(old(Entries(inner.Table())), old(Credentials(front.Users())), flow, Elements(emails));
        DeleteKeepsSame(old(Entries(inner.Table())), old(Credentials(front.Users())), flow, Elements(emails));
      }
      ok := true;
      if frontFound {
        ok := front.DelUsers(emails, accepts);
      }
    }

    /** ... and only then closes what the removed users still have open. */
    method RemoveSubscriptions(emails: seq<string>, innerFound: bool, frontFound: bool, accepts: bool)
      returns (ok: bool)
      requires Valid() && tracker.Valid()
      modifies inner, front, front.buffer, tracker`entries, tracker.Conns()
      ensures Valid() && front.buffer == old(front.buffer) && tracker.Valid()
      ensures emails == [] || !innerFound ==> Snapshot() == old(Snapshot()) && tracker.entries == old(tracker.entries)
      ensures innerFound && frontFound ==> Snapshot() == Apply(old(Snapshot()), tag, flow, Op.Remove(emails, ok))
      ensures emails != [] && innerFound && !frontFound ==> ok && Snapshot() == old(Snapshot()).(table := inner.Table())
      ensures innerFound ==> Entries(inner.Table()) == old(Entries(inner.Table())) - Elements(emails)
      ensures ok <==> emails == [] ||
                      (innerFound && (!frontFound || accepts || (front.version == 3 && front.count == 0)))
      ensures if ok then tracker.entries == old(tracker.entries) - ConnTracker.KeysOf(tag, emails)
              else tracker.entries == old(tracker.entries)
      ensures ok ==> ConnTracker.AllClosed(ConnTracker.Under(old(tracker.entries), ConnTracker.KeysOf(tag, emails)))
      ensures old(Listed()) && (frontFound || !innerFound || emails == []) ==> Listed()
      ensures old(Listed()) && innerFound && !frontFound ==>
              (Listed() <==> Elements(emails) !! Credentials(front.Users()).Keys)
      ensures old(Agree()) && ok && (frontFound || emails == []) ==> Agree()
    {
      if |emails| == 0 {
        assert tracker.entries - ConnTracker.KeysOf(tag, emails) == tracker.entries;
        return true;
      }
      if !innerFound { return false; }
      ok := Unregister(emails, frontFound, accepts);
      if ok {
        ConnTracker.CloseUserConns(tracker, tag, emails);
      }
    }
  }

  // ---------------------------------------------------------------- every run

  /** A node as a value: the slot table, the wrapper list, and what the wrapper serves. */
  datatype State = State(table: Table, guests: seq<Guest>, version: int, service: Option<seq<Guest>>)

  /** A call that finds both inbounds; the wrapper accepts the new list or refuses to rebuild. */
  datatype Op = Add(subs: seq<Subscription>, accepted: bool) | Remove(emails: seq<string>, accepted: bool)

  /** A node before its first subscription. */
  function Empty(version: int): State { State(Table([], map[]), [], version, ServiceOf(version, [])) }

  predicate Idle(op: Op) {
    match op
    case Add(subs, _) => subs == []
    case Remove(emails, _) => emails == []
  }

  function Apply(s: State, tag: string, flow: string, op: Op): (s': State)
    requires Inverse(s.table)
    ensures Inverse(s'.table) && s'.version == s.version
  {
    if Idle(op) then s else
    match op
    case Add(subs, accepted) =>
      var guests := PutGuests(s.guests, AsGuests(tag, subs));
      State(AddAll(s.table, AsUsers(tag, flow, subs)), guests, s.version,
        Rebuilt(s.version, guests, s.service, accepted))
    case Remove(emails, accepted) =>
      var guests := Survivors(s.guests, Elements(emails));
      State(DeleteAll(s.table, emails), guests, s.version, Rebuilt(s.version, guests, s.service, accepted))
  }

  function ApplyAll(s: State, tag: string, flow: string, ops: seq<Op>): (s': State)
    requires Inverse(s.table)
    ensures Inverse(s'.table) && s'.version == s.version
    decreases |ops|
  {
    if ops == [] then s else Apply(ApplyAll(s, tag, flow, ops[..|ops| - 1]), tag, flow, ops[|ops| - 1])
  }

  /** A list put into a map from user tags to UUIDs. */
  function PutSubs(m: map<string, string>, tag: string, subs: seq<Subscription>): map<string, string>
    decreases |subs|
  {
    if subs == [] then m
    else PutSubs(m, tag, subs[..|subs| - 1])[tag + "_" + subs[|subs| - 1].email := subs[|subs| - 1].uuid]
  }

  lemma {:induction false} PutSubsIsPut(m: map<string, string>, tag: string, subs: seq<Subscription>)
    ensures PutCredentials(m, AsGuests(tag, subs)) == PutSubs(m, tag, subs)
    decreases |subs|
  {
    if subs != [] {
      var n := |subs| - 1;
      PutSubsIsPut(m, tag, subs[..n]);
      assert AsGuests(tag, subs)[..n] == AsGuests(tag, subs[..n]);
    }
  }

  /** The reference: one map from user tags to UUIDs. */
  function Registered(tag: string, ops: seq<Op>): map<string, string>
    decreases |ops|
  {
    if ops == [] then map[] else Reregistered(Registered(tag, ops[..|ops| - 1]), tag, ops[|ops| - 1])
  }

  function Reregistered(m: map<string, string>, tag: string, op: Op): map<string, string> {
    if op.Add? then PutSubs(m, tag, op.subs) else m - Elements(op.emails)
  }

  /** The reference for the service: the users of the last accepted call, and none in version 3 without users. */
  function Served(tag: string, version: int, ops: seq<Op>): Option<map<string, string>>
    decreases |ops|
  {
    if ops != [] && Idle(ops[|ops| - 1]) then Served(tag, version, ops[..|ops| - 1])
    else if version == 3 && Registered(tag, ops) == map[] then None
    else if ops == [] || ops[|ops| - 1].accepted then Some(Registered(tag, ops))
    else Served(tag, version, ops[..|ops| - 1])
  }

  /** The last call that had anything to do was accepted by the wrapper. */
  predicate LastAccepted(ops: seq<Op>)
    decreases |ops|
  {
    ops == [] ||
    if Idle(ops[|ops| - 1]) then LastAccepted(ops[..|ops| - 1]) else ops[|ops| - 1].accepted
  }

  /**
   Over every run of calls on a fronted node, refused ones included, the compacted
   wrapper list and the slot table both stand for the same plain map of users, and
   the wrapper list is empty exactly when that map is.
   */
  lemma {:induction false} WrapperAndProtocolAgree(tag: string, flow: string, version: int, ops: seq<Op>)
    ensures var s := ApplyAll(Empty(version), tag, flow, ops);
            && SameUsers(Entries(s.table), Credentials(s.guests), flow) && UniqueNames(s.guests)
            && Credentials(s.guests) == Registered(tag, ops)
            && (s.guests == [] <==> Registered(tag, ops) == map[])
    decreases |ops|
  {
    var s := ApplyAll(Empty(version), tag, flow, ops);
    if ops != [] {
      WrapperAndProtocolAgree(tag, flow, version, ops[..|ops| - 1]);
      ApplyKeepsAgreement(ApplyAll(Empty(version), tag, flow, ops[..|ops| - 1]), tag, flow, ops[|ops| - 1]);
    }
    assert s.guests != [] ==> s.guests[|s.guests| - 1].name in Credentials(s.guests);
  }

  lemma ApplyKeepsAgreement(s: State, tag: string, flow: string, op: Op)
    requires Inverse(s.table) && SameUsers(Entries(s.table), Credentials(s.guests), flow) && UniqueNames(s.guests)
    ensures var s' := Apply(s, tag, flow, op);
            && SameUsers(Entries(s'.table), Credentials(s'.guests), flow) && UniqueNames(s'.guests)
            && Credentials(s'.guests) == Reregistered(Credentials(s.guests), tag, op)
  {
    match op
    case Add(subs, _) =>
      AddingAgrees(s.table, s.guests, tag, flow, subs);
    case Remove(emails, _) =>
      RemovingAgrees(s.table, s.guests, flow, emails);
      if emails == [] {
        assert Credentials(s.guests) - Elements(emails) == Credentials(s.guests);
      }
  }

  lemma AddingAgrees(t: Table, guests: seq<Guest>, tag: string, flow: string, subs: seq<Subscription>)
    requires Inverse(t) && SameUsers(Entries(t), Credentials(guests), flow) && UniqueNames(guests)
    ensures var (t', guests') := (AddAll(t, AsUsers(tag, flow, subs)), PutGuests(guests, AsGuests(tag, subs)));
            && SameUsers(Entries(t'), Credentials(guests'), flow) && UniqueNames(guests')
            && Credentials(guests') == PutSubs(Credentials(guests), tag, subs)
  {
    AddRefines(t, AsUsers(tag, flow, subs));
    PutGuestsCredentials(guests, AsGuests(tag, subs));
    AddKeepsSame(Entries(t), Credentials(guests), tag, flow, subs);
    PutSubsIsPut(Credentials(guests), tag, subs);
  }

  lemma RemovingAgrees(t: Table, guests: seq<Guest>, flow: string, emails: seq<string>)
    requires Inverse(t) && SameUsers(Entries(t), Credentials(guests), flow) && UniqueNames(guests)
    ensures var (t', guests') := (DeleteAll(t, emails), Survivors(guests, Elements(emails)));
            && SameUsers(Entries(t'), Credentials(guests'), flow) && UniqueNames(guests')
            && Credentials(guests') == Credentials(guests) - Elements(emails)
  {
    DeleteRefines(t, emails);
    SurvivorsCredentials(guests, Elements(emails));
    SurvivorsUnique(guests, Elements(emails));
    DeleteKeepsSame(Entries(t), Credentials(guests), flow, Elements(emails));
  }

  /**
   The stored service over every run: it serves exactly the users of the last accepted
   call, which are the current ones while the last call was accepted; in version 3 it
   is missing as long as there are none, even after a refusal.
   */
  lemma {:induction false} ServiceFollows(tag: string, flow: string, version: int, ops: seq<Op>)
    ensures var s, served := ApplyAll(Empty(version), tag, flow, ops), Served(tag, version, ops);
            && (s.service.Some? <==> served.Some?)
            && (s.service.Some? ==> Credentials(s.service.value) == served.value && UniqueNames(s.service.value))
            && (LastAccepted(ops) && s.service.Some? ==> Credentials(s.service.value) == Registered(tag, ops))
            && (LastAccepted(ops) ==> (s.service.None? <==> version == 3 && Registered(tag, ops) == map[]))
            && (version == 3 && Registered(tag, ops) == map[] ==> s.service.None?)
    decreases |ops|
  {
    WrapperAndProtocolAgree(tag, flow, version, ops);
    if ops != [] {
      ServiceFollows(tag, flow, version, ops[..|ops| - 1]);
      WrapperAndProtocolAgree(tag, flow, version, ops[..|ops| - 1]);
      if Idle(ops[|ops| - 1]) { IdleChangesNothing(tag, ops); }
    }
  }

  lemma IdleChangesNothing(tag: string, ops: seq<Op>)
    requires ops != [] && Idle(ops[|ops| - 1])
    ensures Registered(tag, ops) == Registered(tag, ops[..|ops| - 1])
  {
    var last := ops[|ops| - 1];
    if last.Remove? { assert Elements(last.emails) == {}; }
  }
}
