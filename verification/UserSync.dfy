/**
 The users of a node after a poll (controller/controller.go): the calls made for a diff
 leave both inbounds of a fronted node with the users of the new list.
 */
module UserSync {
  import opened Api
  import opened Commons
  import opened LimiterSync
  import opened SlotTable
  import opened HotUsers
  import opened FrontedNode

  /** The plain map of the users of a list. */
  function UsersOf(tag: string, list: seq<Subscription>): map<string, string> { PutSubs(map[], tag, list) }

  /** A list put into a map: its own users with their UUIDs, and the others as they were. */
  lemma {:induction false} PutSubsAt(m: map<string, string>, tag: string, list: seq<Subscription>, s: Subscription)
    requires UniqueEmails(list)
    ensures var k, r := BuildUserTag(tag, s.email), PutSubs(m, tag, list);
            && (s in list ==> k in r && r[k] == s.uuid)
            && (!HasEmail(list, s.email) ==> (k in r <==> k in m) && (k in m ==> r[k] == m[k]))
    decreases |list|
  {
    if list != [] {
      var n := |list| - 1;
      assert list == list[..n] + [list[n]];
      assert list[n] in list;
      PutSubsAt(m, tag, list[..n], s);
      UserTagInjective(tag, s.email, list[n].email);
    }
  }

  lemma {:induction false} PutSubsKeys(m: map<string, string>, tag: string, list: seq<Subscription>, k: string)
    requires k in PutSubs(m, tag, list) && k !in m
    ensures exists s :: s in list && k == BuildUserTag(tag, s.email)
    decreases |list|
  {
    var n := |list| - 1;
    if k == BuildUserTag(tag, list[n].email) {
      assert list[n] in list;
    } else {
      PutSubsKeys(m, tag, list[..n], k);
    }
  }

  /** The map after the calls for a diff: removed, added, and modified taken out and put back. */
  function Diffed(m: map<string, string>, tag: string, d: Delta): map<string, string> {
    PutSubs(PutSubs(m - KeySet(tag, d.deleted), tag, d.added) - KeySet(tag, d.modified), tag, d.modified)
  }

  /** Under this email the old list has the UUID already, in an entry that is not deleted. */
  ghost predicate HadAlready(o: seq<Subscription>, n: seq<Subscription>, t: Subscription) {
    exists x :: x in o && x.email == t.email && x.uuid == t.uuid && HasId(n, x.id)
  }

  /**
   An entry that stays on the list may change its email only if another entry takes the
   old one over, and if it is itself modified or its UUID was under the new email before.
   */
  ghost predicate UserSettles(o: seq<Subscription>, n: seq<Subscription>, s: Subscription, t: Subscription) {
    s.email == t.email || (HasEmail(n, s.email) && (Differs(s, t) || HadAlready(o, n, t)))
  }

  ghost predicate UsersSettle(o: seq<Subscription>, n: seq<Subscription>) {
    forall s, t :: s in o && t in n && s.id == t.id ==> UserSettles(o, n, s, t)
  }

  /** An entry of the new list that the diff passes over, at its key in the map. */
  lemma PassedOverAt(tag: string, o: seq<Subscription>, n: seq<Subscription>, d: Delta, t: Subscription)
    requires Proper(o) && Proper(n) && Diff(o, n, d) && t in n && t !in d.added && t !in d.modified
    ensures var k, r := BuildUserTag(tag, t.email), Diffed(UsersOf(tag, o), tag, d);
            k in r && r[k] == t.uuid <==> HadAlready(o, n, t)
  {
    var m1 := UsersOf(tag, o) - KeySet(tag, d.deleted);
    var m2 := PutSubs(m1, tag, d.added) - KeySet(tag, d.modified);
    PartsUniqueEmails(o, n, d, true, true);
    PutSubsAt(m2, tag, d.modified, t);
    PutSubsAt(m1, tag, d.added, t);
    KeySetHas(tag, d.modified, t.email);
    KeySetHas(tag, d.deleted, t.email);
    OldUserAt(tag, o, n, d, t);
  }

  /** The old map without what is deleted, at one key. */
  lemma OldUserAt(tag: string, o: seq<Subscription>, n: seq<Subscription>, d: Delta, t: Subscription)
    requires Proper(o) && Proper(n) && Diff(o, n, d)
    ensures var k, m := BuildUserTag(tag, t.email), UsersOf(tag, o) - KeySet(tag, d.deleted);
            k in m && m[k] == t.uuid <==> HadAlready(o, n, t)
  {
    KeySetHas(tag, d.deleted, t.email);
    if HasEmail(o, t.email) {
      var x :| x in o && x.email == t.email;
      PutSubsAt(map[], tag, o, x);
      forall y ensures y in d.deleted && y.email == t.email ==> y == x {
        DiffMeans(o, n, d, y);
      }
      DiffMeans(o, n, d, x);
    } else {
      PutSubsAt(map[], tag, o, t);
    }
  }

  lemma OldEntryStays(tag: string, o: seq<Subscription>, n: seq<Subscription>, d: Delta, s: Subscription)
    requires Proper(o) && Proper(n) && Diff(o, n, d) && s in o && HasId(n, s.id)
    ensures BuildUserTag(tag, s.email) in Diffed(UsersOf(tag, o), tag, d)
  {
    var m1 := UsersOf(tag, o) - KeySet(tag, d.deleted);
    var m2 := PutSubs(m1, tag, d.added) - KeySet(tag, d.modified);
    PartsUniqueEmails(o, n, d, true, true);
    OldUserAt(tag, o, n, d, s);
    assert HadAlready(o, n, s);
    if HasEmail(d.added, s.email) {
      var a :| a in d.added && a.email == s.email;
      PutSubsAt(m1, tag, d.added, a);
    } else {
      PutSubsAt(m1, tag, d.added, s);
    }
    KeySetHas(tag, d.modified, s.email);
    if HasEmail(d.modified, s.email) {
      var a :| a in d.modified && a.email == s.email;
      PutSubsAt(m2, tag, d.modified, a);
    } else {
      PutSubsAt(m2, tag, d.modified, s);
    }
  }

  /** A user of the new list has the new UUID ... */
  lemma ListedIsServed(tag: string, o: seq<Subscription>, n: seq<Subscription>, d: Delta, t: Subscription)
    requires Proper(o) && Proper(n) && Diff(o, n, d) && UsersSettle(o, n) && t in n
    ensures var k, r := BuildUserTag(tag, t.email), Diffed(UsersOf(tag, o), tag, d); k in r && r[k] == t.uuid
  {
    var m1 := UsersOf(tag, o) - KeySet(tag, d.deleted);
    var m2 := PutSubs(m1, tag, d.added) - KeySet(tag, d.modified);
    PartsUniqueEmails(o, n, d, true, true);
    DiffMeans(o, n, d, t);
    if t in d.modified {
      PutSubsAt(m2, tag, d.modified, t);
    } else if t in d.added {
      PutSubsAt(m2, tag, d.modified, t);
      PutSubsAt(m1, tag, d.added, t);
      KeySetHas(tag, d.modified, t.email);
      AddedIsNotModified(o, n, d, t);
    } else {
      var s :| s in o && s.id == t.id;
      assert UserSettles(o, n, s, t) && !Differs(s, t);
      assert HadAlready(o, n, t);
      PassedOverAt(tag, o, n, d, t);
    }
  }

  lemma AddedIsNotModified(o: seq<Subscription>, n: seq<Subscription>, d: Delta, t: Subscription)
    requires Proper(o) && Proper(n) && Diff(o, n, d) && t in d.added
    ensures !HasEmail(d.modified, t.email)
  {
    DiffMeans(o, n, d, t);
    forall x | x in d.modified ensures x.email != t.email {
      DiffMeans(o, n, d, x);
    }
  }

  /** ... and nobody else is left. */
  lemma ServedIsListed(tag: string, o: seq<Subscription>, n: seq<Subscription>, d: Delta, k: string)
    requires Proper(o) && Proper(n) && Diff(o, n, d) && UsersSettle(o, n)
    requires k in Diffed(UsersOf(tag, o), tag, d)
    ensures exists s :: s in n && k == BuildUserTag(tag, s.email)
  {
    var m1 := UsersOf(tag, o) - KeySet(tag, d.deleted);
    var m2 := PutSubs(m1, tag, d.added) - KeySet(tag, d.modified);
    PartsUniqueEmails(o, n, d, true, true);
    if k !in m2 {
      PutSubsKeys(m2, tag, d.modified, k);
    } else if k !in m1 {
      PutSubsKeys(m1, tag, d.added, k);
    } else {
      PutSubsKeys(map[], tag, o, k);
      var s :| s in o && k == BuildUserTag(tag, s.email);
      assert s !in d.deleted;
      DiffMeans(o, n, d, s);
      var t :| t in n && t.id == s.id;
      assert UserSettles(o, n, s, t);
    }
  }

  /** Where the map is that of the new list, every entry has settled. */
  lemma FollowedSettles(tag: string, o: seq<Subscription>, n: seq<Subscription>, d: Delta, s: Subscription,
                        t: Subscription)
    requires Proper(o) && Proper(n) && Diff(o, n, d) && s in o && t in n && s.id == t.id
    requires Diffed(UsersOf(tag, o), tag, d) == UsersOf(tag, n)
    ensures UserSettles(o, n, s, t)
  {
    OldEntryStays(tag, o, n, d, s);
    PutSubsKeys(map[], tag, n, BuildUserTag(tag, s.email));
    var x :| x in n && BuildUserTag(tag, s.email) == BuildUserTag(tag, x.email);
    UserTagInjective(tag, s.email, x.email);
    DiffMeans(o, n, d, t);
    PutSubsAt(map[], tag, n, t);
    if !Differs(s, t) {
      assert t !in d.modified by {
        forall y | y in o && y.id == t.id ensures y == s { SameIdSame(o, y, s); }
      }
      PassedOverAt(tag, o, n, d, t);
    }
  }

  /**
   The calls for a diff leave exactly the users of the new list, each with its new
   UUID, if and only if every change of email settles. In particular whoever keeps the
   email and is given another UUID can no longer use the old one.
   */
  lemma UsersFollowDiffIff(tag: string, o: seq<Subscription>, n: seq<Subscription>, d: Delta)
    requires Proper(o) && Proper(n) && Diff(o, n, d)
    ensures Diffed(UsersOf(tag, o), tag, d) == UsersOf(tag, n) <==> UsersSettle(o, n)
  {
    var r, b := Diffed(UsersOf(tag, o), tag, d), UsersOf(tag, n);
    if UsersSettle(o, n) {
      forall k ensures (k in r <==> k in b) && (k in r ==> r[k] == b[k]) {
        if k in r { ServedIsListed(tag, o, n, d, k); }
        if k in b { PutSubsKeys(map[], tag, n, k); }
        if k in r || k in b {
          var s :| s in n && k == BuildUserTag(tag, s.email);
          ListedIsServed(tag, o, n, d, s);
          PutSubsAt(map[], tag, n, s);
        }
      }
    }
    if r == b {
      forall s, t | s in o && t in n && s.id == t.id ensures UserSettles(o, n, s, t) {
        FollowedSettles(tag, o, n, d, s, t);
      }
    }
  }

  /** The calls of a poll on the inbounds of a node, when none of them is refused. */
  function DiffOps(d: Delta, gone: seq<string>, changed: seq<string>): seq<Op> {
    [Op.Remove(gone, true), Op.Add(d.added, true), Op.Remove(changed, true), Op.Add(d.modified, true)]
  }

  lemma RegisteredMore(tag: string, ops: seq<Op>, op: Op)
    ensures Registered(tag, ops + [op]) == Reregistered(Registered(tag, ops), tag, op)
  {
    assert (ops + [op])[..|ops|] == ops;
  }

  /**
   On a fronted node whose users were those of the old list, the calls of a poll leave
   wrapper and protocol with exactly those of the new one, if and only if every change
   of email settles.
   */
  lemma InboundsFollowDiffIff(tag: string, flow: string, version: int, ops: seq<Op>, o: seq<Subscription>,
                              n: seq<Subscription>, d: Delta, gone: seq<string>, changed: seq<string>)
    requires Proper(o) && Proper(n) && Diff(o, n, d) && Registered(tag, ops) == UsersOf(tag, o)
    requires Elements(gone) == KeySet(tag, d.deleted) && Elements(changed) == KeySet(tag, d.modified)
    ensures var s := ApplyAll(Empty(version), tag, flow, ops + DiffOps(d, gone, changed));
            && (Credentials(s.guests) == UsersOf(tag, n) <==> UsersSettle(o, n))
            && (SameUsers(Entries(s.table), UsersOf(tag, n), flow) <==> UsersSettle(o, n))
  {
    var calls := DiffOps(d, gone, changed);
    RegisteredMore(tag, ops, calls[0]);
    RegisteredMore(tag, ops + [calls[0]], calls[1]);
    RegisteredMore(tag, ops + [calls[0]] + [calls[1]], calls[2]);
    RegisteredMore(tag, ops + [calls[0]] + [calls[1]] + [calls[2]], calls[3]);
    assert ops + calls == ops + [calls[0]] + [calls[1]] + [calls[2]] + [calls[3]];
    UsersFollowDiffIff(tag, o, n, d);
    WrapperAndProtocolAgree(tag, flow, version, ops + calls);
    var s := ApplyAll(Empty(version), tag, flow, ops + calls);
    SameUsersUnique(Entries(s.table), Credentials(s.guests), UsersOf(tag, n), flow);
  }
}
