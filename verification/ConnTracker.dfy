/**
 The table of open connections (core/dispatcher/dispatcher.go). Connections
 register under their user, take themselves out when they close, and are claimed
 in bulk when a user has to go. The three race, and the closing is done outside
 the lock.
 */
module ConnTracker {
  // ----- The nested table: one inner map a user, never an empty one -----

  /** Per user, the connections by serial number. */
  type Entries<H> = map<string, map<nat, H>>

  function ConnKey(tag: string, email: string): string { tag + "\0" + email }

  /** Another user, on a node with a shorter tag, has the same key. */
  ghost predicate Collides(tag: string, email: string, tag': string, email': string) {
    |tag'| < |tag| && ConnKey(tag, email) == ConnKey(tag', email')
  }

  /**
   The users of a node can share a key with users of one with a shorter tag
   exactly when its tag carries the separator.
   */
  lemma CollidesIff(tag: string, email: string)
    ensures '\0' in tag <==> exists tag', email' :: Collides(tag, email, tag', email')
  {
    if '\0' in tag {
      var i :| 0 <= i < |tag| && tag[i] == '\0';
      var email' := tag[i + 1..] + "\0" + email;
      assert tag == tag[..i] + "\0" + tag[i + 1..];
      assert Collides(tag, email, tag[..i], email');
    }
    if tag', email' :| Collides(tag, email, tag', email') {
      assert ConnKey(tag', email')[|tag'|] == '\0';
      assert tag[|tag'|] == ConnKey(tag, email)[|tag'|];
    }
  }

  /** Two users share a key only when a tag carries the separator. */
  lemma ConnKeyInjective(tag: string, email: string, tag': string, email': string)
    requires '\0' !in tag && '\0' !in tag'
    ensures ConnKey(tag, email) == ConnKey(tag', email') <==> tag == tag' && email == email'
  {
    CollidesIff(tag, email);
    CollidesIff(tag', email');
    if ConnKey(tag, email) == ConnKey(tag', email') {
      assert !Collides(tag, email, tag', email') && !Collides(tag', email', tag, email);
      assert ConnKey(tag, email)[..|tag|] == tag && ConnKey(tag', email')[..|tag|] == tag';
      assert ConnKey(tag, email)[|tag| + 1..] == email && ConnKey(tag', email')[|tag| + 1..] == email';
    }
  }

  /** The serial number `id` of the user behind `key` stands for the connection `h`. */
  ghost predicate Holds(e: Entries<nat>, key: string, id: nat, h: nat) {
    key in e && id in e[key] && e[key][id] == h
  }

  ghost predicate NoneEmpty<H>(e: Entries<H>) {
    forall key :: key in e ==> e[key] != map[]
  }

  function Inserted<H>(e: Entries<H>, key: string, id: nat, h: H): Entries<H> {
    e[key := (if key in e then e[key] else map[])[id := h]]
  }

  function Dropped<H>(e: Entries<H>, key: string, id: nat): Entries<H> {
    if key !in e then e
    else if e[key] - {id} == map[] then e - {key}
    else e[key := e[key] - {id}]
  }

  lemma InsertedHolds(e: Entries<nat>, key: string, id: nat, h: nat)
    requires NoneEmpty(e)
    ensures NoneEmpty(Inserted(e, key, id, h))
    ensures forall k, i, g :: Holds(Inserted(e, key, id, h), k, i, g) <==>
                              if k == key && i == id then g == h else Holds(e, k, i, g)
  {
    assert id in Inserted(e, key, id, h)[key];
  }

  lemma DroppedHolds(e: Entries<nat>, key: string, id: nat)
    requires NoneEmpty(e)
    ensures NoneEmpty(Dropped(e, key, id))
    ensures forall k, i, g :: Holds(Dropped(e, key, id), k, i, g) <==> Holds(e, k, i, g) && !(k == key && i == id)
  {
    if key in e {
      assert forall i :: i in e[key] && i != id ==> i in e[key] - {id};
    }
  }

  // ----- Every interleaving of the locked parts -----

  /** Where RoutedConnection has got to with a connection. */
  datatype Phase = Numbered | Registered | Handed

  /**
   `fired`: the once of its Close is used up. `leaving`: its Close found the
   deregister function and is about to take the lock. `left`: that is done.
   `claimed`: a bulk close took it out of the table.
   */
  datatype Conn = Conn(tag: string, email: string, id: nat, phase: Phase,
                       claimed: bool, fired: bool, leaving: bool, left: bool)
  {
    function Key(): string { ConnKey(tag, email) }
  }

  /** `sweep`: what the bulk closes under way have claimed and not closed yet. */
  datatype World = World(counter: nat, entries: Entries<nat>, conns: map<nat, Conn>, sweep: set<nat>)

  datatype Event =
    | Accept(h: nat, tag: string, email: string)
    | Register(h: nat)
    | HandOver(h: nat)
    | OwnerClose(h: nat)
    | ClaimAll(tag: string, email: string)
    | SweepClose(h: nat)
    | Leave(h: nat)

  /** Close: the first call runs the callback, which does nothing while it has no deregister function. */
  function Fired(c: Conn): Conn {
    if c.fired then c else c.(fired := true, leaving := c.phase == Handed)
  }

  function Taken(w: World, key: string): set<nat> {
    if key in w.entries then w.entries[key].Values else {}
  }

  function ClaimedIn(conns: map<nat, Conn>, taken: set<nat>): map<nat, Conn> {
    map h | h in conns :: if h in taken then conns[h].(claimed := true) else conns[h]
  }

  predicate Enabled(w: World, e: Event) {
    match e
    case Accept(h, _, _) => h !in w.conns
    case Register(h) => h in w.conns && w.conns[h].phase == Numbered
    case HandOver(h) => h in w.conns && w.conns[h].phase == Registered
    // RoutedConnection has returned: the owner may close, and more than once.
    case OwnerClose(h) => h in w.conns && w.conns[h].phase == Handed
    case ClaimAll(_, _) => true
    case SweepClose(h) => h in w.sweep && h in w.conns
    case Leave(h) => h in w.conns && w.conns[h].leaving
  }

  function Step(w: World, e: Event): World
    requires Enabled(w, e)
  {
    match e
    case Accept(h, tag, email) =>
      w.(counter := w.counter + 1,
         conns := w.conns[h := Conn(tag, email, w.counter + 1, Numbered, false, false, false, false)])
    case Register(h) =>
      var c := w.conns[h];
      w.(entries := Inserted(w.entries, c.Key(), c.id, h), conns := w.conns[h := c.(phase := Registered)])
    case HandOver(h) =>
      w.(conns := w.conns[h := w.conns[h].(phase := Handed)])
    case OwnerClose(h) =>
      w.(conns := w.conns[h := Fired(w.conns[h])])
    case ClaimAll(tag, email) =>
      var taken := Taken(w, ConnKey(tag, email));
      w.(entries := w.entries - {ConnKey(tag, email)}, conns := ClaimedIn(w.conns, taken), sweep := w.sweep + taken)
    case SweepClose(h) =>
      w.(conns := w.conns[h := Fired(w.conns[h])], sweep := w.sweep - {h})
    case Leave(h) =>
      var c := w.conns[h];
      w.(entries := Dropped(w.entries, c.Key(), c.id), conns := w.conns[h := c.(leaving := false, left := true)])
  }

  ghost predicate Possible(w: World, events: seq<Event>)
    decreases |events|
  {
    events == [] || (Enabled(w, events[0]) && Possible(Step(w, events[0]), events[1..]))
  }

  function Run(w: World, events: seq<Event>): World
    requires Possible(w, events)
    decreases |events|
  {
    if events == [] then w else Run(Step(w, events[0]), events[1..])
  }

  const IDLE: World := World(0, map[], map[], {})

  // ----- What every interleaving keeps -----

  /** Registered, and neither deregistered nor claimed. */
  predicate Current(c: Conn) { c.phase != Numbered && !c.claimed && !c.left }

  /** The entry `(key, id) -> h` is in the table exactly when `h` is current under that key and number. */
  ghost predicate Exact(w: World, key: string, id: nat, h: nat) {
    Holds(w.entries, key, id, h) <==>
    h in w.conns && w.conns[h].Key() == key && w.conns[h].id == id && Current(w.conns[h])
  }

  /** The life of one connection. */
  ghost predicate Sane(w: World, h: nat, c: Conn) {
    && 1 <= c.id <= w.counter
    && (c.claimed ==> c.phase != Numbered && (h in w.sweep || c.fired))
    && (c.fired ==> c.claimed || c.leaving || c.left)
    && (c.leaving || c.left ==> c.fired && c.phase == Handed)
    && !(c.leaving && c.left)
    && (h in w.sweep ==> c.claimed)
  }

  ghost predicate Inv(w: World) {
    && NoneEmpty(w.entries)
    && w.sweep <= w.conns.Keys
    && (forall h :: h in w.conns ==> Sane(w, h, w.conns[h]))
    && (forall g, h :: g in w.conns && h in w.conns && w.conns[g].id == w.conns[h].id ==> g == h)
    && (forall key, id, h :: Exact(w, key, id, h))
  }

  lemma AcceptKeepsInv(w: World, h: nat, tag: string, email: string)
    requires Inv(w) && h !in w.conns
    ensures Inv(Step(w, Accept(h, tag, email)))
  {
    var w' := Step(w, Accept(h, tag, email));
    forall key, id, g ensures Exact(w', key, id, g) {
      assert Exact(w, key, id, g);
    }
    forall g | g in w'.conns ensures Sane(w', g, w'.conns[g]) {
      assert g in w.conns ==> Sane(w, g, w.conns[g]);
    }
    forall g, f | g in w'.conns && f in w'.conns && w'.conns[g].id == w'.conns[f].id ensures g == f {
      assert g in w.conns ==> Sane(w, g, w.conns[g]);
      assert f in w.conns ==> Sane(w, f, w.conns[f]);
    }
  }

  lemma RegisterKeepsInv(w: World, h: nat)
    requires Inv(w) && Enabled(w, Register(h))
    ensures Inv(Step(w, Register(h)))
  {
    var c := w.conns[h];
    var w' := Step(w, Register(h));
    InsertedHolds(w.entries, c.Key(), c.id, h);
    assert Sane(w, h, c);
    forall key, id, g ensures Exact(w', key, id, g) {
      assert Exact(w, key, id, g);
    }
    forall g | g in w'.conns ensures Sane(w', g, w'.conns[g]) {
      assert Sane(w, g, w.conns[g]);
    }
  }

  /** Handing over and closing touch one connection and leave whether it is current as it was. */
  lemma TouchKeepsInv(w: World, h: nat, c: Conn, sweep: set<nat>)
    requires Inv(w) && h in w.conns
    requires c.Key() == w.conns[h].Key() && c.id == w.conns[h].id && Current(c) == Current(w.conns[h])
    requires sweep == w.sweep || sweep == w.sweep - {h}
    requires Sane(w.(sweep := sweep), h, c)
    ensures Inv(w.(conns := w.conns[h := c], sweep := sweep))
  {
    var w' := w.(conns := w.conns[h := c], sweep := sweep);
    forall key, id, g ensures Exact(w', key, id, g) {
      assert Exact(w, key, id, g);
    }
    forall g | g in w'.conns ensures Sane(w', g, w'.conns[g]) {
      assert Sane(w, g, w.conns[g]);
    }
  }

  lemma ClaimKeepsInv(w: World, tag: string, email: string)
    requires Inv(w)
    ensures Inv(Step(w, ClaimAll(tag, email)))
  {
    var key := ConnKey(tag, email);
    var w' := Step(w, ClaimAll(tag, email));
    forall h ensures h in Taken(w, key) <==> h in w.conns && w.conns[h].Key() == key && Current(w.conns[h]) {
      TakenIsCurrent(w, key, h);
    }
    forall k, id, g ensures Exact(w', k, id, g) {
      assert Exact(w, k, id, g);
    }
    forall g | g in w'.conns ensures Sane(w', g, w'.conns[g]) {
      assert Sane(w, g, w.conns[g]);
    }
  }

  lemma LeaveKeepsInv(w: World, h: nat)
    requires Inv(w) && Enabled(w, Leave(h))
    ensures Inv(Step(w, Leave(h)))
  {
    var c := w.conns[h];
    var w' := Step(w, Leave(h));
    DroppedHolds(w.entries, c.Key(), c.id);
    assert Sane(w, h, c);
    forall key, id, g ensures Exact(w', key, id, g) {
      assert Exact(w, key, id, g);
    }
    forall g | g in w'.conns ensures Sane(w', g, w'.conns[g]) {
      assert Sane(w, g, w.conns[g]);
    }
  }

  lemma StepKeepsInv(w: World, e: Event)
    requires Inv(w) && Enabled(w, e)
    ensures Inv(Step(w, e))
  {
    match e
    case Accept(h, tag, email) => AcceptKeepsInv(w, h, tag, email);
    case Register(h) => RegisterKeepsInv(w, h);
    case HandOver(h) =>
      assert Sane(w, h, w.conns[h]);
      TouchKeepsInv(w, h, w.conns[h].(phase := Handed), w.sweep);
    case OwnerClose(h) =>
      assert Sane(w, h, w.conns[h]);
      TouchKeepsInv(w, h, Fired(w.conns[h]), w.sweep);
    case ClaimAll(tag, email) => ClaimKeepsInv(w, tag, email);
    case SweepClose(h) =>
      assert Sane(w, h, w.conns[h]);
      TouchKeepsInv(w, h, Fired(w.conns[h]), w.sweep - {h});
    case Leave(h) => LeaveKeepsInv(w, h);
  }

  lemma {:induction false} RunKeepsInv(w: World, events: seq<Event>)
    requires Inv(w) && Possible(w, events)
    ensures Inv(Run(w, events))
    decreases |events|
  {
    if events != [] {
      StepKeepsInv(w, events[0]);
      RunKeepsInv(Step(w, events[0]), events[1..]);
    }
  }

  // ----- What follows for every reachable table -----

  /** What a bulk close takes is exactly what is current under the key. */
  lemma TakenIsCurrent(w: World, key: string, h: nat)
    requires Inv(w)
    ensures h in Taken(w, key) <==> h in w.conns && w.conns[h].Key() == key && Current(w.conns[h])
  {
    if h in Taken(w, key) {
      var id :| id in w.entries[key] && w.entries[key][id] == h;
      assert Exact(w, key, id, h);
    }
    if h in w.conns && w.conns[h].Key() == key && Current(w.conns[h]) {
      assert Exact(w, key, w.conns[h].id, h);
      assert w.conns[h].id in w.entries[key];
    }
  }

  /** Exactness, from a fresh tracker, whatever races with whatever. */
  lemma TrackedExactly(events: seq<Event>)
    requires Possible(IDLE, events)
    ensures var w := Run(IDLE, events);
            && NoneEmpty(w.entries)
            && (forall key, id, h :: Exact(w, key, id, h))
  {
    RunKeepsInv(IDLE, events);
  }

  /** A deregistration, however late, removes its own entry and none other: not a newer one of the same user. */
  lemma LateLeaveDropsNoOther(w: World, h: nat, key: string, id: nat, g: nat)
    requires Inv(w) && Enabled(w, Leave(h)) && g != h
    ensures Holds(Step(w, Leave(h)).entries, key, id, g) <==> Holds(w.entries, key, id, g)
  {
    DroppedHolds(w.entries, w.conns[h].Key(), w.conns[h].id);
    assert Exact(w, key, id, g);
  }

  /** ... and when a bulk close claimed the connection first, it removes nothing at all. */
  lemma LeaveAfterClaimIsIdle(w: World, h: nat)
    requires Inv(w) && Enabled(w, Leave(h)) && w.conns[h].claimed
    ensures Step(w, Leave(h)).entries == w.entries
  {
    var c := w.conns[h];
    if c.Key() in w.entries {
      forall i | i in w.entries[c.Key()] ensures i != c.id {
        assert Exact(w, c.Key(), i, w.entries[c.Key()][i]);
      }
      assert w.entries[c.Key()] - {c.id} == w.entries[c.Key()];
    }
  }

  /** With no tag carrying the separator, a bulk close takes the connections of one user on one node, all of them. */
  lemma ClaimTakesOneUser(w: World, tag: string, email: string, h: nat)
    requires Inv(w) && '\0' !in tag
    requires forall g :: g in w.conns ==> '\0' !in w.conns[g].tag
    ensures h in Taken(w, ConnKey(tag, email)) <==>
            h in w.conns && w.conns[h].tag == tag && w.conns[h].email == email && Current(w.conns[h])
  {
    TakenIsCurrent(w, ConnKey(tag, email), h);
    if h in w.conns && w.conns[h].Key() == ConnKey(tag, email) {
      ConnKeyInjective(tag, email, w.conns[h].tag, w.conns[h].email);
    }
  }

  /** Once the bulk closes have finished, every connection they took has been closed. */
  lemma ClaimedAreClosed(w: World, h: nat)
    requires Inv(w) && w.sweep == {} && h in w.conns && w.conns[h].claimed
    ensures w.conns[h].fired
  {
    assert Sane(w, h, w.conns[h]);
  }

  /** No call under way: no bulk close, no callback before the lock, no registration half done. */
  ghost predicate AtRest(w: World) {
    && w.sweep == {}
    && forall h :: h in w.conns ==> w.conns[h].phase == Handed && !w.conns[h].leaving
  }

  /** At rest the table is the set of connections nobody has closed: nothing leaks, nothing is forgotten. */
  lemma OpenIffTracked(w: World, h: nat)
    requires Inv(w) && AtRest(w) && h in w.conns
    ensures !w.conns[h].fired <==> Holds(w.entries, w.conns[h].Key(), w.conns[h].id, h)
  {
    assert Sane(w, h, w.conns[h]);
    assert Exact(w, w.conns[h].Key(), w.conns[h].id, h);
  }

  /** Registering and closing again leaves the table as it was. */
  lemma InsertThenDrop(e: Entries<nat>, key: string, id: nat, h: nat)
    requires NoneEmpty(e) && (key in e ==> id !in e[key])
    ensures Dropped(Inserted(e, key, id, h), key, id) == e
  {
    var m := if key in e then e[key] else map[];
    assert m[id := h] - {id} == m;
    if key in e {
      assert e[key := m[id := h]][key := m] == e;
    } else {
      assert e[key := m[id := h]] - {key} == e;
    }
  }

  // ----- The tracker and the wrappers it holds -----

  class Tracker {
    var counter: nat
    var entries: Entries<CloseNotifyConn>

    constructor ()
      ensures Valid() && counter == 0 && entries == map[]
    {
      counter, entries := 0, map[];
    }

    ghost function Conns(): set<CloseNotifyConn>
      reads this
    {
      set key, id | key in entries && id in entries[key] :: entries[key][id]
    }

    /** A wrapper in the table knows where it is filed, once it knows anything. */
    ghost predicate Valid()
      reads this, Conns()
    {
      && NoneEmpty(entries)
      && forall key, id :: key in entries && id in entries[key] ==> FiledAt(entries[key][id], key, id)
    }

    ghost predicate FiledAt(c: CloseNotifyConn, key: string, id: nat)
      reads c
    {
      c.tracker == this && (c.deregister ==> c.key == key && c.id == id)
    }

    /** Taking a serial number is one atomic step, outside the lock. */
    method Number() returns (id: nat)
      modifies this`counter
      ensures id == counter == old(counter) + 1
    {
      counter := counter + 1;
      id := counter;
    }

    /** The locked part of `add`. */
    method Insert(key: string, id: nat, c: CloseNotifyConn)
      modifies this`entries
      ensures entries == Inserted(old(entries), key, id, c)
    {
      if key !in entries {
        entries := entries[key := map[]];
      }
      var m: map<nat, CloseNotifyConn> := entries[key];
      entries := entries[key := m[id := c]];
    }

    /** The locked part of what `add` hands back. */
    method Deregister(key: string, id: nat)
      modifies this`entries
      ensures entries == Dropped(old(entries), key, id)
    {
      if key in entries {
        var m := entries[key] - {id};
        entries := entries[key := m];
        if m == map[] {
          entries := entries - {key};
          assert entries == old(entries) - {key};
        }
      }
    }

    /** `closeAll`: the whole inner map changes hands under the lock, the closing comes after it. */
    method CloseAll(tag: string, email: string)
      requires Valid()
      modifies this`entries, Of(ConnKey(tag, email))
      ensures Valid()
      ensures entries == old(entries) - {ConnKey(tag, email)}
      ensures Conns() <= old(Conns()) && AllClosed(old(Of(ConnKey(tag, email))))
    {
      var key := ConnKey(tag, email);
      var conns := if key in entries then entries[key] else map[];
      entries := entries - {key};
      CloseEach(key, conns);
    }

    /** The wrappers of one user. */
    ghost function Of(key: string): set<CloseNotifyConn>
      reads this
    {
      if key in entries then entries[key].Values else {}
    }

    /** Every close finds its entry gone with the rest, and changes the table no further. */
    method CloseEach(key: string, conns: map<nat, CloseNotifyConn>)
      requires key !in entries
      requires forall id :: id in conns ==> FiledAt(conns[id], key, id)
      modifies this`entries, conns.Values
      ensures entries == old(entries)
      ensures forall c :: c in conns.Values ==> c.closed && c.fired && c.tracker == this
      ensures forall c :: c in conns.Values ==>
              c.deregister == old(c.deregister) && c.key == old(c.key) && c.id == old(c.id)
    {
      var left := conns.Keys;
      while left != {}
        invariant left <= conns.Keys
        invariant entries == old(entries)
        invariant forall c :: c in conns.Values ==>
                  c.deregister == old(c.deregister) && c.key == old(c.key) && c.id == old(c.id)
        invariant forall id :: id in conns.Keys - left ==> conns[id].closed && conns[id].fired
        decreases |left|
      {
        var id :| id in left;
        left := left - {id};
        assert FiledAt(conns[id], key, id);
        conns[id].Close();
      }
    }
  }

  ghost predicate AllClosed(conns: set<CloseNotifyConn>)
    reads conns
  {
    forall c :: c in conns ==> c.closed && c.fired
  }

  class CloseNotifyConn {
    const tracker: Tracker
    /** The wrapped connection has been closed at least once. */
    var closed: bool
    var fired: bool
    var deregister: bool
    var key: string
    var id: nat

    constructor (tracker: Tracker)
      ensures this.tracker == tracker && !closed && !fired && !deregister
    {
      this.tracker := tracker;
      closed, fired, deregister, key, id := false, false, false, "", 0;
    }

    /** The callback reads the deregister variable, which is still nil until RoutedConnection assigns it. */
    method Close()
      modifies this`closed, this`fired, tracker`entries
      ensures closed && fired
      ensures tracker.entries ==
              if !old(fired) && deregister then Dropped(old(tracker.entries), key, id) else old(tracker.entries)
    {
      closed := true;
      if !fired {
        fired := true;
        if deregister {
          tracker.Deregister(key, id);
        }
      }
    }

    /** `deregister = add(...)`. */
    method Assign(key: string, id: nat)
      modifies this`deregister, this`key, this`id
      ensures deregister && this.key == key && this.id == id
    {
      this.deregister, this.key, this.id := true, key, id;
    }
  }

  /** RoutedConnection from the wrapper on: number, register, and only then assign the deregister function. */
  method RoutedConnection(t: Tracker, tag: string, email: string) returns (nc: CloseNotifyConn)
    requires t.Valid()
    modifies t
    ensures t.Valid()
    ensures fresh(nc) && nc.tracker == t && !nc.closed && !nc.fired
    ensures nc.deregister && nc.key == ConnKey(tag, email) && nc.id == t.counter == old(t.counter) + 1
    ensures t.entries == Inserted(old(t.entries), ConnKey(tag, email), nc.id, nc)
  {
    nc := new CloseNotifyConn(t);
    var id := t.Number();
    t.Insert(ConnKey(tag, email), id, nc);
    nc.Assign(ConnKey(tag, email), id);
    assert id in t.entries[ConnKey(tag, email)];
  }

  function KeysOf(tag: string, emails: seq<string>): set<string> { set e | e in emails :: ConnKey(tag, e) }

  /** The wrappers of several users. */
  ghost function Under<H>(e: Entries<H>, keys: set<string>): set<H> {
    set key, id | key in keys && key in e && id in e[key] :: e[key][id]
  }

  lemma UnderMore<H>(e: Entries<H>, keys: set<string>, key: string)
    ensures e - keys - {key} == e - (keys + {key})
    ensures Under(e, keys + {key}) == Under(e, keys) + (if key in e - keys then (e - keys)[key].Values else {})
  {
    var more := if key in e - keys then (e - keys)[key].Values else {};
    forall h | h in more ensures h in Under(e, keys + {key}) {
      var id :| id in e[key] && e[key][id] == h;
    }
    forall h | h in Under(e, keys + {key}) ensures h in Under(e, keys) || h in more {
      var k, id :| k in keys + {key} && k in e && id in e[k] && e[k][id] == h;
      if k !in keys { assert id in (e - keys)[key] && (e - keys)[key][id] == h; }
    }
  }

  /** One bulk close; what was closed stays closed. */
  method CloseNext(t: Tracker, tag: string, email: string, ghost done: set<CloseNotifyConn>)
    requires t.Valid() && AllClosed(done)
    modifies t`entries, t.Of(ConnKey(tag, email))
    ensures t.Valid() && t.Conns() <= old(t.Conns())
    ensures t.entries == old(t.entries) - {ConnKey(tag, email)}
    ensures AllClosed(done + old(t.Of(ConnKey(tag, email))))
  {
    t.CloseAll(tag, email);
  }

  /** The loop at the end of RemoveSubscriptions: every connection of every removed user. */
  method CloseUserConns(t: Tracker, tag: string, emails: seq<string>)
    requires t.Valid()
    modifies t`entries, t.Conns()
    ensures t.Valid() && t.Conns() <= old(t.Conns())
    ensures t.entries == old(t.entries) - KeysOf(tag, emails)
    ensures AllClosed(Under(old(t.entries), KeysOf(tag, emails)))
  {
    ghost var e := t.entries;
    for i := 0 to |emails|
      invariant t.Valid() && t.Conns() <= old(t.Conns())
      invariant t.entries == e - KeysOf(tag, emails[..i])
      invariant AllClosed(Under(e, KeysOf(tag, emails[..i])))
    {
      ghost var keys, key := KeysOf(tag, emails[..i]), ConnKey(tag, emails[i]);
      KeysOfMore(tag, emails, i);
      UnderMore(e, keys, key);
      assert t.Of(key) <= t.Conns();
      CloseNext(t, tag, emails[i], Under(e, keys));
    }
    assert emails[..|emails|] == emails;
  }

  lemma KeysOfMore(tag: string, emails: seq<string>, i: nat)
    requires i < |emails|
    ensures KeysOf(tag, emails[..i + 1]) == KeysOf(tag, emails[..i]) + {ConnKey(tag, emails[i])}
  {
    assert emails[..i + 1] == emails[..i] + [emails[i]];
  }
}
