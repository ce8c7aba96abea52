/**
 The code around the shared hashes: the script's loop, the admission check, and
 the batched sweep of GetOnlineIPs (limiter/limiter.go).
 */
module IpSweep {
  import opened Api
  import opened Commons
  import opened IpLimit

  const IP_KEY_PREFIX := "xmplus:ip:"
  const REDIS_BATCH_SIZE: nat := 256

  datatype OnlineIP = OnlineIP(id: int, ip: string)

  function TrimPrefix(s: string, prefix: string): string {
    if prefix <= s then s[|prefix|..] else s
  }

  /** The hash of one subscription; the limiter keys subscriptions by tag_email. */
  function KeyOf(tag: string, email: string): string { IP_KEY_PREFIX + TrimPrefix(email, tag + "_") }

  /** The node's tag is not part of the key, so every node counts a subscription into one hash. */
  lemma KeySharedByNodes(tag: string, tag': string, email: string, email': string)
    ensures KeyOf(tag, BuildUserTag(tag, email)) == IP_KEY_PREFIX + email
    ensures KeyOf(tag, BuildUserTag(tag, email)) == KeyOf(tag', BuildUserTag(tag', email')) <==> email == email'
  {
    assert BuildUserTag(tag, email)[|tag + "_"|..] == email;
    assert BuildUserTag(tag', email')[|tag' + "_"|..] == email';
    assert KeyOf(tag, BuildUserTag(tag, email))[|IP_KEY_PREFIX|..] == email;
    assert KeyOf(tag', BuildUserTag(tag', email'))[|IP_KEY_PREFIX|..] == email';
  }

  lemma KeyInjective(tag: string, a: string, b: string)
    requires tag + "_" <= a && tag + "_" <= b && KeyOf(tag, a) == KeyOf(tag, b)
    ensures a == b
  {
    var p := tag + "_";
    assert a == BuildUserTag(tag, a[|p|..]) && b == BuildUserTag(tag, b[|p|..]);
    KeySharedByNodes(tag, tag, a[|p|..], b[|p|..]);
  }

  // ---------------------------------------------------------------- one subscription at a time

  function AfterSweep(hash: Hash, tag: string): Hash { hash - Claimed(hash, tag) }

  /** The reference sweep: visit the keys one by one, report what is claimed, then delete it. */
  function SweepEach(store: map<string, Hash>, keys: seq<string>, tag: string): (set<Claim>, map<string, Hash>)
    decreases |keys|
  {
    if keys == [] then ({}, store) else
    var (claims, after) := SweepEach(store, keys[..|keys| - 1], tag);
    var key := keys[|keys| - 1];
    var hash := HashAt(after, key);
    (claims + ClaimsAt(hash, key, tag), after[key := AfterSweep(hash, tag)])
  }

  function AllClaims(store: map<string, Hash>, keys: set<string>, tag: string): set<Claim> {
    set key, f | key in keys && f in Claimed(HashAt(store, key), tag) :: Claim(key, f)
  }

  function KeySet(tag: string, emails: seq<string>): set<string> {
    set e | e in emails :: KeyOf(tag, e)
  }

  lemma KeySetConcat(tag: string, a: seq<string>, b: seq<string>)
    ensures KeySet(tag, a + b) == KeySet(tag, a) + KeySet(tag, b)
  {
    forall k ensures k in KeySet(tag, a + b) <==> k in KeySet(tag, a) || k in KeySet(tag, b) {}
  }

  /** The order of the visits does not matter: a sweep of distinct keys is this, for every order. */
  lemma {:induction false} SweepEachClosed(store: map<string, Hash>, keys: seq<string>, tag: string)
    requires forall i, j :: 0 <= i < j < |keys| ==> keys[i] != keys[j]
    ensures var (claims, after) := SweepEach(store, keys, tag);
            && claims == AllClaims(store, (set k | k in keys), tag)
            && forall key :: HashAt(after, key)
                 == (if key in keys then AfterSweep(HashAt(store, key), tag) else HashAt(store, key))
    decreases |keys|
  {
    if keys != [] {
      var init, key := keys[..|keys| - 1], keys[|keys| - 1];
      SweepEachClosed(store, init, tag);
      assert keys == init + [key] && key !in init;
      var claims, all := SweepEach(store, init, tag).0, AllClaims(store, (set k | k in keys), tag);
      assert HashAt(SweepEach(store, init, tag).1, key) == HashAt(store, key);
      forall c | c in all ensures c in claims || c in ClaimsAt(HashAt(store, key), key, tag) {
        if c.key in init { assert c.key in (set k | k in init); }
      }
    }
  }

  // ---------------------------------------------------------------- the sweep in the step model

  /** The visits of a sweep as steps of the system: read and claim one hash, then delete the claim. */
  function Visits(tag: string, keys: seq<string>): seq<Event>
    decreases |keys|
  {
    if keys == [] then []
    else Visits(tag, keys[..|keys| - 1]) + [Event.ReadHash(tag, keys[|keys| - 1]), DeleteClaimed(tag, keys[|keys| - 1])]
  }

  /** The pipelined form: all hashes of a batch are read before the first delete. */
  function Reads(tag: string, keys: seq<string>): seq<Event> {
    seq(|keys|, i requires 0 <= i < |keys| => Event.ReadHash(tag, keys[i]))
  }

  function Deletes(tag: string, keys: seq<string>): seq<Event> {
    seq(|keys|, i requires 0 <= i < |keys| => DeleteClaimed(tag, keys[i]))
  }

  lemma RunTwo(w: World, limits: string -> int, events: seq<Event>, a: Event, b: Event)
    ensures Run(w, limits, events + [a, b]) == Step(Step(Run(w, limits, events), limits, a), limits, b)
  {
    var all := events + [a, b];
    assert all[..|all| - 1] == events + [a] && (events + [a])[..|events|] == events;
    assert Run(w, limits, events + [a]) == Step(Run(w, limits, events), limits, a);
  }

  lemma {:induction false} RunConcat(w: World, limits: string -> int, a: seq<Event>, b: seq<Event>)
    ensures Run(w, limits, a + b) == Run(Run(w, limits, a), limits, b)
    decreases |b|
  {
    if b == [] {
      assert a + b == a;
    } else {
      var n := |b| - 1;
      assert (a + b)[..|a + b| - 1] == a + b[..n] && (a + b)[|a + b| - 1] == b[n];
      RunConcat(w, limits, a, b[..n]);
    }
  }

  lemma FieldsOfClaims(hash: Hash, key: string, tag: string)
    ensures FieldsOf(ClaimsAt(hash, key, tag), key) == Claimed(hash, tag)
    ensures (set c | c in ClaimsAt(hash, key, tag) && c.key != key) == {}
  {
    forall f | f in Claimed(hash, tag) ensures f in FieldsOf(ClaimsAt(hash, key, tag), key) {
      assert Claim(key, f) in ClaimsAt(hash, key, tag);
    }
  }

  /** Reading one hash and deleting the claim, uninterrupted, is one visit of the reference sweep. */
  lemma VisitIsStep(w: World, limits: string -> int, tag: string, key: string)
    requires tag in w.sweeps && w.sweeps[tag].toDelete == {}
    ensures var hash := HashAt(w.store, key);
            Step(Step(w, limits, Event.ReadHash(tag, key)), limits, DeleteClaimed(tag, key)) ==
            w.(store := w.store[key := AfterSweep(hash, tag)],
               sweeps := w.sweeps[tag := Sweep(w.sweeps[tag].report + ClaimsAt(hash, key, tag), {})])
  {
    FieldsOfClaims(HashAt(w.store, key), key, tag);
    assert {} + ClaimsAt(HashAt(w.store, key), key, tag) == ClaimsAt(HashAt(w.store, key), key, tag);
  }

  /** The reference sweep is a run of the system. */
  lemma {:induction false} SweepEachIsRun(w: World, limits: string -> int, tag: string, keys: seq<string>)
    requires tag in w.sweeps && w.sweeps[tag].toDelete == {}
    ensures var (claims, after) := SweepEach(w.store, keys, tag);
            Run(w, limits, Visits(tag, keys)) ==
            w.(store := after, sweeps := w.sweeps[tag := Sweep(w.sweeps[tag].report + claims, {})])
    decreases |keys|
  {
    if keys == [] {
      assert w.sweeps[tag].report + {} == w.sweeps[tag].report;
      assert w.sweeps[tag := w.sweeps[tag]] == w.sweeps;
    } else {
      var init, key := keys[..|keys| - 1], keys[|keys| - 1];
      SweepEachIsRun(w, limits, tag, init);
      RunTwo(w, limits, Visits(tag, init), Event.ReadHash(tag, key), DeleteClaimed(tag, key));
      var (claims, after) := SweepEach(w.store, init, tag);
      var mid := w.(store := after, sweeps := w.sweeps[tag := Sweep(w.sweeps[tag].report + claims, {})]);
      VisitIsStep(mid, limits, tag, key);
      Unite(w.sweeps[tag].report, claims, ClaimsAt(HashAt(after, key), key, tag));
    }
  }

  lemma Unite<T>(a: set<T>, b: set<T>, c: set<T>)
    ensures a + b + c == a + (b + c)
  {
  }

  lemma SnocElements<T>(init: seq<T>, last: T)
    ensures Elements(init + [last]) == Elements(init) + {last}
  {
  }

  lemma AllClaimsMore(store: map<string, Hash>, keys: set<string>, key: string, tag: string)
    ensures AllClaims(store, keys + {key}, tag) == AllClaims(store, keys, tag) + ClaimsAt(HashAt(store, key), key, tag)
  {
  }

  lemma {:induction false} ReadsClaimAll(w: World, limits: string -> int, tag: string, keys: seq<string>)
    requires tag in w.sweeps
    ensures var all, s := AllClaims(w.store, Elements(keys), tag), w.sweeps[tag];
            Run(w, limits, Reads(tag, keys)) == w.(sweeps := w.sweeps[tag := Sweep(s.report + all, s.toDelete + all)])
    decreases |keys|
  {
    var s := w.sweeps[tag];
    if keys == [] {
      assert AllClaims(w.store, Elements(keys), tag) == {};
      assert Sweep(s.report + {}, s.toDelete + {}) == s && w.sweeps[tag := s] == w.sweeps;
    } else {
      var init, key := keys[..|keys| - 1], keys[|keys| - 1];
      ReadsClaimAll(w, limits, tag, init);
      assert Reads(tag, keys)[..|keys| - 1] == Reads(tag, init);
      assert keys == init + [key];
      SnocElements(init, key);
      var before, more := AllClaims(w.store, Elements(init), tag), ClaimsAt(HashAt(w.store, key), key, tag);
      AllClaimsMore(w.store, Elements(init), key, tag);
      Unite(s.report, before, more);
      Unite(s.toDelete, before, more);
    }
  }

  /** What is still to delete once the hashes in `done` have been seen to. */
  function LeftToDelete(claims: set<Claim>, done: set<string>): set<Claim> {
    set c | c in claims && c.key !in done
  }

  lemma LeftMore(claims: set<Claim>, done: set<string>, key: string)
    requires key !in done
    ensures FieldsOf(LeftToDelete(claims, done), key) == FieldsOf(claims, key)
    ensures (set c | c in LeftToDelete(claims, done) && c.key != key) == LeftToDelete(claims, done + {key})
  {
  }

  /** From `before` to `after` exactly the claimed fields of the hashes in `done` have gone. */
  ghost predicate Cleared(before: map<string, Hash>, after: map<string, Hash>, done: set<string>, claims: set<Claim>) {
    forall key :: ClearedAt(before, after, done, claims, key)
  }

  ghost predicate ClearedAt(before: map<string, Hash>, after: map<string, Hash>, done: set<string>, claims: set<Claim>,
                            key: string)
  {
    HashAt(after, key) == if key in done then HashAt(before, key) - FieldsOf(claims, key) else HashAt(before, key)
  }

  lemma {:induction false} DeletesClearAll(w: World, limits: string -> int, tag: string, keys: seq<string>)
    requires tag in w.sweeps && NoDup(keys)
    ensures var w', s := Run(w, limits, Deletes(tag, keys)), w.sweeps[tag];
            && w'.sweeps == w.sweeps[tag := Sweep(s.report, LeftToDelete(s.toDelete, Elements(keys)))]
            && Cleared(w.store, w'.store, Elements(keys), s.toDelete)
    decreases |keys|
  {
    var s := w.sweeps[tag];
    if keys == [] {
      assert LeftToDelete(s.toDelete, Elements(keys)) == s.toDelete && w.sweeps[tag := s] == w.sweeps;
    } else {
      var init, key := keys[..|keys| - 1], keys[|keys| - 1];
      DeletesClearAll(w, limits, tag, init);
      assert Deletes(tag, keys)[..|keys| - 1] == Deletes(tag, init);
      assert keys == init + [key];
      SnocElements(init, key);
      DeleteClearsOne(w.store, Run(w, limits, Deletes(tag, init)), limits, tag, Elements(init), key, s);
    }
  }

  lemma DeleteClearsOne(before: map<string, Hash>, mid: World, limits: string -> int, tag: string, done: set<string>,
                        key: string, s: Sweep)
    requires tag in mid.sweeps && mid.sweeps[tag] == Sweep(s.report, LeftToDelete(s.toDelete, done))
    requires key !in done && Cleared(before, mid.store, done, s.toDelete)
    ensures var w' := Step(mid, limits, DeleteClaimed(tag, key));
            && w'.sweeps == mid.sweeps[tag := Sweep(s.report, LeftToDelete(s.toDelete, done + {key}))]
            && Cleared(before, w'.store, done + {key}, s.toDelete)
  {
    LeftMore(s.toDelete, done, key);
    var w' := Step(mid, limits, DeleteClaimed(tag, key));
    forall k ensures ClearedAt(before, w'.store, done + {key}, s.toDelete, k) {
      assert ClearedAt(before, mid.store, done, s.toDelete, k);
    }
  }

  lemma FieldsOfAll(store: map<string, Hash>, keys: set<string>, tag: string, key: string)
    requires key in keys
    ensures FieldsOf(AllClaims(store, keys, tag), key) == Claimed(HashAt(store, key), tag)
  {
    forall f | f in Claimed(HashAt(store, key), tag) ensures f in FieldsOf(AllClaims(store, keys, tag), key) {
      assert Claim(key, f) in AllClaims(store, keys, tag);
    }
  }

  /** Clearing all claims of some hashes is what the reference sweep does to them. */
  lemma ClearedIsSweepEach(store: map<string, Hash>, after: map<string, Hash>, keys: seq<string>, tag: string)
    requires NoDup(keys) && Cleared(store, after, Elements(keys), AllClaims(store, Elements(keys), tag))
    ensures SweepEach(store, keys, tag).0 == AllClaims(store, Elements(keys), tag)
    ensures forall key :: HashAt(after, key) == HashAt(SweepEach(store, keys, tag).1, key)
  {
    SweepEachClosed(store, keys, tag);
    assert (set k | k in keys) == Elements(keys);
    forall key ensures HashAt(after, key) == HashAt(SweepEach(store, keys, tag).1, key) {
      assert ClearedAt(store, after, Elements(keys), AllClaims(store, Elements(keys), tag), key);
      if key in keys { FieldsOfAll(store, Elements(keys), tag, key); }
    }
  }

  /**
   A batch, its reads first and its deletes after, is also a run of the system, and
   uninterrupted it reports and leaves what the reference sweep does.
   */
  lemma BatchIsRun(w: World, limits: string -> int, tag: string, keys: seq<string>)
    requires tag in w.sweeps && w.sweeps[tag].toDelete == {} && NoDup(keys)
    ensures var w', (claims, after) :=
              Run(w, limits, Reads(tag, keys) + Deletes(tag, keys)), SweepEach(w.store, keys, tag);
            && w'.sweeps == w.sweeps[tag := Sweep(w.sweeps[tag].report + claims, {})]
            && forall key :: HashAt(w'.store, key) == HashAt(after, key)
  {
    var all, report := AllClaims(w.store, Elements(keys), tag), w.sweeps[tag].report;
    assert {} + all == all && LeftToDelete(all, Elements(keys)) == {};
    RunConcat(w, limits, Reads(tag, keys), Deletes(tag, keys));
    ReadsClaimAll(w, limits, tag, keys);
    var mid := w.(sweeps := w.sweeps[tag := Sweep(report + all, all)]);
    DeletesClearAll(mid, limits, tag, keys);
    ClearedIsSweepEach(w.store, Run(mid, limits, Deletes(tag, keys)).store, keys, tag);
  }

  // ---------------------------------------------------------------- the shared store

  /** Redis as the nodes use it; an unhealthy one may fail any read or delete. */
  class Redis {
    var store: map<string, Hash>
    const healthy: bool

    /** The body of ipLimitScript. */
    method EvalLimitScript(key: string, field: string, value: Value, limit: int, ip: string) returns (rejected: bool)
      modifies this`store
      ensures RunScript(HashAt(old(store), key), field, value, limit, ip) == (HashAt(store, key), rejected)
      ensures forall k :: k != key ==> HashAt(store, k) == HashAt(old(store), k)
    {
      var hash := HashAt(store, key);
      if field !in hash {
        if limit > 0 {
          var seen, distinct := CountAddresses(hash);
          if distinct >= limit && ip !in seen {
            return true;
          }
        }
      }
      store := store[key := hash[field := value]];
      return false;
    }

    /** HGETALL */
    method ReadHash(key: string) returns (hash: Option<Hash>)
      ensures hash.Some? ==> hash.value == HashAt(store, key)
      ensures healthy ==> hash.Some?
    {
      var answers: bool := *;
      hash := if healthy || answers then Some(HashAt(store, key)) else None;
    }

    /** HDEL, all or nothing */
    method DeleteFields(key: string, fields: set<string>)
      modifies this`store
      ensures forall k :: k != key ==> HashAt(store, k) == HashAt(old(store), k)
      ensures HashAt(store, key) == HashAt(old(store), key) - fields
           || (!healthy && HashAt(store, key) == HashAt(old(store), key))
    {
      var answers: bool := *;
      if healthy || answers { store := store[key := HashAt(store, key) - fields]; }
    }
  }

  /** The script's loop, in whatever order HKEYS gives the fields. */
  method CountAddresses(hash: Hash) returns (seen: set<string>, distinct: nat)
    ensures seen == Addresses(hash) && distinct == |seen|
  {
    seen, distinct := {}, 0;
    var todo, read: Hash := hash.Keys, map[];
    while todo != {}
      invariant todo <= hash.Keys && read == hash - todo
      invariant seen == Addresses(read) && distinct == |seen|
      decreases |todo|
    {
      var f :| f in todo;
      AddressesExtend(read, f, hash[f]);
      todo, read := todo - {f}, read[f := hash[f]];
      var addr := ScriptAddr(f);
      if addr.Some? && addr.value !in seen {
        seen, distinct := seen + {addr.value}, distinct + 1;
      }
    }
    assert read == hash;
  }

  lemma AddressesExtend(hash: Hash, f: string, value: Value)
    ensures Addresses(hash[f := value])
         == Addresses(hash) + (if ScriptAddr(f).Some? then {ScriptAddr(f).value} else {})
  {
    var after := hash[f := value];
    forall a | a in Addresses(hash) ensures a in Addresses(after) {
      var g :| g in hash && ScriptAddr(g) == Some(a);
      assert g in after;
    }
    if ScriptAddr(f).Some? { assert f in after; }
  }

  // ---------------------------------------------------------------- one node

  /** online[i] is the record sent to the panel for claims[i]. */
  ghost predicate Reports(store: map<string, Hash>, tag: string, claims: seq<Claim>, online: seq<OnlineIP>) {
    && |claims| == |online| && NoDup(claims)
    && forall i :: 0 <= i < |claims| ==> ReportsOne(store, tag, claims[i], online[i])
  }

  ghost predicate ReportsOne(store: map<string, Hash>, tag: string, c: Claim, o: OnlineIP) {
    && c.field in Claimed(HashAt(store, c.key), tag)
    && o == OnlineIP(HashAt(store, c.key)[c.field].id, TrimSuffix(c.field, [SEP] + tag))
  }

  ghost predicate SameOnKeys(a: map<string, Hash>, b: map<string, Hash>, keys: set<string>) {
    forall key :: key in keys ==> HashAt(a, key) == HashAt(b, key)
  }

  lemma ReportsElsewhere(a: map<string, Hash>, b: map<string, Hash>, tag: string, keys: set<string>,
                         claims: seq<Claim>, online: seq<OnlineIP>)
    requires Reports(a, tag, claims, online) && SameOnKeys(a, b, keys)
    requires forall c :: c in claims ==> c.key in keys
    ensures Reports(b, tag, claims, online)
  {
    forall i | 0 <= i < |claims| ensures ReportsOne(b, tag, claims[i], online[i]) {
      assert claims[i] in claims && ReportsOne(a, tag, claims[i], online[i]);
    }
  }

  lemma ReportsMore(store: map<string, Hash>, tag: string, claims: seq<Claim>, online: seq<OnlineIP>,
                    c: Claim, o: OnlineIP)
    requires Reports(store, tag, claims, online) && c !in claims && ReportsOne(store, tag, c, o)
    ensures Reports(store, tag, claims + [c], online + [o])
  {
  }

  lemma ReportsConcat(store: map<string, Hash>, tag: string, c1: seq<Claim>, o1: seq<OnlineIP>,
                      c2: seq<Claim>, o2: seq<OnlineIP>)
    requires Reports(store, tag, c1, o1) && Reports(store, tag, c2, o2)
    requires forall c :: c in c1 ==> c !in c2
    ensures Reports(store, tag, c1 + c2, o1 + o2)
  {
    forall i, j | 0 <= i < j < |c1 + c2| ensures (c1 + c2)[i] != (c1 + c2)[j] {
      if i < |c1| <= j { assert (c1 + c2)[i] in c1 && (c1 + c2)[j] in c2; }
    }
  }

  /** Every deleted field was claimed and reported; with a healthy store exactly the claimed ones went. */
  ghost predicate SweptKey(before: map<string, Hash>, after: map<string, Hash>, tag: string, key: string,
                           claims: seq<Claim>, healthy: bool) {
    var claimed := Claimed(HashAt(before, key), tag);
    && (HashAt(after, key) == HashAt(before, key) || HashAt(after, key) == AfterSweep(HashAt(before, key), tag))
    && (HashAt(after, key) != HashAt(before, key) ==> forall f :: f in claimed ==> Claim(key, f) in claims)
    && (healthy ==> HashAt(after, key) == AfterSweep(HashAt(before, key), tag))
    && (healthy ==> forall f :: f in claimed ==> Claim(key, f) in claims)
  }

  /** Every address the node recorded in the hash is in the report with its number, and gone from the hash. */
  ghost predicate TellsAll(before: Hash, after: Hash, tag: string, online: seq<OnlineIP>) {
    forall ip, id :: Stores(before, ip, tag, id) ==> OnlineIP(id, ip) in online && IpField(ip, tag) !in after
  }

  lemma ClaimsAreTold(store: map<string, Hash>, tag: string, key: string, claims: seq<Claim>, online: seq<OnlineIP>)
    requires Reports(store, tag, claims, online)
    requires forall f :: f in Claimed(HashAt(store, key), tag) ==> Claim(key, f) in claims
    ensures TellsAll(HashAt(store, key), AfterSweep(HashAt(store, key), tag), tag, online)
  {
    var hash := HashAt(store, key);
    forall ip, id | Stores(hash, ip, tag, id)
      ensures OnlineIP(id, ip) in online && IpField(ip, tag) !in AfterSweep(hash, tag)
    {
      var field := IpField(ip, tag);
      ClaimedMeans(hash, tag, field);
      assert field in Claimed(hash, tag) && Claim(key, field) in claims;
      var i :| 0 <= i < |claims| && claims[i] == Claim(key, field);
      assert ReportsOne(store, tag, claims[i], online[i]);
      assert ip + ([SEP] + tag) == field && field[..|ip|] == ip;
    }
  }

  /** Each record is what the node recorded in the hash it was claimed from. */
  lemma ToldWasStored(store: map<string, Hash>, tag: string, claims: seq<Claim>, online: seq<OnlineIP>, i: nat)
    requires Reports(store, tag, claims, online) && i < |claims|
    ensures Stores(HashAt(store, claims[i].key), online[i].ip, tag, online[i].id)
  {
    var c := claims[i];
    assert ReportsOne(store, tag, c, online[i]);
    assert c.field == online[i].ip + ([SEP] + tag) == IpField(online[i].ip, tag);
  }

  class InboundInfo {
    const tag: string
    var subscriptions: map<string, int>   // tag_email to subscription id
    var buckets: set<string>              // keys of BucketHub

    ghost predicate Valid()
      reads this
    {
      forall email :: email in subscriptions ==> tag + "_" <= email
    }

    /** An admission check; a store that cannot answer admits. */
    static method CheckIPLimit(redis: Redis, tag: string, email: string, uid: int, ip: string, limit: int)
      returns (reject: bool)
      modifies redis`store
      ensures var (hash, rejected) :=
                RunScript(HashAt(old(redis.store), KeyOf(tag, email)), IpField(ip, tag), Uid(uid), limit, ip);
              || (reject == rejected && HashAt(redis.store, KeyOf(tag, email)) == hash)
              || (!redis.healthy && !reject && redis.store == old(redis.store))
      ensures forall k :: k != KeyOf(tag, email) ==> HashAt(redis.store, k) == HashAt(old(redis.store), k)
    {
      var answers: bool := *;
      if !redis.healthy && !answers { return false; }
      reject := redis.EvalLimitScript(KeyOf(tag, email), IpField(ip, tag), Uid(uid), limit, ip);
    }

    /** The records of one hash, in whatever order the map gives its fields. */
    method ClaimFields(hash: Hash, ghost store: map<string, Hash>, key: string)
      returns (online: seq<OnlineIP>, claimed: set<string>, ghost claims: seq<Claim>)
      requires hash == HashAt(store, key)
      ensures claimed == Claimed(hash, tag) && Reports(store, tag, claims, online)
      ensures forall c :: c in claims <==> c.key == key && c.field in claimed
      ensures TellsAll(hash, hash - claimed, tag, online)
      ensures forall o :: o in online ==> Stores(hash, o.ip, tag, o.id)
    {
      online, claimed, claims := [], {}, [];
      var todo := hash.Keys;
      while todo != {}
        invariant todo <= hash.Keys
        invariant claimed == Claimed(hash, tag) - todo
        invariant Reports(store, tag, claims, online)
        invariant forall c :: c in claims <==> c.key == key && c.field in claimed
        decreases |todo|
      {
        var field :| field in todo;
        todo := todo - {field};
        if Owns(tag, field) && hash[field].Uid? {
          var record := OnlineIP(hash[field].id, TrimSuffix(field, [SEP] + tag));
          ReportsMore(store, tag, claims, online, Claim(key, field), record);
          online, claimed, claims := online + [record], claimed + {field}, claims + [Claim(key, field)];
        }
      }
      ClaimsAreTold(store, tag, key, claims, online);
      forall o | o in online ensures Stores(hash, o.ip, tag, o.id) {
        var i :| 0 <= i < |online| && online[i] == o;
        ToldWasStored(store, tag, claims, online, i);
        assert claims[i] in claims;
      }
    }

    /** The pipelined reads of one batch. */
    method ReadBatch(redis: Redis, batch: seq<string>) returns (hashes: seq<Option<Hash>>)
      ensures |hashes| == |batch|
      ensures forall i :: 0 <= i < |batch| ==> Read(redis.store, batch[i], hashes[i], redis.healthy)
    {
      hashes := [];
      for i := 0 to |batch|
        invariant |hashes| == i
        invariant forall m :: 0 <= m < i ==> Read(redis.store, batch[m], hashes[m], redis.healthy)
      {
        var hash := redis.ReadHash(KeyOf(tag, batch[i]));
        hashes := hashes + [hash];
      }
    }

    /** What one read contributes to the sweep: its records, the fields to delete, and whether it was empty. */
    method CollectOne(hash: Option<Hash>, email: string, ghost store: map<string, Hash>, ghost healthy: bool)
      returns (online: seq<OnlineIP>, fields: set<string>, ghost claims: seq<Claim>, quiet: bool)
      requires Read(store, email, hash, healthy)
      ensures Reports(store, tag, claims, online)
      ensures forall c :: c in claims <==> c.key == KeyOf(tag, email) && c.field in fields
      ensures Collected(store, email, fields, claims, healthy)
      ensures quiet ==> HashAt(store, KeyOf(tag, email)) == map[]
      ensures healthy && HashAt(store, KeyOf(tag, email)) == map[] ==> quiet
    {
      online, fields, claims, quiet := [], {}, [], false;
      if hash.Some? {
        if |hash.value| == 0 {
          quiet := true;
        } else {
          online, fields, claims := ClaimFields(hash.value, store, KeyOf(tag, email));
        }
      }
    }

    method CollectBatch(batch: seq<string>, hashes: seq<Option<Hash>>, ghost store: map<string, Hash>,
                        ghost healthy: bool)
      returns (online: seq<OnlineIP>, deletes: seq<set<string>>, ghost claims: seq<Claim>, untracked: set<string>)
      requires DistinctKeys(batch) && |hashes| == |batch|
      requires forall i :: 0 <= i < |batch| ==> Read(store, batch[i], hashes[i], healthy)
      ensures |deletes| == |batch| && Reports(store, tag, claims, online)
      ensures forall c :: c in claims ==> c.key in KeySet(tag, batch)
      ensures forall i :: 0 <= i < |batch| ==> Collected(store, batch[i], deletes[i], claims, healthy)
      ensures Untracked(store, batch, untracked, healthy)
    {
      online, deletes, claims, untracked := [], [], [], {};
      for i := 0 to |batch|
        invariant |deletes| == i && Reports(store, tag, claims, online)
        invariant forall c :: c in claims ==> c.key in KeySet(tag, batch[..i])
        invariant CollectedSoFar(store, batch, deletes, claims, healthy)
        invariant Untracked(store, batch[..i], untracked, healthy)
      {
        ghost var key := KeyOf(tag, batch[i]);
        assert Read(store, batch[i], hashes[i], healthy);
        var more, fields, quiet; ghost var found;
        more, fields, found, quiet := CollectOne(hashes[i], batch[i], store, healthy);
        assert key !in KeySet(tag, batch[..i]);
        ReportsConcat(store, tag, claims, online, found, more);
        CollectedMore(store, batch, deletes, claims, fields, found, healthy);
        online, claims, deletes := online + more, claims + found, deletes + [fields];
        KeySetMore(batch, i);
        UntrackedMore(store, batch, i, untracked, quiet, healthy);
        if quiet { untracked := untracked + {batch[i]}; }
      }
      assert batch[..|batch|] == batch;
    }

    method DeleteBatch(redis: Redis, batch: seq<string>, deletes: seq<set<string>>, ghost claims: seq<Claim>)
      requires DistinctKeys(batch) && |deletes| == |batch|
      requires forall i :: 0 <= i < |batch| ==> Collected(redis.store, batch[i], deletes[i], claims, redis.healthy)
      modifies redis`store
      ensures forall e :: e in batch ==>
        SweptKey(old(redis.store), redis.store, tag, KeyOf(tag, e), claims, redis.healthy)
      ensures forall k :: k !in KeySet(tag, batch) ==> HashAt(redis.store, k) == HashAt(old(redis.store), k)
    {
      ghost var before := redis.store;
      for i := 0 to |batch|
        invariant forall m :: 0 <= m < i ==>
          SweptKey(before, redis.store, tag, KeyOf(tag, batch[m]), claims, redis.healthy)
        invariant forall k :: k !in KeySet(tag, batch[..i]) ==> HashAt(redis.store, k) == HashAt(before, k)
      {
        ghost var key, mid := KeyOf(tag, batch[i]), redis.store;
        assert key !in KeySet(tag, batch[..i]);
        assert Collected(before, batch[i], deletes[i], claims, redis.healthy);
        if deletes[i] != {} {
          redis.DeleteFields(KeyOf(tag, batch[i]), deletes[i]);
        }
        assert SweptKey(before, redis.store, tag, key, claims, redis.healthy);
        forall m | 0 <= m < i
          ensures SweptKey(before, redis.store, tag, KeyOf(tag, batch[m]), claims, redis.healthy)
        {
          assert SweptKey(before, mid, tag, KeyOf(tag, batch[m]), claims, redis.healthy);
          assert HashAt(redis.store, KeyOf(tag, batch[m])) == HashAt(mid, KeyOf(tag, batch[m]));
        }
        KeySetMore(batch, i);
      }
      assert batch[..|batch|] == batch;
    }

    /** One pipelined round: read every hash of the batch, then claim, then delete what was claimed. */
    method SweepBatch(redis: Redis, batch: seq<string>)
      returns (online: seq<OnlineIP>, ghost claims: seq<Claim>, untracked: set<string>)
      requires DistinctKeys(batch)
      modifies redis`store
      ensures Progress(old(redis.store), redis.store, batch, claims, online, untracked, redis.healthy)
    {
      var hashes := ReadBatch(redis, batch);
      var deletes;
      online, deletes, claims, untracked := CollectBatch(batch, hashes, redis.store, redis.healthy);
      DeleteBatch(redis, batch, deletes, claims);
    }

    /**
     The whole sweep of this node, in batches.  With a healthy store its reports
     and its effect are those of visiting the subscriptions one by one in any
     order; with a failing one it still deletes nothing it does not report.
     */
    method GetOnlineIPs(redis: Redis) returns (online: seq<OnlineIP>, ghost claims: seq<Claim>)
      requires Valid()
      modifies redis`store, this`buckets
      ensures Reports(old(redis.store), tag, claims, online)
      ensures forall key, f :: f in HashAt(old(redis.store), key) && f !in HashAt(redis.store, key) ==>
        Owns(tag, f) && Claim(key, f) in claims
      ensures forall key, f :: f in HashAt(redis.store, key) ==>
        f in HashAt(old(redis.store), key) && HashAt(redis.store, key)[f] == HashAt(old(redis.store), key)[f]
      ensures redis.healthy ==>
        SameAsSweepEach(old(redis.store), redis.store, set e | e in subscriptions :: KeyOf(tag, e), claims)
      ensures forall o :: o in online ==> StoredFor(old(redis.store), o)
      ensures redis.healthy ==> forall e :: e in subscriptions ==>
                TellsAll(HashAt(old(redis.store), KeyOf(tag, e)), HashAt(redis.store, KeyOf(tag, e)), tag, online)
      ensures forall e :: e in old(buckets) && e !in buckets ==>
        e in subscriptions && HashAt(old(redis.store), KeyOf(tag, e)) == map[]
      ensures redis.healthy ==> forall e :: e in buckets <==>
        e in old(buckets) && !(e in subscriptions && HashAt(old(redis.store), KeyOf(tag, e)) == map[])
    {
      var targets := Targets();
      ghost var before := redis.store;
      var untracked: set<string> := {};
      online, claims := [], [];
      var start := 0;
      while start < |targets|
        invariant 0 <= start <= |targets| && buckets == old(buckets)
        invariant Progress(before, redis.store, targets[..start], claims, online, untracked, redis.healthy)
      {
        var end := if start + REDIS_BATCH_SIZE < |targets| then start + REDIS_BATCH_SIZE else |targets|;
        var batch := targets[start..end];
        ghost var mid := redis.store;
        var more, quiet; ghost var found;
        more, found, quiet := SweepBatch(redis, batch);
        ProgressMore(before, mid, redis.store, targets, start, end, claims, online, untracked, found, more, quiet,
                     redis.healthy);
        online, claims, untracked := online + more, claims + found, untracked + quiet;
        start := end;
      }
      assert targets[..start] == targets;
      SweptWhole(before, redis.store, targets, claims, online, redis.healthy);
      SweptIsTold(before, redis.store, targets, claims, online, redis.healthy);
      DropBuckets(untracked, before, targets, redis.healthy);
    }

    /** The last loop of the sweep: rate buckets of current subscriptions Redis holds nothing for. */
    method DropBuckets(untracked: set<string>, ghost store: map<string, Hash>, ghost targets: seq<string>,
                       ghost healthy: bool)
      requires Untracked(store, targets, untracked, healthy) && forall e :: e in targets <==> e in subscriptions
      modifies this`buckets
      ensures forall e :: e in old(buckets) && e !in buckets ==>
        e in subscriptions && HashAt(store, KeyOf(tag, e)) == map[]
      ensures healthy ==> forall e :: e in buckets <==>
        e in old(buckets) && !(e in subscriptions && HashAt(store, KeyOf(tag, e)) == map[])
    {
      var todo := buckets;
      while todo != {}
        invariant todo <= buckets
        invariant buckets == set e | e in old(buckets) && (e in todo || !(e in subscriptions && e in untracked))
        decreases |todo|
      {
        var e :| e in todo;
        todo := todo - {e};
        if e in subscriptions && e in untracked { buckets := buckets - {e}; }
      }
    }

    /** The snapshot of subscription keys taken before the sweep, in any order. */
    method Targets() returns (targets: seq<string>)
      requires Valid()
      ensures (forall e :: e in targets <==> e in subscriptions) && DistinctKeys(targets)
    {
      targets := [];
      var todo := subscriptions.Keys;
      while todo != {}
        invariant todo <= subscriptions.Keys && NoDup(targets)
        invariant forall e :: e in targets <==> e in subscriptions && e !in todo
        decreases |todo|
      {
        var e :| e in todo;
        targets, todo := targets + [e], todo - {e};
      }
      forall i, j | 0 <= i < j < |targets| ensures KeyOf(tag, targets[i]) != KeyOf(tag, targets[j]) {
        assert targets[i] in subscriptions && targets[j] in subscriptions;
        if KeyOf(tag, targets[i]) == KeyOf(tag, targets[j]) { KeyInjective(tag, targets[i], targets[j]); }
      }
    }

    ghost predicate SweptSoFar(before: map<string, Hash>, after: map<string, Hash>, done: seq<string>,
                               claims: seq<Claim>, healthy: bool) {
      && (forall e :: e in done ==> SweptKey(before, after, tag, KeyOf(tag, e), claims, healthy))
      && (forall c :: c in claims ==> c.key in KeySet(tag, done))
      && (forall k :: k !in KeySet(tag, done) ==> HashAt(after, k) == HashAt(before, k))
    }

    ghost predicate Progress(before: map<string, Hash>, after: map<string, Hash>, done: seq<string>, claims: seq<Claim>,
                             online: seq<OnlineIP>, untracked: set<string>, healthy: bool) {
      && SweptSoFar(before, after, done, claims, healthy)
      && Reports(before, tag, claims, online)
      && Untracked(before, done, untracked, healthy)
    }

    lemma KeysDisjoint(targets: seq<string>, start: nat, end: nat)
      requires DistinctKeys(targets) && start <= end <= |targets|
      ensures KeySet(tag, targets[..start]) !! KeySet(tag, targets[start..end])
      ensures KeySet(tag, targets[..end]) == KeySet(tag, targets[..start]) + KeySet(tag, targets[start..end])
    {
      var a, b := targets[..start], targets[start..end];
      assert targets[..end] == a + b;
      KeySetConcat(tag, a, b);
      forall k | k in KeySet(tag, a) ensures k !in KeySet(tag, b) {
        var d :| d in a && KeyOf(tag, d) == k;
        KeyOnlyBefore(targets, start, end, d);
      }
    }

    lemma KeyOnlyBefore(targets: seq<string>, start: nat, end: nat, d: string)
      requires DistinctKeys(targets) && start <= end <= |targets| && d in targets[..start]
      ensures KeyOf(tag, d) !in KeySet(tag, targets[start..end])
    {
      var i :| 0 <= i < start && targets[i] == d;
      forall e | e in targets[start..end] ensures KeyOf(tag, d) != KeyOf(tag, e) {
        var j :| start <= j < end && targets[j] == e;
        assert KeyOf(tag, targets[i]) != KeyOf(tag, targets[j]);
      }
    }

    lemma SweptMore(before: map<string, Hash>, mid: map<string, Hash>, after: map<string, Hash>, a: seq<string>,
                    b: seq<string>, claims: seq<Claim>, found: seq<Claim>, healthy: bool)
      requires KeySet(tag, a) !! KeySet(tag, b) && KeySet(tag, a + b) == KeySet(tag, a) + KeySet(tag, b)
      requires SweptSoFar(before, mid, a, claims, healthy) && SweptSoFar(mid, after, b, found, healthy)
      ensures SweptSoFar(before, after, a + b, claims + found, healthy)
      ensures SameOnKeys(mid, before, KeySet(tag, b))
    {
      forall e | e in a + b ensures SweptKey(before, after, tag, KeyOf(tag, e), claims + found, healthy) {
        var key := KeyOf(tag, e);
        if e in a {
          assert key in KeySet(tag, a);
          assert SweptKey(before, mid, tag, key, claims, healthy);
        } else {
          assert key in KeySet(tag, b);
          assert SweptKey(mid, after, tag, key, found, healthy);
        }
      }
    }

    lemma ProgressMore(before: map<string, Hash>, mid: map<string, Hash>, after: map<string, Hash>,
                       targets: seq<string>,
                       start: nat, end: nat, claims: seq<Claim>, online: seq<OnlineIP>, untracked: set<string>,
                       found: seq<Claim>, more: seq<OnlineIP>, quiet: set<string>, healthy: bool)
      requires DistinctKeys(targets) && start <= end <= |targets|
      requires Progress(before, mid, targets[..start], claims, online, untracked, healthy)
      requires Progress(mid, after, targets[start..end], found, more, quiet, healthy)
      ensures Progress(before, after, targets[..end], claims + found, online + more, untracked + quiet, healthy)
    {
      var a, b := targets[..start], targets[start..end];
      assert targets[..end] == a + b;
      KeysDisjoint(targets, start, end);
      SweptMore(before, mid, after, a, b, claims, found, healthy);
      ReportsElsewhere(mid, before, tag, KeySet(tag, b), found, more);
      forall c | c in claims ensures c !in found {
        assert c.key in KeySet(tag, a) && c.key !in KeySet(tag, b);
      }
      ReportsConcat(before, tag, claims, online, found, more);
      forall e | e in b ensures HashAt(before, KeyOf(tag, e)) == HashAt(mid, KeyOf(tag, e)) {
        assert KeyOf(tag, e) in KeySet(tag, b);
      }
    }

    /** Every order of one-by-one visits gives these claims and these hashes. */
    ghost predicate SameAsSweepEach(before: map<string, Hash>, after: map<string, Hash>, keys: set<string>,
                                    claims: seq<Claim>) {
      forall order: seq<string> :: NoDup(order) && (set k | k in order) == keys ==>
        SameAsOrder(before, after, order, claims)
    }

    ghost predicate SameAsOrder(before: map<string, Hash>, after: map<string, Hash>, order: seq<string>,
                                claims: seq<Claim>) {
      && SweepEach(before, order, tag).0 == (set c | c in claims)
      && forall key :: HashAt(SweepEach(before, order, tag).1, key) == HashAt(after, key)
    }

    lemma ClaimsClosed(before: map<string, Hash>, after: map<string, Hash>, targets: seq<string>,
                       claims: seq<Claim>, online: seq<OnlineIP>)
      requires SweptSoFar(before, after, targets, claims, true) && Reports(before, tag, claims, online)
      ensures (set c | c in claims) == AllClaims(before, KeySet(tag, targets), tag)
    {
      var all := AllClaims(before, KeySet(tag, targets), tag);
      forall c | c in claims ensures c in all {
        var i :| 0 <= i < |claims| && claims[i] == c;
        assert ReportsOne(before, tag, claims[i], online[i]);
      }
      forall c | c in all ensures c in claims {
        var e :| e in targets && KeyOf(tag, e) == c.key;
        assert SweptKey(before, after, tag, KeyOf(tag, e), claims, true);
      }
    }

    lemma SweptAtKey(before: map<string, Hash>, after: map<string, Hash>, targets: seq<string>,
                     claims: seq<Claim>, healthy: bool, key: string)
      requires SweptSoFar(before, after, targets, claims, healthy)
      ensures if key in KeySet(tag, targets) then SweptKey(before, after, tag, key, claims, healthy)
              else HashAt(after, key) == HashAt(before, key)
    {
      if key in KeySet(tag, targets) {
        var e :| e in targets && KeyOf(tag, e) == key;
      }
    }

    lemma SweptInOrder(before: map<string, Hash>, after: map<string, Hash>, targets: seq<string>,
                       claims: seq<Claim>, online: seq<OnlineIP>, order: seq<string>)
      requires SweptSoFar(before, after, targets, claims, true) && Reports(before, tag, claims, online)
      requires NoDup(order) && (set k | k in order) == KeySet(tag, targets)
      ensures SameAsOrder(before, after, order, claims)
    {
      ClaimsClosed(before, after, targets, claims, online);
      SweepEachClosed(before, order, tag);
      forall key ensures HashAt(SweepEach(before, order, tag).1, key) == HashAt(after, key) {
        SweptAtKey(before, after, targets, claims, true, key);
        assert key in order <==> key in (set k | k in order);
      }
    }

    lemma SweptWhole(before: map<string, Hash>, after: map<string, Hash>, targets: seq<string>,
                     claims: seq<Claim>, online: seq<OnlineIP>, healthy: bool)
      requires forall e :: e in targets <==> e in subscriptions
      requires SweptSoFar(before, after, targets, claims, healthy) && Reports(before, tag, claims, online)
      ensures forall key, f :: f in HashAt(before, key) && f !in HashAt(after, key) ==>
        Owns(tag, f) && Claim(key, f) in claims
      ensures forall key, f :: f in HashAt(after, key) ==>
        f in HashAt(before, key) && HashAt(after, key)[f] == HashAt(before, key)[f]
      ensures healthy ==> SameAsSweepEach(before, after, set e | e in subscriptions :: KeyOf(tag, e), claims)
    {
      forall key, f | f in HashAt(before, key) && f !in HashAt(after, key)
        ensures Owns(tag, f) && Claim(key, f) in claims
      {
        SweptAtKey(before, after, targets, claims, healthy, key);
      }
      forall key, f | f in HashAt(after, key)
        ensures f in HashAt(before, key) && HashAt(after, key)[f] == HashAt(before, key)[f]
      {
        SweptAtKey(before, after, targets, claims, healthy, key);
      }
      if healthy {
        assert (set e | e in subscriptions :: KeyOf(tag, e)) == KeySet(tag, targets);
        forall order: seq<string> | NoDup(order) && (set k | k in order) == KeySet(tag, targets)
          ensures SameAsOrder(before, after, order, claims)
        {
          SweptInOrder(before, after, targets, claims, online, order);
        }
      }
    }

    /** Some current subscription has the address of this record in its hash, under this node and that number. */
    ghost predicate StoredFor(store: map<string, Hash>, o: OnlineIP)
      reads this
    {
      exists e :: e in subscriptions && Stores(HashAt(store, KeyOf(tag, e)), o.ip, tag, o.id)
    }

    lemma SweptIsTold(before: map<string, Hash>, after: map<string, Hash>, targets: seq<string>,
                      claims: seq<Claim>, online: seq<OnlineIP>, healthy: bool)
      requires forall e :: e in targets <==> e in subscriptions
      requires SweptSoFar(before, after, targets, claims, healthy) && Reports(before, tag, claims, online)
      ensures forall o :: o in online ==> StoredFor(before, o)
      ensures healthy ==> forall e :: e in subscriptions ==>
                TellsAll(HashAt(before, KeyOf(tag, e)), HashAt(after, KeyOf(tag, e)), tag, online)
    {
      forall o | o in online ensures StoredFor(before, o) {
        var i :| 0 <= i < |online| && online[i] == o;
        ToldWasStored(before, tag, claims, online, i);
        assert claims[i] in claims;
        var e :| e in targets && KeyOf(tag, e) == claims[i].key;
      }
      if healthy {
        forall e | e in subscriptions
          ensures TellsAll(HashAt(before, KeyOf(tag, e)), HashAt(after, KeyOf(tag, e)), tag, online)
        {
          assert SweptKey(before, after, tag, KeyOf(tag, e), claims, healthy);
          ClaimsAreTold(before, tag, KeyOf(tag, e), claims, online);
        }
      }
    }

    ghost predicate DistinctKeys(batch: seq<string>) {
      forall i, j :: 0 <= i < j < |batch| ==> KeyOf(tag, batch[i]) != KeyOf(tag, batch[j])
    }

    ghost predicate Read(store: map<string, Hash>, email: string, hash: Option<Hash>, healthy: bool) {
      && (hash.Some? ==> hash.value == HashAt(store, KeyOf(tag, email)))
      && (healthy ==> hash.Some?)
    }

    /** What one batch element contributed: nothing, or its whole claim. */
    ghost predicate Collected(store: map<string, Hash>, email: string, fields: set<string>,
                              claims: seq<Claim>, healthy: bool) {
      var claimed := Claimed(HashAt(store, KeyOf(tag, email)), tag);
      && (fields == {} || fields == claimed)
      && (healthy ==> fields == claimed)
      && (forall f :: f in fields ==> Claim(KeyOf(tag, email), f) in claims)
    }

    ghost predicate CollectedSoFar(store: map<string, Hash>, batch: seq<string>, deletes: seq<set<string>>,
                                   claims: seq<Claim>, healthy: bool) {
      |deletes| <= |batch| && forall m :: 0 <= m < |deletes| ==> Collected(store, batch[m], deletes[m], claims, healthy)
    }

    lemma CollectedMore(store: map<string, Hash>, batch: seq<string>, deletes: seq<set<string>>, claims: seq<Claim>,
                        fields: set<string>, found: seq<Claim>, healthy: bool)
      requires |deletes| < |batch| && CollectedSoFar(store, batch, deletes, claims, healthy)
      requires Collected(store, batch[|deletes|], fields, found, healthy)
      ensures CollectedSoFar(store, batch, deletes + [fields], claims + found, healthy)
    {
      forall m | 0 <= m < |deletes| ensures Collected(store, batch[m], deletes[m], claims + found, healthy) {
        assert Collected(store, batch[m], deletes[m], claims, healthy);
      }
    }

    /** Only subscriptions whose hash was read as empty, and with a healthy store all of them. */
    ghost predicate Untracked(store: map<string, Hash>, batch: seq<string>, untracked: set<string>, healthy: bool) {
      && (forall e :: e in untracked ==> e in batch && HashAt(store, KeyOf(tag, e)) == map[])
      && (healthy ==> forall e :: e in batch && HashAt(store, KeyOf(tag, e)) == map[] ==> e in untracked)
    }

    lemma UntrackedMore(store: map<string, Hash>, batch: seq<string>, i: nat, untracked: set<string>, quiet: bool,
                        healthy: bool)
      requires i < |batch| && Untracked(store, batch[..i], untracked, healthy)
      requires quiet ==> HashAt(store, KeyOf(tag, batch[i])) == map[]
      requires healthy && HashAt(store, KeyOf(tag, batch[i])) == map[] ==> quiet
      ensures Untracked(store, batch[..i + 1], if quiet then untracked + {batch[i]} else untracked, healthy)
    {
      assert batch[..i + 1] == batch[..i] + [batch[i]];
    }

    lemma KeySetMore(batch: seq<string>, i: nat)
      requires i < |batch|
      ensures KeySet(tag, batch[..i + 1]) == KeySet(tag, batch[..i]) + {KeyOf(tag, batch[i])}
    {
      assert batch[..i + 1] == batch[..i] + [batch[i]];
    }
  }
}
