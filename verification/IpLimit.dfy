/**
 The distributed address limit (limiter/limiter.go).  Every node records the
 addresses of a subscription in one shared Redis hash, through a script that is
 atomic, and clears its own fields in a sweep that is not: it reads, reports and
 deletes in separate steps, between which other nodes, new connections and
 expiry go on.
 */
module IpLimit {
  import opened Commons

  /** What a hash field holds: the decimal id the script writes, or anything strconv.Atoi refuses. */
  datatype Value = Uid(id: int) | Unparsable

  type Hash = map<string, Value>

  // ---------------------------------------------------------------- field names

  const SEP := '|'

  function IpField(ip: string, tag: string): string { ip + [SEP] + tag }

  predicate HasSuffix(s: string, suffix: string) {
    |suffix| <= |s| && s[|s| - |suffix|..] == suffix
  }

  function TrimSuffix(s: string, suffix: string): string {
    if HasSuffix(s, suffix) then s[..|s| - |suffix|] else s
  }

  /** The suffix test of GetOnlineIPs. */
  predicate Owns(tag: string, field: string) { HasSuffix(field, [SEP] + tag) }

  /** The capture of the Lua pattern ^(.+)|[^|]*$, scanning back for the last separator. */
  function ScriptAddr(field: string): Option<string>
    decreases |field|
  {
    if field == [] then None
    else
      var n := |field| - 1;
      if field[n] == SEP then (if n > 0 then Some(field[..n]) else None)
      else ScriptAddr(field[..n])
  }

  /** What that pattern means: a non-empty part, a separator and a rest without one. */
  ghost predicate Matches(field: string, addr: string, rest: string) {
    addr != [] && SEP !in rest && field == addr + [SEP] + rest
  }

  lemma {:induction false} ScriptAddrMatches(field: string)
    ensures ScriptAddr(field).Some? ==>
      var addr := ScriptAddr(field).value;
      |addr| < |field| && Matches(field, addr, field[|addr| + 1..])
    decreases |field|
  {
    if field != [] && field[|field| - 1] != SEP {
      var init := field[..|field| - 1];
      ScriptAddrMatches(init);
      if ScriptAddr(init).Some? {
        var addr := ScriptAddr(init).value;
        assert field[|addr| + 1..] == init[|addr| + 1..] + [field[|field| - 1]];
      }
    }
  }

  /** The script finds the match whenever there is one, so the capture is the unique one. */
  lemma {:induction false} MatchesScriptAddr(field: string, addr: string, rest: string)
    requires Matches(field, addr, rest)
    ensures ScriptAddr(field) == Some(addr)
    decreases |rest|
  {
    var n := |field| - 1;
    if rest == [] {
      assert field[..n] == addr;
    } else {
      var init := rest[..|rest| - 1];
      assert rest == init + [rest[|rest| - 1]];
      assert field[n] == rest[|rest| - 1] && field[..n] == addr + [SEP] + init;
      MatchesScriptAddr(field[..n], addr, init);
    }
  }

  /** The script recovers the address a node recorded exactly when the node's tag has no separator. */
  lemma AddrRecoveredIff(ip: string, tag: string)
    requires ip != []
    ensures ScriptAddr(IpField(ip, tag)) == Some(ip) <==> SEP !in tag
  {
    var field := IpField(ip, tag);
    if SEP !in tag {
      MatchesScriptAddr(field, ip, tag);
    } else {
      ScriptAddrMatches(field);
      assert field[|ip| + 1..] == tag;
    }
  }

  /** A suffix reaching past the node's tag takes the separator in; a shorter one leaves it inside the tag. */
  lemma OtherLengthHasSep(ip: string, tag: string, mine: string)
    requires Owns(mine, IpField(ip, tag)) && |tag| != |mine|
    ensures SEP in mine + tag
  {
    var field := IpField(ip, tag);
    var at := |field| - |mine| - 1;
    if |mine| > |tag| {
      assert mine[|ip| - at - 1] == field[at..][|ip| - at] == SEP;
    } else {
      assert tag[at - |ip| - 1] == field[at..][0] == SEP;
    }
  }

  /** The sweep claims a field exactly when it carries the node's own tag. */
  lemma OwnsIffOwnTag(ip: string, tag: string, mine: string)
    requires SEP !in tag && SEP !in mine
    ensures Owns(mine, IpField(ip, tag)) <==> tag == mine
  {
    var field := IpField(ip, tag);
    if |tag| != |mine| {
      if Owns(mine, field) { OtherLengthHasSep(ip, tag, mine); }
    } else {
      assert field[|ip|..] == [SEP] + tag;
      assert ([SEP] + tag)[1..] == tag && ([SEP] + mine)[1..] == mine;
    }
  }

  /** On every field the sweep claims, trimming and the script's match name the same address. */
  lemma ParsersAgree(field: string, tag: string)
    requires SEP !in tag && Owns(tag, field) && |field| > |tag| + 1
    ensures ScriptAddr(field) == Some(TrimSuffix(field, [SEP] + tag))
    ensures field == IpField(TrimSuffix(field, [SEP] + tag), tag)
  {
    var ip := TrimSuffix(field, [SEP] + tag);
    assert field == ip + [SEP] + tag by {
      assert field == ip + field[|ip|..];
      assert ip + ([SEP] + tag) == ip + [SEP] + tag;
    }
    MatchesScriptAddr(field, ip, tag);
  }

  // ---------------------------------------------------------------- the script

  /** The distinct addresses a hash holds, over all nodes. */
  function Addresses(hash: Hash): set<string> {
    set f | f in hash && ScriptAddr(f).Some? :: ScriptAddr(f).value
  }

  /** An address is held exactly when some field is that address, a separator, and a rest without one. */
  lemma AddressesAre(hash: Hash, addr: string)
    ensures addr in Addresses(hash) <==> exists field, rest :: field in hash && Matches(field, addr, rest)
  {
    if addr in Addresses(hash) {
      var field :| field in hash && ScriptAddr(field) == Some(addr);
      ScriptAddrMatches(field);
      assert Matches(field, addr, field[|addr| + 1..]);
    }
    forall field, rest | field in hash && Matches(field, addr, rest) ensures addr in Addresses(hash) {
      MatchesScriptAddr(field, addr, rest);
    }
  }

  /** One atomic run of ipLimitScript: the hash afterwards and whether the connection is rejected. */
  function RunScript(hash: Hash, field: string, value: Value, limit: int, ip: string): (Hash, bool) {
    if field !in hash && limit > 0 && |Addresses(hash)| >= limit && ip !in Addresses(hash)
    then (hash, true)
    else (hash[field := value], false)
  }

  lemma SubsetCount<T>(a: set<T>, b: set<T>)
    requires a <= b
    ensures |a| <= |b|
  {
    assert b == a + (b - a);
  }

  lemma RecordedAddresses(hash: Hash, ip: string, tag: string, value: Value)
    requires ip != [] && SEP !in tag
    ensures Addresses(hash[IpField(ip, tag) := value]) == Addresses(hash) + {ip}
  {
    var field := IpField(ip, tag);
    AddrRecoveredIff(ip, tag);
    var after := hash[field := value];
    forall a | a in Addresses(hash) + {ip} ensures a in Addresses(after) {
      if a == ip {
        assert field in after;
      } else {
        var f :| f in hash && ScriptAddr(f) == Some(a);
        assert f in after;
      }
    }
  }

  /** The limit: no run of the script leaves more distinct addresses than the larger of before and the limit. */
  lemma ScriptBound(hash: Hash, ip: string, tag: string, value: Value, limit: int)
    requires ip != [] && SEP !in tag && limit > 0
    ensures var (after, rejected) := RunScript(hash, IpField(ip, tag), value, limit, ip);
            |Addresses(after)| <= (if |Addresses(hash)| > limit then |Addresses(hash)| else limit)
  {
    RecordedAddresses(hash, ip, tag, value);
    var field := IpField(ip, tag);
    if field in hash {
      AddrRecoveredIff(ip, tag);
      assert ip in Addresses(hash);
      assert Addresses(hash) + {ip} == Addresses(hash);
    } else if ip in Addresses(hash) {
      assert Addresses(hash) + {ip} == Addresses(hash);
    }
  }

  /**
   A connection is rejected exactly when the limit is on, it is reached, and the
   address is new to the hash; then nothing changes.  Otherwise it is recorded
   under its own node and nothing else changes.
   */
  lemma ScriptDecision(hash: Hash, ip: string, tag: string, value: Value, limit: int)
    requires ip != [] && SEP !in tag
    ensures var (after, rejected) := RunScript(hash, IpField(ip, tag), value, limit, ip);
            && (rejected <==> limit > 0 && |Addresses(hash)| >= limit && ip !in Addresses(hash))
            && (rejected ==> after == hash)
            && (!rejected ==> after == hash[IpField(ip, tag) := value] && ip in Addresses(after))
  {
    AddrRecoveredIff(ip, tag);
    RecordedAddresses(hash, ip, tag, value);
    assert IpField(ip, tag) in hash ==> ip in Addresses(hash);
  }

  // ---------------------------------------------------------------- many nodes

  datatype Claim = Claim(key: string, field: string)

  /** A sweep in progress on one node: what it put in its report, and what it still means to delete. */
  datatype Sweep = Sweep(report: set<Claim>, toDelete: set<Claim>)

  /** `expiries` and `outbox` are histories: keys that expired, reports that were handed over. */
  datatype World = World(store: map<string, Hash>, sweeps: map<string, Sweep>,
                         expiries: seq<string>, outbox: seq<set<Claim>>)

  datatype Event =
    | Connect(tag: string, key: string, ip: string, value: Value)
    | BeginSweep(tag: string)
    | ReadHash(tag: string, key: string)
    | DeleteClaimed(tag: string, key: string)   // leaving it out models a failed delete
    | EndSweep(tag: string)
    | Expire(key: string)

  const EMPTY := World(map[], map[], [], [])

  function HashAt(store: map<string, Hash>, key: string): Hash {
    if key in store then store[key] else map[]
  }

  /** The fields of a hash that a sweep by `tag` reports and deletes. */
  function Claimed(hash: Hash, tag: string): set<string> {
    set f | f in hash && Owns(tag, f) && hash[f].Uid?
  }

  /** The hash holds the address `ip`, recorded by the node of this tag for subscription `id`. */
  ghost predicate Stores(hash: Hash, ip: string, tag: string, id: int) {
    IpField(ip, tag) in hash && hash[IpField(ip, tag)] == Uid(id)
  }

  /** A sweep claims what its own node recorded with a readable number: all of it, whatever the address looks like. */
  lemma ClaimedMeans(hash: Hash, tag: string, field: string)
    ensures field in Claimed(hash, tag) <==> exists ip, id :: field == IpField(ip, tag) && Stores(hash, ip, tag, id)
  {
    if field in Claimed(hash, tag) {
      var ip := field[..|field| - |tag| - 1];
      assert field == ip + field[|ip|..] && ip + ([SEP] + tag) == IpField(ip, tag);
      assert Stores(hash, ip, tag, hash[field].id);
    }
    forall ip, id | field == IpField(ip, tag) && Stores(hash, ip, tag, id) ensures field in Claimed(hash, tag) {
      assert field[|ip|..] == [SEP] + tag;
    }
  }

  function ClaimsAt(hash: Hash, key: string, tag: string): set<Claim> {
    set f | f in Claimed(hash, tag) :: Claim(key, f)
  }

  function FieldsOf(claims: set<Claim>, key: string): set<string> {
    set c | c in claims && c.key == key :: c.field
  }

  /** One step of the system; `limits` is each subscription's limit, 0 for none. */
  function Step(w: World, limits: string -> int, e: Event): World {
    match e
    case Connect(tag, key, ip, value) =>
      var (hash, _) := RunScript(HashAt(w.store, key), IpField(ip, tag), value, limits(key), ip);
      w.(store := w.store[key := hash])
    case BeginSweep(tag) =>
      if tag in w.sweeps then w else w.(sweeps := w.sweeps[tag := Sweep({}, {})])
    case ReadHash(tag, key) =>
      if tag !in w.sweeps then w else
      var claims := ClaimsAt(HashAt(w.store, key), key, tag);
      var s := w.sweeps[tag];
      w.(sweeps := w.sweeps[tag := Sweep(s.report + claims, s.toDelete + claims)])
    case DeleteClaimed(tag, key) =>
      if tag !in w.sweeps then w else
      var s := w.sweeps[tag];
      w.(store := w.store[key := HashAt(w.store, key) - FieldsOf(s.toDelete, key)],
         sweeps := w.sweeps[tag := s.(toDelete := set c | c in s.toDelete && c.key != key)])
    case EndSweep(tag) =>
      if tag !in w.sweeps then w
      else w.(sweeps := w.sweeps - {tag}, outbox := w.outbox + [w.sweeps[tag].report])
    case Expire(key) =>
      w.(store := w.store - {key}, expiries := w.expiries + [key])
  }

  function Run(w: World, limits: string -> int, events: seq<Event>): World
    decreases |events|
  {
    if events == [] then w
    else Step(Run(w, limits, events[..|events| - 1]), limits, events[|events| - 1])
  }

  ghost predicate WellFormed(e: Event) {
    e.Connect? ==> e.ip != [] && SEP !in e.tag
  }

  lemma FewerFieldsFewerAddresses(a: Hash, b: Hash)
    requires a.Keys <= b.Keys
    ensures |Addresses(a)| <= |Addresses(b)|
  {
    forall x | x in Addresses(a) ensures x in Addresses(b) {
      var f :| f in a && ScriptAddr(f) == Some(x);
      assert f in b;
    }
    SubsetCount(Addresses(a), Addresses(b));
  }

  /** No step takes a subscription above the larger of its count before and its limit. */
  lemma StepBound(w: World, limits: string -> int, e: Event, key: string)
    requires WellFormed(e) && limits(key) > 0
    ensures var (before, after) :=
              (|Addresses(HashAt(w.store, key))|, |Addresses(HashAt(Step(w, limits, e).store, key))|);
            after <= (if before > limits(key) then before else limits(key))
  {
    var hash, hash' := HashAt(w.store, key), HashAt(Step(w, limits, e).store, key);
    if e.Connect? && e.key == key {
      ScriptBound(hash, e.ip, e.tag, e.value, limits(key));
    } else {
      assert hash'.Keys <= hash.Keys;
      FewerFieldsFewerAddresses(hash', hash);
    }
  }

  /** A constant limit bounds every reachable state, whatever the nodes do and however they interleave. */
  lemma {:induction false} LimitHolds(limits: string -> int, events: seq<Event>, key: string)
    requires limits(key) > 0 && forall e | e in events :: WellFormed(e)
    ensures |Addresses(HashAt(Run(EMPTY, limits, events).store, key))| <= limits(key)
    decreases |events|
  {
    if events == [] {
      assert Addresses(map[]) == {};
    } else {
      var init := events[..|events| - 1];
      LimitHolds(limits, init, key);
      StepBound(Run(EMPTY, limits, init), limits, events[|events| - 1], key);
    }
  }

  // ---------------------------------------------------------------- nothing is lost

  /** What a node means to delete is its own and already in its report. */
  ghost predicate ReportsFirst(tag: string, s: Sweep) {
    s.toDelete <= s.report && forall c :: c in s.toDelete ==> Owns(tag, c.field)
  }

  ghost predicate SweepsReportFirst(w: World) {
    forall tag :: tag in w.sweeps ==> ReportsFirst(tag, w.sweeps[tag])
  }

  lemma StepKeepsReportFirst(w: World, limits: string -> int, e: Event)
    requires SweepsReportFirst(w)
    ensures SweepsReportFirst(Step(w, limits, e))
  {
    var w' := Step(w, limits, e);
    forall tag | tag in w'.sweeps ensures ReportsFirst(tag, w'.sweeps[tag]) {
      if tag in w.sweeps { assert ReportsFirst(tag, w.sweeps[tag]); }
    }
  }

  lemma {:induction false} RunKeepsReportFirst(w: World, limits: string -> int, events: seq<Event>)
    requires SweepsReportFirst(w)
    ensures SweepsReportFirst(Run(w, limits, events))
    decreases |events|
  {
    if events != [] {
      RunKeepsReportFirst(w, limits, events[..|events| - 1]);
      StepKeepsReportFirst(Run(w, limits, events[..|events| - 1]), limits, events[|events| - 1]);
    }
  }

  /** A field leaves a hash only by expiry, or by a delete of the node it belongs to that has it in its open report. */
  lemma OnlyOwnReportedFieldsLeave(w: World, limits: string -> int, e: Event, key: string, field: string)
    requires SweepsReportFirst(w)
    requires field in HashAt(w.store, key) && field !in HashAt(Step(w, limits, e).store, key)
    ensures e == Expire(key)
         || (e.DeleteClaimed? && e.key == key && Owns(e.tag, field)
             && e.tag in w.sweeps && Claim(key, field) in w.sweeps[e.tag].report)
  {
    if e.DeleteClaimed? && e.tag in w.sweeps { assert ReportsFirst(e.tag, w.sweeps[e.tag]); }
  }

  /** Since `w0`, the claim is still stored, expired, in an open report, or in a report handed over. */
  ghost predicate Accounted(w0: World, w: World, c: Claim) {
    || c.field in HashAt(w.store, c.key)
    || (|w0.expiries| <= |w.expiries| && c.key in w.expiries[|w0.expiries|..])
    || (exists tag :: tag in w.sweeps && c in w.sweeps[tag].report)
    || (exists i :: |w0.outbox| <= i < |w.outbox| && c in w.outbox[i])
  }

  lemma StepKeepsAccounted(w0: World, w: World, limits: string -> int, e: Event, c: Claim)
    requires SweepsReportFirst(w) && Accounted(w0, w, c)
    requires |w0.expiries| <= |w.expiries| && |w0.outbox| <= |w.outbox|
    ensures Accounted(w0, Step(w, limits, e), c)
  {
    var w' := Step(w, limits, e);
    if c.field in HashAt(w.store, c.key) {
      if c.field !in HashAt(w'.store, c.key) {
        OnlyOwnReportedFieldsLeave(w, limits, e, c.key, c.field);
        if e.Expire? {
          assert w'.expiries[|w0.expiries|..] == w.expiries[|w0.expiries|..] + [c.key];
        } else {
          assert c in w'.sweeps[e.tag].report;
        }
      }
    } else if c.key in w.expiries[|w0.expiries|..] {
      assert w'.expiries[|w0.expiries|..][..|w.expiries| - |w0.expiries|] == w.expiries[|w0.expiries|..];
    } else if tag :| tag in w.sweeps && c in w.sweeps[tag].report {
      if e == EndSweep(tag) {
        assert c in w'.outbox[|w.outbox|];
      } else {
        assert tag in w'.sweeps && c in w'.sweeps[tag].report;
      }
    } else {
      var i :| |w0.outbox| <= i < |w.outbox| && c in w.outbox[i];
      assert w'.outbox[i] == w.outbox[i];
    }
  }

  /**
   No loss over every run: an address stored at some moment is, ever after, still
   stored, expired since, or in a report that was open or handed over since.
   */
  lemma {:induction false} NothingLost(w0: World, limits: string -> int, events: seq<Event>, c: Claim)
    requires SweepsReportFirst(w0) && c.field in HashAt(w0.store, c.key)
    ensures var w := Run(w0, limits, events);
            && |w0.expiries| <= |w.expiries| && |w0.outbox| <= |w.outbox|
            && Accounted(w0, w, c)
    decreases |events|
  {
    if events != [] {
      var init := events[..|events| - 1];
      NothingLost(w0, limits, init, c);
      RunKeepsReportFirst(w0, limits, init);
      StepKeepsAccounted(w0, Run(w0, limits, init), limits, events[|events| - 1], c);
    }
  }

  /** From the empty store: every admitted connection is accounted for in every later state. */
  lemma AdmittedNeverLost(limits: string -> int, before: seq<Event>, tag: string, key: string, ip: string,
                          value: Value, after: seq<Event>)
    requires !RunScript(HashAt(Run(EMPTY, limits, before).store, key), IpField(ip, tag), value, limits(key), ip).1
    ensures var w0 := Step(Run(EMPTY, limits, before), limits, Connect(tag, key, ip, value));
            Accounted(w0, Run(w0, limits, after), Claim(key, IpField(ip, tag)))
  {
    RunKeepsReportFirst(EMPTY, limits, before);
    var w0 := Step(Run(EMPTY, limits, before), limits, Connect(tag, key, ip, value));
    StepKeepsReportFirst(Run(EMPTY, limits, before), limits, Connect(tag, key, ip, value));
    NothingLost(w0, limits, after, Claim(key, IpField(ip, tag)));
  }
}
