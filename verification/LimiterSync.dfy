/**
 The limiter's map of subscriptions (limiter/limiter.go) and the diff that keeps
 it up to date (subscription/manager.go). After a poll the map must be the one a
 rebuild from the new list would give.
 */
module LimiterSync {
  import opened Api
  import opened Commons

  /** What the limiter stores for a subscription. */
  datatype Limits = Limits(id: int, speedLimit: nat, ipLimit: int)

  function LimitsOf(s: Subscription): Limits { Limits(s.id, s.speedLimit, s.ipLimit) }

  ghost predicate UniqueIds(list: seq<Subscription>) {
    forall i, j :: 0 <= i < j < |list| ==> list[i].id != list[j].id
  }

  ghost predicate UniqueEmails(list: seq<Subscription>) {
    forall s, t :: s in list && t in list && s.email == t.email ==> s == t
  }

  ghost predicate Proper(list: seq<Subscription>) { UniqueIds(list) && UniqueEmails(list) }

  // ----- The diff -----

  /** The map the source fills from a list: a later entry overwrites an earlier one of the same id. */
  function ById(list: seq<Subscription>): map<int, Subscription> {
    if list == [] then map[]
    else ById(list[..|list| - 1])[list[|list| - 1].id := list[|list| - 1]]
  }

  lemma {:induction false} ByIdFinds(list: seq<Subscription>, id: int)
    ensures id in ById(list) <==> exists s :: s in list && s.id == id
    ensures id in ById(list) ==> ById(list)[id] in list && ById(list)[id].id == id
    ensures UniqueIds(list) ==> forall s :: s in list && s.id == id ==> id in ById(list) && ById(list)[id] == s
  {
    if list != [] {
      var n := |list| - 1;
      ByIdFinds(list[..n], id);
      assert list == list[..n] + [list[n]];
    }
  }

  /** `out` lists the values of `m`, each once, in some order. */
  ghost predicate Lists(out: seq<Subscription>, m: map<int, Subscription>) {
    && UniqueIds(out)
    && forall s :: s in out <==> s.id in m && m[s.id] == s
  }

  ghost predicate KeyedById(m: map<int, Subscription>) {
    forall id :: id in m ==> m[id].id == id
  }

  lemma ListsMore(out: seq<Subscription>, m: map<int, Subscription>, s: Subscription)
    requires Lists(out, m) && s.id !in m
    ensures Lists(out + [s], m[s.id := s])
  {
    var more := out + [s];
    forall i, j | 0 <= i < j < |more| ensures more[i].id != more[j].id {
      assert more[i] in out;
    }
    forall t ensures t in more <==> t.id in m[s.id := s] && m[s.id := s][t.id] == t {
    }
  }

  predicate Differs(o: Subscription, n: Subscription) {
    o.speedLimit != n.speedLimit || o.ipLimit != n.ipLimit || o.uuid != n.uuid
  }

  function Gone(o: map<int, Subscription>, n: map<int, Subscription>): map<int, Subscription> { o - n.Keys }

  function Fresh(o: map<int, Subscription>, n: map<int, Subscription>): map<int, Subscription> { n - o.Keys }

  function Changed(o: map<int, Subscription>, n: map<int, Subscription>): map<int, Subscription> {
    map id | id in n && id in o && Differs(o[id], n[id]) :: n[id]
  }

  /** Visiting one more key of a map lists its entry, if it belongs to the part collected. */
  lemma CollectMore(out: seq<Subscription>, part: map<int, Subscription>, todo: set<int>, id: int)
    requires id in todo && Lists(out, part - todo) && KeyedById(part)
    ensures Lists(if id in part then out + [part[id]] else out, part - (todo - {id}))
  {
    if id in part {
      assert part - (todo - {id}) == (part - todo)[id := part[id]];
      ListsMore(out, part - todo, part[id]);
    } else {
      assert part - (todo - {id}) == part - todo;
    }
  }

  lemma SomeId(ids: set<int>)
    ensures ids == {} || exists id :: id in ids
  {
    if forall id :: id !in ids {
      assert ids == {};
    }
  }

  method FillById(list: seq<Subscription>) returns (m: map<int, Subscription>)
    ensures m == ById(list) && KeyedById(m)
  {
    m := map[];
    for i := 0 to |list|
      invariant m == ById(list[..i]) && KeyedById(m)
    {
      assert list[..i + 1][..i] == list[..i];
      m := m[list[i].id := list[i]];
    }
    assert list[..|list|] == list;
  }

  /** The first loop of the diff; the map is visited in any order. */
  method CollectGone(o: map<int, Subscription>, n: map<int, Subscription>) returns (deleted: seq<Subscription>)
    requires KeyedById(o)
    ensures Lists(deleted, Gone(o, n))
  {
    deleted := [];
    var todo := o.Keys;
    while todo != {}
      invariant todo <= o.Keys && Lists(deleted, Gone(o, n) - todo)
      decreases |todo|
    {
      SomeId(todo);
      var id :| id in todo;
      CollectMore(deleted, Gone(o, n), todo, id);
      if id !in n {
        deleted := deleted + [o[id]];
      }
      todo := todo - {id};
    }
    assert Gone(o, n) - {} == Gone(o, n);
  }

  /** What the second loop has found once only `todo` is left to visit. */
  ghost predicate NewSoFar(added: seq<Subscription>, modified: seq<Subscription>,
                           o: map<int, Subscription>, n: map<int, Subscription>, todo: set<int>)
  {
    Lists(added, Fresh(o, n) - todo) && Lists(modified, Changed(o, n) - todo)
  }

  lemma NewMore(added: seq<Subscription>, modified: seq<Subscription>,
                o: map<int, Subscription>, n: map<int, Subscription>, todo: set<int>, id: int)
    requires KeyedById(n) && id in todo && id in n && NewSoFar(added, modified, o, n, todo)
    ensures NewSoFar(if id in o then added else added + [n[id]],
                     if id in o && Differs(o[id], n[id]) then modified + [n[id]] else modified, o, n, todo - {id})
  {
    CollectMore(added, Fresh(o, n), todo, id);
    CollectMore(modified, Changed(o, n), todo, id);
  }

  /** The second loop. */
  method CollectNew(o: map<int, Subscription>, n: map<int, Subscription>)
    returns (added: seq<Subscription>, modified: seq<Subscription>)
    requires KeyedById(n)
    ensures Lists(added, Fresh(o, n)) && Lists(modified, Changed(o, n))
  {
    added, modified := [], [];
    var todo := n.Keys;
    while todo != {}
      invariant todo <= n.Keys && NewSoFar(added, modified, o, n, todo)
      decreases |todo|
    {
      SomeId(todo);
      var id :| id in todo;
      NewMore(added, modified, o, n, todo, id);
      if id !in o {
        added := added + [n[id]];
      } else if Differs(o[id], n[id]) {
        modified := modified + [n[id]];
      }
      todo := todo - {id};
    }
    assert Fresh(o, n) - {} == Fresh(o, n) && Changed(o, n) - {} == Changed(o, n);
  }

  /** A diff of two lists. */
  datatype Delta = Delta(deleted: seq<Subscription>, added: seq<Subscription>, modified: seq<Subscription>)

  ghost predicate Diff(o: seq<Subscription>, n: seq<Subscription>, d: Delta) {
    && Lists(d.deleted, Gone(ById(o), ById(n)))
    && Lists(d.added, Fresh(ById(o), ById(n)))
    && Lists(d.modified, Changed(ById(o), ById(n)))
  }

  method CompareSubscriptions(o: Option<seq<Subscription>>, n: Option<seq<Subscription>>)
    returns (deleted: seq<Subscription>, added: seq<Subscription>, modified: seq<Subscription>)
    ensures o.Some? && n.Some? ==> Diff(o.value, n.value, Delta(deleted, added, modified))
    ensures o.None? ==> deleted == [] && added == (if n.Some? then n.value else []) && modified == []
    ensures n.None? ==> deleted == (if o.Some? then o.value else []) && added == [] && modified == []
  {
    if o.None? && n.None? { return [], [], []; }
    if o.None? { return [], n.value, []; }
    if n.None? { return o.value, [], []; }
    var oldMap := FillById(o.value);
    var newMap := FillById(n.value);
    deleted := CollectGone(oldMap, newMap);
    added, modified := CollectNew(oldMap, newMap);
  }

  ghost predicate HasId(list: seq<Subscription>, id: int) {
    exists t :: t in list && t.id == id
  }

  /** What the diff holds, without its maps: each part is exactly the entries its name says. */
  lemma DiffMeans(o: seq<Subscription>, n: seq<Subscription>, d: Delta, s: Subscription)
    requires UniqueIds(o) && UniqueIds(n) && Diff(o, n, d)
    ensures s in d.deleted <==> s in o && !HasId(n, s.id)
    ensures s in d.added <==> s in n && !HasId(o, s.id)
    ensures s in d.modified <==>
            s in n && exists t :: t in o && t.id == s.id &&
                                  (t.speedLimit != s.speedLimit || t.ipLimit != s.ipLimit || t.uuid != s.uuid)
  {
    ByIdFinds(o, s.id);
    ByIdFinds(n, s.id);
    assert s in d.deleted <==> s.id in Gone(ById(o), ById(n)) && Gone(ById(o), ById(n))[s.id] == s;
    assert s in d.added <==> s.id in Fresh(ById(o), ById(n)) && Fresh(ById(o), ById(n))[s.id] == s;
    assert s in d.modified <==> s.id in Changed(ById(o), ById(n)) && Changed(ById(o), ById(n))[s.id] == s;
  }

  // ----- The maps of one inbound -----

  function KeySet(tag: string, list: seq<Subscription>): set<string> {
    set s | s in list :: BuildUserTag(tag, s.email)
  }

  lemma KeySetMore(tag: string, list: seq<Subscription>, i: nat)
    requires i < |list|
    ensures KeySet(tag, list[..i + 1]) == KeySet(tag, list[..i]) + {BuildUserTag(tag, list[i].email)}
  {
    assert list[..i + 1] == list[..i] + [list[i]];
  }

  /** Storing a list, entry by entry. */
  function Stored(m: map<string, Limits>, tag: string, list: seq<Subscription>): map<string, Limits> {
    if list == [] then m
    else Stored(m, tag, list[..|list| - 1])[BuildUserTag(tag, list[|list| - 1].email) := LimitsOf(list[|list| - 1])]
  }

  /** The limiter has this subscription, under its own key and with its own numbers. */
  ghost predicate Held(m: map<string, Limits>, tag: string, s: Subscription) {
    var key := tag + "_" + s.email;
    key in m && m[key].id == s.id && m[key].speedLimit == s.speedLimit && m[key].ipLimit == s.ipLimit
  }

  ghost predicate AllHeld(m: map<string, Limits>, tag: string, list: seq<Subscription>) {
    forall s :: s in list ==> Held(m, tag, s)
  }

  lemma {:induction false} StoredFinds(m: map<string, Limits>, tag: string, list: seq<Subscription>)
    ensures Stored(m, tag, list).Keys == m.Keys + KeySet(tag, list)
    ensures forall k :: k in m && k !in KeySet(tag, list) ==> Stored(m, tag, list)[k] == m[k]
    ensures UniqueEmails(list) ==>
              forall s :: s in list ==> Stored(m, tag, list)[BuildUserTag(tag, s.email)] == LimitsOf(s)
    ensures UniqueEmails(list) ==> AllHeld(Stored(m, tag, list), tag, list)
  {
    if list != [] {
      var n := |list| - 1;
      StoredFinds(m, tag, list[..n]);
      assert list == list[..n] + [list[n]];
      forall k ensures k in KeySet(tag, list) <==>
        k in KeySet(tag, list[..n]) || k == BuildUserTag(tag, list[n].email) {
      }
      if UniqueEmails(list) {
        forall s | s in list ensures Stored(m, tag, list)[BuildUserTag(tag, s.email)] == LimitsOf(s) {
          UserTagInjective(tag, s.email, list[n].email);
        }
      }
    }
  }

  function DetermineRate(nodeLimit: nat, subLimit: nat): (r: nat)
    ensures r == 0 <==> nodeLimit == 0 && subLimit == 0
    ensures nodeLimit != 0 ==> r <= nodeLimit
    ensures subLimit != 0 ==> r <= subLimit
    ensures r == nodeLimit || r == subLimit
  {
    if nodeLimit == 0 && subLimit == 0 then 0
    else if nodeLimit == 0 then subLimit
    else if subLimit == 0 then nodeLimit
    else if nodeLimit < subLimit then nodeLimit
    else subLimit
  }

  function DueRate(node: nat, m: map<string, Limits>, key: string): nat {
    DetermineRate(node, if key in m then m[key].speedLimit else 0)
  }

  /** Each rate bucket runs at the rate its subscription, if any, is due now. */
  ghost predicate RatesMatch(node: nat, m: map<string, Limits>, buckets: map<string, nat>) {
    forall k :: k in buckets ==> buckets[k] == DueRate(node, m, k)
  }

  /** A bucket is set to a rate, or dropped when that means unlimited; none is made. */
  function ReratedOne(buckets: map<string, nat>, key: string, rate: nat): map<string, nat> {
    if rate == 0 then buckets - {key} else if key in buckets then buckets[key := rate] else buckets
  }

  function Rerated(node: nat, tag: string, buckets: map<string, nat>, list: seq<Subscription>): map<string, nat> {
    if list == [] then buckets
    else ReratedOne(Rerated(node, tag, buckets, list[..|list| - 1]), BuildUserTag(tag, list[|list| - 1].email),
                    DetermineRate(node, list[|list| - 1].speedLimit))
  }

  /** Storing a list puts the buckets of its users right, whatever they were, and leaves the others alone. */
  lemma {:induction false} ReratedRepairs(node: nat, tag: string, m: map<string, Limits>, buckets: map<string, nat>,
                                          list: seq<Subscription>, key: string)
    ensures var b := Rerated(node, tag, buckets, list);
            if key in KeySet(tag, list) then
              key in b ==> key in buckets && b[key] == DueRate(node, Stored(m, tag, list), key) > 0
            else (key in b <==> key in buckets) && (key in b ==> b[key] == buckets[key])
  {
    if list != [] {
      var n := |list| - 1;
      ReratedRepairs(node, tag, m, buckets, list[..n], key);
      KeySetMore(tag, list, n);
      assert list[..n + 1] == list;
    }
  }

  /** A bucket goes only where its user has become unlimited; otherwise it stays, at the user's rate. */
  lemma {:induction false} RerateKeepsIff(node: nat, tag: string, buckets: map<string, nat>, list: seq<Subscription>,
                                          s: Subscription)
    requires UniqueEmails(list) && s in list
    ensures var key, b, rate :=
              tag + "_" + s.email, Rerated(node, tag, buckets, list), DetermineRate(node, s.speedLimit);
            (key in b <==> key in buckets && rate > 0) && (key in b ==> b[key] == rate)
  {
    var n, key := |list| - 1, BuildUserTag(tag, s.email);
    UserTagInjective(tag, s.email, list[n].email);
    if s in list[..n] {
      RerateKeepsIff(node, tag, buckets, list[..n], s);
    } else {
      assert s == list[n];
      ReratedRepairs(node, tag, map[], buckets, list[..n], key);
      forall t | t in list[..n] ensures BuildUserTag(tag, t.email) != key {
        UserTagInjective(tag, s.email, t.email);
        assert t in list;
      }
    }
  }

  class InboundLimits {
    const tag: string
    var nodeSpeedLimit: nat
    var ignoreIPs: seq<string>
    var subscriptions: map<string, Limits>
    /** BucketHub: the rate each bucket is set to. */
    var buckets: map<string, nat>

    /** AddLimiter: a rebuild from a list. */
    constructor (tag: string, nodeSpeedLimit: nat, ignoreIPs: seq<string>, list: seq<Subscription>)
      ensures this.tag == tag && this.nodeSpeedLimit == nodeSpeedLimit && this.ignoreIPs == ignoreIPs
      ensures subscriptions == Stored(map[], tag, list) && RatesMatches()
      ensures UniqueEmails(list) ==> AllHeld(subscriptions, tag, list)
    {
      StoredFinds(map[], tag, list);
      this.tag, this.nodeSpeedLimit, this.ignoreIPs, buckets := tag, nodeSpeedLimit, ignoreIPs, map[];
      var subMap := map[];
      for i := 0 to |list|
        invariant subMap == Stored(map[], tag, list[..i])
      {
        assert list[..i + 1][..i] == list[..i];
        subMap := subMap[BuildUserTag(tag, list[i].email) := LimitsOf(list[i])];
      }
      assert list[..|list|] == list;
      subscriptions := subMap;
    }

    ghost predicate RatesMatches()
      reads this
    {
      RatesMatch(nodeSpeedLimit, subscriptions, buckets)
    }

    /** The rate a user is due now; zero means unlimited. */
    ghost function Due(key: string): nat
      reads this
    {
      DueRate(nodeSpeedLimit, subscriptions, key)
    }

    method UpdateLimiter(list: seq<Subscription>)
      modifies this`subscriptions, this`buckets
      ensures subscriptions == Stored(old(subscriptions), tag, list)
      ensures UniqueEmails(list) ==> AllHeld(subscriptions, tag, list)
      ensures buckets == Rerated(nodeSpeedLimit, tag, old(buckets), list)
      ensures old(RatesMatches()) ==> RatesMatches()
    {
      StoredFinds(subscriptions, tag, list);
      for i := 0 to |list|
        invariant subscriptions == Stored(old(subscriptions), tag, list[..i])
        invariant buckets == Rerated(nodeSpeedLimit, tag, old(buckets), list[..i])
        invariant old(RatesMatches()) ==> RatesMatches()
      {
        assert list[..i + 1][..i] == list[..i];
        Refresh(BuildUserTag(tag, list[i].email), list[i]);
      }
      assert list[..|list|] == list;
    }

    /** One turn of UpdateLimiter's loop. */
    method Refresh(key: string, u: Subscription)
      modifies this`subscriptions, this`buckets
      ensures subscriptions == old(subscriptions)[key := LimitsOf(u)]
      ensures buckets == ReratedOne(old(buckets), key, DetermineRate(nodeSpeedLimit, u.speedLimit))
      ensures old(RatesMatches()) ==> RatesMatches()
    {
      subscriptions := subscriptions[key := LimitsOf(u)];
      var limit := DetermineRate(nodeSpeedLimit, u.speedLimit);
      if limit > 0 {
        if key in buckets {
          buckets := buckets[key := limit];
        }
      } else {
        buckets := buckets - {key};
      }
    }

    method RemoveSubscriptions(emails: seq<string>)
      modifies this`subscriptions, this`buckets
      ensures subscriptions == old(subscriptions) - Elements(emails)
      ensures buckets == old(buckets) - Elements(emails)
      ensures old(RatesMatches()) ==> RatesMatches()
    {
      for i := 0 to |emails|
        invariant subscriptions == old(subscriptions) - Elements(emails[..i])
        invariant buckets == old(buckets) - Elements(emails[..i])
      {
        assert Elements(emails[..i + 1]) == Elements(emails[..i]) + {emails[i]};
        subscriptions, buckets := subscriptions - {emails[i]}, buckets - {emails[i]};
      }
      assert emails[..|emails|] == emails;
    }

    /**
     The end of CheckLimiter: the bucket of a user, made on demand at the rate due;
     one that is there is handed out as it is.
     */
    method Bucket(email: string) returns (rate: nat)
      modifies this`buckets
      ensures rate == if Due(email) == 0 then 0 else if email in old(buckets) then old(buckets)[email] else Due(email)
      ensures buckets == if Due(email) > 0 && email !in old(buckets) then old(buckets)[email := rate] else old(buckets)
      ensures old(RatesMatches()) ==> RatesMatches() && rate == Due(email)
    {
      rate := DueRate(nodeSpeedLimit, subscriptions, email);
      if rate > 0 {
        if email in buckets {
          rate := buckets[email];
        } else {
          buckets := buckets[email := rate];
        }
      }
    }

    /** UpdateNodeInfo: buckets keep the rate they had, right or wrong under the new speed. */
    method UpdateNodeInfo(nodeSpeedLimit: nat, ignoreIPs: seq<string>)
      modifies this`nodeSpeedLimit, this`ignoreIPs
      ensures this.nodeSpeedLimit == nodeSpeedLimit && this.ignoreIPs == ignoreIPs
      ensures old(RatesMatches()) ==> (RatesMatches() <==> forall key :: key in buckets ==> Due(key) == old(Due(key)))
    {
      this.nodeSpeedLimit, this.ignoreIPs := nodeSpeedLimit, ignoreIPs;
    }

    /**
     The calls of a poll, guarded as the controller guards them: a part the
     protocol refused (`removed`, `stored`) is not taken over, and a modified entry
     is stored whether or not it could be taken out first (`replaced`).
     */
    method ApplyDiff(o: seq<Subscription>, n: seq<Subscription>, removed: bool, stored: bool, replaced: bool)
      returns (ghost d: Delta)
      requires Proper(o) && Proper(n)
      modifies this`subscriptions, this`buckets
      ensures Diff(o, n, d) && subscriptions == Incremental(old(subscriptions), tag, Accepted(d, removed, stored))
      ensures old(subscriptions) == Stored(map[], tag, o) ==>
                (subscriptions == Stored(map[], tag, n) <==> EmailsSettle(o, n) && NothingMissed(o, n, removed, stored))
      ensures subscriptions == Stored(map[], tag, n) ==>
                AllHeld(subscriptions, tag, n) && subscriptions.Keys == KeySet(tag, n)
      ensures old(RatesMatches()) ==> RatesMatches()
    {
      var deleted, added, modified := CompareSubscriptions(Some(o), Some(n));
      d := Delta(deleted, added, modified);
      PartsUniqueEmails(o, n, d, removed, stored);
      RemoveGone(deleted, removed);
      StoreNew(added, stored);
      Replace(modified, replaced);
      IncrementalIsRebuildIff(tag, o, n, d, removed, stored);
      StoredFinds(map[], tag, n);
    }

    method RemoveGone(deleted: seq<Subscription>, removed: bool)
      modifies this`subscriptions, this`buckets
      ensures subscriptions == old(subscriptions) - KeySet(tag, if removed then deleted else [])
      ensures old(RatesMatches()) ==> RatesMatches()
    {
      if |deleted| > 0 && removed {
        var emails := GetEmails(deleted, tag);
        RemoveSubscriptions(emails);
      } else {
        assert subscriptions - KeySet(tag, []) == subscriptions;
      }
    }

    method StoreNew(added: seq<Subscription>, stored: bool)
      modifies this`subscriptions, this`buckets
      ensures subscriptions == Stored(old(subscriptions), tag, if stored then added else [])
      ensures old(RatesMatches()) ==> RatesMatches()
    {
      if |added| > 0 && stored {
        UpdateLimiter(added);
      }
    }

    method Replace(modified: seq<Subscription>, replaced: bool)
      requires UniqueEmails(modified)
      modifies this`subscriptions, this`buckets
      ensures subscriptions == Stored(old(subscriptions) - KeySet(tag, modified), tag, modified)
      ensures old(RatesMatches()) ==> RatesMatches()
    {
      if |modified| == 0 {
        assert subscriptions - KeySet(tag, modified) == subscriptions;
        return;
      }
      if replaced {
        var emails := GetEmails(modified, tag);
        RemoveSubscriptions(emails);
      }
      UpdateLimiter(modified);
      StoringOverwrites(old(subscriptions), tag, modified);
    }
  }

  /** The limiter of the process: one entry an inbound tag. */
  class Limiter {
    var inbound: map<string, InboundLimits>

    method AddLimiter(tag: string, nodeSpeedLimit: nat, ignoreIPs: seq<string>, list: seq<Subscription>)
      modifies this
      ensures inbound.Keys == old(inbound).Keys + {tag} && inbound == old(inbound)[tag := inbound[tag]]
      ensures fresh(inbound[tag]) && inbound[tag].tag == tag && inbound[tag].nodeSpeedLimit == nodeSpeedLimit
      ensures inbound[tag].ignoreIPs == ignoreIPs
      ensures inbound[tag].subscriptions == Stored(map[], tag, list) && inbound[tag].RatesMatches()
      ensures UniqueEmails(list) ==> AllHeld(inbound[tag].subscriptions, tag, list)
    {
      var info := new InboundLimits(tag, nodeSpeedLimit, ignoreIPs, list);
      inbound := inbound[tag := info];
    }

    method DeleteLimiter(tag: string)
      modifies this
      ensures inbound == old(inbound) - {tag}
    {
      inbound := inbound - {tag};
    }
  }

  /** Taking entries out before storing them again makes no difference to the map. */
  lemma StoringOverwrites(m: map<string, Limits>, tag: string, list: seq<Subscription>)
    requires UniqueEmails(list)
    ensures Stored(m - KeySet(tag, list), tag, list) == Stored(m, tag, list)
  {
    StoredFinds(m - KeySet(tag, list), tag, list);
    StoredFinds(m, tag, list);
  }

  method GetEmails(list: seq<Subscription>, tag: string) returns (emails: seq<string>)
    ensures |emails| == |list| && forall i :: 0 <= i < |list| ==> emails[i] == BuildUserTag(tag, list[i].email)
    ensures Elements(emails) == KeySet(tag, list)
  {
    emails := [];
    for i := 0 to |list|
      invariant |emails| == i && forall j :: 0 <= j < i ==> emails[j] == BuildUserTag(tag, list[j].email)
    {
      emails := emails + [BuildUserTag(tag, list[i].email)];
    }
    forall k ensures k in Elements(emails) <==> k in KeySet(tag, list) {
      if k in KeySet(tag, list) {
        var s :| s in list && k == BuildUserTag(tag, s.email);
        var i :| 0 <= i < |list| && list[i] == s;
        assert emails[i] == k;
      }
    }
  }

  // ----- Incremental against rebuilt -----

  function Incremental(m: map<string, Limits>, tag: string, d: Delta): map<string, Limits> {
    Stored(Stored(m - KeySet(tag, d.deleted), tag, d.added) - KeySet(tag, d.modified), tag, d.modified)
  }

  /** What reaches the limiter when the protocol refused the removals or the additions. */
  function Accepted(d: Delta, removed: bool, stored: bool): Delta {
    Delta(if removed then d.deleted else [], if stored then d.added else [], d.modified)
  }

  /**
   An entry that stays on the list may change its email only together with a field
   the diff looks at, and only when another entry takes the old email over.
   */
  ghost predicate EmailSettles(s: Subscription, t: Subscription, n: seq<Subscription>) {
    s.email == t.email || (Differs(s, t) && HasEmail(n, s.email))
  }

  ghost predicate EmailsSettle(o: seq<Subscription>, n: seq<Subscription>) {
    forall s, t :: s in o && t in n && s.id == t.id ==> EmailSettles(s, t, n)
  }

  ghost predicate EmailsFixed(o: seq<Subscription>, n: seq<Subscription>) {
    forall s, t :: s in o && t in n && s.id == t.id ==> s.email == t.email
  }

  /** A refused removal does no harm when a new entry has the email; a refused addition always does. */
  ghost predicate NothingMissed(o: seq<Subscription>, n: seq<Subscription>, removed: bool, stored: bool) {
    && (removed || forall s :: s in o && !HasId(n, s.id) ==> HasEmail(n, s.email))
    && (stored || forall s :: s in n ==> HasId(o, s.id))
  }

  ghost predicate HasEmail(list: seq<Subscription>, email: string) {
    exists s :: s in list && s.email == email
  }

  lemma KeySetHas(tag: string, list: seq<Subscription>, email: string)
    ensures BuildUserTag(tag, email) in KeySet(tag, list) <==> HasEmail(list, email)
  {
    forall e ensures BuildUserTag(tag, e) == BuildUserTag(tag, email) <==> e == email {
      UserTagInjective(tag, e, email);
    }
  }

  /** The limits a list gives an email, when the list has it. */
  ghost predicate Gives(list: seq<Subscription>, email: string, limits: Limits) {
    exists s :: s in list && s.email == email && LimitsOf(s) == limits
  }

  /** A map at one key, after storing a list. */
  lemma StoredAt(m: map<string, Limits>, tag: string, list: seq<Subscription>, email: string)
    requires UniqueEmails(list)
    ensures var k, r := BuildUserTag(tag, email), Stored(m, tag, list);
            && (HasEmail(list, email) ==> k in r && Gives(list, email, r[k]))
            && (!HasEmail(list, email) ==> (k in r <==> k in m) && (k in m ==> r[k] == m[k]))
  {
    KeySetHas(tag, list, email);
    StoredFinds(m, tag, list);
  }

  /** The incremental map at one key: modified before added before old, unless deleted. */
  lemma IncrementalAt(tag: string, o: seq<Subscription>, d: Delta, email: string)
    requires UniqueEmails(o) && UniqueEmails(d.added) && UniqueEmails(d.modified)
    ensures var k, r := BuildUserTag(tag, email), Incremental(Stored(map[], tag, o), tag, d);
            if HasEmail(d.modified, email) then k in r && Gives(d.modified, email, r[k])
            else if HasEmail(d.added, email) then k in r && Gives(d.added, email, r[k])
            else if HasEmail(o, email) && !HasEmail(d.deleted, email) then k in r && Gives(o, email, r[k])
            else k !in r
  {
    var m1 := Stored(map[], tag, o) - KeySet(tag, d.deleted);
    var m2 := Stored(m1, tag, d.added) - KeySet(tag, d.modified);
    StoredAt(map[], tag, o, email);
    StoredAt(m1, tag, d.added, email);
    StoredAt(m2, tag, d.modified, email);
    KeySetHas(tag, d.deleted, email);
    KeySetHas(tag, d.modified, email);
  }

  lemma PartsUniqueEmails(o: seq<Subscription>, n: seq<Subscription>, d: Delta, removed: bool, stored: bool)
    requires UniqueIds(o) && UniqueIds(n) && UniqueEmails(n) && Diff(o, n, d)
    ensures UniqueEmails(d.added) && UniqueEmails(d.modified) && UniqueEmails(Accepted(d, removed, stored).added)
    ensures forall s :: s in d.added || s in d.modified ==> s in n
    ensures forall s :: s in d.deleted ==> s in o
  {
    forall s ensures (s in d.added || s in d.modified ==> s in n) && (s in d.deleted ==> s in o) {
      DiffMeans(o, n, d, s);
    }
  }

  lemma SameIdSame(list: seq<Subscription>, s: Subscription, t: Subscription)
    requires UniqueIds(list) && s in list && t in list && s.id == t.id
    ensures s == t
  {
  }

  /** An entry the diff passes over is stored already, under the same email. */
  lemma OldEntryKept(o: seq<Subscription>, n: seq<Subscription>, d: Delta, u: Subscription) returns (t: Subscription)
    requires Proper(o) && Proper(n) && Diff(o, n, d) && EmailsSettle(o, n)
    requires u in n && u !in d.added && u !in d.modified
    ensures t in o && t.email == u.email && LimitsOf(t) == LimitsOf(u) && !HasEmail(d.deleted, u.email)
  {
    DiffMeans(o, n, d, u);
    t :| t in o && t.id == u.id;
    assert EmailSettles(t, u, n);
    forall s ensures s in d.deleted && s.email == u.email ==> s == t {
      DiffMeans(o, n, d, s);
    }
    DiffMeans(o, n, d, t);
  }

  /** The two maps agree at a key whose email the new list has ... */
  lemma AgreeOnListed(tag: string, o: seq<Subscription>, n: seq<Subscription>, d: Delta,
                      removed: bool, stored: bool, u: Subscription)
    requires Proper(o) && Proper(n) && Diff(o, n, d) && u in n
    requires EmailsSettle(o, n) && NothingMissed(o, n, removed, stored)
    ensures var k, r :=
              BuildUserTag(tag, u.email), Incremental(Stored(map[], tag, o), tag, Accepted(d, removed, stored));
            k in r && r[k] == LimitsOf(u)
  {
    PartsUniqueEmails(o, n, d, removed, stored);
    IncrementalAt(tag, o, Accepted(d, removed, stored), u.email);
    DiffMeans(o, n, d, u);
    assert forall s :: s in d.added && s.email == u.email ==> s == u;
    assert forall s :: s in d.modified && s.email == u.email ==> s == u;
    if u !in d.added && u !in d.modified {
      var t := OldEntryKept(o, n, d, u);
      assert HasEmail(o, u.email);
    }
  }

  lemma NotListedAnyMore(o: seq<Subscription>, n: seq<Subscription>, t: Subscription)
    requires EmailsSettle(o, n) && t in o && !HasEmail(n, t.email)
    ensures !HasId(n, t.id)
  {
    forall u | u in n ensures u.id != t.id {
      assert u.id == t.id ==> EmailSettles(t, u, n);
    }
  }

  /** ... and at a key whose email it has not. */
  lemma AgreeOnUnlisted(tag: string, o: seq<Subscription>, n: seq<Subscription>, d: Delta,
                        removed: bool, stored: bool, email: string)
    requires Proper(o) && Proper(n) && Diff(o, n, d) && !HasEmail(n, email)
    requires EmailsSettle(o, n) && NothingMissed(o, n, removed, stored)
    ensures BuildUserTag(tag, email) !in Incremental(Stored(map[], tag, o), tag, Accepted(d, removed, stored))
  {
    PartsUniqueEmails(o, n, d, removed, stored);
    IncrementalAt(tag, o, Accepted(d, removed, stored), email);
    if HasEmail(o, email) {
      var t :| t in o && t.email == email;
      DiffMeans(o, n, d, t);
      NotListedAnyMore(o, n, t);
    }
  }

  /** Every key of either map is the key of some email. */
  lemma KeyHasEmail(tag: string, o: seq<Subscription>, n: seq<Subscription>, d: Delta, k: string)
    returns (email: string)
    requires k in Incremental(Stored(map[], tag, o), tag, d) || k in Stored(map[], tag, n)
    ensures k == BuildUserTag(tag, email)
  {
    var m1 := Stored(map[], tag, o) - KeySet(tag, d.deleted);
    StoredFinds(map[], tag, o);
    StoredFinds(map[], tag, n);
    StoredFinds(m1, tag, d.added);
    StoredFinds(Stored(m1, tag, d.added) - KeySet(tag, d.modified), tag, d.modified);
    assert k in KeySet(tag, o + n + d.added + d.modified);
    var s :| s in o + n + d.added + d.modified && k == BuildUserTag(tag, s.email);
    email := s.email;
  }

  lemma SettledEqual(tag: string, o: seq<Subscription>, n: seq<Subscription>, d: Delta, removed: bool, stored: bool)
    requires Proper(o) && Proper(n) && Diff(o, n, d)
    requires EmailsSettle(o, n) && NothingMissed(o, n, removed, stored)
    ensures Incremental(Stored(map[], tag, o), tag, Accepted(d, removed, stored)) == Stored(map[], tag, n)
  {
    var a := Accepted(d, removed, stored);
    var r, b := Incremental(Stored(map[], tag, o), tag, a), Stored(map[], tag, n);
    forall k ensures (k in r <==> k in b) && (k in b ==> r[k] == b[k]) {
      if k in r || k in b {
        var email := KeyHasEmail(tag, o, n, a, k);
        StoredAt(map[], tag, n, email);
        if HasEmail(n, email) {
          var u :| u in n && u.email == email && LimitsOf(u) == b[k];
          AgreeOnListed(tag, o, n, d, removed, stored, u);
        } else {
          AgreeOnUnlisted(tag, o, n, d, removed, stored, email);
        }
      }
    }
  }

  /** Where the maps agree at the email of an old entry that nothing deletes, the new list has that email. */
  lemma KeptIsListed(tag: string, o: seq<Subscription>, n: seq<Subscription>, d: Delta,
                     removed: bool, stored: bool, s: Subscription)
    requires Proper(o) && Proper(n) && Diff(o, n, d) && s in o && s !in Accepted(d, removed, stored).deleted
    requires Incremental(Stored(map[], tag, o), tag, Accepted(d, removed, stored)) == Stored(map[], tag, n)
    ensures HasEmail(n, s.email)
  {
    PartsUniqueEmails(o, n, d, removed, stored);
    IncrementalAt(tag, o, Accepted(d, removed, stored), s.email);
    StoredAt(map[], tag, n, s.email);
    assert HasEmail(o, s.email);
  }

  /** Where the maps agree at the email of a new entry that nothing stores, the old list has the entry. */
  lemma UnstoredIsOld(tag: string, o: seq<Subscription>, n: seq<Subscription>, d: Delta,
                      removed: bool, stored: bool, t: Subscription)
    requires Proper(o) && Proper(n) && Diff(o, n, d)
    requires t in n && t !in d.modified && t !in Accepted(d, removed, stored).added
    requires Incremental(Stored(map[], tag, o), tag, Accepted(d, removed, stored)) == Stored(map[], tag, n)
    ensures exists x :: x in o && x.email == t.email && x.id == t.id
  {
    PartsUniqueEmails(o, n, d, removed, stored);
    StoredAt(map[], tag, n, t.email);
    IncrementalAt(tag, o, Accepted(d, removed, stored), t.email);
    assert HasEmail(n, t.email);
    assert Stored(map[], tag, n)[BuildUserTag(tag, t.email)] == LimitsOf(t);
  }

  lemma EqualSettled(tag: string, o: seq<Subscription>, n: seq<Subscription>, d: Delta, removed: bool, stored: bool,
                     s: Subscription, t: Subscription)
    requires Proper(o) && Proper(n) && Diff(o, n, d)
    requires Incremental(Stored(map[], tag, o), tag, Accepted(d, removed, stored)) == Stored(map[], tag, n)
    requires s in o && t in n && s.id == t.id
    ensures EmailSettles(s, t, n)
  {
    DiffMeans(o, n, d, s);
    DiffMeans(o, n, d, t);
    KeptIsListed(tag, o, n, d, removed, stored, s);
    if !Differs(s, t) {
      forall x | x in o && x.id == t.id ensures x == s {
        SameIdSame(o, x, s);
      }
      UnstoredIsOld(tag, o, n, d, removed, stored, t);
    }
  }

  lemma EqualMissesNothing(tag: string, o: seq<Subscription>, n: seq<Subscription>, d: Delta, removed: bool,
                           stored: bool)
    requires Proper(o) && Proper(n) && Diff(o, n, d)
    requires Incremental(Stored(map[], tag, o), tag, Accepted(d, removed, stored)) == Stored(map[], tag, n)
    ensures NothingMissed(o, n, removed, stored)
  {
    if !removed {
      forall s | s in o && !HasId(n, s.id) ensures HasEmail(n, s.email) {
        KeptIsListed(tag, o, n, d, removed, stored, s);
      }
    }
    if !stored {
      forall t | t in n ensures HasId(o, t.id) {
        DiffMeans(o, n, d, t);
        if t !in d.modified {
          UnstoredIsOld(tag, o, n, d, removed, stored, t);
        }
      }
    }
  }

  /**
   The incremental map is the rebuilt one exactly when every change of email settles
   and nothing the protocol refused is missed.
   */
  lemma IncrementalIsRebuildIff(tag: string, o: seq<Subscription>, n: seq<Subscription>, d: Delta, removed: bool,
                                stored: bool)
    requires Proper(o) && Proper(n) && Diff(o, n, d)
    ensures Incremental(Stored(map[], tag, o), tag, Accepted(d, removed, stored)) == Stored(map[], tag, n)
            <==> EmailsSettle(o, n) && NothingMissed(o, n, removed, stored)
  {
    if EmailsSettle(o, n) && NothingMissed(o, n, removed, stored) {
      SettledEqual(tag, o, n, d, removed, stored);
    }
    if Incremental(Stored(map[], tag, o), tag, Accepted(d, removed, stored)) == Stored(map[], tag, n) {
      EqualMissesNothing(tag, o, n, d, removed, stored);
      forall s, t | s in o && t in n && s.id == t.id ensures EmailSettles(s, t, n) {
        EqualSettled(tag, o, n, d, removed, stored, s, t);
      }
    }
  }

  /** With an email fixed per id, and nothing refused, the diff is always as good as a rebuild. */
  lemma FixedEmailsSettle(o: seq<Subscription>, n: seq<Subscription>)
    requires EmailsFixed(o, n)
    ensures EmailsSettle(o, n) && NothingMissed(o, n, true, true)
  {
  }

  /** A new email together with a new limit leaves the old key behind: the user keeps an entry nobody pays for. */
  lemma StaleEmailStays()
    ensures var o, n := [Subscription(1, "u", "a", 0, 2)], [Subscription(1, "u", "b", 0, 3)];
            && Proper(o) && Proper(n) && Diff(o, n, Delta([], [], n))
            && BuildUserTag("t", "a") in Incremental(Stored(map[], "t", o), "t", Delta([], [], n))
            && BuildUserTag("t", "a") !in Stored(map[], "t", n)
  {
    var s, t := Subscription(1, "u", "a", 0, 2), Subscription(1, "u", "b", 0, 3);
    var o, n := [s], [t];
    assert ById(o) == map[1 := s] && ById(n) == map[1 := t];
    assert Gone(ById(o), ById(n)) == map[] && Fresh(ById(o), ById(n)) == map[];
    assert Changed(ById(o), ById(n)) == map[1 := t];
    IncrementalAt("t", o, Delta([], [], n), "a");
    StoredAt(map[], "t", n, "a");
    assert o[0].email == "a" && n[0].email == "b";
    assert HasEmail(o, "a") by { assert o[0] in o; }
  }
}
