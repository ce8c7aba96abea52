/**
 The admission of a connection (CheckLimiter in limiter/limiter.go): what the limiter
 has stored for the user decides about the address and about the rate.
 */
module Admission {
  import opened Api
  import opened Commons
  import opened LimiterSync
  import opened IpLimit
  import IpSweep

  /** A user the limiter does not know has no limits. */
  const UNKNOWN := Limits(0, 0, 0)

  function EntryOf(m: map<string, Limits>, key: string): Limits { if key in m then m[key] else UNKNOWN }

  /**
   The address check for a subscription: rejected exactly when the subscription has a
   limit, as many addresses are in use, and this one is new; otherwise the address is
   recorded under this node with the number of the subscription.
   */
  ghost predicate Judged(before: Hash, after: Hash, tag: string, ip: string, s: Subscription, reject: bool) {
    && (reject <==> s.ipLimit > 0 && |Addresses(before)| >= s.ipLimit && ip !in Addresses(before))
    && after == if reject then before else before[IpField(ip, tag) := Uid(s.id)]
  }

  /** The user's entry is that of the subscription `s`, which the connection authenticated as. */
  ghost predicate Connects(m: map<string, Limits>, tag: string, email: string, s: Subscription) {
    email == tag + "_" + s.email && Held(m, tag, s)
  }

  /** The address check, unless the address is ignored or checking is off. */
  method CheckAddress(info: InboundLimits, redis: IpSweep.Redis, email: string, ip: string, enabled: bool)
    returns (reject: bool)
    modifies redis`store
    ensures !enabled || ip in info.ignoreIPs ==> !reject && redis.store == old(redis.store)
    ensures forall k :: k != IpSweep.KeyOf(info.tag, email) ==> HashAt(redis.store, k) == HashAt(old(redis.store), k)
    ensures enabled && ip !in info.ignoreIPs && redis.healthy && ip != [] && SEP !in info.tag ==>
              forall s :: Connects(info.subscriptions, info.tag, email, s) ==>
                Judged(HashAt(old(redis.store), IpSweep.IP_KEY_PREFIX + s.email),
                       HashAt(redis.store, IpSweep.IP_KEY_PREFIX + s.email), info.tag, ip, s, reject)
    ensures email !in info.subscriptions ==> !reject
  {
    var u := EntryOf(info.subscriptions, email);
    var ignored := false;
    for i := 0 to |info.ignoreIPs|
      invariant ignored <==> ip in info.ignoreIPs[..i]
    {
      assert info.ignoreIPs[..i + 1] == info.ignoreIPs[..i] + [info.ignoreIPs[i]];
      if info.ignoreIPs[i] == ip { ignored := true; }
    }
    assert info.ignoreIPs[..|info.ignoreIPs|] == info.ignoreIPs;
    reject := false;
    if !ignored && enabled {
      if ip != [] && SEP !in info.tag {
        ScriptDecision(HashAt(redis.store, IpSweep.KeyOf(info.tag, email)), ip, info.tag, Uid(u.id), u.ipLimit);
      }
      reject := IpSweep.InboundInfo.CheckIPLimit(redis, info.tag, email, u.id, ip, u.ipLimit);
      forall s | Connects(info.subscriptions, info.tag, email, s)
        ensures IpSweep.KeyOf(info.tag, email) == IpSweep.IP_KEY_PREFIX + s.email
      {
        IpSweep.KeySharedByNodes(info.tag, info.tag, s.email, s.email);
      }
    }
  }

  /**
   A connection of a user. One that is not rejected is limited exactly when the node or
   the user has a speed limit, at the tighter of those set, as long as buckets run at the
   rates due.
   */
  method Admit(info: InboundLimits, redis: IpSweep.Redis, email: string, ip: string, enabled: bool)
    returns (rate: nat, limited: bool, reject: bool)
    modifies redis`store, info`buckets
    ensures !enabled || ip in info.ignoreIPs ==> !reject && redis.store == old(redis.store)
    ensures reject ==> !limited && info.buckets == old(info.buckets)
    ensures old(info.RatesMatches()) ==> info.RatesMatches()
    ensures enabled && ip !in info.ignoreIPs && redis.healthy && ip != [] && SEP !in info.tag ==>
              forall s :: Connects(info.subscriptions, info.tag, email, s) ==>
                Judged(HashAt(old(redis.store), IpSweep.IP_KEY_PREFIX + s.email),
                       HashAt(redis.store, IpSweep.IP_KEY_PREFIX + s.email), info.tag, ip, s, reject)
    ensures email !in info.subscriptions ==> !reject && (limited <==> info.nodeSpeedLimit > 0)
    ensures !reject ==> forall s :: Connects(info.subscriptions, info.tag, email, s) ==>
              && (limited <==> info.nodeSpeedLimit > 0 || s.speedLimit > 0)
              && (limited && old(info.RatesMatches()) ==> rate == DetermineRate(info.nodeSpeedLimit, s.speedLimit))
  {
    rate, limited := 0, false;
    reject := CheckAddress(info, redis, email, ip, enabled);
    if reject { return; }
    limited := DueRate(info.nodeSpeedLimit, info.subscriptions, email) > 0;
    rate := info.Bucket(email);
  }

  /** An inbound without a limiter admits everybody. */
  method CheckLimiter(limiter: Limiter, redis: IpSweep.Redis, tag: string, email: string, ip: string, enabled: bool)
    returns (rate: nat, limited: bool, reject: bool)
    modifies redis`store, if tag in limiter.inbound then {limiter.inbound[tag]} else {}
    ensures tag !in limiter.inbound ==> !limited && !reject && redis.store == old(redis.store)
    ensures tag in limiter.inbound ==> limiter.inbound[tag].subscriptions == old(limiter.inbound[tag].subscriptions)
  {
    if tag !in limiter.inbound { return 0, false, false; }
    rate, limited, reject := Admit(limiter.inbound[tag], redis, email, ip, enabled);
  }
}
