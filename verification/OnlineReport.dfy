/**
 The second half of SubscriptionMonitor (subscription/manager.go): what becomes of
 the addresses a sweep has taken out of the store.
 */
module OnlineReport {
  import opened IpSweep
  import opened Traffic
  import opened TrafficReport

  /** What the panel has got: the records pushed before a batch failed, and all of them again if HTTP was used. */
  function Arrived<T>(online: seq<T>, pushed: nat, http: bool): seq<T>
    requires pushed <= |online|
  {
    online[..pushed] + if http then online else []
  }

  lemma SplitCount<T>(s: seq<T>, n: nat)
    requires n <= |s|
    ensures multiset(s) == multiset(s[..n]) + multiset(s[n..])
  {
    assert s == s[..n] + s[n..];
  }

  /**
   Nothing taken from the store is lost on the way exactly when every batch was
   pushed or the HTTP report succeeded; and nothing is told twice exactly when, in
   addition, no batch had been pushed before the HTTP report.
   */
  lemma ArrivedIff<T>(online: seq<T>, pushed: nat, http: bool)
    requires pushed <= |online| && (http ==> pushed < |online|)
    ensures multiset(online) <= multiset(Arrived(online, pushed, http)) <==> pushed == |online| || http
    ensures multiset(online) == multiset(Arrived(online, pushed, http)) <==> pushed == |online| || (http && pushed == 0)
  {
    SplitCount(online, pushed);
    if http {
      assert multiset(Arrived(online, pushed, http)) == multiset(online[..pushed]) + multiset(online);
      assert |multiset(Arrived(online, pushed, http))| == pushed + |online|;
    } else {
      assert Arrived(online, pushed, http) == online[..pushed];
      if pushed < |online| {
        assert online[pushed] == online[pushed..][0];
        assert multiset(online)[online[pushed]] > multiset(online[..pushed])[online[pushed]];
      }
    }
  }

  /** Of n records the first `pushed` went out in batches of a hundred, up to the first push that failed. */
  ghost predicate UpToFirstFailure(n: nat, pushed: nat, push: nat -> bool) {
    if pushed == n then forall k: nat :: 100 * k < n ==> push(k)
    else exists k: nat :: pushed == 100 * k < n && !push(k) && forall j: nat :: j < k ==> push(j)
  }

  /** The pushes, until one fails. */
  method PushBatches(online: seq<OnlineIP>, push: nat -> bool) returns (received: seq<OnlineIP>, pushed: nat)
    ensures pushed <= |online| && received == online[..pushed]
    ensures UpToFirstFailure(|online|, pushed, push)
  {
    received, pushed := [], 0;
    var k := 0;
    while pushed < |online|
      invariant pushed <= |online| && received == online[..pushed]
      invariant pushed < |online| ==> pushed == 100 * k
      invariant pushed == |online| ==> |online| <= 100 * k
      invariant forall j: nat :: j < k ==> push(j)
    {
      var end := if pushed + REVERB_BATCH_SIZE < |online| then pushed + REVERB_BATCH_SIZE else |online|;
      var ok, got := Deliver(online[pushed..end], push(k));
      if !ok { return; }
      received, pushed, k := received + got, end, k + 1;
    }
  }

  /** What the panel receives of one sweep's report, for every failure of a push or of the HTTP report. */
  method ReportOnlineIPs(online: seq<OnlineIP>, pusher: bool, outcome: Outcome)
    returns (received: seq<OnlineIP>, pushed: nat, http: bool)
    ensures pushed <= |online| && received == Arrived(online, pushed, http)
    ensures if pusher then UpToFirstFailure(|online|, pushed, outcome.push) else pushed == 0
    ensures http <==> pushed < |online| && outcome.http
    ensures multiset(online) <= multiset(received) <==> pushed == |online| || outcome.http
    ensures multiset(online) == multiset(received) <==> pushed == |online| || (outcome.http && pushed == 0)
  {
    received, pushed, http := [], 0, false;
    if online != [] {
      if pusher { received, pushed := PushBatches(online, outcome.push); }
      if pushed < |online| {
        var got;
        http, got := Deliver(online, outcome.http);
        received := received + got;
      }
    }
    ArrivedIff(online, pushed, http);
  }
}
