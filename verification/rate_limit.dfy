/**
 * The sliding-window rate limiter that runs in front of every route.  Each
 * client id owns a bucket of the timestamps (milliseconds) of its admitted
 * requests.  A check keeps the timestamps younger than the window; with
 * `MaxRequests` or more of them left the request is refused and nothing is
 * stored, otherwise `now` is appended and the filtered bucket written back.
 */
module RateLimit {

  const WindowMs: int := 60_000
  const MaxRequests: nat := 10

  /** The stored bucket of `id`; a client never seen has an empty one. */
  function BucketOf(buckets: map<string, seq<int>>, id: string): seq<int> {
    if id in buckets then buckets[id] else []
  }

  /**
   * `ts.filter(t => now - t < WindowMs)`: the timestamps still inside the
   * window, each kept as often as it occurs and in its original order.
   */
  function Recent(ts: seq<int>, now: int): (r: seq<int>)
    ensures |r| <= |ts|
  {
    if ts == [] then []
    else (if now - ts[0] < WindowMs then [ts[0]] else []) + Recent(ts[1..], now)
  }

  /** The filter keeps every timestamp inside the window as often as it occurs, and nothing else. */
  lemma {:induction false} RecentCounts(ts: seq<int>, now: int)
    ensures forall t :: multiset(Recent(ts, now))[t] == if now - t < WindowMs then multiset(ts)[t] else 0
  {
    if ts != [] {
      assert ts == [ts[0]] + ts[1..];
      RecentCounts(ts[1..], now);
    }
  }

  /** The outcome of one admission check: the verdict and the bucket map afterwards. */
  datatype Admission = Admission(allowed: bool, buckets: map<string, seq<int>>)

  /** One run of the middleware for client `id` at time `now`. */
  function Check(buckets: map<string, seq<int>>, id: string, now: int): Admission {
    var kept := Recent(BucketOf(buckets, id), now);
    if |kept| >= MaxRequests then Admission(false, buckets)
    else Admission(true, buckets[id := kept + [now]])
  }

  /** Every bucket holds at most `MaxRequests` timestamps. */
  ghost predicate Bounded(buckets: map<string, seq<int>>) {
    forall id :: id in buckets ==> |buckets[id]| <= MaxRequests
  }

  /** The checks for `id` at each of `times` in turn: the verdicts and the final bucket map. */
  datatype Trace = Trace(verdicts: seq<bool>, buckets: map<string, seq<int>>)

  function Replay(buckets: map<string, seq<int>>, id: string, times: seq<int>): (tr: Trace)
    ensures |tr.verdicts| == |times|
  {
    ReplayFirst(buckets, id, times, |times|)
  }

  /** The checks at the first `k` of `times`. */
  function ReplayFirst(buckets: map<string, seq<int>>, id: string, times: seq<int>, k: nat): (tr: Trace)
    requires k <= |times|
    ensures |tr.verdicts| == k
  {
    if k == 0 then Trace([], buckets)
    else
      var before := ReplayFirst(buckets, id, times, k - 1);
      var a := Check(before.buckets, id, times[k - 1]);
      Trace(before.verdicts + [a.allowed], a.buckets)
  }

  /** Later checks do not change earlier verdicts: the first `j` verdicts of a longer replay are those of the first `j` checks. */
  lemma {:induction false} ReplayPrefix(buckets: map<string, seq<int>>, id: string, times: seq<int>, j: nat, k: nat)
    requires j <= k <= |times|
    ensures ReplayFirst(buckets, id, times, k).verdicts[..j] == ReplayFirst(buckets, id, times, j).verdicts
    decreases k
  {
    var vs := ReplayFirst(buckets, id, times, k).verdicts;
    if j == k {
      assert vs[..j] == vs;
    } else {
      ReplayPrefix(buckets, id, times, j, k - 1);
      var before := ReplayFirst(buckets, id, times, k - 1).verdicts;
      assert vs == before + [vs[k - 1]];
      assert vs[..j] == before[..j];
    }
  }

  /** The `i`-th verdict of a replay is the check of the `i`-th time against the buckets the earlier checks left. */
  lemma ReplayVerdict(buckets: map<string, seq<int>>, id: string, times: seq<int>, i: nat)
    requires i < |times|
    ensures Replay(buckets, id, times).verdicts[i] == Check(ReplayFirst(buckets, id, times, i).buckets, id, times[i]).allowed
  {
    ReplayPrefix(buckets, id, times, i + 1, |times|);
    assert Replay(buckets, id, times).verdicts[i] == Replay(buckets, id, times).verdicts[..i + 1][i];
  }

  /** The filter distributes over concatenation, so it keeps the order of what it keeps. */
  lemma {:induction false} RecentAppend(a: seq<int>, b: seq<int>, now: int)
    ensures Recent(a + b, now) == Recent(a, now) + Recent(b, now)
  {
    if a == [] {
      assert a + b == b;
    } else {
      assert (a + b)[1..] == a[1..] + b;
      RecentAppend(a[1..], b, now);
    }
  }

  /** Every timestamp of `ts` is inside the window that ends at `now`. */
  ghost predicate InsideWindow(ts: seq<int>, now: int) {
    forall i :: 0 <= i < |ts| ==> now - ts[i] < WindowMs
  }

  /** Timestamps all inside the window are all kept. */
  lemma {:induction false} RecentKeepsFresh(ts: seq<int>, now: int)
    requires InsideWindow(ts, now)
    ensures Recent(ts, now) == ts
  {
    if ts != [] {
      RecentKeepsFresh(ts[1..], now);
    }
  }

  /** Timestamps all at least one window old are all dropped. */
  lemma {:induction false} RecentDropsStale(ts: seq<int>, now: int)
    requires forall i :: 0 <= i < |ts| ==> now - ts[i] >= WindowMs
    ensures Recent(ts, now) == []
  {
    if ts != [] {
      RecentDropsStale(ts[1..], now);
    }
  }

  /**
   * An admitted check stores exactly the old timestamps still inside the
   * window followed by `now`, so the bucket then holds at most `MaxRequests`
   * timestamps, all inside the window.
   */
  lemma AdmittedBucket(buckets: map<string, seq<int>>, id: string, now: int)
    requires Check(buckets, id, now).allowed
    ensures var after := Check(buckets, id, now).buckets;
      && id in after
      && after[id] == Recent(BucketOf(buckets, id), now) + [now]
      && |after[id]| <= MaxRequests
      && forall t :: t in after[id] ==> now - t < WindowMs
  {
    var kept := Recent(BucketOf(buckets, id), now);
    RecentCounts(BucketOf(buckets, id), now);
    forall t | t in kept ensures now - t < WindowMs {
      assert multiset(kept)[t] > 0;
    }
  }

  /**
   * A check is refused exactly when `MaxRequests` or more timestamps are
   * inside the window, and a refused check leaves every bucket as it was,
   * stale timestamps included.
   */
  lemma RejectedLeavesStateAlone(buckets: map<string, seq<int>>, id: string, now: int)
    ensures !Check(buckets, id, now).allowed <==> |Recent(BucketOf(buckets, id), now)| >= MaxRequests
    ensures !Check(buckets, id, now).allowed ==> Check(buckets, id, now).buckets == buckets
  {
  }

  /** A check touches no bucket but the one of its own client, and never forgets a client. */
  lemma OtherBucketsUnchanged(buckets: map<string, seq<int>>, id: string, now: int, other: string)
    requires other != id
    ensures var after := Check(buckets, id, now).buckets;
      && (other in after <==> other in buckets)
      && BucketOf(after, other) == BucketOf(buckets, other)
      && buckets.Keys <= after.Keys
  {
  }

  /** Checks keep every bucket within `MaxRequests` timestamps. */
  lemma CheckKeepsBounded(buckets: map<string, seq<int>>, id: string, now: int)
    requires Bounded(buckets)
    ensures Bounded(Check(buckets, id, now).buckets)
  {
    if Check(buckets, id, now).allowed {
      AdmittedBucket(buckets, id, now);
    }
  }

  /** Every two of `times` lie less than one window apart. */
  ghost predicate WithinOneWindow(times: seq<int>) {
    forall i, j :: 0 <= i < |times| && 0 <= j < |times| ==> times[j] - times[i] < WindowMs
  }

  function Min(a: nat, b: nat): nat {
    if a < b then a else b
  }

  /** `n` verdicts of which the first `MaxRequests` admit and the rest refuse. */
  function FirstAdmitted(n: nat): (vs: seq<bool>)
    ensures |vs| == n
    ensures forall i :: 0 <= i < n ==> vs[i] == (i < MaxRequests)
  {
    if n == 0 then [] else FirstAdmitted(n - 1) + [n - 1 < MaxRequests]
  }

  /**
   * Starting from no stored buckets, checks for one client at times that all
   * lie within one window of each other admit the first `MaxRequests` and
   * refuse every later one; the bucket then holds the admitted times.
   */
  lemma BurstAdmitsFirstMax(id: string, times: seq<int>)
    requires WithinOneWindow(times)
    ensures Replay(map[], id, times).verdicts == FirstAdmitted(|times|)
    ensures BucketOf(Replay(map[], id, times).buckets, id) == times[..Min(|times|, MaxRequests)]
  {
    BurstPrefix(id, times, |times|);
  }

  lemma {:induction false} BurstPrefix(id: string, times: seq<int>, k: nat)
    requires k <= |times| && WithinOneWindow(times)
    ensures ReplayFirst(map[], id, times, k).verdicts == FirstAdmitted(k)
    ensures BucketOf(ReplayFirst(map[], id, times, k).buckets, id) == times[..Min(k, MaxRequests)]
  {
    if k > 0 {
      BurstPrefix(id, times, k - 1);
      PrefixInsideWindow(times, k, BucketOf(ReplayFirst(map[], id, times, k - 1).buckets, id));
      ReplayStepFresh(map[], id, times, k);
      PrefixSnoc(times, k);
    }
  }

  /** A prefix of the first `k - 1` of `times` lies inside the window of the `k`-th. */
  lemma PrefixInsideWindow(times: seq<int>, k: nat, bucket: seq<int>)
    requires 0 < k <= |times| && WithinOneWindow(times)
    requires bucket == times[..Min(k - 1, MaxRequests)]
    ensures InsideWindow(bucket, times[k - 1])
  {
    assert forall i :: 0 <= i < |bucket| ==> bucket[i] == times[i];
  }

  lemma PrefixSnoc(times: seq<int>, k: nat)
    requires 0 < k <= |times|
    ensures times[..k - 1] + [times[k - 1]] == times[..k]
  {
  }

  /** One more check, when the stored bucket lies wholly inside the window of the new timestamp. */
  lemma ReplayStepFresh(buckets: map<string, seq<int>>, id: string, times: seq<int>, k: nat)
    requires 0 < k <= |times|
    requires InsideWindow(BucketOf(ReplayFirst(buckets, id, times, k - 1).buckets, id), times[k - 1])
    ensures var before := ReplayFirst(buckets, id, times, k - 1);
      var bucket := BucketOf(before.buckets, id);
      var after := ReplayFirst(buckets, id, times, k);
      && after.verdicts == before.verdicts + [|bucket| < MaxRequests]
      && BucketOf(after.buckets, id) == if |bucket| < MaxRequests then bucket + [times[k - 1]] else bucket
  {
    var before := ReplayFirst(buckets, id, times, k - 1);
    var a := CheckFreshBucket(before.buckets, id, times[k - 1]);
  }

  /** A check whose stored timestamps are all inside the window sees the whole bucket. */
  lemma CheckFreshBucket(buckets: map<string, seq<int>>, id: string, now: int) returns (a: Admission)
    requires InsideWindow(BucketOf(buckets, id), now)
    ensures a == Check(buckets, id, now)
    ensures a.allowed == (|BucketOf(buckets, id)| < MaxRequests)
    ensures BucketOf(a.buckets, id) == if a.allowed then BucketOf(buckets, id) + [now] else BucketOf(buckets, id)
  {
    RecentKeepsFresh(BucketOf(buckets, id), now);
    a := Check(buckets, id, now);
  }

  /** Eleven checks inside one window: ten admitted, the eleventh refused. */
  lemma EleventhRequestRefused(id: string, times: seq<int>)
    requires |times| == MaxRequests + 1
    requires WithinOneWindow(times)
    ensures Replay(map[], id, times).verdicts == [true, true, true, true, true, true, true, true, true, true, false]
  {
    BurstAdmitsFirstMax(id, times);
  }

  /**
   * Once every stored timestamp of a client is a full window old, its next
   * check is admitted and its bucket restarts with `now` alone.
   */
  lemma WindowResets(buckets: map<string, seq<int>>, id: string, now: int)
    requires forall t :: t in BucketOf(buckets, id) ==> now - t >= WindowMs
    ensures Check(buckets, id, now).allowed
    ensures BucketOf(Check(buckets, id, now).buckets, id) == [now]
  {
    var bucket := BucketOf(buckets, id);
    assert forall i :: 0 <= i < |bucket| ==> bucket[i] in bucket;
    RecentDropsStale(bucket, now);
  }

  /** The shared `RATE_LIMIT` map and the middleware that updates it. */
  class RateLimiter {
    var buckets: map<string, seq<int>>

    ghost predicate Valid()
      reads this
    {
      Bounded(buckets)
    }

    constructor ()
      ensures Valid() && buckets == map[]
    {
      buckets := map[];
    }

    /** Admission check for `clientId` at time `now`. */
    method Admit(clientId: string, now: int) returns (allowed: bool)
      requires Valid()
      modifies this
      ensures Valid()
      ensures Check(old(buckets), clientId, now) == Admission(allowed, buckets)
      ensures allowed <==> |Recent(BucketOf(old(buckets), clientId), now)| < MaxRequests
      ensures allowed ==> buckets == old(buckets)[clientId := Recent(BucketOf(old(buckets), clientId), now) + [now]]
      ensures !allowed ==> buckets == old(buckets)
    {
      var arr := Recent(BucketOf(buckets, clientId), now);
      if |arr| >= MaxRequests {
        return false;
      }
      CheckKeepsBounded(buckets, clientId, now);
      arr := arr + [now];
      buckets := buckets[clientId := arr];
      allowed := true;
    }
  }
}
