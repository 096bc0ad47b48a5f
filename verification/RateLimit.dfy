// The fixed-window rate limiter (panda_trace/rate_limit.py).
module RateLimit {
  import opened Base

  datatype Bucket = Bucket(windowStartedAt: real, count: int)

  type BucketKey = (string, string)

  type Buckets = map<BucketKey, Bucket>

  // The decision for one bucket, and the bucket afterwards.
  function CheckBucket(bucket: Option<Bucket>, limit: int, window: real, now: real): (Bucket, bool) {
    if bucket.None? || now - bucket.value.windowStartedAt >= window then (Bucket(now, 1), true)
    else if bucket.value.count >= limit then (bucket.value, false)
    else (bucket.value.(count := bucket.value.count + 1), true)
  }

  function Lookup(buckets: Buckets, key: BucketKey): Option<Bucket> {
    if key in buckets then Some(buckets[key]) else None
  }

  class InMemoryRateLimiter {
    var buckets: Buckets

    constructor ()
      ensures buckets == map[]
    {
      buckets := map[];
    }

    // Only the caller's own bucket changes, and a refusal changes nothing.
    method Check(keyId: string, action: string, limit: int, window: real, now: real) returns (allowed: bool)
      modifies this
      ensures allowed == CheckBucket(Lookup(old(buckets), (keyId, action)), limit, window, now).1
      ensures var bucket := CheckBucket(Lookup(old(buckets), (keyId, action)), limit, window, now).0;
              buckets == old(buckets)[(keyId, action) := bucket]
      ensures !allowed ==> buckets == old(buckets)
    {
      var bucketKey := (keyId, action);
      if bucketKey !in buckets || now - buckets[bucketKey].windowStartedAt >= window {
        buckets := buckets[bucketKey := Bucket(now, 1)];
        return true;
      }
      var bucket := buckets[bucketKey];
      if bucket.count >= limit {
        return false;
      }
      buckets := buckets[bucketKey := bucket.(count := bucket.count + 1)];
      return true;
    }
  }

  // ---------- runs ----------

  datatype Call = Call(key: BucketKey, now: real)

  predicate ClockMovesForward(calls: seq<Call>) {
    forall i, j :: 0 <= i <= j < |calls| ==> calls[i].now <= calls[j].now
  }

  function BucketsAfter(calls: seq<Call>, limit: int, window: real): Buckets {
    if calls == [] then map[]
    else
      var before := BucketsAfter(calls[..|calls| - 1], limit, window);
      var c := calls[|calls| - 1];
      before[c.key := CheckBucket(Lookup(before, c.key), limit, window, c.now).0]
  }

  // The decision on one more call after the given ones.
  predicate Accepts(calls: seq<Call>, next: Call, limit: int, window: real) {
    CheckBucket(Lookup(BucketsAfter(calls, limit, window), next.key), limit, window, next.now).1
  }

  // How many calls of a bucket are accepted at times from lo to hi.
  function Accepted(calls: seq<Call>, key: BucketKey, lo: real, hi: real, limit: int, window: real): nat {
    if calls == [] then 0
    else
      var before, c := calls[..|calls| - 1], calls[|calls| - 1];
      Accepted(before, key, lo, hi, limit, window)
      + if c.key == key && lo <= c.now <= hi && Accepts(before, c, limit, window) then 1 else 0
  }

  function Capacity(limit: int): nat {
    if limit < 1 then 1 else limit
  }

  lemma {:induction false} BucketBounds(calls: seq<Call>, key: BucketKey, limit: int, window: real)
    requires ClockMovesForward(calls)
    ensures var b := Lookup(BucketsAfter(calls, limit, window), key);
            b.Some? ==> calls != [] && 1 <= b.value.count <= Capacity(limit)
                        && b.value.windowStartedAt <= calls[|calls| - 1].now
  {
    if calls != [] {
      BucketBounds(calls[..|calls| - 1], key, limit, window);
    }
  }

  lemma {:induction false} NoneYet(calls: seq<Call>, key: BucketKey, lo: real, hi: real, limit: int, window: real)
    requires forall c :: c in calls ==> c.now < lo
    ensures Accepted(calls, key, lo, hi, limit, window) == 0
  {
    if calls != [] {
      NoneYet(calls[..|calls| - 1], key, lo, hi, limit, window);
    }
  }

  // The accepted calls from lo on fall into `windows` windows, the last of which is the current one.
  ghost predicate Covered(n: nat, windows: nat, bucket: Bucket, lo: real, limit: int, window: real) {
    && windows >= 1
    && n <= (windows - 1) * Capacity(limit) + bucket.count
    && bucket.windowStartedAt > lo + (windows as real - 2.0) * window
  }

  lemma {:induction false} CoverAccepted(calls: seq<Call>, key: BucketKey, lo: real, hi: real, limit: int, window: real)
    returns (windows: nat)
    requires ClockMovesForward(calls) && window > 0.0 && lo <= hi
    requires forall c :: c in calls ==> c.now <= hi
    ensures var n := Accepted(calls, key, lo, hi, limit, window);
            n > 0 ==> key in BucketsAfter(calls, limit, window)
                      && Covered(n, windows, BucketsAfter(calls, limit, window)[key], lo, limit, window)
  {
    hide Covered;
    windows := 1;
    if calls != [] {
      var before, c := calls[..|calls| - 1], calls[|calls| - 1];
      windows := CoverAccepted(before, key, lo, hi, limit, window);
      if c.key == key && lo <= c.now && Accepts(before, c, limit, window) {
        BucketBounds(before, key, limit, window);
        windows := CoverOneMore(Accepted(before, key, lo, hi, limit, window), windows,
                                Lookup(BucketsAfter(before, limit, window), key), c.now, lo, limit, window);
      } else if c.now < lo {
        NoneYet(calls, key, lo, hi, limit, window);
      } else {
        NotAcceptedSame(before, c, key, limit, window);
      }
    }
  }

  // A call for another bucket, or a refused one, leaves the bucket as it is.
  lemma NotAcceptedSame(before: seq<Call>, c: Call, key: BucketKey, limit: int, window: real)
    requires c.key != key || !Accepts(before, c, limit, window)
    ensures Lookup(BucketsAfter(before + [c], limit, window), key) == Lookup(BucketsAfter(before, limit, window), key)
  {
    assert (before + [c])[..|before|] == before;
  }

  lemma CoverOneMore(n: nat, windows: nat, bucket: Option<Bucket>, now: real, lo: real, limit: int, window: real)
    returns (after: nat)
    requires bucket.Some? ==> 1 <= bucket.value.count <= Capacity(limit)
    requires n > 0 ==> bucket.Some? && Covered(n, windows, bucket.value, lo, limit, window)
    requires window > 0.0 && lo <= now && CheckBucket(bucket, limit, window, now).1
    ensures Covered(n + 1, after, CheckBucket(bucket, limit, window, now).0, lo, limit, window)
  {
    after := if n == 0 then 1 else windows;
    if n > 0 && now - bucket.value.windowStartedAt >= window {
      after := windows + 1;
      OneMoreWindow(n, windows, bucket.value, now, lo, limit, window);
    }
  }

  lemma OneMoreWindow(n: nat, windows: nat, bucket: Bucket, now: real, lo: real, limit: int, window: real)
    requires Covered(n, windows, bucket, lo, limit, window) && bucket.count <= Capacity(limit)
    requires now - bucket.windowStartedAt >= window
    ensures Covered(n + 1, windows + 1, Bucket(now, 1), lo, limit, window)
  {
    assert (windows as real - 2.0) * window + window == (windows as real - 1.0) * window;
    assert (windows - 1) * Capacity(limit) + Capacity(limit) == windows * Capacity(limit);
  }

  lemma ScaleUp(x: real, y: real, w: real)
    requires x >= y && w > 0.0
    ensures x * w >= y * w
  {
    assert (x - y) * w >= 0.0;
  }

  lemma WindowsStartInside(windows: nat, start: real, lo: real, k: nat, window: real)
    requires window > 0.0 && lo + (windows as real - 2.0) * window < start <= lo + k as real * window
    ensures windows <= k + 1
  {
    if windows > k + 1 {
      assert windows as real - 2.0 >= k as real;
      ScaleUp(windows as real - 2.0, k as real, window);
      assert false;
    }
  }

  lemma WindowsFit(n: nat, windows: nat, bucket: Bucket, lo: real, k: nat, limit: int, window: real)
    requires window > 0.0 && Covered(n, windows, bucket, lo, limit, window) && bucket.count <= Capacity(limit)
    requires bucket.windowStartedAt <= lo + k as real * window
    ensures n <= (k + 1) * Capacity(limit)
  {
    WindowsStartInside(windows, bucket.windowStartedAt, lo, k, window);
    ScaleUpNat(windows, k + 1, Capacity(limit));
    assert (windows - 1) * Capacity(limit) + Capacity(limit) == windows * Capacity(limit);
  }

  lemma ScaleUpNat(x: nat, y: nat, c: nat)
    requires x <= y
    ensures x * c <= y * c
  {
    assert (y - x) * c >= 0;
  }

  // Any closed interval as long as k windows holds at most (k + 1) * max(1, limit) accepted calls.
  lemma {:induction false} IntervalBound(calls: seq<Call>, key: BucketKey, lo: real, k: nat, limit: int, window: real)
    requires ClockMovesForward(calls) && window > 0.0
    ensures Accepted(calls, key, lo, lo + k as real * window, limit, window) <= (k + 1) * Capacity(limit)
  {
    var hi := lo + k as real * window;
    if calls != [] {
      var before, c := calls[..|calls| - 1], calls[|calls| - 1];
      if c.now > hi {
        IntervalBound(before, key, lo, k, limit, window);
      } else {
        var windows := CoverAccepted(calls, key, lo, hi, limit, window);
        BucketBounds(calls, key, limit, window);
        var n := Accepted(calls, key, lo, hi, limit, window);
        if n > 0 {
          WindowsFit(n, windows, BucketsAfter(calls, limit, window)[key], lo, k, limit, window);
        }
      }
    }
  }

  // The bucket's count is the number of calls accepted since its window started.
  lemma {:induction false} CountIsAccepted(calls: seq<Call>, key: BucketKey, hi: real, limit: int, window: real)
    requires ClockMovesForward(calls) && window > 0.0
    requires forall c :: c in calls ==> c.now <= hi
    ensures var b := Lookup(BucketsAfter(calls, limit, window), key);
            && (b.Some? ==> Accepted(calls, key, b.value.windowStartedAt, hi, limit, window) == b.value.count)
            && forall lo :: (b.Some? ==> b.value.windowStartedAt + window <= lo)
                            ==> Accepted(calls, key, lo, hi, limit, window) == 0
  {
    if calls != [] {
      var before, c := calls[..|calls| - 1], calls[|calls| - 1];
      CountIsAccepted(before, key, hi, limit, window);
      BucketBounds(before, key, limit, window);
    }
  }

  // A call is refused exactly when the window that is open at that time already holds `limit` accepted calls.
  lemma RefusedIff(calls: seq<Call>, next: Call, limit: int, window: real)
    requires ClockMovesForward(calls + [next]) && window > 0.0
    ensures !Accepts(calls, next, limit, window) <==>
            var b := Lookup(BucketsAfter(calls, limit, window), next.key);
            && b.Some? && next.now < b.value.windowStartedAt + window
            && Accepted(calls, next.key, b.value.windowStartedAt, next.now, limit, window) >= limit
  {
    forall c | c in calls
      ensures c.now <= next.now
    {
      var i :| 0 <= i < |calls| && calls[i] == c;
      assert (calls + [next])[i] == c && (calls + [next])[|calls|] == next;
    }
    forall i, j | 0 <= i <= j < |calls|
      ensures calls[i].now <= calls[j].now
    {
      assert (calls + [next])[i] == calls[i] && (calls + [next])[j] == calls[j];
    }
    CountIsAccepted(calls, next.key, next.now, limit, window);
  }

  // The first call of a bucket is accepted whatever the limit.
  lemma FirstCallAccepted(next: Call, limit: int, window: real)
    ensures Accepts([], next, limit, window)
  {
  }

  // The calls accepted in the current window of a bucket are at most `limit`.
  predicate WindowWithinLimit(calls: seq<Call>, key: BucketKey, limit: int, window: real) {
    var b := Lookup(BucketsAfter(calls, limit, window), key);
    b.Some? && calls != [] ==>
      Accepted(calls, key, b.value.windowStartedAt, calls[|calls| - 1].now, limit, window) <= limit
  }

  // In every run and every window at most `limit` calls are accepted, if and only if the limit is at
  // least one; with a smaller limit each window still lets one call through.
  lemma WindowsWithinLimitIff(limit: int, window: real)
    requires window > 0.0
    ensures (forall calls: seq<Call>,
             key: BucketKey :: ClockMovesForward(calls) ==> WindowWithinLimit(calls, key, limit, window))
            <==> limit >= 1
  {
    forall calls: seq<Call>, key: BucketKey | ClockMovesForward(calls) && limit >= 1
      ensures WindowWithinLimit(calls, key, limit, window)
    {
      if calls != [] {
        LastIsLatest(calls);
        CountIsAccepted(calls, key, calls[|calls| - 1].now, limit, window);
        BucketBounds(calls, key, limit, window);
      }
    }
    if limit < 1 {
      var key := ("", "");
      ZeroLimitWindow(key, limit, window);
    }
  }

  lemma LastIsLatest(calls: seq<Call>)
    requires ClockMovesForward(calls) && calls != []
    ensures forall c :: c in calls ==> c.now <= calls[|calls| - 1].now
  {
  }

  lemma ZeroLimitWindow(key: BucketKey, limit: int, window: real)
    requires limit < 1 && window > 0.0
    ensures ClockMovesForward([Call(key, 0.0)]) && !WindowWithinLimit([Call(key, 0.0)], key, limit, window)
  {
    var calls := [Call(key, 0.0)];
    assert calls[..0] == [];
    FirstCallAccepted(calls[0], limit, window);
    assert Accepted([], key, 0.0, 0.0, limit, window) == 0;
    assert Accepted(calls, key, 0.0, 0.0, limit, window) == 1;
  }

  // ---------- the counting rule of the shared limiter ----------

  // Calls are counted per aligned window; a call is accepted while the count stays within the limit.
  function WindowIndex(now: real, window: real): int
    requires window > 0.0
  {
    (now / window).Floor
  }

  function CallsInWindow(calls: seq<Call>, key: BucketKey, index: int, window: real): nat
    requires window > 0.0
  {
    if calls == [] then 0
    else
      var c := calls[|calls| - 1];
      CallsInWindow(calls[..|calls| - 1], key, index, window)
      + if c.key == key && WindowIndex(c.now, window) == index then 1 else 0
  }

  predicate SharedAccepts(calls: seq<Call>, next: Call, limit: int, window: real)
    requires window > 0.0
  {
    CallsInWindow(calls, next.key, WindowIndex(next.now, window), window) + 1 <= limit
  }

  // Accepted calls whose window lies in [first, first + windows).
  function SharedAcceptedIn(calls: seq<Call>, key: BucketKey, first: int, windows: nat, limit: int, window: real): nat
    requires window > 0.0
  {
    if calls == [] then 0
    else
      var before, c := calls[..|calls| - 1], calls[|calls| - 1];
      SharedAcceptedIn(before, key, first, windows, limit, window)
      + if c.key == key && first <= WindowIndex(c.now, window) < first + windows
           && SharedAccepts(before, c, limit, window) then 1 else 0
  }

  function SharedAccepted(calls: seq<Call>, key: BucketKey, lo: real, hi: real, limit: int, window: real): nat
    requires window > 0.0
  {
    if calls == [] then 0
    else
      var before, c := calls[..|calls| - 1], calls[|calls| - 1];
      SharedAccepted(before, key, lo, hi, limit, window)
      + if c.key == key && lo <= c.now <= hi && SharedAccepts(before, c, limit, window) then 1 else 0
  }

  function SharedCapacity(limit: int): nat {
    if limit < 0 then 0 else limit
  }

  lemma {:induction false} OneWindowBound(calls: seq<Call>, key: BucketKey, index: int, limit: int, window: real)
    requires window > 0.0
    ensures var n := CallsInWindow(calls, key, index, window);
            SharedAcceptedIn(calls, key, index, 1, limit, window)
            == if n <= SharedCapacity(limit) then n else SharedCapacity(limit)
  {
    if calls != [] {
      OneWindowBound(calls[..|calls| - 1], key, index, limit, window);
    }
  }

  lemma {:induction false} AddWindow(calls: seq<Call>, key: BucketKey, first: int, windows: nat, limit: int,
                                     window: real)
    requires window > 0.0
    ensures SharedAcceptedIn(calls, key, first, windows + 1, limit, window)
            == SharedAcceptedIn(calls, key, first, windows, limit, window)
               + SharedAcceptedIn(calls, key, first + windows, 1, limit, window)
    ensures SharedAcceptedIn(calls, key, first, 0, limit, window) == 0
  {
    if calls != [] {
      AddWindow(calls[..|calls| - 1], key, first, windows, limit, window);
    }
  }

  lemma {:induction false} WindowsBound(calls: seq<Call>, key: BucketKey, first: int, windows: nat, limit: int,
                                        window: real)
    requires window > 0.0
    ensures SharedAcceptedIn(calls, key, first, windows, limit, window) <= windows * SharedCapacity(limit)
  {
    if windows == 0 {
      AddWindow(calls, key, first, 0, limit, window);
    } else {
      WindowsBound(calls, key, first, windows - 1, limit, window);
      AddWindow(calls, key, first, windows - 1, limit, window);
      OneWindowBound(calls, key, first + windows - 1, limit, window);
      assert (windows - 1) * SharedCapacity(limit) + SharedCapacity(limit) == windows * SharedCapacity(limit);
    }
  }

  lemma WindowIndexInRange(now: real, lo: real, k: nat, window: real)
    requires window > 0.0 && lo <= now <= lo + k as real * window
    ensures WindowIndex(lo, window) <= WindowIndex(now, window) < WindowIndex(lo, window) + k + 1
  {
    DivideDown(lo, now, window);
    DivideDown(now, lo + k as real * window, window);
    assert (lo + k as real * window) / window == lo / window + k as real;
  }

  lemma DivideDown(x: real, y: real, w: real)
    requires x <= y && w > 0.0
    ensures x / w <= y / w
  {
    assert (y - x) / w >= 0.0;
    assert (y - x) / w == y / w - x / w;
  }

  lemma {:induction false} IntervalInWindows(calls: seq<Call>, key: BucketKey, lo: real, k: nat, limit: int,
                                             window: real)
    requires window > 0.0
    ensures SharedAccepted(calls, key, lo, lo + k as real * window, limit, window)
            <= SharedAcceptedIn(calls, key, WindowIndex(lo, window), k + 1, limit, window)
  {
    if calls != [] {
      IntervalInWindows(calls[..|calls| - 1], key, lo, k, limit, window);
      var c := calls[|calls| - 1];
      if lo <= c.now <= lo + k as real * window {
        WindowIndexInRange(c.now, lo, k, window);
      }
    }
  }

  // The same interval bound for the shared limiter, whatever the order of the callers' clocks, as long
  // as no window's count has expired; with a limit of zero or less it accepts nothing at all.
  lemma SharedIntervalBound(calls: seq<Call>, key: BucketKey, lo: real, k: nat, limit: int, window: real)
    requires window > 0.0
    ensures SharedAccepted(calls, key, lo, lo + k as real * window, limit, window) <= (k + 1) * SharedCapacity(limit)
  {
    IntervalInWindows(calls, key, lo, k, limit, window);
    WindowsBound(calls, key, WindowIndex(lo, window), k + 1, limit, window);
  }
}
