/** The in-memory fixed-window limiter of founder registration (lib/founder-rate-limit.ts). */
module RateLimit {
  import opened Wrappers

  datatype Bucket = Bucket(count: nat, resetAt: Time)

  datatype RateLimitResult = Allowed | Refused(retryAfterSeconds: int)

  datatype Call = Call(key: string, max: int, windowSeconds: int, now: Time)

  type Buckets = map<string, Bucket>

  // `Math.max(1, Math.ceil(ms / 1_000))`
  function RetryAfter(ms: int): int {
    var seconds := (ms + 999) / 1_000;
    if seconds < 1 then 1 else seconds
  }

  function BucketOf(buckets: Buckets, key: string): Option<Bucket> {
    if key in buckets then Some(buckets[key]) else None
  }

  // The bucket the call counts against, after counting it.
  function NextBucket(existing: Option<Bucket>, call: Call): Bucket {
    if existing.None? || existing.value.resetAt <= call.now then Bucket(1, call.now + call.windowSeconds * 1_000)
    else existing.value.(count := existing.value.count + 1)
  }

  function Verdict(bucket: Bucket, call: Call): RateLimitResult {
    if bucket.count > call.max then Refused(RetryAfter(bucket.resetAt - call.now)) else Allowed
  }

  class Limiter {
    var memoryBuckets: Buckets
    ghost var history: seq<Call>

    ghost predicate Valid()
      reads this
    {
      memoryBuckets == After(history)
    }

    constructor ()
      ensures Valid() && history == []
    {
      memoryBuckets := map[];
      history := [];
    }

    // Used any number of times, a limiter answers as its whole history says.
    method Consume(call: Call) returns (r: RateLimitResult)
      requires Valid()
      modifies this
      ensures Valid() && history == old(history) + [call] && r == LastVerdict(history)
      ensures
        var bucket := NextBucket(BucketOf(old(memoryBuckets), call.key), call);
        memoryBuckets == old(memoryBuckets)[call.key := bucket] && r == Verdict(bucket, call)
    {
      var existing := BucketOf(memoryBuckets, call.key);
      var bucket := if existing.None? || existing.value.resetAt <= call.now
        then Bucket(0, call.now + call.windowSeconds * 1_000) else existing.value;
      bucket := bucket.(count := bucket.count + 1);
      history := history + [call];
      assert history[..|history| - 1] == old(history);
      memoryBuckets := memoryBuckets[call.key := bucket];
      if bucket.count > call.max {
        return Refused(RetryAfter(bucket.resetAt - call.now));
      }
      return Allowed;
    }
  }

  // ---------- any number of calls ----------

  function After(calls: seq<Call>): Buckets {
    if calls == [] then map[]
    else
      var before, call := After(calls[..|calls| - 1]), calls[|calls| - 1];
      before[call.key := NextBucket(BucketOf(before, call.key), call)]
  }

  function LastVerdict(calls: seq<Call>): RateLimitResult
    requires calls != []
  {
    var call := calls[|calls| - 1];
    Verdict(NextBucket(BucketOf(After(calls[..|calls| - 1]), call.key), call), call)
  }

  // How many calls of the key were allowed at instants from lo up to hi.
  function AllowedIn(calls: seq<Call>, key: string, lo: Time, hi: Time): nat {
    if calls == [] then 0
    else
      var call := calls[|calls| - 1];
      AllowedIn(calls[..|calls| - 1], key, lo, hi)
      + (if call.key == key && lo <= call.now < hi && LastVerdict(calls).Allowed? then 1 else 0)
  }

  // The same limit every time, and a clock that never goes back.
  ghost predicate Steady(calls: seq<Call>, key: string, max: int, windowSeconds: nat) {
    && (forall i :: 0 <= i < |calls| && calls[i].key == key ==>
      calls[i].max == max && calls[i].windowSeconds == windowSeconds)
    && (forall i, j :: 0 <= i < j < |calls| && calls[i].key == key && calls[j].key == key ==>
      calls[i].now <= calls[j].now)
  }

  // A negative limit allows nothing.
  function Limit(max: int): nat {
    if max < 0 then 0 else max
  }

  function AtMost(count: nat, max: int): nat {
    if count < Limit(max) then count else Limit(max)
  }

  // ---------- keys do not interfere ----------

  function Only(calls: seq<Call>, key: string): seq<Call> {
    if calls == [] then []
    else
      var call := calls[|calls| - 1];
      Only(calls[..|calls| - 1], key) + (if call.key == key then [call] else [])
  }

  lemma {:induction false} KeysDoNotInterfere(calls: seq<Call>, key: string)
    ensures BucketOf(After(calls), key) == BucketOf(After(Only(calls, key)), key)
    ensures calls != [] && calls[|calls| - 1].key == key ==>
        Only(calls, key) != [] && LastVerdict(Only(calls, key)) == LastVerdict(calls)
  {
    if calls != [] {
      var init, call := calls[..|calls| - 1], calls[|calls| - 1];
      KeysDoNotInterfere(init, key);
      if call.key == key {
        assert (Only(init, key) + [call])[..|Only(init, key)|] == Only(init, key);
      } else {
        assert Only(calls, key) == Only(init, key);
      }
    }
  }

  // ---------- bounds ----------

  // Calls of the key happened before the end of its current bucket.
  lemma {:induction false} CallsPrecedeReset(calls: seq<Call>, key: string, max: int, windowSeconds: nat, lo: Time,
                                             hi: Time)
    requires Steady(calls, key, max, windowSeconds) && windowSeconds > 0
    ensures BucketOf(After(calls), key).None? ==> AllowedIn(calls, key, lo, hi) == 0
    ensures BucketOf(After(calls), key).Some? && BucketOf(After(calls), key).value.resetAt <= lo ==>
        AllowedIn(calls, key, lo, hi) == 0
  {
    if calls != [] {
      CallsPrecedeReset(calls[..|calls| - 1], key, max, windowSeconds, lo, hi);
      ResetIsAhead(calls, key, max, windowSeconds);
    }
  }

  lemma {:induction false} ResetIsAhead(calls: seq<Call>, key: string, max: int, windowSeconds: nat)
    requires Steady(calls, key, max, windowSeconds) && windowSeconds > 0
    ensures forall i :: 0 <= i < |calls| && calls[i].key == key ==>
      key in After(calls) && calls[i].now < After(calls)[key].resetAt
  {
    if calls != [] {
      ResetIsAhead(calls[..|calls| - 1], key, max, windowSeconds);
    }
  }

  lemma {:induction false} StartIsPast(calls: seq<Call>, key: string, windowSeconds: nat, t: Time)
    requires forall i :: 0 <= i < |calls| && calls[i].key == key ==>
        calls[i].windowSeconds == windowSeconds && calls[i].now <= t
    ensures key in After(calls) ==> After(calls)[key].resetAt - windowSeconds * 1_000 <= t
  {
    if calls != [] {
      StartIsPast(calls[..|calls| - 1], key, windowSeconds, t);
    }
  }

  // One bucket allows at most max calls while it is the current one.
  lemma {:induction false} CurrentBucketBound(calls: seq<Call>, key: string, max: int, windowSeconds: nat)
    requires Steady(calls, key, max, windowSeconds) && windowSeconds > 0 && key in After(calls)
    ensures
      var b := After(calls)[key];
      AllowedIn(calls, key, b.resetAt - windowSeconds * 1_000, b.resetAt) <= AtMost(b.count, max)
  {
    var init, call := calls[..|calls| - 1], calls[|calls| - 1];
    var existing := BucketOf(After(init), key);
    if call.key == key && (existing.None? || existing.value.resetAt <= call.now) {
      CallsPrecedeReset(init, key, max, windowSeconds, call.now, call.now + windowSeconds * 1_000);
    } else {
      CurrentBucketBound(init, key, max, windowSeconds);
    }
  }

  // ... and ever: whatever is called later, a bucket opened earlier lets no more through.
  lemma {:induction false} AtMostMaxPerBucket(calls: seq<Call>, key: string, max: int, windowSeconds: nat, n: nat)
    requires Steady(calls, key, max, windowSeconds) && windowSeconds > 0 && n <= |calls| && key in After(calls[..n])
    ensures key in After(calls)
    ensures
      var b, c := After(calls[..n])[key], After(calls)[key];
      && AllowedIn(calls, key, b.resetAt - windowSeconds * 1_000,
        b.resetAt) <= (if c.resetAt == b.resetAt then AtMost(c.count, max) else Limit(max))
      && (c.resetAt == b.resetAt || c.resetAt >= b.resetAt + windowSeconds * 1_000)
    decreases |calls|
  {
    if n == |calls| {
      assert calls[..n] == calls;
      CurrentBucketBound(calls, key, max, windowSeconds);
    } else {
      var init, call := calls[..|calls| - 1], calls[|calls| - 1];
      assert init[..n] == calls[..n];
      AtMostMaxPerBucket(init, key, max, windowSeconds, n);
      CountIsBounded(init, key);
      if call.key == key {
        StartIsPast(init, key, windowSeconds, call.now);
      }
    }
  }

  lemma {:induction false} CountIsBounded(calls: seq<Call>, key: string)
    ensures key in After(calls) ==> 1 <= After(calls)[key].count <= |calls|
  {
    if calls != [] {
      CountIsBounded(calls[..|calls| - 1], key);
    }
  }

  lemma {:induction false} NotYet(calls: seq<Call>, key: string, lo: Time, hi: Time)
    requires forall i :: 0 <= i < |calls| && calls[i].key == key ==> calls[i].now < lo
    ensures AllowedIn(calls, key, lo, hi) == 0
  {
    if calls != [] {
      NotYet(calls[..|calls| - 1], key, lo, hi);
    }
  }

  // A bucket's first call is spent when the bucket opens.
  function Spare(max: int): nat {
    if max < 1 then 0 else max - 1
  }

  // What an interval of one window's length has seen, by where the current bucket began.
  ghost predicate IntervalBound(calls: seq<Call>, key: string, max: int, windowSeconds: nat, from: Time) {
    var seen, w, current :=
      AllowedIn(calls, key, from, from + windowSeconds * 1_000), windowSeconds * 1_000, BucketOf(After(calls), key);
    match current
    case None => seen == 0
    case Some(b) =>
      var began := b.resetAt - w;
      && (began < from ==> seen <= Spare(max) + AtMost(b.count, max) - Limit(max) || seen == 0)
      && (from <= began < from + w ==> seen <= Spare(max) + AtMost(b.count, max))
      && (from + w <= began ==> seen <= Spare(max) + Limit(max))
  }

  lemma {:induction false} IntervalBounds(calls: seq<Call>, key: string, max: int, windowSeconds: nat, from: Time)
    requires Steady(calls, key, max, windowSeconds) && windowSeconds > 0
    ensures IntervalBound(calls, key, max, windowSeconds, from)
  {
    if calls != [] {
      var init, call := calls[..|calls| - 1], calls[|calls| - 1];
      IntervalBounds(init, key, max, windowSeconds, from);
      ResetIsAhead(calls, key, max, windowSeconds);
      CountIsBounded(init, key);
      if call.key == key {
        StartIsPast(init, key, windowSeconds, call.now);
        if call.now < from {
          NotYet(calls, key, from, from + windowSeconds * 1_000);
        }
      }
    }
  }

  // In any half-open interval of one window's length fewer than twice the limit pass.
  lemma LessThanTwiceMax(calls: seq<Call>, key: string, max: int, windowSeconds: nat, from: Time)
    requires Steady(calls, key, max, windowSeconds)
    ensures AllowedIn(calls, key, from, from + windowSeconds * 1_000) <= if max < 1 then 0 else 2 * max - 1
  {
    if windowSeconds > 0 {
      IntervalBounds(calls, key, max, windowSeconds, from);
    } else {
      EmptyInterval(calls, key, from);
    }
  }

  lemma {:induction false} EmptyInterval(calls: seq<Call>, key: string, from: Time)
    ensures AllowedIn(calls, key, from, from) == 0
  {
    if calls != [] {
      EmptyInterval(calls[..|calls| - 1], key, from);
    }
  }

  function Times(call: Call, n: nat): seq<Call> {
    seq(n, _ => call)
  }

  lemma LastCall(all: seq<Call>, lo: Time, hi: Time)
    requires all != []
    requires
      var init, call := all[..|all| - 1], all[|all| - 1];
      NextBucket(BucketOf(After(init), call.key), call).count <= call.max
    ensures
      var init, call := all[..|all| - 1], all[|all| - 1];
      && BucketOf(After(all), call.key) == Some(NextBucket(BucketOf(After(init), call.key), call))
      && AllowedIn(all, call.key, lo, hi) == AllowedIn(init, call.key, lo, hi) + (if lo <= call.now < hi then 1 else 0)
  {
  }

  // What one more call does, if its bucket lets it through.
  lemma OneMore(calls: seq<Call>, call: Call, all: seq<Call>, lo: Time, hi: Time)
    requires NextBucket(BucketOf(After(calls), call.key), call).count <= call.max && all == calls + [call]
    ensures BucketOf(After(all), call.key) == Some(NextBucket(BucketOf(After(calls), call.key), call))
    ensures AllowedIn(all, call.key, lo, hi) == AllowedIn(calls, call.key, lo, hi)
        + (if lo <= call.now < hi then 1 else 0)
  {
    assert all[..|all| - 1] == calls;
    LastCall(all, lo, hi);
  }

  lemma OneLess(calls: seq<Call>, call: Call, n: nat, all: seq<Call>)
    requires n > 0 && all == calls + Times(call, n)
    ensures all != [] && all[|all| - 1] == call && all[..|all| - 1] == calls + Times(call, n - 1)
  {
  }

  // Repeated calls within an open bucket all pass while the limit lasts.
  lemma {:induction false} Burst(calls: seq<Call>, call: Call, n: nat, all: seq<Call>, lo: Time, hi: Time)
    requires all == calls + Times(call, n) && lo <= call.now < hi
    requires
      var before := BucketOf(After(calls), call.key);
      before.Some? && call.now < before.value.resetAt && before.value.count + n <= call.max
    ensures
      var b := BucketOf(After(calls), call.key).value;
      && BucketOf(After(all), call.key) == Some(b.(count := b.count + n))
      && AllowedIn(all, call.key, lo, hi) == AllowedIn(calls, call.key, lo, hi) + n
    decreases n
  {
    if n == 0 {
      assert all == calls;
    } else {
      var init := all[..|all| - 1];
      OneLess(calls, call, n, all);
      Burst(calls, call, n - 1, init, lo, hi);
      LastCall(all, lo, hi);
    }
  }

  // One call opens a bucket, and the rest of the limit comes just before it closes.
  function FirstHalf(key: string, max: int, windowSeconds: nat): seq<Call>
    requires max >= 1
  {
    [Call(key, max, windowSeconds, 0)] + Times(Call(key, max, windowSeconds, windowSeconds * 1_000 - 1), max - 1)
  }

  // The whole limit comes just after it has closed.
  function TightRun(key: string, max: int, windowSeconds: nat): seq<Call>
    requires max >= 1
  {
    var early := Call(key, max, windowSeconds, windowSeconds * 1_000);
    FirstHalf(key, max, windowSeconds) + [early] + Times(early, max - 1)
  }

  lemma FirstHalfPasses(key: string, max: int, windowSeconds: nat)
    requires max >= 1 && windowSeconds >= 1
    ensures
      var calls, w := FirstHalf(key, max, windowSeconds), windowSeconds * 1_000;
      && BucketOf(After(calls), key) == Some(Bucket(max, w))
      && AllowedIn(calls, key, w - 1, 2 * w - 1) == max - 1
  {
    var w := windowSeconds * 1_000;
    var opening, late := Call(key, max, windowSeconds, 0), Call(key, max, windowSeconds, w - 1);
    LastCall([opening], w - 1, 2 * w - 1);
    assert [opening][..0] == [];
    Burst([opening], late, max - 1, FirstHalf(key, max, windowSeconds), w - 1, 2 * w - 1);
  }

  // A call that finds its bucket closed opens a new one, which takes the whole limit.
  lemma FreshBucketPasses(calls: seq<Call>, early: Call, half: seq<Call>, all: seq<Call>, lo: Time, hi: Time)
    requires early.max >= 1 && early.windowSeconds >= 1 && lo <= early.now < hi
    requires BucketOf(After(calls), early.key).None? || BucketOf(After(calls), early.key).value.resetAt <= early.now
    requires half == calls + [early] && all == half + Times(early, early.max - 1)
    ensures AllowedIn(all, early.key, lo, hi) == AllowedIn(calls, early.key, lo, hi) + early.max
  {
    OneMore(calls, early, half, lo, hi);
    Burst(half, early, early.max - 1, all, lo, hi);
  }

  lemma TightRunIsSteady(key: string, max: int, windowSeconds: nat)
    requires max >= 1 && windowSeconds >= 1
    ensures Steady(TightRun(key, max, windowSeconds), key, max, windowSeconds)
  {
    var half, calls, w := FirstHalf(key, max, windowSeconds), TightRun(key, max, windowSeconds), windowSeconds * 1_000;
    forall i | 0 <= i < |calls|
      ensures calls[i] == Call(key, max, windowSeconds, if i == 0 then 0 else if i < |half| then w - 1 else w)
    {
    }
  }

  // The bound is reached, whatever the limit and the window.
  lemma BoundIsReached(key: string, max: int, windowSeconds: nat)
    requires max >= 1 && windowSeconds >= 1
    ensures
      var calls, from := TightRun(key, max, windowSeconds), windowSeconds * 1_000 - 1;
      Steady(calls, key, max, windowSeconds) && AllowedIn(calls, key, from, from + windowSeconds * 1_000) == 2 * max - 1
  {
    FirstHalfPasses(key, max, windowSeconds);
    var half, early, w :=
      FirstHalf(key, max, windowSeconds), Call(key, max, windowSeconds, windowSeconds * 1_000), windowSeconds * 1_000;
    FreshBucketPasses(half, early, half + [early], TightRun(key, max, windowSeconds), w - 1, 2 * w - 1);
    TightRunIsSteady(key, max, windowSeconds);
  }

  // ---------- waiting ----------

  lemma {:induction false} OthersKeepBucket(calls: seq<Call>, others: seq<Call>, key: string)
    requires forall i :: 0 <= i < |others| ==> others[i].key != key
    ensures BucketOf(After(calls + others), key) == BucketOf(After(calls), key)
  {
    if others == [] {
      assert calls + others == calls;
    } else {
      var init, last := others[..|others| - 1], others[|others| - 1];
      assert (calls + others)[..|calls + others| - 1] == calls + init;
      OthersKeepBucket(calls, init, key);
    }
  }

  // A refused caller who waits as told, with nobody else on the key, is allowed next.
  lemma WaitingIsEnough(calls: seq<Call>, others: seq<Call>, again: Call)
    requires calls != [] && LastVerdict(calls).Refused?
    requires forall i :: 0 <= i < |others| ==> others[i].key != again.key
    requires again.key == calls[|calls| - 1].key && again.max >= 1
    requires again.now >= calls[|calls| - 1].now + 1_000 * LastVerdict(calls).retryAfterSeconds
    ensures LastVerdict(calls).retryAfterSeconds >= 1 && LastVerdict(calls + others + [again]).Allowed?
  {
    OthersKeepBucket(calls, others, again.key);
    assert (calls + others + [again])[..|calls + others|] == calls + others;
  }

  // And no shorter wait would do: told more than one second, whoever comes back a
  // second early, or earlier, is refused again.
  lemma WaitingLessIsNotEnough(calls: seq<Call>, others: seq<Call>, again: Call)
    requires calls != [] && LastVerdict(calls).Refused? && LastVerdict(calls).retryAfterSeconds > 1
    requires forall i :: 0 <= i < |others| ==> others[i].key != again.key
    requires again.key == calls[|calls| - 1].key && again.max <= calls[|calls| - 1].max
    requires again.now <= calls[|calls| - 1].now + 1_000 * (LastVerdict(calls).retryAfterSeconds - 1)
    ensures LastVerdict(calls + others + [again]).Refused?
  {
    OthersKeepBucket(calls, others, again.key);
    assert (calls + others + [again])[..|calls + others|] == calls + others;
  }
}
