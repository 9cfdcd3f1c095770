/**
 The lag histogram of reactor_lag.h: counters that each wake of the probe bumps, their difference
 over an interval, and the quantile read from them. Counters are 64 bits wide and wrap.
 */
module LagHistogram {
  import opened LagBuckets

  const WRAP: nat := 0x1_0000_0000_0000_0000

  // A 64-bit counter that has been bumped to n.
  function Wrapped(n: int): nat {
    n % WRAP
  }

  // ---------- What the counters count ----------

  function InBucket(samples: seq<nat>, i: nat): nat {
    if samples == [] then 0
    else InBucket(samples[..|samples| - 1], i) + (if IndexOf(samples[|samples| - 1]) == i then 1 else 0)
  }

  function Sum(samples: seq<nat>): nat {
    if samples == [] then 0 else Sum(samples[..|samples| - 1]) + samples[|samples| - 1]
  }

  function Largest(samples: seq<nat>): nat {
    if samples == [] then 0
    else
      var m := Largest(samples[..|samples| - 1]);
      if samples[|samples| - 1] > m then samples[|samples| - 1] else m
  }

  // How many samples are in buckets before `i`.
  function Below(samples: seq<nat>, i: nat): nat {
    if samples == [] then 0
    else Below(samples[..|samples| - 1], i) + (if IndexOf(samples[|samples| - 1]) < i then 1 else 0)
  }

  lemma InBucketNext(samples: seq<nat>, us: nat, i: nat)
    ensures InBucket(samples + [us], i) == InBucket(samples, i) + (if IndexOf(us) == i then 1 else 0)
  {
    assert (samples + [us])[..|samples|] == samples;
  }

  lemma SumNext(samples: seq<nat>, us: nat)
    ensures Sum(samples + [us]) == Sum(samples) + us
    ensures Largest(samples + [us]) == if us > Largest(samples) then us else Largest(samples)
  {
    assert (samples + [us])[..|samples|] == samples;
  }

  lemma {:induction false} BelowNext(samples: seq<nat>, i: nat)
    ensures Below(samples, i + 1) == Below(samples, i) + InBucket(samples, i)
    ensures Below(samples, 0) == 0
  {
    if samples != [] {
      BelowNext(samples[..|samples| - 1], i);
    }
  }

  lemma {:induction false} BelowAll(samples: seq<nat>)
    ensures Below(samples, BUCKETS) == |samples|
  {
    if samples != [] {
      BelowAll(samples[..|samples| - 1]);
      InItsBucket(samples[|samples| - 1], 0);
    }
  }

  lemma {:induction false} InBucketBound(samples: seq<nat>, i: nat)
    ensures InBucket(samples, i) <= |samples| && Below(samples, i) <= |samples|
  {
    if samples != [] {
      InBucketBound(samples[..|samples| - 1], i);
    }
  }

  lemma {:induction false} InBucketConcat(a: seq<nat>, b: seq<nat>, i: nat)
    ensures InBucket(a + b, i) == InBucket(a, i) + InBucket(b, i)
    ensures Sum(a + b) == Sum(a) + Sum(b)
    decreases |b|
  {
    if b == [] {
      assert a + b == a;
    } else {
      assert (a + b)[..|a + b| - 1] == a + b[..|b| - 1];
      InBucketConcat(a, b[..|b| - 1], i);
    }
  }

  // ---------- The nearest rank ----------

  ghost predicate Sorted(ys: seq<nat>) {
    forall i, j :: 0 <= i <= j < |ys| ==> ys[i] <= ys[j]
  }

  // ys is samples in increasing order.
  ghost predicate SortedFrom(ys: seq<nat>, samples: seq<nat>) {
    Sorted(ys) && multiset(ys) == multiset(samples)
  }

  // Every list of samples has such an order, so what holds for all of them is not empty.
  lemma {:induction false} SortedExists(samples: seq<nat>) returns (ys: seq<nat>)
    ensures SortedFrom(ys, samples)
  {
    ys := [];
    if samples != [] {
      var last := |samples| - 1;
      var zs := SortedExists(samples[..last]);
      assert samples == samples[..last] + [samples[last]];
      var top := if zs != [] && zs[|zs| - 1] > samples[last] then zs[|zs| - 1] else samples[last];
      ys := Inserted(zs, samples[last], top);
    }
  }

  lemma {:induction false} Inserted(zs: seq<nat>, x: nat, top: nat) returns (ys: seq<nat>)
    requires Sorted(zs) && x <= top && forall i :: 0 <= i < |zs| ==> zs[i] <= top
    ensures Sorted(ys) && multiset(ys) == multiset(zs) + multiset{x}
    ensures forall i :: 0 <= i < |ys| ==> ys[i] <= top
  {
    var last := |zs| - 1;
    if zs != [] && zs[last] > x {
      var front := Inserted(zs[..last], x, zs[last]);
      assert zs == zs[..last] + [zs[last]];
      ys := front + [zs[last]];
    } else {
      ys := zs + [x];
    }
  }

  // q * n, with what multiplying by a fraction does to n.
  function Part(q: real, n: nat): (x: real)
    requires q >= 0.0
    ensures x >= 0.0 && (q > 0.0 && n > 0 ==> x > 0.0)
    ensures q <= 1.0 ==> x <= n as real
    ensures q > 1.0 && n > 0 ==> x > n as real
  {
    Scaled(q, n as real);
    q * n as real
  }

  lemma Scaled(q: real, x: real)
    requires q >= 0.0 && x >= 0.0
    ensures q * x >= 0.0 && (q > 0.0 && x > 0.0 ==> q * x > 0.0)
    ensures q <= 1.0 ==> q * x <= x
    ensures q > 1.0 && x > 0.0 ==> q * x > x
  {
    if q <= 1.0 {
      assert (1.0 - q) * x >= 0.0;
    } else {
      assert (q - 1.0) * x >= 0.0;
    }
  }

  // x rounded up, and at least 1.
  function RoundUp(x: real): (r: int)
    requires x >= 0.0
    ensures r >= 1
    ensures x > 0.0 ==> (r - 1) as real < x <= r as real
    ensures x == 0.0 ==> r == 1
  {
    var need := x.Floor;
    var up := if need as real < x then need + 1 else need;
    if up == 0 then 1 else up
  }

  // The rank of the q-th fraction of n samples.
  function Rank(q: real, n: nat): (r: int)
    requires q >= 0.0
    ensures r >= 1
    ensures 0.0 < q && n > 0 ==> (r - 1) as real < Part(q, n) <= r as real
    ensures q <= 1.0 && n > 0 ==> r <= n
    ensures q > 1.0 && n > 0 ==> r > n
  {
    hide RoundUp, Part;
    RoundUp(Part(q, n))
  }

  // Bucket `b` holds the sample of rank r: fewer than r samples are before it, at least r up to it.
  ghost predicate HoldsRank(samples: seq<nat>, b: nat, r: int) {
    Below(samples, b) < r <= Below(samples, b + 1)
  }

  lemma {:induction false} BelowMonotone(samples: seq<nat>, a: nat, b: nat)
    requires a <= b
    ensures Below(samples, a) <= Below(samples, b)
  {
    if a < b {
      BelowMonotone(samples, a, b - 1);
      BelowNext(samples, b - 1);
    }
  }

  lemma OneHoldsRank(samples: seq<nat>, a: nat, b: nat, r: int)
    requires HoldsRank(samples, a, r) && HoldsRank(samples, b, r)
    ensures a == b
  {
    if a < b {
      BelowMonotone(samples, a + 1, b);
    } else if b < a {
      BelowMonotone(samples, b + 1, a);
    }
  }

  lemma {:induction false} BelowWithout(samples: seq<nat>, k: nat, i: nat)
    requires k < |samples|
    ensures Below(samples, i) ==
            Below(samples[..k] + samples[k + 1..], i) + (if IndexOf(samples[k]) < i then 1 else 0)
  {
    var last := |samples| - 1;
    if k < last {
      BelowWithout(samples[..last], k, i);
      var cut := samples[..k] + samples[k + 1..];
      assert cut[..|cut| - 1] == samples[..last][..k] + samples[..last][k + 1..];
    } else {
      assert samples[..k] + samples[k + 1..] == samples[..last];
    }
  }

  lemma TakenOut(ys: seq<nat>, k: nat)
    requires k < |ys|
    ensures multiset(ys[..k] + ys[k + 1..]) == multiset(ys) - multiset{ys[k]}
  {
    assert ys == ys[..k] + ([ys[k]] + ys[k + 1..]);
    assert multiset(ys) == multiset(ys[..k]) + (multiset{ys[k]} + multiset(ys[k + 1..]));
  }

  // Counting does not depend on the order.
  lemma {:induction false} BelowPermutes(xs: seq<nat>, ys: seq<nat>, i: nat)
    requires multiset(xs) == multiset(ys)
    ensures Below(xs, i) == Below(ys, i) && |xs| == |ys|
    decreases |xs|
  {
    assert |multiset(xs)| == |xs| && |multiset(ys)| == |ys|;
    if xs != [] {
      var x := xs[|xs| - 1];
      var front := xs[..|xs| - 1];
      assert xs == front + [x];
      assert x in multiset(ys);
      var k :| 0 <= k < |ys| && ys[k] == x;
      var rest := ys[..k] + ys[k + 1..];
      TakenOut(ys, k);
      TakenOut(xs, |xs| - 1);
      assert front + xs[|xs|..] == front;
      assert multiset(front) == multiset(xs) - multiset{x};
      BelowPermutes(front, rest, i);
      BelowWithout(ys, k, i);
    }
  }

  // A prefix of a sorted list whose next sample is in bucket b counts all that is below b.
  lemma {:induction false} SortedBelow(ys: seq<nat>, m: nat, b: nat)
    requires Sorted(ys) && m <= |ys|
    requires m < |ys| ==> b <= IndexOf(ys[m])
    ensures Below(ys, b) <= m
    decreases |ys|
  {
    if m < |ys| {
      var last := |ys| - 1;
      IndexMonotone(ys[m], ys[last]);
      SortedBelow(ys[..last], m, b);
    } else {
      InBucketBound(ys, b);
    }
  }

  lemma {:induction false} PrefixBelow(ys: seq<nat>, m: nat, b: nat)
    requires Sorted(ys) && 0 < m <= |ys| && IndexOf(ys[m - 1]) <= b
    ensures Below(ys, b + 1) >= m
    decreases |ys|
  {
    var last := |ys| - 1;
    if m <= last {
      PrefixBelow(ys[..last], m, b);
    } else if m > 1 {
      IndexMonotone(ys[m - 2], ys[m - 1]);
      PrefixBelow(ys[..last], m - 1, b);
    }
  }

  // The bucket that holds a rank is the bucket of that sample in the sorted list.
  lemma RankInSorted(samples: seq<nat>, ys: seq<nat>, r: int)
    requires SortedFrom(ys, samples) && 1 <= r <= |ys|
    ensures HoldsRank(samples, IndexOf(ys[r - 1]), r)
  {
    var b := IndexOf(ys[r - 1]);
    BelowPermutes(samples, ys, b);
    BelowPermutes(samples, ys, b + 1);
    SortedBelow(ys, r - 1, b);
    PrefixBelow(ys, r, b);
  }

  // ---------- The snapshot ----------

  class LagSnapshot {
    const count: array<nat>
    var wakes: nat
    var sumUs: nat
    var maxUs: nat

    // The counters are those of `samples`, in 64 bits; max_us is not a counter.
    ghost predicate Shows(samples: seq<nat>)
      reads this, count
    {
      && count.Length == BUCKETS
      && (forall i :: 0 <= i < BUCKETS ==> count[i] == Wrapped(InBucket(samples, i)))
      && wakes == Wrapped(|samples|)
      && sumUs == Wrapped(Sum(samples))
    }

    constructor ()
      ensures Shows([]) && maxUs == 0 && fresh(count)
    {
      count := new nat[BUCKETS](_ => 0);
      wakes, sumUs, maxUs := 0, 0, 0;
    }

    // One wake, `us` late.
    method Record(us: nat, ghost samples: seq<nat>)
      requires Shows(samples) && maxUs == Largest(samples)
      modifies this, count
      ensures Shows(samples + [us]) && maxUs == Largest(samples + [us])
    {
      hide IndexOf, Wrapped, InBucket, Sum, Largest;
      InItsBucket(us, 0);
      var i := IndexOf(us);
      Added(InBucket(samples, i), 1);
      Added(|samples|, 1);
      Added(Sum(samples), us);
      count[i] := Wrapped(count[i] + 1);
      wakes := Wrapped(wakes + 1);
      sumUs := Wrapped(sumUs + us);
      if us > maxUs {
        maxUs := us;
      }
      SumNext(samples, us);
      forall k | 0 <= k < BUCKETS ensures count[k] == Wrapped(InBucket(samples + [us], k)) {
        InBucketNext(samples, us, k);
      }
    }

    // This snapshot minus an earlier one of the same probe: exactly what was recorded in between,
    // even if counters wrapped; max_us stays this snapshot's.
    method Since(earlier: LagSnapshot, ghost before: seq<nat>, ghost between: seq<nat>) returns (d: LagSnapshot)
      requires earlier.Shows(before) && Shows(before + between)
      ensures fresh(d) && d.Shows(between) && d.maxUs == maxUs
    {
      hide Wrapped, IndexOf, InBucket;
      d := new LagSnapshot();
      for i := 0 to BUCKETS
        invariant d.count.Length == BUCKETS && fresh(d.count)
        invariant earlier.Shows(before) && Shows(before + between)
        invariant forall k :: 0 <= k < i ==> d.count[k] == Wrapped(InBucket(between, k))
      {
        InBucketConcat(before, between, i);
        Difference(InBucket(before, i), InBucket(between, i));
        d.count[i] := Wrapped(count[i] as int - earlier.count[i] as int);
      }
      InBucketConcat(before, between, 0);
      Difference(|before|, |between|);
      Difference(Sum(before), Sum(between));
      d.wakes := Wrapped(wakes as int - earlier.wakes as int);
      d.sumUs := Wrapped(sumUs as int - earlier.sumUs as int);
      d.maxUs := maxUs;
    }

    // The main result: the quantile is the upper edge of the bucket of the nearest-rank sample in the
    // sorted list of all samples.
    method QuantileUpperUs(q: real, ghost samples: seq<nat>) returns (edge: nat)
      requires Shows(samples) && |samples| < WRAP && q >= 0.0
      ensures samples == [] ==> edge == 0
      ensures samples != [] && q > 1.0 ==> edge == UpperUs(BUCKETS - 1)
      ensures samples != [] && q <= 1.0 ==> forall ys :: SortedFrom(ys, samples) ==>
                |ys| == |samples| && edge == UpperUs(IndexOf(ys[Rank(q, |samples|) - 1]))
    {
      var total := Total(samples);
      if total == 0 {
        return 0;
      }
      var need := Rank(q, total);
      var seen := 0;
      BelowNext(samples, 0);
      BelowAll(samples);
      for i := 0 to BUCKETS
        invariant seen == Below(samples, i) < need
      {
        BelowNext(samples, i);
        Unwrapped(samples, i);
        seen := seen + count[i];
        if seen >= need {
          BelowMonotone(samples, i + 1, BUCKETS);
          forall ys | SortedFrom(ys, samples)
            ensures |ys| == |samples| && IndexOf(ys[need - 1]) == i
          {
            BelowPermutes(samples, ys, 0);
            RankInSorted(samples, ys, need);
            OneHoldsRank(samples, i, IndexOf(ys[need - 1]), need);
          }
          return UpperUs(i);
        }
      }
      return UpperUs(BUCKETS - 1);
    }

    method Total(ghost samples: seq<nat>) returns (total: nat)
      requires Shows(samples) && |samples| < WRAP
      ensures total == |samples|
    {
      total := 0;
      BelowNext(samples, 0);
      for i := 0 to BUCKETS
        invariant total == Below(samples, i)
      {
        BelowNext(samples, i);
        Unwrapped(samples, i);
        total := total + count[i];
      }
      BelowAll(samples);
    }

    lemma Unwrapped(samples: seq<nat>, i: nat)
      requires Shows(samples) && |samples| < WRAP && i < BUCKETS
      ensures count[i] == InBucket(samples, i)
    {
      InBucketBound(samples, i);
    }
  }

  // ---------- The probe ----------

  // Times are in nanoseconds.
  const MILLISECOND := 1_000_000
  const SECOND := 1_000 * MILLISECOND
  const BUSY_INTERVAL := 1 * MILLISECOND
  const IDLE_INTERVAL := 100 * MILLISECOND
  const BUSY_WINDOW := 1 * SECOND

  // How late a wake due at `due` is at `now`, in whole microseconds.
  function Lateness(now: int, due: int): (us: nat)
    ensures now <= due ==> us == 0
    ensures now > due ==> us * 1000 <= now - due < (us + 1) * 1000
  {
    if now > due then (now - due) / 1000 else 0
  }

  // Activity is fresh for a second after the wake that noticed it.
  function BusyUntil(noticed: seq<int>): int {
    if noticed == [] then 0 else noticed[|noticed| - 1] + BUSY_WINDOW
  }

  class LagProbe {
    const counters: LagSnapshot
    var due: int
    var busyUntil: int
    var lastActivity: nat
    ghost var samples: seq<nat>        // the lateness of every wake so far
    ghost var noticed: seq<int>        // when a wake saw new activity, latest last

    ghost predicate Valid()
      reads this, counters, counters.count
    {
      && counters.Shows(samples) && counters.maxUs == Largest(samples)
      && busyUntil == BusyUntil(noticed)
    }

    constructor (start: int)
      ensures Valid() && samples == [] && noticed == [] && due == start + IDLE_INTERVAL && busyUntil == 0
    {
      counters := new LagSnapshot();
      due := start + IDLE_INTERVAL;
      busyUntil, lastActivity := 0, 0;
      samples, noticed := [], [];
    }

    // The timer fires at `now`; `later` is the clock when it is armed again. A wake that is cancelled
    // or finds the probe stopped records nothing and does not arm. Otherwise it records its lateness,
    // and the next interval is the busy one exactly while the last new activity is under a second old.
    method Tick(ended: bool, now: int, later: int, activity: nat) returns (armed: bool)
      requires Valid()
      modifies this, counters, counters.count
      ensures Valid() && armed == !ended
      ensures ended ==> samples == old(samples) && noticed == old(noticed) && due == old(due)
      ensures ended ==> busyUntil == old(busyUntil) && lastActivity == old(lastActivity)
      ensures armed ==> samples == old(samples) + [Lateness(now, old(due))]
      ensures armed ==> noticed == if activity != old(lastActivity) then old(noticed) + [now] else old(noticed)
      ensures armed ==> lastActivity == activity
      ensures armed ==> due == later + (if now < BusyUntil(noticed) then BUSY_INTERVAL else IDLE_INTERVAL)
      ensures armed && noticed != [] && now - noticed[|noticed| - 1] < 1_000_000_000 ==> due == later + 1_000_000
      ensures armed && noticed != [] && now - noticed[|noticed| - 1] >= 1_000_000_000 ==> due == later + 100_000_000
    {
      if ended {
        return false;
      }
      var us := Lateness(now, due);
      counters.Record(us, samples);
      samples := samples + [us];
      if activity != lastActivity {
        lastActivity := activity;
        busyUntil := now + BUSY_WINDOW;
        noticed := noticed + [now];
      }
      due := later + (if now < busyUntil then BUSY_INTERVAL else IDLE_INTERVAL);
      return true;
    }
  }

  // 64-bit addition.
  lemma Added(a: nat, b: nat)
    ensures Wrapped(Wrapped(a) + b) == Wrapped(a + b)
  {
  }

  // 64-bit subtraction undoes 64-bit addition.
  lemma Difference(a: nat, b: nat)
    ensures Wrapped(Wrapped(a + b) - Wrapped(a)) == Wrapped(b)
  {
  }
}
