/**
 The bucket arithmetic of LagSnapshot (reactor_lag.h): 4 exact buckets for 0..3 us, then 4 per power
 of two up to 2^32 us. Shifts are written as multiplications and divisions by powers of two.
 */
module LagBuckets {
  import opened Basics

  const BUCKETS: nat := 4 + 30 * 4
  const TOP: nat := 0x1_0000_0000

  // The position of the highest bit set: 63 - clz(us) for a 64-bit value.
  function Log2(us: nat): nat
    requires us > 0
  {
    if us == 1 then 0 else 1 + Log2(us / 2)
  }

  function IndexOf(us: nat): nat {
    if us < 4 then us
    else if us >= TOP then BUCKETS - 1
    else
      var e := Log2(us);
      assert e == 1 + Log2(us / 2) && Log2(us / 2) >= 1;
      4 + (e - 2) * 4 + (us / Pow2(e - 2)) % 4
  }

  // The exclusive upper edge of a bucket, and its lower edge.
  function UpperUs(i: nat): nat {
    if i < 4 then i + 1 else (5 + (i - 4) % 4) * Pow2((i - 4) / 4)
  }

  function LowerUs(i: nat): nat {
    if i == 0 then 0 else UpperUs(i - 1)
  }

  // ---------- Powers of two ----------

  lemma {:induction false} Log2Bounds(us: nat)
    requires us > 0
    ensures Pow2(Log2(us)) <= us < Pow2(Log2(us) + 1)
  {
    if us > 1 {
      Log2Bounds(us / 2);
    }
  }

  lemma {:induction false} Pow2Monotone(a: nat, b: nat)
    requires a <= b
    ensures Pow2(a) <= Pow2(b)
  {
    if a < b {
      Pow2Monotone(a, b - 1);
    }
  }

  lemma TopIs()
    ensures Pow2(32) == TOP && Pow2(2) == 4
  {
    assert Pow2(8) == 256;
    assert Pow2(16) == 0x1_0000;
    assert Pow2(24) == 0x100_0000;
  }

  // ---------- A value and its bucket ----------

  // A value from 4 us up is its three leading bits q times 2^j and a rest below 2^j.
  lemma Leading(us: nat) returns (j: nat, q: nat)
    requires 4 <= us < TOP
    ensures j < 30 && 4 <= q < 8
    ensures q * Pow2(j) <= us < (q + 1) * Pow2(j)
    ensures IndexOf(us) == 4 * j + q
  {
    hide Pow2, Log2, IndexOf;
    var e := Log2(us);
    Log2Bounds(us);
    TopIs();
    if e < 2 {
      Pow2Monotone(e + 1, 2);
    }
    if e >= 32 {
      Pow2Monotone(32, e);
    }
    j := e - 2;
    q := us / Pow2(j);
    Fourfold(j);
    assert j + 2 == e && j + 3 == e + 1;
    Quotient(us, Pow2(j));
    IndexIs(us, e, q);
  }

  lemma Fourfold(j: nat)
    ensures Pow2(j + 2) == 4 * Pow2(j) && Pow2(j + 3) == 8 * Pow2(j)
  {
  }

  lemma IndexIs(us: nat, e: nat, q: nat)
    requires 4 <= us < TOP && e == Log2(us) && e >= 2 && q == us / Pow2(e - 2) && 4 <= q < 8
    ensures IndexOf(us) == 4 * (e - 2) + q
  {
    assert q % 4 == q - 4;
  }

  lemma Quotient(us: nat, p: nat)
    requires p > 0 && 4 * p <= us < 8 * p
    ensures 4 <= us / p < 8
    ensures (us / p) * p <= us < (us / p + 1) * p
  {
    var q := us / p;
    assert us == q * p + us % p;
    Scales(q, 3, p);
    Scales(8, q, p);
  }

  lemma Scales(a: nat, b: nat, p: nat)
    ensures a <= b ==> a * p <= b * p
  {
  }

  lemma DivMod4(j: nat, r: nat)
    requires r < 4
    ensures (4 * j + r) / 4 == j && (4 * j + r) % 4 == r
  {
  }

  lemma UpperOf(j: nat, q: nat)
    requires 4 <= q < 8
    ensures UpperUs(4 * j + q) == (q + 1) * Pow2(j)
  {
    DivMod4(j, q - 4);
    assert 4 * j + q - 4 == 4 * j + (q - 4);
  }

  // The edges of the bucket with leading bits q at 2^j.
  lemma Edges(j: nat, q: nat)
    requires 4 <= q < 8
    ensures UpperUs(4 * j + q) == (q + 1) * Pow2(j)
    ensures LowerUs(4 * j + q) == q * Pow2(j)
  {
    hide UpperUs;
    UpperOf(j, q);
    if q > 4 {
      UpperOf(j, q - 1);
    } else if j > 0 {
      UpperOf(j - 1, 7);
      assert 4 * j + 4 - 1 == 4 * (j - 1) + 7;
    } else {
      assert UpperUs(3) == 4 by { SmallUpper(3); }
    }
  }

  lemma SmallUpper(i: nat)
    requires i < 4
    ensures UpperUs(i) == i + 1
  {
  }

  // Every bucket from 4 on has such a form.
  lemma Split(i: nat) returns (j: nat, q: nat)
    requires i >= 4
    ensures 4 <= q < 8 && i == 4 * j + q
  {
    j, q := (i - 4) / 4, (i - 4) % 4 + 4;
  }

  // ---------- Main results on buckets ----------

  // The edges strictly increase and tile the range from 0 to 2^32.
  lemma EdgesTile(i: nat)
    ensures LowerUs(i) < UpperUs(i) == LowerUs(i + 1)
    ensures LowerUs(0) == 0 && UpperUs(BUCKETS - 1) == TOP
  {
    TopIs();
    assert UpperUs(BUCKETS - 1) == 8 * Pow2(29) == Pow2(32);
    if i >= 4 {
      var j, q := Split(i);
      Edges(j, q);
      assert (q + 1) * Pow2(j) == q * Pow2(j) + Pow2(j);
    }
  }

  lemma {:induction false} UpperMonotone(a: nat, b: nat)
    requires a <= b
    ensures UpperUs(a) <= UpperUs(b)
    ensures a < b ==> UpperUs(a) <= LowerUs(b)
  {
    if a < b {
      EdgesTile(b);
      UpperMonotone(a, b - 1);
    }
  }

  // Below 2^32 a value is in bucket i exactly when it lies between the edges of i; beyond, the last
  // bucket takes it. Every 64-bit value has a bucket.
  lemma InItsBucket(us: nat, i: nat)
    ensures IndexOf(us) < BUCKETS
    ensures us < TOP ==> (IndexOf(us) == i <==> LowerUs(i) <= us < UpperUs(i))
    ensures us >= TOP ==> IndexOf(us) == BUCKETS - 1
  {
    if us < TOP {
      if us >= 4 {
        var j, q := Leading(us);
        Edges(j, q);
      }
      assert LowerUs(IndexOf(us)) <= us < UpperUs(IndexOf(us));
      if i < IndexOf(us) {
        UpperMonotone(i, IndexOf(us));
      } else if IndexOf(us) < i {
        UpperMonotone(IndexOf(us), i);
      }
    }
  }

  lemma IndexMonotone(x: nat, y: nat)
    requires x <= y
    ensures IndexOf(x) <= IndexOf(y)
  {
    InItsBucket(x, IndexOf(x));
    InItsBucket(y, IndexOf(y));
    if y < TOP && IndexOf(y) < IndexOf(x) {
      UpperMonotone(IndexOf(y), IndexOf(x));
    }
  }

  // From 4 us up a bucket is at most a quarter of its lower edge wide and at least an eighth of its
  // upper edge: 12.5% to 25%.
  lemma Widths(i: nat)
    requires i >= 4
    ensures 4 * (UpperUs(i) - LowerUs(i)) <= LowerUs(i)
    ensures 8 * (UpperUs(i) - LowerUs(i)) >= UpperUs(i)
  {
    hide UpperUs, LowerUs, Pow2;
    var j, q := Split(i);
    Edges(j, q);
    Multiples(q, Pow2(j));
  }

  lemma Multiples(q: nat, p: nat)
    requires 4 <= q < 8
    ensures (q + 1) * p == q * p + p && 4 * p <= q * p && (q + 1) * p <= 8 * p
  {
    if q == 4 {
    } else if q == 5 {
    } else if q == 6 {
    } else {
    }
  }

  // So the edge reported for a sample is above it and at most a quarter more.
  lemma EdgeAboveSample(us: nat)
    requires 4 <= us < TOP
    ensures us < UpperUs(IndexOf(us)) && 4 * UpperUs(IndexOf(us)) <= 5 * us
  {
    var j, q := Leading(us);
    InItsBucket(us, IndexOf(us));
    Widths(IndexOf(us));
  }
}
