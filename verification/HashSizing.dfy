/** The sizes uthash.h works with: masks and shifts, ideal chain lengths and the load of a table. */
module HashSizing {
  import opened HashSort

  // ----- Masks and shifts

  function Pow2(k: nat): (p: nat)
    ensures p > 0
  {
    if k == 0 then 1 else 2 * Pow2(k - 1)
  }

  /** The bitwise conjunction of two unsigned numbers. */
  function And(a: nat, b: nat): nat {
    if a == 0 || b == 0 then 0 else (if a % 2 == 1 && b % 2 == 1 then 1 else 0) + 2 * And(a / 2, b / 2)
  }

  function ShiftRight(a: nat, k: nat): nat {
    if k == 0 then a else ShiftRight(a / 2, k - 1)
  }

  function Home(hashv: nat, n: nat): (b: nat)
    requires n > 0
    ensures b < n
  {
    hashv % n
  }

  lemma TimesMonotone(a: int, b: int, d: nat)
    requires a <= b
    ensures a * d <= b * d
  {}

  lemma DivideUnique(h: int, d: int, q: int, r: int)
    requires d > 0 && h == d * q + r && 0 <= r < d
    ensures h / d == q && h % d == r
  {
    var q', r' := h / d, h % d;
    assert h == d * q' + r';
    assert d * (q' - q) == r - r';
    assert q' - q >= 1 ==> d * (q' - q) >= d;
    assert q' - q <= -1 ==> d * (q' - q) <= -d;
  }

  lemma HalfRemainder(h: nat, m: nat)
    requires m > 0
    ensures h % (2 * m) == h % 2 + 2 * (h / 2 % m)
    ensures h / (2 * m) == h / 2 / m
  {
    var q, r := h / 2 / m, h / 2 % m;
    assert h / 2 == m * q + r;
    assert 2 * (m * q) == (2 * m) * q;
    DivideUnique(h, 2 * m, q, h % 2 + 2 * r);
  }

  lemma AndWithOnes(h: nat, m: nat)
    ensures And(h, 2 * m + 1) == h % 2 + 2 * And(h / 2, m)
  {}

  /** Masking with a power of two less one is the remainder. */
  lemma {:induction false} MaskIsRemainder(h: nat, k: nat)
    ensures And(h, Pow2(k) - 1) == Home(h, Pow2(k))
    decreases k
  {
    hide And;
    if k > 0 {
      var m := Pow2(k - 1);
      MaskIsRemainder(h / 2, k - 1);
      HalfRemainder(h, m);
      AndWithOnes(h, m - 1);
      assert Pow2(k) - 1 == 2 * (m - 1) + 1;
    } else {
      AndWithZero(h);
    }
  }

  lemma AndWithZero(h: nat)
    ensures And(h, 0) == 0
  {}

  lemma {:induction false} ShiftIsQuotient(h: nat, k: nat)
    ensures ShiftRight(h, k) == h / Pow2(k)
    decreases k
  {
    if k > 0 {
      ShiftIsQuotient(h / 2, k - 1);
      HalfRemainder(h, Pow2(k - 1));
    }
  }

  /** c is n / d, rounded up. */
  ghost predicate RoundsUp(c: nat, n: nat, d: nat) {
    n <= c * d && (c - 1) * d < n
  }

  /** The ideal chain length: shift, mask and one more for a remainder. */
  function IdealLength(n: nat, lb: nat): nat {
    ShiftRight(n, lb) + if And(n, Pow2(lb) - 1) != 0 then 1 else 0
  }

  lemma {:induction false} IdealIsCeiling(n: nat, lb: nat)
    ensures RoundsUp(IdealLength(n, lb), n, Pow2(lb))
    ensures n > 0 ==> IdealLength(n, lb) > 0
  {
    hide Pow2, And, ShiftRight;
    MaskIsRemainder(n, lb);
    ShiftIsQuotient(n, lb);
    Ceiling(n, Pow2(lb));
  }

  lemma Ceiling(n: nat, d: nat)
    requires d > 0
    ensures RoundsUp(n / d + if n % d != 0 then 1 else 0, n, d)
    ensures n > 0 ==> n / d > 0 || n % d != 0
  {
    var q, r := n / d, n % d;
    assert n == d * q + r;
    assert (q + 1) * d == d * q + d && (q - 1) * d == d * q - d && q * d == d * q;
    assert q == 0 ==> d * q == 0;
  }

  // ----- Buckets

  datatype Bucket = Bucket(head: Handle?, count: nat, mult: nat)

  function Total(bs: seq<Bucket>, f: Bucket -> nat): nat {
    if |bs| == 0 then 0 else Total(bs[..|bs| - 1], f) + f(bs[|bs| - 1])
  }

  lemma {:induction false} TotalUpdate(bs: seq<Bucket>, f: Bucket -> nat, i: nat, v: Bucket)
    requires i < |bs|
    ensures Total(bs[i := v], f) == Total(bs, f) - f(bs[i]) + f(v)
  {
    var n := |bs| - 1;
    if i == n {
      assert bs[i := v][..n] == bs[..n];
    } else {
      assert bs[i := v][..n] == bs[..n][i := v];
      TotalUpdate(bs[..n], f, i, v);
    }
  }

  lemma {:induction false} TotalZero(bs: seq<Bucket>, f: Bucket -> nat)
    requires forall i :: 0 <= i < |bs| ==> f(bs[i]) == 0
    ensures Total(bs, f) == 0
  {
    if |bs| > 0 {
      TotalZero(bs[..|bs| - 1], f);
    }
  }

  function CountOf(): Bucket -> nat { (b: Bucket) => b.count }

  /** The elements of a bucket beyond the ideal chain length. */
  function ExcessOver(ideal: nat): Bucket -> nat { (b: Bucket) => if b.count > ideal then b.count - ideal else 0 }

  const THRESHOLD: nat := 10

  /** How many thresholds beyond the first a bucket may still use. */
  function Weight(): Bucket -> nat {
    (b: Bucket) => if b.mult >= 1 then b.mult else if b.count >= THRESHOLD then 1 else 0
  }

  /** No bucket is overdue for an expansion, and the postponed expansions are few. */
  ghost predicate Balanced(bs: seq<Bucket>) {
    && (forall i :: 0 <= i < |bs| ==> Within10(bs[i]))
    && Total(bs, Weight()) <= |bs|
  }

  predicate Within10(b: Bucket) {
    b.count < (b.mult + 1) * THRESHOLD || (b.mult == 0 && b.count == THRESHOLD)
  }

  lemma {:induction false} CountsBounded(bs: seq<Bucket>)
    requires forall i :: 0 <= i < |bs| ==> Within10(bs[i])
    ensures Total(bs, CountOf()) <= 9 * |bs| + 10 * Total(bs, Weight())
  {
    if |bs| > 0 {
      CountsBounded(bs[..|bs| - 1]);
      assert Within10(bs[|bs| - 1]);
    }
  }

  /** A balanced table holds fewer than twenty elements a bucket, and expanding it makes the
      ideal chain no longer than the threshold. */
  lemma {:induction false} LoadIsBounded(bs: seq<Bucket>, n: nat, ideal: nat)
    requires |bs| > 0 && Balanced(bs) && n <= Total(bs, CountOf()) + 1 && RoundsUp(ideal, n, 2 * |bs|)
    ensures Total(bs, CountOf()) <= 19 * |bs|
    ensures ideal <= THRESHOLD
  {
    CountsBounded(bs);
    if ideal > THRESHOLD {
      TimesMonotone(10, ideal - 1, 2 * |bs|);
    }
  }

  /** What an expansion leaves in a bucket. */
  predicate Spread(b: Bucket, ideal: nat) {
    if b.count > ideal then ideal > 0 && b.mult == b.count / ideal else b.mult == 0
  }

  lemma SpreadFits(b: Bucket, ideal: nat)
    requires Spread(b, ideal) && 0 < ideal <= THRESHOLD
    ensures Within10(b) && Weight()(b) * ideal <= b.count
  {
    if b.count > ideal {
      var q := b.count / ideal;
      assert b.count == ideal * q + b.count % ideal;
      assert ideal * q + ideal == ideal * (q + 1) <= THRESHOLD * (q + 1);
      assert q <= 0 ==> ideal * q <= 0;
    }
  }

  lemma {:induction false} WeightsBounded(bs: seq<Bucket>, ideal: nat)
    requires 0 < ideal <= THRESHOLD && forall i :: 0 <= i < |bs| ==> Spread(bs[i], ideal)
    ensures Total(bs, Weight()) * ideal <= Total(bs, CountOf())
  {
    hide Spread, Weight;
    if |bs| > 0 {
      var b := bs[|bs| - 1];
      WeightsBounded(bs[..|bs| - 1], ideal);
      SpreadFits(b, ideal);
      assert (Total(bs[..|bs| - 1], Weight()) + Weight()(b)) * ideal
          == Total(bs[..|bs| - 1], Weight()) * ideal + Weight()(b) * ideal;
    }
  }

  /** Spreading the elements by an ideal length within the threshold makes the table balanced. */
  lemma {:induction false} SpreadBalances(bs: seq<Bucket>, ideal: nat)
    requires forall i :: 0 <= i < |bs| ==> Spread(bs[i], ideal)
    requires 0 < ideal <= THRESHOLD && RoundsUp(ideal, Total(bs, CountOf()), |bs|)
    ensures Balanced(bs)
  {
    hide Spread, Weight;
    WeightsBounded(bs, ideal);
    var w := Total(bs, Weight());
    assert w > |bs| ==> w * ideal >= (|bs| + 1) * ideal;
    assert (|bs| + 1) * ideal == ideal * |bs| + ideal;
    assert (ideal - 1) * |bs| == ideal * |bs| - |bs|;
    forall i | 0 <= i < |bs|
      ensures Within10(bs[i])
    {
      SpreadFits(bs[i], ideal);
    }
  }

  /** One more element in a bucket that stays below its limit keeps the table balanced. */
  lemma OneMoreBalances(bs: seq<Bucket>, i: nat, v: Bucket)
    requires i < |bs| && Balanced(bs) && v.mult == bs[i].mult
    requires v.count == bs[i].count + 1 && v.count < (v.mult + 1) * THRESHOLD
    ensures Balanced(bs[i := v])
  {
    TotalUpdate(bs, Weight(), i, v);
  }

  lemma OneLessBalances(bs: seq<Bucket>, i: nat, v: Bucket)
    requires i < |bs| && Balanced(bs) && v.mult == bs[i].mult && v.count + 1 == bs[i].count
    ensures Balanced(bs[i := v])
  {
    TotalUpdate(bs, Weight(), i, v);
    assert Within10(bs[i]);
  }
}
