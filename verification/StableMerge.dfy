/** Bottom-up merge sort as a function on sequences: the specification of HASH_SRT in uthash.h. */
module StableMerge {

  /** cmp orders any two elements of S, and consistently. */
  ghost predicate TotalOn<T>(S: set<T>, cmp: (T, T) -> int) {
    && (forall x, y :: x in S && y in S ==> cmp(x, y) <= 0 || cmp(y, x) <= 0)
    && (forall x, y, z :: x in S && y in S && z in S && cmp(x, y) <= 0 && cmp(y, z) <= 0 ==> cmp(x, z) <= 0)
  }

  ghost predicate From<T>(s: seq<T>, S: set<T>) {
    forall x :: x in s ==> x in S
  }

  ghost predicate Sorted<T>(s: seq<T>, cmp: (T, T) -> int) {
    forall i, j :: 0 <= i < j < |s| ==> cmp(s[i], s[j]) <= 0
  }

  predicate Tied<T>(x: T, c: T, cmp: (T, T) -> int) {
    cmp(x, c) <= 0 && cmp(c, x) <= 0
  }

  /** The elements of s that the order does not tell apart from c, as they stand in s. */
  function Class<T>(s: seq<T>, c: T, cmp: (T, T) -> int): seq<T> {
    if s == [] then [] else (if Tied(s[0], c, cmp) then [s[0]] else []) + Class(s[1..], c, cmp)
  }

  /** Merging prefers the first run on ties. */
  function Merge<T>(a: seq<T>, b: seq<T>, cmp: (T, T) -> int): (m: seq<T>)
    ensures |m| == |a| + |b|
    decreases |a| + |b|
  {
    if |a| == 0 then b
    else if |b| == 0 then a
    else if cmp(a[0], b[0]) <= 0 then [a[0]] + Merge(a[1..], b, cmp)
    else [b[0]] + Merge(a, b[1..], cmp)
  }

  lemma MergeSecond<T>(a: seq<T>, b: seq<T>, cmp: (T, T) -> int)
    requires |b| > 0 && (|a| == 0 || cmp(a[0], b[0]) > 0)
    ensures Merge(a, b, cmp) == [b[0]] + Merge(a, b[1..], cmp)
  {
    if |a| == 0 {
      assert b == [b[0]] + b[1..];
      assert Merge(a, b[1..], cmp) == b[1..];
    }
  }

  function Least(n: nat, m: nat): nat { if n < m then n else m }

  /** The first k elements, the next k, and the rest. */
  function Run1<T>(s: seq<T>, k: nat): seq<T> { s[..Least(k, |s|)] }

  function Run2<T>(s: seq<T>, k: nat): seq<T> { s[Least(k, |s|)..Least(2 * k, |s|)] }

  function Rest<T>(s: seq<T>, k: nat): seq<T> { s[Least(2 * k, |s|)..] }

  /** One pass: neighbouring runs of length k are merged pairwise. */
  function Pass<T>(s: seq<T>, k: nat, cmp: (T, T) -> int): (r: seq<T>)
    requires k > 0
    ensures |r| == |s|
  {
    if |s| == 0 then [] else Merge(Run1(s, k), Run2(s, k), cmp) + Pass(Rest(s, k), k, cmp)
  }

  /** Passes with doubling run length until one merge covers the whole list. */
  function SortFrom<T>(s: seq<T>, k: nat, cmp: (T, T) -> int): (r: seq<T>)
    requires k > 0
    ensures |r| == |s|
    decreases |s| - k
  {
    if |s| <= 2 * k then Pass(s, k, cmp) else SortFrom(Pass(s, k, cmp), 2 * k, cmp)
  }

  lemma CutJoins<T>(s: seq<T>, k: nat)
    ensures s == Run1(s, k) + Run2(s, k) + Rest(s, k)
    ensures s == Run1(s, k) + (Run2(s, k) + Rest(s, k))
  {}

  // ----- Permutation, for any comparison function

  lemma {:induction false} MergePermutes<T>(a: seq<T>, b: seq<T>, cmp: (T, T) -> int)
    ensures multiset(Merge(a, b, cmp)) == multiset(a) + multiset(b)
    decreases |a| + |b|
  {
    if a != [] && b != [] {
      if cmp(a[0], b[0]) <= 0 {
        MergePermutes(a[1..], b, cmp);
        assert a == [a[0]] + a[1..];
      } else {
        MergePermutes(a, b[1..], cmp);
        assert b == [b[0]] + b[1..];
      }
    }
  }

  lemma {:induction false} PassPermutes<T>(s: seq<T>, k: nat, cmp: (T, T) -> int)
    requires k > 0
    ensures multiset(Pass(s, k, cmp)) == multiset(s)
    decreases |s|
  {
    hide Run1, Run2, Merge;
    if s != [] {
      MergePermutes(Run1(s, k), Run2(s, k), cmp);
      PassPermutes(Rest(s, k), k, cmp);
      CutJoins(s, k);
    }
  }

  /** The sorted list has the same elements, however cmp behaves. */
  lemma {:induction false} SortPermutes<T>(s: seq<T>, k: nat, cmp: (T, T) -> int)
    requires k > 0
    ensures multiset(SortFrom(s, k, cmp)) == multiset(s)
    decreases |s| - k
  {
    hide Pass;
    PassPermutes(s, k, cmp);
    if |s| > 2 * k {
      SortPermutes(Pass(s, k, cmp), 2 * k, cmp);
    }
  }

  lemma SameElements<T>(r: seq<T>, s: seq<T>, S: set<T>)
    requires multiset(r) == multiset(s) && From(s, S)
    ensures From(r, S)
  {
    forall x | x in r
      ensures x in S
    {
      assert x in multiset(r);
    }
  }

  // ----- Order

  lemma {:induction false} MergeSorts<T>(a: seq<T>, b: seq<T>, S: set<T>, cmp: (T, T) -> int)
    requires TotalOn(S, cmp) && From(a, S) && From(b, S) && Sorted(a, cmp) && Sorted(b, cmp)
    ensures Sorted(Merge(a, b, cmp), cmp)
    decreases |a| + |b|
  {
    if a != [] && b != [] {
      if cmp(a[0], b[0]) <= 0 {
        MergeSorts(a[1..], b, S, cmp);
        HeadIsLeast(a[0], a[1..], b, S, cmp);
      } else {
        MergeSorts(a, b[1..], S, cmp);
        HeadIsLeast(b[0], a, b[1..], S, cmp);
      }
    }
  }

  lemma HeadIsLeast<T>(e: T, a: seq<T>, b: seq<T>, S: set<T>, cmp: (T, T) -> int)
    requires TotalOn(S, cmp) && e in S && From(a, S) && From(b, S) && Sorted(a, cmp) && Sorted(b, cmp)
    requires a != [] ==> cmp(e, a[0]) <= 0
    requires b != [] ==> cmp(e, b[0]) <= 0
    requires Sorted(Merge(a, b, cmp), cmp)
    ensures Sorted([e] + Merge(a, b, cmp), cmp)
  {
    hide Merge;
    MergePermutes(a, b, cmp);
    var m := Merge(a, b, cmp);
    forall i | 0 <= i < |m|
      ensures cmp(e, m[i]) <= 0
    {
      assert m[i] in multiset(m);
      if m[i] in a {
        LeastOf(e, a, m[i], S, cmp);
      } else {
        LeastOf(e, b, m[i], S, cmp);
      }
    }
  }

  lemma LeastOf<T>(e: T, a: seq<T>, x: T, S: set<T>, cmp: (T, T) -> int)
    requires TotalOn(S, cmp) && e in S && From(a, S) && Sorted(a, cmp) && x in a && cmp(e, a[0]) <= 0
    ensures cmp(e, x) <= 0
  {
    var i :| 0 <= i < |a| && a[i] == x;
    assert a[0] in S && x in S;
    if i > 0 {
      assert cmp(a[0], a[i]) <= 0;
    }
  }

  /** Every block of length k that starts at a multiple of k is sorted. */
  ghost predicate Runs<T>(s: seq<T>, k: nat, cmp: (T, T) -> int)
    requires k > 0
  {
    |s| == 0 || (Sorted(s[..Least(k, |s|)], cmp) && Runs(s[Least(k, |s|)..], k, cmp))
  }

  lemma TwoRuns<T>(s: seq<T>, k: nat, cmp: (T, T) -> int)
    requires k > 0 && Runs(s, k, cmp)
    ensures Sorted(Run1(s, k), cmp) && Sorted(Run2(s, k), cmp) && Runs(Rest(s, k), k, cmp)
  {
    if s != [] {
      var rest := s[Least(k, |s|)..];
      if rest != [] {
        assert Run2(s, k) == rest[..Least(k, |rest|)];
        assert Rest(s, k) == rest[Least(k, |rest|)..];
      }
    }
  }

  lemma FromParts<T>(s: seq<T>, k: nat, S: set<T>)
    requires From(s, S)
    ensures From(Run1(s, k), S) && From(Run2(s, k), S) && From(Rest(s, k), S)
  {}

  lemma FirstRun<T>(m: seq<T>, r: seq<T>, k: nat, cmp: (T, T) -> int)
    requires k > 0 && Sorted(m, cmp) && Runs(r, k, cmp) && (|m| == k || (0 < |m| <= k && |r| == 0))
    ensures Runs(m + r, k, cmp)
  {
    assert (m + r)[..Least(k, |m + r|)] == m;
    assert (m + r)[Least(k, |m + r|)..] == r;
  }

  lemma {:induction false} PassDoublesRuns<T>(s: seq<T>, k: nat, S: set<T>, cmp: (T, T) -> int)
    requires k > 0 && TotalOn(S, cmp) && From(s, S) && Runs(s, k, cmp)
    ensures Runs(Pass(s, k, cmp), 2 * k, cmp)
    decreases |s|
  {
    hide TotalOn, Sorted, Merge;
    if s != [] {
      TwoRuns(s, k, cmp);
      FromParts(s, k, S);
      MergeSorts(Run1(s, k), Run2(s, k), S, cmp);
      PassDoublesRuns(Rest(s, k), k, S, cmp);
      FirstRun(Merge(Run1(s, k), Run2(s, k), cmp), Pass(Rest(s, k), k, cmp), 2 * k, cmp);
    }
  }

  lemma OneRun<T>(s: seq<T>, k: nat, cmp: (T, T) -> int)
    requires 0 < k && |s| <= k && Runs(s, k, cmp)
    ensures Sorted(s, cmp)
  {
    assert s[..|s|] == s;
  }

  lemma {:induction false} SortSorts<T>(s: seq<T>, k: nat, S: set<T>, cmp: (T, T) -> int)
    requires k > 0 && TotalOn(S, cmp) && From(s, S) && Runs(s, k, cmp)
    ensures Sorted(SortFrom(s, k, cmp), cmp)
    decreases |s| - k
  {
    hide TotalOn, From, Sorted, Pass, Runs;
    PassDoublesRuns(s, k, S, cmp);
    PassPermutes(s, k, cmp);
    SameElements(Pass(s, k, cmp), s, S);
    if |s| > 2 * k {
      SortSorts(Pass(s, k, cmp), 2 * k, S, cmp);
    } else {
      OneRun(Pass(s, k, cmp), 2 * k, cmp);
    }
  }

  lemma {:induction false} SingletonRuns<T>(s: seq<T>, cmp: (T, T) -> int)
    ensures Runs(s, 1, cmp)
  {
    if |s| > 0 {
      SingletonRuns(s[1..], cmp);
    }
  }

  // ----- Stability

  lemma {:induction false} ClassSplit<T>(a: seq<T>, b: seq<T>, c: T, cmp: (T, T) -> int)
    ensures Class(a + b, c, cmp) == Class(a, c, cmp) + Class(b, c, cmp)
  {
    if |a| == 0 {
      assert a + b == b;
    } else {
      assert (a + b)[1..] == a[1..] + b;
      ClassSplit(a[1..], b, c, cmp);
    }
  }

  lemma {:induction false} ClassAbsent<T>(a: seq<T>, c: T, cmp: (T, T) -> int)
    requires forall x :: x in a ==> cmp(x, c) > 0
    ensures Class(a, c, cmp) == []
  {
    if a != [] {
      ClassAbsent(a[1..], c, cmp);
    }
  }

  /** When a sorted run starts above e, none of its elements is tied with what e is tied with. */
  lemma AboveMeansUntied<T>(e: T, a: seq<T>, c: T, S: set<T>, cmp: (T, T) -> int)
    requires TotalOn(S, cmp) && From(a, S) && e in S && c in S && Sorted(a, cmp)
    requires a != [] && cmp(a[0], e) > 0 && Tied(e, c, cmp)
    ensures Class(a, c, cmp) == []
  {
    forall x | x in a
      ensures cmp(x, c) > 0
    {
      LeastOf(a[0], a, x, S, cmp) by { assert a[0] in S; assert cmp(a[0], a[0]) <= 0; }
      assert a[0] in S && x in S;
    }
    ClassAbsent(a, c, cmp);
  }

  lemma {:induction false} MergeStable<T>(a: seq<T>, b: seq<T>, c: T, S: set<T>, cmp: (T, T) -> int)
    requires TotalOn(S, cmp) && From(a, S) && From(b, S) && c in S && Sorted(a, cmp) && Sorted(b, cmp)
    ensures Class(Merge(a, b, cmp), c, cmp) == Class(a, c, cmp) + Class(b, c, cmp)
    decreases |a| + |b|
  {
    hide TotalOn, Tied;
    if a != [] && b != [] {
      if cmp(a[0], b[0]) <= 0 {
        MergeStable(a[1..], b, c, S, cmp);
        ClassSplit([a[0]], Merge(a[1..], b, cmp), c, cmp);
      } else {
        MergeStable(a, b[1..], c, S, cmp);
        ClassSplit([b[0]], Merge(a, b[1..], cmp), c, cmp);
        if Tied(b[0], c, cmp) {
          AboveMeansUntied(b[0], a, c, S, cmp);
        }
      }
    }
  }

  lemma {:induction false} PassStable<T>(s: seq<T>, k: nat, c: T, S: set<T>, cmp: (T, T) -> int)
    requires k > 0 && TotalOn(S, cmp) && From(s, S) && c in S && Runs(s, k, cmp)
    ensures Class(Pass(s, k, cmp), c, cmp) == Class(s, c, cmp)
    decreases |s|
  {
    hide TotalOn, Sorted, Merge, Class, Runs, Run1, Run2;
    if s != [] {
      var a, b, r := Run1(s, k), Run2(s, k), Rest(s, k);
      TwoRuns(s, k, cmp);
      FromParts(s, k, S);
      MergeStable(a, b, c, S, cmp);
      PassStable(r, k, c, S, cmp);
      ClassSplit(Merge(a, b, cmp), Pass(r, k, cmp), c, cmp);
      CutJoins(s, k);
      ClassSplit(a + b, r, c, cmp);
      ClassSplit(a, b, c, cmp);
    }
  }

  /** Elements the order does not tell apart keep their places relative to each other. */
  lemma {:induction false} SortStable<T>(s: seq<T>, k: nat, c: T, S: set<T>, cmp: (T, T) -> int)
    requires k > 0 && TotalOn(S, cmp) && From(s, S) && c in S && Runs(s, k, cmp)
    ensures Class(SortFrom(s, k, cmp), c, cmp) == Class(s, c, cmp)
    decreases |s| - k
  {
    hide TotalOn, From, Class, Pass, Runs;
    PassStable(s, k, c, S, cmp);
    if |s| > 2 * k {
      PassDoublesRuns(s, k, S, cmp);
      PassPermutes(s, k, cmp);
      SameElements(Pass(s, k, cmp), s, S);
      SortStable(Pass(s, k, cmp), 2 * k, c, S, cmp);
    }
  }

  /** The sort that starts from single elements: a permutation always; for an order that is total on
      the elements also sorted, and stable. */
  lemma {:induction false} SortIsStable<T>(s: seq<T>, S: set<T>, cmp: (T, T) -> int)
    requires From(s, S)
    ensures multiset(SortFrom(s, 1, cmp)) == multiset(s)
    ensures TotalOn(S, cmp) ==> Sorted(SortFrom(s, 1, cmp), cmp)
    ensures TotalOn(S, cmp) ==> forall c :: c in S ==> Class(SortFrom(s, 1, cmp), c, cmp) == Class(s, c, cmp)
  {
    hide *;
    SortPermutes(s, 1, cmp);
    SingletonRuns(s, cmp);
    if TotalOn(S, cmp) {
      SortSorts(s, 1, S, cmp);
      forall c | c in S
        ensures Class(SortFrom(s, 1, cmp), c, cmp) == Class(s, c, cmp)
      {
        SortStable(s, 1, c, S, cmp);
      }
    }
  }
}
