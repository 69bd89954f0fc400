/** uthash.h: bucket chains and an application-order list over the same elements, with doubling. */
module HashTable {
  import opened Bytes
  import opened StableMerge
  import opened HashSort
  import opened HashSizing

  // ----- One bucket chain

  /** A bucket's doubly linked chain, with these elements from its head on. */
  ghost predicate HhLinked(c: seq<Handle>)
    reads c`hhNext, c`hhPrev
  {
    && Distinct(c)
    && (|c| > 0 ==> c[0].hhPrev == null && c[|c| - 1].hhNext == null)
    && (forall i :: 0 <= i < |c| - 1 ==> c[i].hhNext == c[i + 1] && c[i + 1].hhPrev == c[i])
  }

  /** The head of HASH_ADD_TO_BKT, and the relinking in HASH_EXPAND_BUCKETS. */
  method PushFront(x: Handle, h: Handle?, ghost c: seq<Handle>)
    requires HhLinked(c) && h == First(c) && x !in c
    modifies x`hhNext, x`hhPrev, c`hhPrev
    ensures HhLinked([x] + c)
    ensures forall y :: y in c[..] && y != h ==> y.hhPrev == old(y.hhPrev)
  {
    x.hhPrev := null;
    x.hhNext := h;
    if h != null {
      h.hhPrev := x;
    }
    ghost var d := [x] + c;
    forall i | 0 <= i < |d| - 1
      ensures d[i].hhNext == d[i + 1] && d[i + 1].hhPrev == d[i]
    {
      assert d[i + 1] == c[i];
      if i > 0 {
        assert old(c[i - 1].hhNext == c[i] && c[i].hhPrev == c[i - 1]);
      }
    }
  }

  function Without(s: seq<Handle>, x: Handle): seq<Handle> {
    if |s| == 0 then [] else if s[0] == x then s[1..] else [s[0]] + Without(s[1..], x)
  }

  lemma {:induction false} WithoutAt(s: seq<Handle>, i: nat)
    requires Distinct(s) && i < |s|
    ensures Without(s, s[i]) == s[..i] + s[i + 1..]
  {
    if i > 0 {
      WithoutAt(s[1..], i - 1);
      assert s[..i] == [s[0]] + s[1..][..i - 1];
    }
  }

  /** HASH_DEL_IN_BKT, on the chain's links. */
  method Unlink(x: Handle, h: Handle?, ghost c: seq<Handle>, ghost i: nat) returns (h': Handle?)
    requires HhLinked(c) && h == First(c) && i < |c| && c[i] == x
    modifies c`hhNext, c`hhPrev
    ensures HhLinked(c[..i] + c[i + 1..]) && h' == First(c[..i] + c[i + 1..])
  {
    h' := h;
    ghost var d := c[..i] + c[i + 1..];
    assert i > 0 ==> c[i - 1].hhNext == c[i] && c[i].hhPrev == c[i - 1];
    assert i < |c| - 1 ==> c[i].hhNext == c[i + 1] && c[i + 1].hhPrev == c[i];
    if h == x {
      h' := x.hhNext;
    }
    if x.hhPrev != null {
      x.hhPrev.hhNext := x.hhNext;
    }
    if x.hhNext != null {
      x.hhNext.hhPrev := x.hhPrev;
    }
    forall j | 0 <= j < |d| - 1
      ensures d[j].hhNext == d[j + 1] && d[j + 1].hhPrev == d[j]
    {
      if j + 1 < i {
        assert old(c[j].hhNext == c[j + 1] && c[j + 1].hhPrev == c[j]);
      } else if j >= i {
        assert old(c[j + 1].hhNext == c[j + 2] && c[j + 2].hhPrev == c[j + 1]);
      }
    }
  }

  /** HASH_FIND_IN_BKT. */
  method FindInBkt(h: Handle?, key: seq<byte>, ghost c: seq<Handle>) returns (out: Handle?)
    requires HhLinked(c) && h == First(c)
    ensures out == null ==> forall x :: x in c ==> x.key != key
    ensures out != null ==> out in c && out.key == key
  {
    out := h;
    ghost var i := 0;
    while out != null
      invariant 0 <= i <= |c| && out == First(c[i..])
      invariant forall j :: 0 <= j < i ==> c[j].key != key
      decreases |c| - i
    {
      if |out.key| == |key| && out.key == key {
        return;
      }
      assert i < |c| - 1 ==> c[i].hhNext == c[i + 1];
      out := out.hhNext;
      i := i + 1;
    }
  }

  // ----- All chains

  /** Every element of D is in the chain of the bucket its hash value names, and no other element is in a chain. */
  ghost predicate Placed(chains: seq<seq<Handle>>, hash: seq<byte> -> nat, D: set<Handle>) {
    && |chains| > 0
    && (forall b, x :: 0 <= b < |chains| && x in chains[b] ==> x in D && Home(hash(x.key), |chains|) == b)
    && (forall x :: x in D ==> x in chains[Home(hash(x.key), |chains|)])
  }

  ghost predicate Chains(bs: seq<Bucket>, chains: seq<seq<Handle>>, hash: seq<byte> -> nat, D: set<Handle>)
    reads D`hhNext, D`hhPrev
  {
    && Placed(chains, hash, D) && |bs| == |chains| && Total(bs, CountOf()) == |D|
    && (forall b :: 0 <= b < |bs| ==>
          bs[b].head == First(chains[b]) && bs[b].count == |chains[b]| && HhLinked(chains[b]))
  }

  lemma PlacedPush(chains: seq<seq<Handle>>, hash: seq<byte> -> nat, D: set<Handle>, x: Handle, b: nat)
    requires Placed(chains, hash, D) && x !in D && b == Home(hash(x.key), |chains|)
    ensures Placed(chains[b := [x] + chains[b]], hash, D + {x})
  {
    hide Home;
    var next := chains[b := [x] + chains[b]];
    forall y | y in D + {x}
      ensures y in next[Home(hash(y.key), |next|)]
    {
      if y != x {
        assert y in chains[Home(hash(y.key), |chains|)];
      }
    }
  }

  lemma ChainsApart(chains: seq<seq<Handle>>, hash: seq<byte> -> nat, D: set<Handle>, b: nat)
    requires Placed(chains, hash, D) && b < |chains|
    ensures forall i, y :: 0 <= i < |chains| && i != b && y in chains[i] ==> y !in chains[b] && y in D
    ensures forall y :: y in chains[b] ==> y in D
  {
    hide Home;
    forall i, y | 0 <= i < |chains| && i != b && y in chains[i]
      ensures y !in chains[b] && y in D
    {
      assert Home(hash(y.key), |chains|) == i;
    }
  }

  /** Puts x at the front of bucket b. */
  method PushInto(bs: array<Bucket>, b: nat, x: Handle, mult: nat,
                  ghost chains: seq<seq<Handle>>, ghost hash: seq<byte> -> nat, ghost D: set<Handle>)
    requires Chains(bs[..], chains, hash, D) && x !in D && b == Home(hash(x.key), |chains|)
    modifies bs, x`hhNext, x`hhPrev, D`hhPrev
    ensures bs[..] == old(bs[..])[b := Bucket(x, old(bs[b].count) + 1, mult)]
    ensures Chains(bs[..], chains[b := [x] + chains[b]], hash, D + {x})
  {
    hide Home, Total, HhLinked, Placed;
    ghost var before := bs[..];
    ghost var c := chains[b];
    PlacedPush(chains, hash, D, x, b);
    ChainsApart(chains, hash, D, b);
    PushFront(x, bs[b].head, c);
    forall i | 0 <= i < |chains| && i != b
      ensures HhLinked(chains[i])
    {
      ghost var d := chains[i];
      assert old(HhLinked(d));
      forall j | 0 <= j < |d|
        ensures d[j].hhNext == old(d[j].hhNext) && d[j].hhPrev == old(d[j].hhPrev)
      {
        ghost var y := d[j];
        assert y in d && y !in c && y != x;
        assert forall l :: 0 <= l < |c| ==> c[l] != y;
      }
    }
    TotalUpdate(before, CountOf(), b, Bucket(x, bs[b].count + 1, mult));
    bs[b] := Bucket(x, bs[b].count + 1, mult);
    assert bs[..] == before[b := Bucket(x, before[b].count + 1, mult)];
  }

  lemma PlacedPop(chains: seq<seq<Handle>>, hash: seq<byte> -> nat, D: set<Handle>, b: nat, i: nat)
    requires Placed(chains, hash, D) && b < |chains| && i < |chains[b]| && Distinct(chains[b])
    ensures Placed(chains[b := chains[b][..i] + chains[b][i + 1..]], hash, D - {chains[b][i]})
  {
    hide Home;
    var c, x := chains[b], chains[b][i];
    var next := chains[b := c[..i] + c[i + 1..]];
    forall y | y in D - {x}
      ensures y in next[Home(hash(y.key), |next|)]
    {
      var h := Home(hash(y.key), |chains|);
      assert y in chains[h];
      if h == b {
        var j :| 0 <= j < |c| && c[j] == y;
        assert j < i ==> c[..i][j] == y;
        assert j > i ==> c[i + 1..][j - i - 1] == y;
      }
    }
    forall d, y | 0 <= d < |next| && y in next[d]
      ensures y in D - {x} && Home(hash(y.key), |next|) == d
    {
      if d == b {
        assert y in c;
      } else {
        assert y in chains[d];
        ChainsApart(chains, hash, D, b);
        assert x in chains[b];
      }
    }
  }

  /** Takes x out of bucket b. */
  method PopFrom(bs: array<Bucket>, b: nat, x: Handle,
                 ghost chains: seq<seq<Handle>>, ghost hash: seq<byte> -> nat, ghost D: set<Handle>, ghost i: nat)
    requires Chains(bs[..], chains, hash, D)
    requires b < |chains| && i < |chains[b]| && chains[b][i] == x && x in D
    modifies bs, D`hhNext, D`hhPrev
    ensures bs[..] == old(bs[..])[b := Bucket(bs[b].head, old(bs[b].count) - 1, old(bs[b].mult))]
    ensures Chains(bs[..], chains[b := chains[b][..i] + chains[b][i + 1..]], hash, D - {x})
  {
    hide Home, Total, HhLinked, Placed;
    ghost var before := bs[..];
    ghost var c := chains[b];
    LinkedIsDistinct(c);
    PlacedPop(chains, hash, D, b, i);
    ChainsApart(chains, hash, D, b);
    var h := Unlink(x, bs[b].head, c, i);
    forall k | 0 <= k < |chains| && k != b
      ensures HhLinked(chains[k])
    {
      ghost var d := chains[k];
      assert old(HhLinked(d));
      forall j | 0 <= j < |d|
        ensures d[j].hhNext == old(d[j].hhNext) && d[j].hhPrev == old(d[j].hhPrev)
      {
        ghost var y := d[j];
        assert y in d && y !in c;
        assert forall l :: 0 <= l < |c| ==> c[l] != y;
      }
    }
    TotalUpdate(before, CountOf(), b, Bucket(h, bs[b].count - 1, bs[b].mult));
    bs[b] := Bucket(h, bs[b].count - 1, bs[b].mult);
    assert bs[..] == before[b := Bucket(h, before[b].count - 1, before[b].mult)];
  }

  lemma LinkedIsDistinct(c: seq<Handle>)
    requires HhLinked(c)
    ensures Distinct(c)
  {}

  // ----- The table

  ghost predicate KeysDistinct(s: seq<Handle>) {
    forall i, j :: 0 <= i < j < |s| ==> s[i].key != s[j].key
  }

  ghost predicate Hashed(D: set<Handle>, hash: seq<byte> -> nat)
    reads D`hashv
  {
    forall x :: x in D ==> x.hashv == hash(x.key)
  }

  /** The finite map the table stands for. */
  ghost function MapOf(s: seq<Handle>): map<seq<byte>, Handle> {
    if |s| == 0 then map[] else MapOf(s[..|s| - 1])[s[|s| - 1].key := s[|s| - 1]]
  }

  lemma {:induction false} MapHolds(s: seq<Handle>)
    requires KeysDistinct(s)
    ensures forall x :: x in s ==> x.key in MapOf(s) && MapOf(s)[x.key] == x
    ensures forall k :: k in MapOf(s) ==> MapOf(s)[k] in s && MapOf(s)[k].key == k
  {
    if |s| > 0 {
      var front, last := s[..|s| - 1], s[|s| - 1];
      MapHolds(front);
      assert s == front + [last];
      assert forall x :: x in front ==> x.key != last.key;
    }
  }

  /** Adding an element with an absent key binds that key and leaves every other binding. */
  lemma {:induction false} AddBinds(s: seq<Handle>, x: Handle)
    ensures MapOf(s + [x]) == MapOf(s)[x.key := x]
  {
    assert (s + [x])[..|s|] == s;
  }

  lemma KeysOfTail(s: seq<Handle>)
    requires KeysDistinct(s) && |s| > 0
    ensures KeysDistinct(s[1..]) && (forall y :: y in s[1..] ==> y in s && y.key != s[0].key)
    ensures forall y :: y in s ==> y == s[0] || y in s[1..]
  {
    assert s == [s[0]] + s[1..];
    forall y | y in s[1..]
      ensures y in s && y.key != s[0].key
    {
      var i :| 0 <= i < |s[1..]| && s[1..][i] == y;
      assert s[i + 1] == y;
    }
  }

  lemma KeysCons(e: Handle, s: seq<Handle>)
    requires KeysDistinct(s) && forall y :: y in s ==> y.key != e.key
    ensures KeysDistinct([e] + s)
  {}

  lemma KeysAreElements(s: seq<Handle>)
    requires KeysDistinct(s)
    ensures Distinct(s)
  {}

  /** What is left without x, and its elements. */
  lemma {:induction false} WithoutMembers(s: seq<Handle>, x: Handle) returns (t: seq<Handle>)
    requires KeysDistinct(s) && x in s
    ensures t == Without(s, x) && KeysDistinct(t) && Distinct(t) && |t| == |s| - 1
    ensures forall y :: y in t <==> y in s && y != x
  {
    hide KeysDistinct, Distinct;
    KeysOfTail(s);
    if s[0] != x {
      t := WithoutMembers(s[1..], x);
      KeysCons(s[0], t);
      t := [s[0]] + t;
    } else {
      t := s[1..];
    }
    KeysAreElements(t);
  }

  /** Deleting an element unbinds its key and leaves every other binding. */
  lemma {:induction false} DeleteUnbinds(s: seq<Handle>, x: Handle)
    requires KeysDistinct(s) && x in s
    ensures MapOf(Without(s, x)) == MapOf(s) - {x.key}
  {
    hide MapOf, Without, KeysDistinct, Distinct;
    var t := WithoutMembers(s, x);
    var m, m' := MapOf(s), MapOf(t);
    MapHolds(s);
    MapHolds(t);
    forall k | k in m && k != x.key
      ensures k in m' && m'[k] == m[k]
    {
      assert m[k] in t;
    }
    forall k | k in m'
      ensures k in m && k != x.key
    {
      assert m'[k] in t && m'[k] in s;
      assert m[x.key] == x;
    }
  }

  lemma {:induction false} CountElems(s: seq<Handle>)
    requires Distinct(s)
    ensures |Elems(s)| == |s|
  {
    if |s| > 0 {
      var front, last := s[..|s| - 1], s[|s| - 1];
      CountElems(front);
      assert s == front + [last];
      assert Elems(s) == Elems(front) + {last};
      assert last !in front;
    }
  }

  lemma DistinctWithout(s: seq<Handle>, i: nat)
    requires Linked(s) && i < |s|
    ensures Distinct(s[..i] + s[i + 1..])
  {}

  /** The pointers of HASH_DELETE around del, when other elements remain. */
  method Relink(del: Handle, head: Handle?, tail: Handle?, ghost s: seq<Handle>, ghost i: nat)
      returns (head': Handle?, tail': Handle?)
    requires Linked(s) && i < |s| && s[i] == del && |s| > 1 && head == First(s) && tail == Last(s)
    modifies s`next, s`prev
    ensures var t := s[..i] + s[i + 1..];
      Linked(t) && head' == First(t) && tail' == Last(t)
  {
    ghost var t := s[..i] + s[i + 1..];
    DistinctWithout(s, i);
    assert i > 0 ==> s[i - 1].next == s[i] && s[i].prev == s[i - 1];
    assert i < |s| - 1 ==> s[i].next == s[i + 1] && s[i + 1].prev == s[i];
    head', tail' := head, tail;
    if del == tail {
      tail' := del.prev;
    }
    if del.prev != null {
      del.prev.next := del.next;
    } else {
      head' := del.next;
    }
    if del.next != null {
      del.next.prev := del.prev;
    }
    forall j | 0 <= j < |t| - 1
      ensures t[j].next == t[j + 1] && t[j + 1].prev == t[j]
    {
      if j + 1 < i {
        assert old(s[j].next == s[j + 1] && s[j + 1].prev == s[j]);
      } else if j >= i {
        assert old(s[j + 1].next == s[j + 2] && s[j + 2].prev == s[j + 1]);
      }
    }
  }

  lemma ElemsAppend(s: seq<Handle>, x: Handle)
    ensures Elems(s + [x]) == Elems(s) + {x}
  {}

  function NoChains(n: nat): seq<seq<Handle>> { seq(n, _ => []) }

  /** malloc and memset of a bucket array. */
  function Empty(n: nat): seq<Bucket> { seq(n, _ => Bucket(null, 0, 0)) }

  method EmptyBuckets(n: nat, ghost hash: seq<byte> -> nat, ghost ideal: nat) returns (bs: array<Bucket>)
    requires n > 0
    ensures fresh(bs) && bs.Length == n && Balanced(bs[..]) && bs[..] == Empty(n)
    ensures Spilled(bs[..], NoChains(n), hash, {}, ideal, 0)
  {
    bs := new Bucket[n](_ => Bucket(null, 0, 0));
    TotalZero(bs[..], CountOf());
    TotalZero(bs[..], Weight());
    TotalZero(bs[..], ExcessOver(ideal));
  }

  /** The elements of D are spread over the new buckets, with multipliers and surplus as counted. */
  ghost predicate Spilled(bs: seq<Bucket>, chains: seq<seq<Handle>>, hash: seq<byte> -> nat, D: set<Handle>,
                          ideal: nat, nonideal: nat)
    reads D`hhNext, D`hhPrev
  {
    && Chains(bs, chains, hash, D)
    && (forall b :: 0 <= b < |bs| ==> Spread(bs[b], ideal))
    && nonideal == Total(bs, ExcessOver(ideal))
  }

  /** The inner step of HASH_EXPAND_BUCKETS: one element goes to its new bucket. */
  method MoveOne(bs: array<Bucket>, x: Handle, lb: nat, ideal: nat, nonideal: nat,
                 ghost chains: seq<seq<Handle>>, ghost hash: seq<byte> -> nat, ghost D: set<Handle>)
      returns (nonideal': nat, ghost chains': seq<seq<Handle>>)
    requires Spilled(bs[..], chains, hash, D, ideal, nonideal) && ideal > 0
    requires x !in D && x.hashv == hash(x.key) && bs.Length == Pow2(lb)
    modifies bs, x`hhNext, x`hhPrev, D`hhPrev
    ensures Spilled(bs[..], chains', hash, D + {x}, ideal, nonideal')
  {
    hide Pow2, Home, And, Total, Chains, Weight;
    ChainsSizes(bs[..], chains, hash, D);
    var b := And(x.hashv, bs.Length - 1);
    MaskIsRemainder(x.hashv, lb);
    var count, mult := bs[b].count + 1, bs[b].mult;
    nonideal' := nonideal;
    if count > ideal {
      nonideal' := nonideal + 1;
      mult := count / ideal;
    }
    TotalUpdate(bs[..], ExcessOver(ideal), b, Bucket(x, count, mult));
    chains' := chains[b := [x] + chains[b]];
    PushInto(bs, b, x, mult, chains, hash, D);
  }

  lemma ChainsSizes(bs: seq<Bucket>, chains: seq<seq<Handle>>, hash: seq<byte> -> nat, D: set<Handle>)
    requires Chains(bs, chains, hash, D)
    ensures |bs| == |chains|
  {}

  /** One old chain is moved over, from its head on. */
  method MoveChain(bs: array<Bucket>, h: Handle?, lb: nat, ideal: nat, nonideal: nat,
                   ghost c: seq<Handle>, ghost chains: seq<seq<Handle>>, ghost hash: seq<byte> -> nat,
                   ghost D: set<Handle>)
      returns (nonideal': nat, ghost chains': seq<seq<Handle>>)
    requires HhLinked(c) && h == First(c) && Spilled(bs[..], chains, hash, D, ideal, nonideal) && ideal > 0
    requires (forall x :: x in c ==> x !in D) && Hashed(Elems(c), hash) && bs.Length == Pow2(lb)
    modifies bs, c`hhNext, c`hhPrev, D`hhPrev
    ensures Spilled(bs[..], chains', hash, D + Elems(c), ideal, nonideal')
  {
    hide Pow2, Spilled;
    var thh := h;
    nonideal', chains' := nonideal, chains;
    ghost var k, done := 0, D;
    while thh != null
      invariant 0 <= k <= |c| && thh == First(c[k..]) && done == D + Elems(c[..k])
      invariant Spilled(bs[..], chains', hash, done, ideal, nonideal')
      invariant forall j :: k <= j < |c| - 1 ==> c[j].hhNext == c[j + 1]
      invariant k < |c| ==> c[|c| - 1].hhNext == null
      decreases |c| - k
    {
      var next := thh.hhNext;
      assert thh == c[k] && c[k] !in c[..k];
      assert c[..k + 1] == c[..k] + [c[k]];
      assert k + 1 < |c| ==> c[k].hhNext == c[k + 1];
      ElemsAppend(c[..k], c[k]);
      assert D + Elems(c[..k + 1]) == done + {thh};
      nonideal', chains' := MoveOne(bs, thh, lb, ideal, nonideal', chains', hash, done);
      done, k := done + {thh}, k + 1;
      thh := next;
    }
    assert c[..k] == c;
  }

  /** The elements of the first i buckets have been moved. */
  ghost predicate Moved(done: set<Handle>, D: set<Handle>, hash: seq<byte> -> nat, n: nat, i: nat) {
    && n > 0
    && (forall x :: x in done ==> x in D && Home(hash(x.key), n) < i)
    && (forall x :: x in D && Home(hash(x.key), n) < i ==> x in done)
  }

  lemma MovedNext(done: set<Handle>, D: set<Handle>, hash: seq<byte> -> nat, n: nat, i: nat, chains: seq<seq<Handle>>)
    requires Moved(done, D, hash, n, i) && Placed(chains, hash, D) && |chains| == n && i < n
    ensures Moved(done + Elems(chains[i]), D, hash, n, i + 1)
    ensures forall x :: x in chains[i] ==> x !in done && x in D
    ensures forall j, x :: i < j < n && x in chains[j] ==> x !in done && x !in chains[i]
  {
    hide Home;
    ChainsApart(chains, hash, D, i);
    forall j, x | i < j < n && x in chains[j]
      ensures x !in done && x !in chains[i]
    {
      assert Home(hash(x.key), n) == j;
    }
  }

  /** The loop of HASH_EXPAND_BUCKETS over the old buckets. */
  method MoveAll(bs: array<Bucket>, to: array<Bucket>, lb: nat, ideal: nat,
                 ghost chains: seq<seq<Handle>>, ghost hash: seq<byte> -> nat, ghost D: set<Handle>)
      returns (nonideal: nat, ghost chains': seq<seq<Handle>>)
    requires Chains(bs[..], chains, hash, D) && Hashed(D, hash) && ideal > 0 && to.Length == Pow2(lb) && bs != to
    requires Spilled(to[..], NoChains(to.Length), hash, {}, ideal, 0)
    modifies to, D`hhNext, D`hhPrev
    ensures Spilled(to[..], chains', hash, D, ideal, nonideal)
  {
    hide Spilled, Pow2, Home, Placed, HhLinked;
    ghost var done: set<Handle> := {};
    nonideal, chains' := 0, NoChains(to.Length);
    PlacedParts(chains, hash, D);
    for i := 0 to bs.Length
      invariant Spilled(to[..], chains', hash, done, ideal, nonideal) && Moved(done, D, hash, bs.Length, i)
      invariant bs[..] == old(bs[..])
      invariant forall j :: i <= j < bs.Length ==> HhLinked(chains[j])
    {
      MovedNext(done, D, hash, bs.Length, i, chains);
      ghost var c := chains[i];
      assert bs[i] == old(bs[..])[i];
      label L:
      nonideal, chains' := MoveChain(to, bs[i].head, lb, ideal, nonideal, c, chains', hash, done);
      forall j | i < j < bs.Length
        ensures HhLinked(chains[j])
      {
        ghost var d := chains[j];
        assert old@L(HhLinked(d));
        assert forall k :: 0 <= k < |d| ==> d[k] in d && d[k] !in c && d[k] !in done;
      }
      done := done + Elems(c);
    }
    assert done == D;
  }

  method Respread(bs: array<Bucket>, n: nat, lb: nat, ideal: nat,
                  ghost chains: seq<seq<Handle>>, ghost hash: seq<byte> -> nat, ghost D: set<Handle>)
      returns (to: array<Bucket>, nonideal: nat, ghost chains': seq<seq<Handle>>)
    requires Chains(bs[..], chains, hash, D) && Hashed(D, hash) && ideal > 0 && n == Pow2(lb)
    modifies D`hhNext, D`hhPrev
    ensures fresh(to) && to.Length == n
    ensures Spilled(to[..], chains', hash, D, ideal, nonideal) && Chains(to[..], chains', hash, D) && Hashed(D, hash)
  {
    hide Chains, Spilled, Pow2, Hashed, Balanced;
    to := EmptyBuckets(n, hash, ideal);
    nonideal, chains' := MoveAll(bs, to, lb, ideal, chains, hash, D);
    SpilledChains(to[..], chains', hash, D, ideal, nonideal);
  }

  lemma PlacedParts(chains: seq<seq<Handle>>, hash: seq<byte> -> nat, D: set<Handle>)
    requires Placed(chains, hash, D)
    ensures |chains| > 0
    ensures forall b, x :: 0 <= b < |chains| && x in chains[b] ==> x in D
  {}

  const INITIAL_BUCKETS: nat := 32

  const INITIAL_LOG2: nat := 5

  /** What steers the growth: the ideal chain length, the elements beyond it, the expansions in a row that left
      more than half of the elements beyond it, and whether growth has ended. */
  datatype Growth = Growth(ideal: nat, nonideal: nat, ineffective: nat, noexpand: nat)

  /** After the table has grown to size buckets for that many items; two ineffective expansions end the growth. */
  ghost predicate Grown(items: nat, size: nat, g: Growth, g': Growth) {
    && RoundsUp(g'.ideal, items, size) && g'.ideal > 0
    && g'.ineffective == (if g'.nonideal > items / 2 then g.ineffective + 1 else 0)
    && g'.noexpand == (if g'.ineffective > 1 then 1 else g.noexpand)
  }

  /** One element more fills the bucket to ten times what its multiplier allows. */
  ghost predicate Due(bucket: Bucket, noexpand: nat) {
    bucket.count + 1 >= 10 * (bucket.mult + 1) && noexpand != 1
  }

  /** Element x is now in front of bucket b; a table whose bucket was due has doubled, and any other table has
      changed nowhere else. */
  ghost predicate Pushed(bs: seq<Bucket>, g: Growth, bs': seq<Bucket>, g': Growth, b: nat, x: Handle, items: nat) {
    && b < |bs|
    && if Due(bs[b], g.noexpand) then
         && |bs'| == 2 * |bs|
         && (forall i :: 0 <= i < |bs'| ==> Spread(bs'[i], g'.ideal))
         && g'.nonideal == Total(bs', ExcessOver(g'.ideal))
         && Grown(items, |bs'|, g, g')
       else bs' == bs[b := Bucket(x, bs[b].count + 1, bs[b].mult)] && g' == g
  }

  /** Bucket b has lost one element, and no other bucket has changed. */
  ghost predicate Popped(bs: seq<Bucket>, bs': seq<Bucket>, b: nat) {
    && b < |bs| == |bs'| && bs[b].count > 0
    && bs' == bs[b := Bucket(bs'[b].head, bs[b].count - 1, bs[b].mult)]
  }

  lemma PoppedFrom(bs: seq<Bucket>, bs': seq<Bucket>, b: nat)
    requires b < |bs| == |bs'| && bs[b].count > 0
    requires bs' == bs[b := Bucket(bs'[b].head, bs[b].count - 1, bs[b].mult)]
    ensures Popped(bs, bs', b)
  {}

  lemma DueIs(bucket: Bucket, noexpand: nat)
    ensures Due(bucket, noexpand) <==> bucket.count + 1 >= (bucket.mult + 1) * THRESHOLD && noexpand != 1
  {}

  lemma GrownFrom(items: nat, size: nat, g: Growth, g': Growth)
    requires RoundsUp(g'.ideal, items, size) && g'.ideal > 0
    requires g'.ineffective == if g'.nonideal > items / 2 then g.ineffective + 1 else 0
    requires g'.noexpand == if g'.ineffective > 1 then 1 else g.noexpand
    ensures Grown(items, size, g, g')
  {}

  lemma GrownIdeal(items: nat, size: nat, g: Growth, g': Growth)
    requires Grown(items, size, g, g')
    ensures RoundsUp(g'.ideal, items, size) && g'.ideal > 0
  {}

  lemma PushedQuietly(bs: seq<Bucket>, g: Growth, bs': seq<Bucket>, b: nat, x: Handle, items: nat)
    requires b < |bs| && !Due(bs[b], g.noexpand) && bs' == bs[b := Bucket(x, bs[b].count + 1, bs[b].mult)]
    ensures Pushed(bs, g, bs', g, b, x, items)
  {}

  lemma PushedAndGrown(bs: seq<Bucket>, g: Growth, bs': seq<Bucket>, g': Growth, b: nat, x: Handle, items: nat,
                       chains: seq<seq<Handle>>, hash: seq<byte> -> nat, D: set<Handle>)
    requires b < |bs| && Due(bs[b], g.noexpand) && |bs'| == 2 * |bs| && Grown(items, |bs'|, g, g')
    requires Spilled(bs', chains, hash, D, g'.ideal, g'.nonideal)
    ensures Pushed(bs, g, bs', g', b, x, items)
  {}

  class HashTable {
    const hash: seq<byte> -> nat
    var head: Handle?
    var tail: Handle?
    var buckets: array<Bucket>
    var numBuckets: nat
    var log2: nat
    var numItems: nat
    var idealChainMaxlen: nat
    var nonidealItems: nat
    var ineffExpands: nat
    var noexpand: nat
    /** The elements in the order they were added, and the chain of each bucket. */
    ghost var order: seq<Handle>
    ghost var chains: seq<seq<Handle>>

    ghost predicate OrderOk()
      reads this`head, this`tail, this`order, order`next, order`prev
    {
      Linked(order) && KeysDistinct(order) && head == First(order) && (|order| > 0 ==> tail == Last(order))
    }

    ghost predicate TableOk(D: set<Handle>)
      reads this`buckets, this`numBuckets, this`log2, this`chains, buckets, D`hhNext, D`hhPrev, D`hashv
    {
      buckets.Length == numBuckets == Pow2(log2) && Chains(buckets[..], chains, hash, D) && Hashed(D, hash)
    }

    /** Both structures hold the same elements; while the table may grow it is balanced. */
    ghost predicate Valid()
      reads this, buckets, order
    {
      && OrderOk()
      && (head != null ==>
            && TableOk(Elems(order)) && numItems == |order|
            && (noexpand != 1 ==> Balanced(buckets[..])))
    }

    constructor (hash: seq<byte> -> nat)
      ensures Valid() && order == [] && this.hash == hash && fresh(buckets)
    {
      this.hash := hash;
      head, tail, order, chains := null, null, [], [];
      buckets := new Bucket[0];
      numBuckets, log2, numItems := 0, 0, 0;
      idealChainMaxlen, nonidealItems, ineffExpands, noexpand := 0, 0, 0, 0;
    }

    /** HASH_FIND. */
    method Find(key: seq<byte>) returns (out: Handle?)
      requires Valid()
      ensures out == if key in MapOf(order) then MapOf(order)[key] else null
    {
      MapHolds(order);
      out := null;
      if head != null {
        var b := And(hash(key), numBuckets - 1);
        MaskIsRemainder(hash(key), log2);
        out := FindInBkt(buckets[b].head, key, chains[b]);
        assert key in MapOf(order) ==> MapOf(order)[key] in chains[b];
        if out != null {
          assert out in Elems(order);
        }
      }
    }

    /** HASH_MAKE_TABLE. */
    method MakeTable()
      modifies this`buckets, this`numBuckets, this`log2, this`numItems, this`chains
      modifies this`idealChainMaxlen, this`nonidealItems, this`ineffExpands, this`noexpand
      ensures TableOk({}) && fresh(buckets) && Balanced(buckets[..]) && numBuckets == 32 && buckets[..] == Empty(32)
      ensures numItems == 0 && idealChainMaxlen == 0 && nonidealItems == 0 && ineffExpands == 0 && noexpand == 0
    {
      hide Home, Weight;
      numBuckets, log2, numItems := INITIAL_BUCKETS, INITIAL_LOG2, 0;
      idealChainMaxlen, nonidealItems, ineffExpands, noexpand := 0, 0, 0, 0;
      buckets := EmptyBuckets(INITIAL_BUCKETS, hash, 0);
      chains := NoChains(INITIAL_BUCKETS);
      assert Pow2(5) == 32;
    }

    lemma TableLength(D: set<Handle>)
      requires TableOk(D)
      ensures buckets.Length == numBuckets == Pow2(log2) && numBuckets > 0
      ensures Chains(buckets[..], chains, hash, D) && Hashed(D, hash)
    {}

    lemma TableFrom(D: set<Handle>)
      requires buckets.Length == numBuckets == Pow2(log2)
      requires Chains(buckets[..], chains, hash, D) && Hashed(D, hash)
      ensures TableOk(D)
    {}

    ghost function Counters(): Growth
      reads this`idealChainMaxlen, this`nonidealItems, this`ineffExpands, this`noexpand
    {
      Growth(idealChainMaxlen, nonidealItems, ineffExpands, noexpand)
    }

    lemma CountersAre()
      ensures Counters() == Growth(idealChainMaxlen, nonidealItems, ineffExpands, noexpand)
    {}

    /** HASH_EXPAND_BUCKETS: twice the buckets, the same elements. */
    method ExpandBuckets(ghost D: set<Handle>)
      requires TableOk(D) && numItems == |D| > 0
      modifies this`buckets, this`numBuckets, this`log2, this`chains, D`hhNext, D`hhPrev
      modifies this`idealChainMaxlen, this`nonidealItems, this`ineffExpands, this`noexpand
      ensures TableOk(D) && fresh(buckets) && numBuckets == 2 * old(numBuckets)
      ensures Spilled(buckets[..], chains, hash, D, idealChainMaxlen, nonidealItems)
      ensures Grown(numItems, numBuckets, old(Counters()), Counters())
    {
      hide *;
      ghost var g := Counters();
      CountersAre();
      DoublePow2(log2);
      TableLength(D);
      IdealComputed(numItems, log2 + 1, numBuckets * 2);
      ShiftOne(numItems);
      idealChainMaxlen := ShiftRight(numItems, log2 + 1) + if And(numItems, numBuckets * 2 - 1) != 0 then 1 else 0;
      var newBuckets;
      newBuckets, nonidealItems, chains :=
        Respread(buckets, numBuckets * 2, log2 + 1, idealChainMaxlen, chains, hash, D);
      numBuckets, log2, buckets := numBuckets * 2, log2 + 1, newBuckets;
      ineffExpands := if nonidealItems > ShiftRight(numItems, 1) then ineffExpands + 1 else 0;
      noexpand := if ineffExpands > 1 then 1 else noexpand;
      CountersAre();
      GrownFrom(numItems, numBuckets, g, Counters());
      TableFrom(D);
    }

    /** HASH_ADD_TO_BKT: the bucket grows, and the table too when the bucket is due. */
    method AddToBkt(b: nat, x: Handle, ghost D: set<Handle>)
      requires TableOk(D) && x !in D && x.hashv == hash(x.key) && numBuckets > 0 && b == Home(x.hashv, numBuckets)
      requires numItems == |D| + 1 && (noexpand != 1 ==> Balanced(buckets[..]))
      modifies this`buckets, this`numBuckets, this`log2, this`chains, buckets
      modifies D`hhNext, D`hhPrev, x`hhNext, x`hhPrev
      modifies this`idealChainMaxlen, this`nonidealItems, this`ineffExpands, this`noexpand
      ensures b < old(buckets.Length) && TableOk(D + {x}) && (buckets == old(buckets) || fresh(buckets))
      ensures noexpand != 1 ==> Balanced(buckets[..])
      ensures Pushed(old(buckets[..]), old(Counters()), buckets[..], Counters(), b, x, numItems)
    {
      hide *;
      TableLength(D);
      ghost var before := buckets[..];
      ChainsTotal(before, chains, hash, D);
      PushTable(b, x, D);
      var bucket := buckets[b];
      ghost var g := Counters();
      DueIs(before[b], noexpand);
      CountersAre();
      if bucket.count >= (bucket.mult + 1) * THRESHOLD && noexpand != 1 {
        ExpandBuckets(D + {x});
        CountersAre();
        GrownIdeal(numItems, numBuckets, g, Counters());
        TableLength(D + {x});
        ExpandBalances(before, buckets[..], chains, hash, D + {x}, idealChainMaxlen, nonidealItems);
        PushedAndGrown(before, g, buckets[..], Counters(), b, x, numItems, chains, hash, D + {x});
      } else {
        PushedQuietly(before, g, buckets[..], b, x, numItems);
        if noexpand != 1 {
          OneMoreBalances(before, b, bucket);
        }
      }
    }

    /** The bucket part of HASH_ADD_TO_BKT. */
    method PushTable(b: nat, x: Handle, ghost D: set<Handle>)
      requires TableOk(D) && x !in D && x.hashv == hash(x.key) && numBuckets > 0 && b == Home(x.hashv, numBuckets)
      modifies this`chains, buckets, D`hhPrev, x`hhNext, x`hhPrev
      ensures TableOk(D + {x}) && b < buckets.Length
      ensures buckets[..] == old(buckets[..])[b := Bucket(x, old(buckets[b].count) + 1, old(buckets[b].mult))]
    {
      hide Home, Pow2, Chains;
      ChainsSizes(buckets[..], chains, hash, D);
      PushInto(buckets, b, x, buckets[b].mult, chains, hash, D);
      chains := chains[b := [x] + chains[b]];
    }

    /** The list part of HASH_ADD_KEYPTR. */
    method Enlist(add: Handle)
      requires OrderOk() && add !in order && (forall x :: x in order ==> x.key != add.key)
      modifies this`head, this`tail, this`order, order`next, add`next, add`prev
      ensures OrderOk() && order == old(order) + [add]
    {
      ghost var s := order;
      add.next := null;
      if head == null {
        head := add;
        add.prev := null;
      } else {
        tail.next := add;
        add.prev := tail;
      }
      tail := add;
      order := s + [add];
      forall i | 0 <= i < |order| - 1
        ensures order[i].next == order[i + 1] && order[i + 1].prev == order[i]
      {
        if i < |s| - 1 {
          assert old(s[i].next == s[i + 1] && s[i + 1].prev == s[i]);
        }
      }
    }

    /** The element is pushed into the bucket of its key. */
    ghost predicate PushedOn(bs: seq<Bucket>, g: Growth, bs': seq<Bucket>, g': Growth, add: Handle, items: nat) {
      |bs| > 0 && Pushed(bs, g, bs', g', Home(hash(add.key), |bs|), add, items)
    }

    /** HASH_ADD_KEYPTR, for a key that is not in the table yet. */
    method Add(add: Handle)
      requires Valid() && add !in order && add.key !in MapOf(order)
      modifies this, buckets, order, add
      ensures Valid() && order == old(order) + [add] && MapOf(order) == old(MapOf(order))[add.key := add]
      ensures buckets == old(buckets) || fresh(buckets)
      ensures PushedOn(if old(order) == [] then Empty(32) else old(buckets[..]),
                       if old(order) == [] then Growth(0, 0, 0, 0) else old(Counters()),
                       buckets[..], Counters(), add, |order|)
    {
      hide *;
      ghost var D := ElemsAre(order);
      var first := head == null;
      ValidParts();
      MapHolds(order);
      ElemsAppend(order, add);
      AddBinds(order, add);
      Enlist(add);
      IntoTable(add, D, first);
      NotEmpty();
      ValidFrom();
    }

    /** The table is made for the first element. */
    method IntoTable(add: Handle, ghost D: set<Handle>, first: bool)
      requires if first then D == {}
               else TableOk(D) && numItems == |D| && (noexpand != 1 ==> Balanced(buckets[..]))
      requires add !in D
      modifies this`buckets, this`numBuckets, this`log2, this`chains, this`numItems, buckets
      modifies D`hhNext, D`hhPrev, add`hhNext, add`hhPrev, add`hashv
      modifies this`idealChainMaxlen, this`nonidealItems, this`ineffExpands, this`noexpand
      ensures TableOk(D + {add}) && (buckets == old(buckets) || fresh(buckets)) && numItems == |D| + 1
      ensures noexpand != 1 ==> Balanced(buckets[..])
      ensures PushedOn(if first then Empty(32) else old(buckets[..]),
                       if first then Growth(0, 0, 0, 0) else old(Counters()), buckets[..], Counters(), add, numItems)
    {
      hide *;
      if first {
        MakeTable();
        CountersAre();
      }
      TableLength(D);
      ghost var bs, g := buckets[..], Counters();
      AddToTable(add, D);
      PushedThere(bs, g, buckets[..], Counters(), add, numItems);
    }

    lemma PushedThere(bs: seq<Bucket>, g: Growth, bs': seq<Bucket>, g': Growth, add: Handle, items: nat)
      requires |bs| > 0 && Pushed(bs, g, bs', g', Home(hash(add.key), |bs|), add, items)
      ensures PushedOn(bs, g, bs', g', add, items)
    {}

    lemma NotEmpty()
      requires OrderOk() && |order| > 0
      ensures head != null
    {}

    /** The rest of HASH_ADD_KEYPTR: the element count, the hash value and the bucket. */
    method AddToTable(add: Handle, ghost D: set<Handle>)
      requires TableOk(D) && add !in D && numItems == |D| && (noexpand != 1 ==> Balanced(buckets[..]))
      modifies this`buckets, this`numBuckets, this`log2, this`chains, this`numItems, buckets
      modifies D`hhNext, D`hhPrev, add`hhNext, add`hhPrev, add`hashv
      modifies this`idealChainMaxlen, this`nonidealItems, this`ineffExpands, this`noexpand
      ensures TableOk(D + {add}) && (buckets == old(buckets) || fresh(buckets)) && numItems == |D| + 1
      ensures noexpand != 1 ==> Balanced(buckets[..])
      ensures old(numBuckets) > 0
          && Pushed(old(buckets[..]), old(Counters()), buckets[..], Counters(),
                    Home(hash(add.key), old(numBuckets)), add, numItems)
    {
      hide *;
      numItems := numItems + 1;
      add.hashv := hash(add.key);
      TableLength(D);
      var b := And(add.hashv, numBuckets - 1);
      MaskIsRemainder(add.hashv, log2);
      AddToBkt(b, add, D);
    }

    lemma OrderIsMap()
      requires OrderOk()
      ensures forall x :: x in order ==> x.key in MapOf(order) && MapOf(order)[x.key] == x
      ensures |Elems(order)| == |order| && (head == null <==> order == [])
    {
      MapHolds(order);
      CountElems(order);
    }

    /** The list part of HASH_DELETE, when other elements remain. */
    method Delist(del: Handle, ghost i: nat)
      requires OrderOk() && i < |order| && order[i] == del && |order| > 1
      modifies this`head, this`tail, this`order, order`next, order`prev
      ensures OrderOk() && order == Without(old(order), del)
    {
      hide *;
      ghost var s := order;
      OrderParts();
      order := WithoutMembers(s, del);
      LinkedDistinct(s);
      WithoutAt(s, i);
      head, tail := Relink(del, head, tail, s, i);
      OrderFrom();
    }

    lemma OrderParts()
      requires OrderOk()
      ensures Linked(order) && KeysDistinct(order) && head == First(order) && (|order| > 0 ==> tail == Last(order))
    {}

    /** The bucket part of HASH_DELETE. */
    method PopTable(b: nat, x: Handle, ghost D: set<Handle>)
      requires TableOk(D) && x in D && numBuckets > 0 && b == Home(hash(x.key), numBuckets)
      requires noexpand != 1 ==> Balanced(buckets[..])
      modifies this`chains, buckets, D`hhNext, D`hhPrev
      ensures TableOk(D - {x}) && (noexpand != 1 ==> Balanced(buckets[..]))
      ensures Popped(old(buckets[..]), buckets[..], b)
    {
      hide *;
      TableLength(D);
      ghost var before := buckets[..];
      ghost var i := PlaceOf(before, chains, hash, D, x);
      PopFrom(buckets, b, x, chains, hash, D, i);
      PoppedFrom(before, buckets[..], b);
      if noexpand != 1 {
        OneLessBalances(before, b, buckets[b]);
      }
      chains := chains[b := chains[b][..i] + chains[b][i + 1..]];
      HashedLess(D, hash, x);
      TableFrom(D - {x});
    }

    /** The bucket of the element has lost it. */
    ghost predicate PoppedOn(bs: seq<Bucket>, bs': seq<Bucket>, del: Handle) {
      |bs| > 0 && Popped(bs, bs', Home(hash(del.key), |bs|))
    }

    lemma PoppedThere(bs: seq<Bucket>, bs': seq<Bucket>, del: Handle)
      requires |bs| > 0 && Popped(bs, bs', Home(hash(del.key), |bs|))
      ensures PoppedOn(bs, bs', del)
    {}

    /** HASH_DELETE: the table goes with its last element. */
    method Delete(del: Handle)
      requires Valid() && del in order
      modifies this, buckets, order
      ensures Valid() && order == Without(old(order), del) && MapOf(order) == old(MapOf(order)) - {del.key}
      ensures buckets == old(buckets) && Counters() == old(Counters()) && numBuckets == old(numBuckets)
      ensures order != [] ==> PoppedOn(old(buckets[..]), buckets[..], del)
    {
      hide *;
      ghost var D := ElemsAre(order);
      ghost var i :| 0 <= i < |order| && order[i] == del;
      ValidParts();
      DeleteUnbinds(order, del);
      ghost var rest := WithoutMembers(order, del);
      EndsAlone(order, i);
      ElemsWithout(order, del);
      if del.prev == null && del.next == null {
        head := null;
        order := [];
        OrderEmpty();
      } else {
        Delist(del, i);
        DelFromBkt(del, D);
      }
      ValidFrom();
    }

    /** The rest of HASH_DELETE: the bucket and the element count. */
    method DelFromBkt(del: Handle, ghost D: set<Handle>)
      requires TableOk(D) && del in D && numItems > 0 && (noexpand != 1 ==> Balanced(buckets[..]))
      modifies this`chains, this`numItems, buckets, D`hhNext, D`hhPrev
      ensures TableOk(D - {del}) && numItems == old(numItems) - 1 && (noexpand != 1 ==> Balanced(buckets[..]))
      ensures PoppedOn(old(buckets[..]), buckets[..], del)
    {
      hide *;
      TableLength(D);
      HashedAt(D, hash, del);
      var b := And(del.hashv, numBuckets - 1);
      MaskIsRemainder(del.hashv, log2);
      ghost var before := buckets[..];
      PopTable(b, del, D);
      PoppedThere(before, buckets[..], del);
      numItems := numItems - 1;
    }

    lemma OrderEmpty()
      requires head == null && order == []
      ensures OrderOk()
    {}

    /** HASH_SRT: only the application order changes. */
    method Sort(cmp: (Handle, Handle) -> int)
      requires Valid()
      modifies this`head, this`tail, this`order, order`next, order`prev
      ensures Valid() && order == SortFrom(old(order), 1, cmp) && MapOf(order) == old(MapOf(order))
    {
      hide *;
      ValidParts();
      ghost var s := order;
      ghost var D := ElemsAre(s);
      SortPermutes(s, 1, cmp);
      head, tail := HashSrt(head, cmp, s);
      order := SortFrom(s, 1, cmp);
      LinkedDistinct(order);
      SameMap(s, order);
      OrderFrom();
      ValidFrom();
    }

    lemma ValidParts()
      requires Valid()
      ensures OrderOk() && (head == null <==> order == []) && |Elems(order)| == |order|
      ensures Linked(order) && KeysDistinct(order) && head == First(order) && (|order| > 0 ==> tail == Last(order))
      ensures head != null ==> TableOk(Elems(order)) && numItems == |order| && (noexpand != 1 ==> Balanced(buckets[..]))
    {
      CountElems(order);
    }

    lemma OrderFrom()
      requires Linked(order) && KeysDistinct(order) && head == First(order) && (|order| > 0 ==> tail == Last(order))
      ensures OrderOk() && (head == null <==> order == [])
    {}

    lemma ValidFrom()
      requires OrderOk()
      requires head != null ==> TableOk(Elems(order)) && numItems == |order|
      requires head != null && noexpand != 1 ==> Balanced(buckets[..])
      ensures Valid()
    {}

    /** The element count, the list and the bucket counts agree. */
    lemma {:induction false} CountsAgree()
      requires Valid() && head != null
      ensures numItems == |order| == Total(buckets[..], CountOf())
      ensures forall x, b :: x in order && 0 <= b < numBuckets ==>
            (x in chains[b] <==> Home(hash(x.key), numBuckets) == b)
    {
      CountElems(order);
      ghost var D := ElemsAre(order);
    }

    /** While the table may still grow, it holds fewer than twenty elements a bucket. */
    lemma {:induction false} LoadFactor()
      requires Valid() && head != null && noexpand != 1
      ensures numItems <= 19 * numBuckets
    {
      OrderIsMap();
      CountsBounded(buckets[..]);
    }
  }

  lemma SpilledChains(bs: seq<Bucket>, chains: seq<seq<Handle>>, hash: seq<byte> -> nat, D: set<Handle>,
                      ideal: nat, nonideal: nat)
    requires Spilled(bs, chains, hash, D, ideal, nonideal)
    ensures Chains(bs, chains, hash, D)
  {}

  lemma ChainsTotal(bs: seq<Bucket>, chains: seq<seq<Handle>>, hash: seq<byte> -> nat, D: set<Handle>)
    requires Chains(bs, chains, hash, D)
    ensures |bs| == |chains| > 0 && Total(bs, CountOf()) == |D|
  {}

  /** Doubling a balanced table that has just grown by one element leaves it balanced. */
  lemma {:induction false} ExpandBalances(before: seq<Bucket>, bs: seq<Bucket>, chains: seq<seq<Handle>>,
                                          hash: seq<byte> -> nat,
                       D: set<Handle>, ideal: nat, nonideal: nat)
    requires |before| > 0 && Balanced(before) && |D| == Total(before, CountOf()) + 1 && |bs| == 2 * |before|
    requires Spilled(bs, chains, hash, D, ideal, nonideal) && ideal > 0 && RoundsUp(ideal, |D|, |bs|)
    ensures Balanced(bs) && ideal <= THRESHOLD
  {
    hide Balanced, RoundsUp, Total, Spread;
    LoadIsBounded(before, |D|, ideal);
    SpreadBalances(bs, ideal);
  }

  lemma KeysKept(s: seq<Handle>, t: seq<Handle>)
    requires KeysDistinct(s) && Distinct(t) && forall x :: x in t ==> x in s
    ensures KeysDistinct(t)
  {
    forall i, j | 0 <= i < j < |t|
      ensures t[i].key != t[j].key
    {
      assert t[i] != t[j] && t[i] in t && t[j] in t;
      var a :| 0 <= a < |s| && s[a] == t[i];
      var b :| 0 <= b < |s| && s[b] == t[j];
      assert s[if a < b then a else b].key != s[if a < b then b else a].key;
    }
  }

  /** Reordering the elements leaves the map alone. */
  lemma SameMap(s: seq<Handle>, t: seq<Handle>)
    requires KeysDistinct(s) && Distinct(t) && multiset(s) == multiset(t)
    ensures KeysDistinct(t) && MapOf(t) == MapOf(s) && Elems(t) == Elems(s) && |t| == |s|
  {
    hide MapOf, KeysDistinct, Distinct;
    assert forall x :: x in t ==> x in multiset(s);
    assert forall x :: x in s ==> x in multiset(t);
    KeysKept(s, t);
    MapHolds(s);
    MapHolds(t);
    assert |multiset(s)| == |multiset(t)|;
  }

  lemma LinkedDistinct(s: seq<Handle>)
    requires Linked(s)
    ensures Distinct(s)
  {}

  lemma ElemsAre(s: seq<Handle>) returns (D: set<Handle>)
    ensures D == Elems(s) && forall x :: x in D <==> x in s
  {
    D := Elems(s);
  }

  lemma ElemsWithout(s: seq<Handle>, x: Handle)
    requires KeysDistinct(s) && x in s
    ensures Elems(Without(s, x)) == Elems(s) - {x} && x in Elems(s)
  {
    var t := WithoutMembers(s, x);
    hide Without, KeysDistinct;
    forall y | y in Elems(s) && y != x
      ensures y in Elems(t)
    {
      assert y in s;
      assert y in t;
    }
    forall y | y in Elems(t)
      ensures y in Elems(s) && y != x
    {
      assert y in t;
    }
  }

  /** The element without neighbours is the only one. */
  lemma EndsAlone(s: seq<Handle>, i: nat)
    requires Linked(s) && i < |s|
    ensures s[i].prev == null && s[i].next == null <==> |s| == 1
    ensures |s| == 1 ==> Without(s, s[i]) == []
  {
    assert i > 0 ==> s[i - 1].next == s[i] && s[i].prev == s[i - 1];
    assert i < |s| - 1 ==> s[i].next == s[i + 1] && s[i + 1].prev == s[i];
  }

  lemma HashedAt(D: set<Handle>, hash: seq<byte> -> nat, x: Handle)
    requires Hashed(D, hash) && x in D
    ensures x.hashv == hash(x.key)
  {}

  lemma HashedLess(D: set<Handle>, hash: seq<byte> -> nat, x: Handle)
    requires Hashed(D, hash)
    ensures Hashed(D - {x}, hash)
  {}

  lemma PlaceOf(bs: seq<Bucket>, chains: seq<seq<Handle>>, hash: seq<byte> -> nat, D: set<Handle>, x: Handle)
      returns (i: nat)
    requires Chains(bs, chains, hash, D) && x in D
    ensures |bs| == |chains| > 0
    ensures var b := Home(hash(x.key), |chains|);
      i < |chains[b]| && chains[b][i] == x && bs[b].count > 0
  {
    hide Home;
    var b := Home(hash(x.key), |chains|);
    assert x in chains[b];
    i :| 0 <= i < |chains[b]| && chains[b][i] == x;
  }

  lemma IdealComputed(n: nat, lb: nat, b: nat)
    requires b == Pow2(lb)
    ensures RoundsUp(ShiftRight(n, lb) + if And(n, b - 1) != 0 then 1 else 0, n, b)
    ensures n > 0 ==> ShiftRight(n, lb) + (if And(n, b - 1) != 0 then 1 else 0) > 0
  {
    hide Pow2, And, ShiftRight, RoundsUp;
    IdealIsCeiling(n, lb);
  }

  lemma ShiftOne(n: nat)
    ensures ShiftRight(n, 1) == n / 2
  {
    assert ShiftRight(n / 2, 0) == n / 2;
  }

  lemma DoublePow2(k: nat)
    ensures Pow2(k + 1) == 2 * Pow2(k)
  {}
}
