/** HASH_SRT of uthash.h: the application-order list of a hash table, sorted in place by relinking. */
module HashSort {
  import opened Bytes
  import opened StableMerge

  /** UT_hash_handle, with the element it is embedded in. */
  class Handle {
    const key: seq<byte>
    var hashv: nat
    var next: Handle?
    var prev: Handle?
    var hhNext: Handle?
    var hhPrev: Handle?

    constructor (key: seq<byte>)
      ensures this.key == key && next == null && prev == null && hhNext == null && hhPrev == null
    {
      this.key := key;
      hashv := 0;
      next, prev, hhNext, hhPrev := null, null, null, null;
    }
  }

  function First(s: seq<Handle>): Handle? { if |s| == 0 then null else s[0] }

  function Last(s: seq<Handle>): Handle? { if |s| == 0 then null else s[|s| - 1] }

  ghost predicate Distinct(s: seq<Handle>) {
    forall i, j :: 0 <= i < j < |s| ==> s[i] != s[j]
  }

  ghost predicate Disjoint(s: seq<Handle>, t: seq<Handle>) {
    forall x :: x in s ==> x !in t
  }

  ghost predicate Forward(s: seq<Handle>)
    reads s`next
  {
    forall i :: 0 <= i < |s| - 1 ==> s[i].next == s[i + 1]
  }

  /** The links of a doubly linked list, except the one behind its last element. */
  ghost predicate Chained(s: seq<Handle>)
    reads s`next, s`prev
  {
    && (|s| > 0 ==> s[0].prev == null)
    && (forall i :: 0 <= i < |s| - 1 ==> s[i].next == s[i + 1] && s[i + 1].prev == s[i])
  }

  ghost predicate Ends(s: seq<Handle>)
    reads s`next
  {
    |s| > 0 ==> s[|s| - 1].next == null
  }

  /** A doubly linked list with these elements in this order. */
  ghost predicate Linked(s: seq<Handle>)
    reads s`next, s`prev
  {
    Distinct(s) && Chained(s) && Ends(s)
  }

  ghost function Elems(s: seq<Handle>): set<Handle> { set x | x in s }

  /** The list built so far; the link behind its tail is not set yet. */
  ghost predicate Built(out: seq<Handle>, list: Handle?, tail: Handle?)
    reads out`next, out`prev
  {
    Distinct(out) && Chained(out) && list == First(out) && tail == Last(out)
  }

  /** What is still to be merged: A of the first run, C of the second and everything behind it. */
  ghost predicate Ahead(out: seq<Handle>, A: seq<Handle>, C: seq<Handle>)
    reads A`next, C`next
  {
    && Distinct(A) && Distinct(C) && Disjoint(out, A) && Disjoint(out, C) && Disjoint(A, C)
    && Forward(A) && Forward(C) && Ends(C)
  }

  ghost predicate Within(S: set<Handle>, out: seq<Handle>, A: seq<Handle>, C: seq<Handle>) {
    (forall x :: x in out ==> x in S) && (forall x :: x in A ==> x in S) && (forall x :: x in C ==> x in S)
  }

  /** Moves e behind the list built so far. */
  method Append(list: Handle?, tail: Handle?, e: Handle,
                ghost S: set<Handle>, ghost out: seq<Handle>, ghost A: seq<Handle>, ghost C: seq<Handle>)
      returns (list': Handle?, tail': Handle?)
    requires Built(out, list, tail) && e !in out && Ahead(out + [e], A, C) && Within(S, out + [e], A, C)
    modifies S`next, S`prev
    ensures Built(out + [e], list', tail') && Ahead(out + [e], A, C)
  {
    ghost var s := out + [e];
    assert forall i :: 0 <= i < |out| ==> s[i] == out[i] && out[i] in out;
    assert tail != null ==> tail == s[|out| - 1] && tail in s;
    assert s[|out|] == e && e in s;
    list' := list;
    if tail != null {
      tail.next := e;
    } else {
      list' := e;
    }
    e.prev := tail;
    tail' := e;
    forall i | 0 <= i < |s| - 1
      ensures s[i].next == s[i + 1] && s[i + 1].prev == s[i]
    {
      if i < |out| - 1 {
        assert s[i + 1] == out[i + 1] && out[i + 1] in out;
        assert old(out[i].next == out[i + 1] && out[i + 1].prev == out[i]);
      }
    }
    assert forall i :: 0 <= i < |A| ==> A[i] in A && A[i] !in s && A[i].next == old(A[i].next);
    assert forall i :: 0 <= i < |C| ==> C[i] in C && C[i] !in s && C[i].next == old(C[i].next);
  }

  /** One element leaves the front of A or of C. */
  lemma PopAhead(S: set<Handle>, out: seq<Handle>, A: seq<Handle>, C: seq<Handle>, A': seq<Handle>, C': seq<Handle>,
                 e: Handle)
    requires Ahead(out, A, C) && Within(S, out, A, C)
    requires (A == [e] + A' && C' == C) || (A' == A && C == [e] + C')
    ensures Ahead(out + [e], A', C') && Within(S, out + [e], A', C') && e !in out
    ensures A == [e] + A' ==> (|A'| > 0 ==> e.next == A'[0])
    ensures C == [e] + C' ==> e.next == First(C')
  {
    if A' == A && C == [e] + C' {
      assert e == C[0] && forall i :: 0 <= i < |C'| ==> C'[i] == C[i + 1];
    } else {
      assert e == A[0] && forall i :: 0 <= i < |A'| ==> A'[i] == A[i + 1];
    }
  }

  /** The second run is what is left of its qsize elements. */
  function Run(C: seq<Handle>, qsize: nat): seq<Handle> { C[..Least(qsize, |C|)] }

  function Behind(C: seq<Handle>, qsize: nat): seq<Handle> { C[Least(qsize, |C|)..] }

  lemma TakeFirst(o: seq<Handle>, A: seq<Handle>, B: seq<Handle>, cmp: (Handle, Handle) -> int)
    requires |A| > 0 && (|B| == 0 || cmp(A[0], B[0]) <= 0)
    ensures o + Merge(A, B, cmp) == o + [A[0]] + Merge(A[1..], B, cmp)
  {
    if |B| == 0 {
      assert A == [A[0]] + A[1..];
      assert |A| == 1 || Merge(A[1..], B, cmp) == A[1..];
    }
  }

  lemma TakeSecond(o: seq<Handle>, A: seq<Handle>, C: seq<Handle>, qsize: nat, cmp: (Handle, Handle) -> int)
    requires |C| > 0 && qsize > 0 && (|A| == 0 || cmp(A[0], C[0]) > 0)
    ensures o + Merge(A, Run(C, qsize), cmp) == o + [C[0]] + Merge(A, Run(C[1..], qsize - 1), cmp)
    ensures Behind(C[1..], qsize - 1) == Behind(C, qsize)
  {
    hide Merge, Run;
    RunTail(C, qsize);
    MergeSecond(A, Run(C, qsize), cmp);
  }

  lemma RunTail(C: seq<Handle>, qsize: nat)
    requires |C| > 0 && qsize > 0
    ensures |Run(C, qsize)| > 0 && Run(C, qsize)[0] == C[0] && Run(C, qsize)[1..] == Run(C[1..], qsize - 1)
  {}

  lemma RunEmptyOrHead(C: seq<Handle>, qsize: nat)
    ensures qsize == 0 || |C| == 0 ==> Run(C, qsize) == [] && Behind(C, qsize) == C
    ensures qsize > 0 && |C| > 0 ==> |Run(C, qsize)| > 0 && Run(C, qsize)[0] == C[0]
  {}

  lemma NothingLeft(A: seq<Handle>, B: seq<Handle>, cmp: (Handle, Handle) -> int)
    requires |A| == 0 && |B| == 0
    ensures Merge(A, B, cmp) == []
  {}

  /** The merge of two neighbouring runs, behind the list built so far. */
  method MergePair(p0: Handle?, q0: Handle?, psize0: nat, qsize0: nat, list0: Handle?, tail0: Handle?,
                   cmp: (Handle, Handle) -> int, ghost S: set<Handle>,
                   ghost out: seq<Handle>, ghost A0: seq<Handle>, ghost C0: seq<Handle>)
      returns (q: Handle?, list: Handle?, tail: Handle?)
    requires Built(out, list0, tail0) && Ahead(out, A0, C0) && Within(S, out, A0, C0)
    requires psize0 == |A0| && p0 == First(A0) && q0 == First(C0)
    modifies S`next, S`prev
    ensures var result := out + Merge(A0, Run(C0, qsize0), cmp);
      && q == First(Behind(C0, qsize0))
      && Built(result, list, tail)
      && Ahead(result, [], Behind(C0, qsize0))
      && Within(S, result, [], Behind(C0, qsize0))
  {
    var p, psize, qsize := p0, psize0, qsize0;
    q, list, tail := q0, list0, tail0;
    ghost var o, A, C := out, A0, C0;
    hide Merge, Run, Behind;
    ghost var R := Behind(C0, qsize0);
    ghost var result := out + Merge(A0, Run(C0, qsize0), cmp);
    while psize > 0 || (qsize > 0 && q != null)
      invariant Built(o, list, tail) && Ahead(o, A, C) && Within(S, o, A, C)
      invariant psize == |A| && (|A| > 0 ==> p == A[0]) && q == First(C)
      invariant Behind(C, qsize) == R && o + Merge(A, Run(C, qsize), cmp) == result
      decreases |A| + |C|
    {
      var e: Handle;
      ghost var A', C' := A, C;
      if psize == 0 {
        e := q;
        C' := C[1..];
        TakeSecond(o, A, C, qsize, cmp);
        PopAhead(S, o, A, C, A', C', e);
        q, qsize := q.next, qsize - 1;
      } else if qsize == 0 || q == null {
        e := p;
        A' := A[1..];
        RunEmptyOrHead(C, qsize);
        TakeFirst(o, A, Run(C, qsize), cmp);
        PopAhead(S, o, A, C, A', C', e);
        p, psize := p.next, psize - 1;
      } else if cmp(p, q) <= 0 {
        e := p;
        A' := A[1..];
        RunEmptyOrHead(C, qsize);
        TakeFirst(o, A, Run(C, qsize), cmp);
        PopAhead(S, o, A, C, A', C', e);
        p, psize := p.next, psize - 1;
      } else {
        e := q;
        C' := C[1..];
        TakeSecond(o, A, C, qsize, cmp);
        PopAhead(S, o, A, C, A', C', e);
        q, qsize := q.next, qsize - 1;
      }
      list, tail := Append(list, tail, e, S, o, A', C');
      o, A, C := o + [e], A', C';
    }
    RunEmptyOrHead(C, qsize);
    NothingLeft(A, Run(C, qsize), cmp);
  }

  /** The first run: at most insize elements, and the element behind them. */
  method WalkRun(p: Handle, insize: nat, ghost C: seq<Handle>) returns (psize: nat, q: Handle?)
    requires |C| > 0 && p == C[0] && Forward(C) && Ends(C) && insize > 0
    ensures psize == Least(insize, |C|) && q == First(C[psize..])
  {
    q, psize := p, 0;
    for i := 0 to insize
      invariant psize == i < |C| && q == C[i]
    {
      psize := psize + 1;
      if i < |C| - 1 {
        assert C[i].next == C[i + 1];
      }
      q := q.next;
      if q == null {
        return;
      }
    }
  }

  lemma SplitAhead(S: set<Handle>, out: seq<Handle>, C: seq<Handle>, k: nat)
    requires Ahead(out, [], C) && Within(S, out, [], C)
    ensures Ahead(out, Run1(C, k), C[Least(k, |C|)..]) && Within(S, out, Run1(C, k), C[Least(k, |C|)..])
    ensures Run(C[Least(k, |C|)..], k) == Run2(C, k) && Behind(C[Least(k, |C|)..], k) == Rest(C, k)
  {
    var n := Least(k, |C|);
    var A, D := C[..n], C[n..];
    assert forall i :: 0 <= i < |A| ==> A[i] == C[i];
    assert forall i :: 0 <= i < |D| ==> D[i] == C[n + i];
    forall x | x in A
      ensures x !in D
    {
      var i :| 0 <= i < |A| && A[i] == x;
      assert forall j :: 0 <= j < |D| ==> D[j] != C[i];
    }
  }

  /** One pass over the list with runs of length insize. */
  method MergePass(list0: Handle, insize: nat, cmp: (Handle, Handle) -> int, ghost S: set<Handle>, ghost s: seq<Handle>)
      returns (list: Handle?, tail: Handle?, nmerges: nat)
    requires |s| > 0 && list0 == s[0] && Distinct(s) && Forward(s) && Ends(s) && (forall x :: x in s ==> x in S)
    requires insize > 0
    modifies S`next, S`prev
    ensures Linked(Pass(s, insize, cmp)) && list == First(Pass(s, insize, cmp)) && tail == Last(Pass(s, insize, cmp))
    ensures nmerges <= 1 <==> |s| <= 2 * insize
  {
    hide Merge, Run, Behind, Run1, Run2, Rest, Pass, Linked, Progress, Built, Ahead, Within, Distinct, Forward, Ends;
    var p: Handle? := list0;
    list, tail, nmerges := null, null, 0;
    ghost var out: seq<Handle>, C := [], s;
    NothingMerged(|s|, insize, S, s);
    while p != null
      invariant Built(out, list, tail) && Ahead(out, [], C) && Within(S, out, [], C)
      invariant p == First(C) && out + Pass(C, insize, cmp) == Pass(s, insize, cmp)
      invariant |out| + |C| == |s|
      invariant Progress(nmerges, |out|, |s|, insize)
      decreases |C|
    {
      nmerges := nmerges + 1;
      AheadParts(S, out, C);
      var psize, q := WalkRun(p, insize, C);
      SplitAhead(S, out, C, insize);
      PassCons(out, C, insize, cmp);
      RunLengths(C, insize, cmp);
      MoreProgress(nmerges - 1, |out|, |C|, insize);
      q, list, tail := MergePair(p, q, psize, insize, list, tail, cmp, S, out, Run1(C, insize), C[psize..]);
      p := q;
      out, C := out + Merge(Run1(C, insize), Run2(C, insize), cmp), Rest(C, insize);
    }
    PassNone(C, insize, cmp);
    AllDone(nmerges, |s|, insize);
    AheadParts(S, out, C);
    assert out + [] == out;
    Seal(list, tail, S, out);
  }

  /** After so many merges so many of all elements are in their new places. */
  ghost predicate Progress(nmerges: nat, done: nat, all: nat, insize: nat) {
    && (nmerges == 0 ==> done == 0)
    && (nmerges == 1 ==> done == Least(2 * insize, all))
    && (nmerges >= 2 ==> done > 2 * insize)
  }

  lemma NothingMerged(all: nat, insize: nat, S: set<Handle>, s: seq<Handle>)
    requires Distinct(s) && Forward(s) && Ends(s) && forall x :: x in s ==> x in S
    ensures Progress(0, 0, all, insize) && Built([], null, null) && Ahead([], [], s) && Within(S, [], [], s)
  {}

  lemma AheadParts(S: set<Handle>, out: seq<Handle>, C: seq<Handle>)
    requires Ahead(out, [], C) && Within(S, out, [], C)
    ensures Forward(C) && Ends(C) && forall x :: x in out ==> x in S
  {}

  lemma MoreProgress(nmerges: nat, done: nat, left: nat, insize: nat)
    requires Progress(nmerges, done, done + left, insize) && left > 0 && insize > 0
    ensures Progress(nmerges + 1, done + Least(2 * insize, left), done + left, insize)
  {}

  lemma AllDone(nmerges: nat, all: nat, insize: nat)
    requires Progress(nmerges, all, all, insize) && all > 0
    ensures nmerges <= 1 <==> all <= 2 * insize
  {}

  lemma PassNone(C: seq<Handle>, k: nat, cmp: (Handle, Handle) -> int)
    requires First(C) == null && k > 0
    ensures |C| == 0 && Pass(C, k, cmp) == []
  {}

  /** The link behind the last element is cut. */
  method Seal(list: Handle?, tail: Handle?, ghost S: set<Handle>, ghost out: seq<Handle>)
    requires Built(out, list, tail) && |out| > 0 && forall x :: x in out ==> x in S
    modifies S`next
    ensures Linked(out) && list == First(out) && tail == Last(out)
  {
    assert tail in out;
    tail.next := null;
  }

  lemma RunLengths(C: seq<Handle>, k: nat, cmp: (Handle, Handle) -> int)
    requires k > 0 && |C| > 0
    ensures |Run1(C, k)| == Least(k, |C|) && First(Run1(C, k)) == C[0]
    ensures |Merge(Run1(C, k), Run2(C, k), cmp)| == Least(2 * k, |C|) && |Rest(C, k)| == |C| - Least(2 * k, |C|)
  {
    hide Merge;
  }

  lemma PassUnfolds(C: seq<Handle>, k: nat, cmp: (Handle, Handle) -> int)
    requires k > 0 && |C| > 0
    ensures Pass(C, k, cmp) == Merge(Run1(C, k), Run2(C, k), cmp) + Pass(Rest(C, k), k, cmp)
  {
    hide Merge, Run1, Run2, Rest;
  }

  lemma PassCons(out: seq<Handle>, C: seq<Handle>, k: nat, cmp: (Handle, Handle) -> int)
    requires k > 0 && |C| > 0
    ensures out + Pass(C, k, cmp) == out + Merge(Run1(C, k), Run2(C, k), cmp) + Pass(Rest(C, k), k, cmp)
  {
    hide Pass, Merge, Run1, Run2, Rest;
    PassUnfolds(C, k, cmp);
  }

  /** HASH_SRT: passes with doubling run length until one merge covers the list. The links left
      behind are those of the sorted sequence, and head and tail are its ends. */
  method HashSrt(head: Handle?, cmp: (Handle, Handle) -> int, ghost s: seq<Handle>)
      returns (head': Handle?, tail: Handle?)
    requires Linked(s) && head == First(s)
    modifies Elems(s)`next, Elems(s)`prev
    ensures Linked(SortFrom(s, 1, cmp)) && head' == First(SortFrom(s, 1, cmp)) && tail == Last(SortFrom(s, 1, cmp))
  {
    hide Pass;
    head', tail := head, null;
    if head != null {
      var insize := 1;
      var looping := true;
      var list: Handle? := head;
      ghost var S := Elems(s);
      ghost var t := s;
      while looping
        invariant insize > 0 && |t| == |s| > 0 && (forall x :: x in t ==> x in S)
        invariant Distinct(t) && Forward(t) && Ends(t) && list == First(t)
        invariant looping ==> SortFrom(t, insize, cmp) == SortFrom(s, 1, cmp)
        invariant !looping ==> t == SortFrom(s, 1, cmp) && Linked(t) && head' == First(t) && tail == Last(t)
        decreases looping, 2 * |s| - insize
      {
        ghost var r := Pass(t, insize, cmp);
        PassPermutes(t, insize, cmp);
        SameElements(r, t, S);
        var nmerges;
        list, tail, nmerges := MergePass(list, insize, cmp, S, t);
        if nmerges <= 1 {
          looping := false;
          head' := list;
        }
        t := r;
        insize := insize * 2;
      }
    }
  }
}
