/** The restart recount (mq_sm_get_msg_count): the head of every sealed segment says how many
    messages it holds; where the head says nothing, the file is scanned. */
module Recount {
  import opened Bytes
  import opened Decimal
  import opened Message
  import opened Segment
  import opened Journal
  import opened Strings
  import opened Store
  import F = Fifo
  import R = Runs

  /** The count the head of a file announces. */
  function HeadCount(seg: seq<byte>): nat
    requires |seg| >= DB_FILE_HEAD_LEN
  {
    Atoi(CString(seg[1..13]))
  }

  /** What one file contributes. */
  function FileCount(seg: seq<byte>, end: nat): nat
    requires SegmentSize(|seg|) && end <= |seg|
  {
    var tmp := HeadCount(seg);
    if tmp != 0 && tmp < |seg| / MSG_HEAD_LEN then tmp else ScanCount(seg, 0, end)
  }

  function ScanEnd(q: Queue): nat {
    if q.wr.index == q.rd.index then q.wr.pos else q.max
  }

  /** The sum over the directory, in whatever order readdir lists it. */
  function TotalCount(q: Queue, files: seq<nat>): nat
    requires WellFormed(q) && forall f :: f in files ==> f in q.disk
  {
    if files == [] then 0
    else TotalCount(q, files[..|files| - 1]) + FileCount(q.disk[files[|files| - 1]], ScanEnd(q))
  }

  /** files lists every segment of q once. */
  ghost predicate Lists(q: Queue, files: seq<nat>) {
    && (forall f :: f in files <==> f in q.disk)
    && (forall i, j :: 0 <= i < j < |files| ==> files[i] != files[j])
  }

  /** mq_sm_get_msg_count on the counters. */
  function Recounted(q: Queue, files: seq<nat>): Queue
    requires WellFormed(q) && Lists(q, files)
  {
    if q.unread != 0 then q
    else
      var total := TotalCount(q, files);
      q.(getNum := q.rd.count, putNum := total,
         unread := if total >= q.rd.count then total - q.rd.count else 0)
  }

  // ----- One file

  lemma HeadCountOfHead(seg: seq<byte>, n: nat)
    requires F.HeadCounts(seg, n) && n < Pow10(12)
    ensures HeadCount(seg) == n
  {
    hide Padded, Value, Atoi;
    var d := Padded(n, 12);
    assert FileHead(n)[1..13] == d;
    assert seg[1..13] == seg[..DB_FILE_HEAD_LEN][1..13] == d;
    CStringOfText(d);
    AtoiOfDigits(d);
    PaddedValue(n, 12);
  }

  lemma HeadCountOfEmpty(seg: seq<byte>)
    requires F.HeadEmpty(seg)
    ensures HeadCount(seg) == 0
  {
    hide Padded, FileHead, Atoi;
    if seg[..DB_FILE_HEAD_LEN] == FileHead(0) {
      assert Pow10(12) >= 1;
      HeadCountOfHead(seg, 0);
    } else {
      assert seg[..DB_FILE_HEAD_LEN] == seq(DB_FILE_HEAD_LEN, i => 0);
      assert seg[1] == seg[..DB_FILE_HEAD_LEN][1] == 0;
      assert CString(seg[1..13]) == [];
      AtoiOfDigits([]);
    }
  }

  /** A segment cannot hold as many frames as the plausibility test of the head refuses. */
  lemma {:induction false} FewGoods(cs: seq<Chunk>, max: nat)
    requires forall c :: c in cs ==> ChunkOk(c, max)
    ensures 13 * |Goods(cs)| <= |Layout(cs)|
    decreases |cs|
  {
    hide Frame, Fits, Dead;
    if cs != [] {
      var n := |cs| - 1;
      FewGoods(cs[..n], max);
      assert cs == cs[..n] + [cs[n]];
      GoodsSplit(cs[..n], [cs[n]]);
      assert [cs[n]][1..] == [];
      assert ChunkOk(cs[n], max);
      assert Goods([cs[n]]) == if cs[n].Good? then [cs[n].msg] else [];
      if cs[n].Good? {
        BodyNotEmpty(cs[n].msg, max);
      }
    }
  }

  lemma BodyNotEmpty(m: Msg, max: nat)
    requires Fits(m, max)
    ensures |Frame(m)| >= 13
  {}

  /** Head or scan: either way the file contributes its messages. */
  lemma {:induction false} FileCountExact(seg: seq<byte>, cs: seq<Chunk>, end: nat)
    requires Holds(seg, cs) && End(cs) <= end <= |seg|
    requires F.HeadRight(seg, |Goods(cs)|)
    ensures FileCount(seg, end) == |Goods(cs)|
  {
    hide F.HeadCounts, F.HeadEmpty, Goods, HeadCount, Pow10;
    ScanIsExact(seg, cs, end);
    FewGoods(cs, |seg|);
    HoldsLayout(seg, cs);
    TenDigits();
    if F.HeadEmpty(seg) {
      HeadCountOfEmpty(seg);
    } else {
      HeadCountOfHead(seg, |Goods(cs)|);
    }
  }

  /** A restarted process counts the frames of its write segment from zero, and seals it with that
      count. The head is then right, or harmless, exactly when the process wrote none or all of
      the messages there. */
  lemma {:induction false} SealAfterRestart(seg: seq<byte>, cs: seq<Chunk>, written: nat)
    requires Holds(seg, cs) && written <= |Goods(cs)|
    ensures FileCount(Overwrite(seg, 0, FileHead(written)), |seg|) == |Goods(cs)|
      <==> written == 0 || written == |Goods(cs)|
  {
    hide FileHead, Goods, HeadCount, Pow10, Holds, Overwrite;
    SizeOf(seg, cs);
    HoldsLayout(seg, cs);
    var seg' := Overwrite(seg, 0, FileHead(written));
    F.HeadIsBlank(written);
    RewriteHead(seg, cs, FileHead(written));
    SizeOf(seg', cs);
    ScanIsExact(seg', cs, |seg|);
    TenDigits();
    F.HeadOf(seg, FileHead(written));
    HeadCountOfHead(seg', written);
  }

  lemma SizeOf(seg: seq<byte>, cs: seq<Chunk>)
    requires Holds(seg, cs)
    ensures SegmentSize(|seg|) && End(cs) <= |seg| && 13 * |Goods(cs)| + DB_FILE_HEAD_LEN <= |seg|
  {
    FewGoods(cs, |seg|);
    HoldsLayout(seg, cs);
  }

  /** The number in the head is believed when it is not zero and leaves less than it could hold; otherwise the
      file is scanned. */
  lemma {:induction false} HeadBelieved(seg: seq<byte>, end: nat, c: nat)
    requires SegmentSize(|seg|) && end <= |seg| && AllDigits(seg[1..13])
    requires Value(seg[1..13]) == c && c < 0x8000_0000
    ensures FileCount(seg, end) == if 0 < c && 12 * c + 12 <= |seg| then c else ScanCount(seg, 0, end)
  {
    hide Value, Atoi, ScanCount;
    CStringOfText(seg[1..13]);
    AtoiOfDigits(seg[1..13]);
  }

  /** A counter that is not zero is kept; otherwise what is unread is what the files hold beyond the messages
      already read, and nothing when the read cursor has counted more than they hold. */
  lemma {:induction false} RecountFills(q: Queue, files: seq<nat>)
    requires WellFormed(q) && Lists(q, files)
    ensures var total, q' := TotalCount(q, files), Recounted(q, files);
      && q' == q.(getNum := q'.getNum, putNum := q'.putNum, unread := q'.unread)
      && (q.unread > 0 ==> q' == q)
      && (q.unread == 0 ==> q'.putNum == total && q'.getNum == q.rd.count)
      && (q.unread == 0 && q.rd.count <= total ==> q'.unread + q.rd.count == total)
      && (q.unread == 0 && q.rd.count > total ==> q'.unread == 0)
  {
    hide TotalCount, WellFormed, Lists;
  }

  // ----- The whole directory

  /** The sum over segments lo .. hi - 1, in numeric order. */
  function RangeCount(q: Queue, lo: nat, hi: nat): nat
    requires WellFormed(q) && lo <= hi && forall i :: lo <= i < hi ==> i in q.disk
  {
    if lo == hi then 0 else RangeCount(q, lo, hi - 1) + FileCount(q.disk[hi - 1], ScanEnd(q))
  }

  lemma {:induction false} TotalSplit(q: Queue, a: seq<nat>, f: nat, b: seq<nat>)
    requires WellFormed(q) && forall x :: x in a + [f] + b ==> x in q.disk
    requires f in q.disk && forall x :: x in a + b ==> x in q.disk
    ensures TotalCount(q, a + [f] + b) == TotalCount(q, a + b) + FileCount(q.disk[f], ScanEnd(q))
    decreases |b|
  {
    hide FileCount;
    if b == [] {
      assert a + [f] + b == a + [f] && a + b == a;
      assert (a + [f])[..|a|] == a;
    } else {
      var n := |b| - 1;
      assert (a + [f] + b)[..|a| + 1 + n] == a + [f] + b[..n];
      assert (a + b)[..|a| + n] == a + b[..n];
      TotalSplit(q, a, f, b[..n]);
    }
  }

  lemma HasMember(s: seq<nat>)
    ensures s != [] ==> exists f :: f in s
  {
    if s != [] {
      assert s[0] in s;
    }
  }

  ghost predicate Enumerates(files: seq<nat>, lo: nat, hi: nat) {
    && (forall f :: f in files <==> lo <= f < hi)
    && (forall i, j :: 0 <= i < j < |files| ==> files[i] != files[j])
  }

  lemma TakeLast(files: seq<nat>, lo: nat, hi: nat) returns (p: nat)
    requires lo < hi && Enumerates(files, lo, hi)
    ensures p < |files| && files[p] == hi - 1
    ensures Enumerates(files[..p] + files[p + 1..], lo, hi - 1)
  {
    assert hi - 1 in files;
    p :| 0 <= p < |files| && files[p] == hi - 1;
    var rest := files[..p] + files[p + 1..];
    assert forall j :: 0 <= j < |rest| ==> rest[j] == files[if j < p then j else j + 1];
    forall f
      ensures f in rest <==> lo <= f < hi - 1
    {
      assert files == files[..p] + [hi - 1] + files[p + 1..];
      assert f in files <==> f in files[..p] || f == hi - 1 || f in files[p + 1..];
    }
  }

  /** The order of the listing does not matter. */
  lemma {:induction false} TotalIsRange(q: Queue, files: seq<nat>, lo: nat, hi: nat)
    requires WellFormed(q) && lo <= hi && (forall i :: lo <= i < hi ==> i in q.disk)
    requires Enumerates(files, lo, hi)
    ensures TotalCount(q, files) == RangeCount(q, lo, hi)
    decreases hi - lo
  {
    hide FileCount, WellFormed;
    if lo == hi {
      HasMember(files);
    } else {
      var p := TakeLast(files, lo, hi);
      var a, b := files[..p], files[p + 1..];
      assert files == a + [hi - 1] + b;
      TotalSplit(q, a, hi - 1, b);
      TotalIsRange(q, a + b, lo, hi - 1);
    }
  }

  /** Every head is right or empty. */
  ghost predicate HeadsTrue(q: Queue, lay: seq<seq<Chunk>>) {
    && (forall i :: i in q.disk <==> q.rd.index <= i < q.rd.index + |lay|)
    && (forall i :: 0 <= i < |lay| ==>
          F.HeadRight(q.disk[q.rd.index + i], |Goods(lay[i])|))
  }

  lemma ExactHeadsTrue(q: Queue, lay: seq<seq<Chunk>>, k: nat)
    requires F.Exact(q, lay, k) && F.Right(q, lay)
    ensures HeadsTrue(q, lay)
  {
    hide F.HeadCounts, F.HeadUnder, F.HeadEmpty, F.AllGood;
    forall i | 0 <= i < |lay|
      ensures F.HeadRight(q.disk[q.rd.index + i], |Goods(lay[i])|)
    {
      assert lay[i] in lay;
      F.AllGoodCount(lay[i]);
    }
  }

  lemma FileAt(q: Queue, lay: seq<seq<Chunk>>, k: nat, i: nat)
    requires F.Stores(q, lay, k) && HeadsTrue(q, lay) && i < |lay|
    ensures q.rd.index + i in q.disk
    ensures FileCount(q.disk[q.rd.index + i], ScanEnd(q)) == |Goods(lay[i])|
  {
    hide F.HeadCounts, F.HeadEmpty, FileCount, Holds, F.ReadAt, Goods;
    var seg := q.disk[q.rd.index + i];
    assert Holds(seg, lay[i]);
    HoldsLayout(seg, lay[i]);
    F.ReaderSegment(q, lay, k);
    FileCountExact(seg, lay[i], ScanEnd(q));
  }

  lemma {:induction false} AllGoodsSnoc(lay: seq<seq<Chunk>>, cs: seq<Chunk>)
    ensures F.AllGoods(lay + [cs]) == F.AllGoods(lay) + Goods(cs)
  {
    hide Goods;
    if lay == [] {
      assert lay + [cs] == [cs] && [cs][1..] == [];
    } else {
      assert (lay + [cs])[1..] == lay[1..] + [cs];
      AllGoodsSnoc(lay[1..], cs);
    }
  }

  lemma {:induction false} RangeExact(q: Queue, lay: seq<seq<Chunk>>, k: nat, n: nat)
    requires F.Stores(q, lay, k) && HeadsTrue(q, lay) && n <= |lay|
    ensures RangeCount(q, q.rd.index, q.rd.index + n) == |F.AllGoods(lay[..n])|
    decreases n
  {
    hide F.Stores, FileCount, Goods, F.AllGoods, F.HeadCounts, F.HeadEmpty;
    R.StoresShape(q, lay, k);
    if n > 0 {
      RangeExact(q, lay, k, n - 1);
      FileAt(q, lay, k, n - 1);
      assert lay[..n] == lay[..n - 1] + [lay[n - 1]];
      AllGoodsSnoc(lay[..n - 1], lay[n - 1]);
    } else {
      assert lay[..0] == [];
      NoGoods();
    }
  }

  lemma NoGoods()
    ensures F.AllGoods([]) == []
  {}

  /** The recount finds exactly the messages in the files. */
  lemma {:induction false} TotalExact(q: Queue, lay: seq<seq<Chunk>>, k: nat, files: seq<nat>)
    requires F.Stores(q, lay, k) && HeadsTrue(q, lay) && Lists(q, files)
    ensures WellFormed(q) && TotalCount(q, files) == |F.AllGoods(lay)|
  {
    hide F.Stores, F.HeadCounts, F.HeadEmpty, F.AllGoods, Goods, TotalCount, RangeCount;
    R.StoresShape(q, lay, k);
    assert Enumerates(files, q.rd.index, q.rd.index + |lay|);
    TotalIsRange(q, files, q.rd.index, q.rd.index + |lay|);
    RangeExact(q, lay, k, |lay|);
    assert lay[..|lay|] == lay;
  }

  /** Without damage the count of messages before the reader is its chunk number, so the recounted
      number of unread messages is the number still to be delivered. */
  lemma {:induction false} RecountExact(q: Queue, lay: seq<seq<Chunk>>, k: nat, files: seq<nat>)
    requires F.Stores(q, lay, k) && HeadsTrue(q, lay) && Lists(q, files)
    requires k <= |lay[0]| && F.AllGood(lay[0]) && q.rd.count == k && q.unread == 0
    ensures WellFormed(q) && F.Stores(Recounted(q, files), lay, k)
    ensures Recounted(q, files).unread == |F.Pending(lay, k)|
    ensures Recounted(q, files).putNum == Recounted(q, files).getNum + |F.Pending(lay, k)|
  {
    hide F.HeadCounts, F.HeadEmpty, F.AllGood, Holds, F.ReadAt, HeadsTrue, Lists, TotalCount, Goods;
    TotalExact(q, lay, k, files);
    GoodsAround(lay[0], k);
  }

  // ----- When some heads announce too few

  ghost predicate HeadsUnder(q: Queue, lay: seq<seq<Chunk>>) {
    && (forall i :: i in q.disk <==> q.rd.index <= i < q.rd.index + |lay|)
    && (forall i :: 0 <= i < |lay| ==> F.HeadUnder(q.disk[q.rd.index + i], |Goods(lay[i])|))
  }

  predicate HonestFile(q: Queue, f: nat)
    requires WellFormed(q)
  {
    f in q.disk && FileCount(q.disk[f], ScanEnd(q)) == ScanCount(q.disk[f], 0, ScanEnd(q))
  }

  /** What the head of a file announces, if anything, is what a scan of the file finds. */
  ghost predicate Honest(q: Queue)
    requires WellFormed(q)
  {
    forall f :: f in q.disk ==> HonestFile(q, f)
  }

  lemma ExactHeadsUnder(q: Queue, lay: seq<seq<Chunk>>, k: nat)
    requires F.Exact(q, lay, k)
    ensures HeadsUnder(q, lay)
  {
    hide F.HeadCounts, F.HeadEmpty, F.AllGood;
    forall i | 0 <= i < |lay|
      ensures F.HeadUnder(q.disk[q.rd.index + i], |Goods(lay[i])|)
    {
      assert lay[i] in lay;
      F.AllGoodCount(lay[i]);
    }
  }

  lemma FileUnder(seg: seq<byte>, cs: seq<Chunk>, end: nat)
    requires Holds(seg, cs) && End(cs) <= end <= |seg| && F.HeadUnder(seg, |Goods(cs)|)
    ensures FileCount(seg, end) <= ScanCount(seg, 0, end) == |Goods(cs)|
  {
    hide F.HeadCounts, F.HeadEmpty, Goods, HeadCount, Pow10, Holds;
    ScanIsExact(seg, cs, end);
    SizeOf(seg, cs);
    TenDigits();
    if F.HeadEmpty(seg) {
      HeadCountOfEmpty(seg);
    } else {
      var n :| 0 <= n <= |Goods(cs)| && F.HeadCounts(seg, n);
      HeadCountOfHead(seg, n);
    }
  }

  lemma FileUnderAt(q: Queue, lay: seq<seq<Chunk>>, k: nat, i: nat)
    requires F.Stores(q, lay, k) && HeadsUnder(q, lay) && i < |lay|
    ensures q.rd.index + i in q.disk
    ensures var seg := q.disk[q.rd.index + i];
      FileCount(seg, ScanEnd(q)) <= ScanCount(seg, 0, ScanEnd(q)) == |Goods(lay[i])|
  {
    hide F.HeadUnder, FileCount, ScanCount, Holds, F.ReadAt, Goods;
    var seg := q.disk[q.rd.index + i];
    assert Holds(seg, lay[i]);
    HoldsLayout(seg, lay[i]);
    F.ReaderSegment(q, lay, k);
    FileUnder(seg, lay[i], ScanEnd(q));
  }

  lemma {:induction false} RangeUnder(q: Queue, lay: seq<seq<Chunk>>, k: nat, n: nat)
    requires F.Stores(q, lay, k) && HeadsUnder(q, lay) && n <= |lay|
    ensures RangeCount(q, q.rd.index, q.rd.index + n) <= |F.AllGoods(lay[..n])|
    ensures RangeCount(q, q.rd.index, q.rd.index + n) == |F.AllGoods(lay[..n])| <==>
      forall f :: q.rd.index <= f < q.rd.index + n ==> HonestFile(q, f)
    decreases n
  {
    hide F.Stores, FileCount, ScanCount, Goods, F.AllGoods, F.HeadUnder;
    R.StoresShape(q, lay, k);
    if n > 0 {
      var f := q.rd.index + (n - 1);
      RangeUnder(q, lay, k, n - 1);
      FileUnderAt(q, lay, k, n - 1);
      assert HonestFile(q, f) <==> FileCount(q.disk[f], ScanEnd(q)) == |Goods(lay[n - 1])|;
      assert (forall g :: q.rd.index <= g < q.rd.index + n ==> HonestFile(q, g)) <==>
        HonestFile(q, f) && forall g :: q.rd.index <= g < f ==> HonestFile(q, g);
      assert lay[..n] == lay[..n - 1] + [lay[n - 1]];
      AllGoodsSnoc(lay[..n - 1], lay[n - 1]);
    } else {
      assert lay[..0] == [];
      NoGoods();
    }
  }

  /** The recount never finds more than the files hold, and all of it exactly when the heads are honest. */
  lemma {:induction false} TotalUnder(q: Queue, lay: seq<seq<Chunk>>, k: nat, files: seq<nat>)
    requires F.Stores(q, lay, k) && HeadsUnder(q, lay) && Lists(q, files)
    ensures WellFormed(q) && TotalCount(q, files) <= |F.AllGoods(lay)|
    ensures TotalCount(q, files) == |F.AllGoods(lay)| <==> Honest(q)
  {
    hide F.Stores, F.HeadUnder, F.AllGoods, Goods, TotalCount, RangeCount, HonestFile;
    R.StoresShape(q, lay, k);
    var lo, n := q.rd.index, |lay|;
    assert Enumerates(files, lo, lo + n);
    TotalIsRange(q, files, lo, lo + n);
    RangeUnder(q, lay, k, n);
    assert lay[..n] == lay;
    assert Honest(q) <==> forall f :: lo <= f < lo + n ==> HonestFile(q, f);
  }

  /** The recounted number of unread messages is right if and only if nothing is pending or the
      heads are honest; otherwise it is too small. */
  lemma {:induction false} UnreadIff(q: Queue, lay: seq<seq<Chunk>>, k: nat, files: seq<nat>)
    requires F.Stores(q, lay, k) && HeadsUnder(q, lay) && Lists(q, files)
    requires k <= |lay[0]| && F.AllGood(lay[0]) && q.rd.count == k && q.unread == 0
    ensures WellFormed(q) && F.Stores(Recounted(q, files), lay, k)
    ensures Recounted(q, files).unread <= |F.Pending(lay, k)|
    ensures Recounted(q, files).unread == |F.Pending(lay, k)| <==> F.Pending(lay, k) == [] || Honest(q)
    ensures Honest(q) ==> Recounted(q, files).putNum == Recounted(q, files).getNum + |F.Pending(lay, k)|
  {
    hide F.HeadUnder, F.AllGood, Holds, F.ReadAt, HeadsUnder, Lists, TotalCount, Goods, Honest;
    TotalUnder(q, lay, k, files);
    GoodsAround(lay[0], k);
  }

  /** A file whose head announces nothing is scanned. */
  lemma EmptyHeadScans(seg: seq<byte>, end: nat)
    requires SegmentSize(|seg|) && end <= |seg| && F.HeadEmpty(seg)
    ensures FileCount(seg, end) == ScanCount(seg, 0, end)
  {
    hide F.HeadEmpty, HeadCount, ScanCount;
    HeadCountOfEmpty(seg);
  }

  /** Only files and bounds count. */
  lemma {:induction false} TotalAlike(q: Queue, q': Queue, files: seq<nat>)
    requires WellFormed(q) && WellFormed(q') && (forall f :: f in files ==> f in q.disk)
    requires q'.disk == q.disk && ScanEnd(q') == ScanEnd(q)
    ensures TotalCount(q', files) == TotalCount(q, files)
    decreases |files|
  {
    hide FileCount, WellFormed, ScanEnd;
    if files != [] {
      TotalAlike(q, q', files[..|files| - 1]);
    }
  }

  lemma GoodsAround(cs: seq<Chunk>, k: nat)
    requires F.AllGood(cs) && k <= |cs|
    ensures |Goods(cs)| == k + |Goods(cs[k..])|
  {
    assert cs == cs[..k] + cs[k..];
    F.AllGoodCount(cs[..k]);
    GoodsSplit(cs[..k], cs[k..]);
  }
}
