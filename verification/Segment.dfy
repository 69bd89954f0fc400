/** The contents of one segment file: a head, stored frames, some of them possibly damaged, and
    a tail; and the restart scan that counts its messages. */
module Segment {
  import opened Bytes
  import opened Crc16
  import opened Message

  /** A stretch of a segment that one put wrote: still a message, or bytes that no longer are. */
  datatype Chunk = Good(msg: Msg) | Damaged(raw: seq<byte>)
  {
    function Image(): seq<byte> {
      if Good? then Frame(msg) else raw
    }
  }

  /** A magic pair at offset i of raw announces a body inside raw that fails its checksum. */
  predicate FailsAt(raw: seq<byte>, i: nat) {
    i + MSG_HEAD_LEN <= |raw| &&
    var len := FromLe32(raw, i + 8);
    i + MSG_HEAD_LEN + len <= |raw| &&
    Crc(raw[i + MSG_HEAD_LEN..i + MSG_HEAD_LEN + len]) != FromLe16(raw, i + 6)
  }

  /** Bytes out of which no parse can make a message, whatever follows them. */
  ghost predicate Dead(raw: seq<byte>) {
    |raw| > 0 && raw[0] != MAGIC2 &&
    forall i :: 0 <= i < |raw| && MagicAt(raw, i) ==> FailsAt(raw, i)
  }

  ghost predicate ChunkOk(c: Chunk, max: nat) {
    if c.Good? then Fits(c.msg, max) else Dead(c.raw)
  }

  function Layout(cs: seq<Chunk>): seq<byte> {
    if cs == [] then [] else Layout(cs[..|cs| - 1]) + cs[|cs| - 1].Image()
  }

  /** Where the k-th chunk starts. */
  function Boundary(cs: seq<Chunk>, k: nat): (b: nat)
    requires k <= |cs|
    ensures b >= DB_FILE_HEAD_LEN
  {
    DB_FILE_HEAD_LEN + |Layout(cs[..k])|
  }

  function End(cs: seq<Chunk>): nat { Boundary(cs, |cs|) }

  /** The messages among the chunks, in order. */
  function Goods(cs: seq<Chunk>): seq<Msg> {
    if cs == [] then []
    else (if cs[0].Good? then [cs[0].msg] else []) + Goods(cs[1..])
  }

  ghost predicate Blank(seg: seq<byte>, from: nat, to: nat) {
    to <= |seg| && forall p :: from <= p < to ==> seg[p] != MAGIC1 && seg[p] != MAGIC2
  }

  /** No byte that could complete a magic pair. */
  ghost predicate Pairless(seg: seq<byte>, from: nat, to: nat) {
    to <= |seg| && forall p :: from <= p < to ==> seg[p] != MAGIC2
  }

  /** seg holds exactly the chunks cs, between a blank head and a tail without magic pairs. */
  ghost predicate Holds(seg: seq<byte>, cs: seq<Chunk>) {
    && SegmentSize(|seg|)
    && (forall c :: c in cs ==> ChunkOk(c, |seg|))
    && End(cs) <= |seg|
    && seg[DB_FILE_HEAD_LEN..End(cs)] == Layout(cs)
    && Blank(seg, 0, DB_FILE_HEAD_LEN)
    && Pairless(seg, End(cs), |seg|)
  }

  /** Between from and to no parse yields a message or sends the reader to the next segment. */
  ghost predicate Quiet(seg: seq<byte>, from: nat, to: nat)
    requires SegmentSize(|seg|)
  {
    to <= |seg| &&
    forall p :: from <= p < to && p + MSG_HEAD_LEN < |seg| ==>
      ParseMsg(seg, p).MagicErr? || ParseMsg(seg, p).CrcErr?
  }

  // ----- Geometry

  lemma {:induction false} LayoutPrefix(cs: seq<Chunk>, k: nat)
    requires k <= |cs|
    ensures |Layout(cs[..k])| <= |Layout(cs)|
    ensures Layout(cs)[..|Layout(cs[..k])|] == Layout(cs[..k])
    decreases |cs|
  {
    if k < |cs| {
      var cs' := cs[..|cs| - 1];
      assert cs'[..k] == cs[..k];
      LayoutPrefix(cs', k);
    } else {
      assert cs[..k] == cs;
    }
  }

  lemma BoundaryStep(cs: seq<Chunk>, k: nat)
    requires k < |cs|
    ensures Boundary(cs, k + 1) == Boundary(cs, k) + |cs[k].Image()|
    ensures Boundary(cs, k + 1) <= End(cs)
  {
    assert cs[..k + 1][..k] == cs[..k];
    assert cs[..|cs|] == cs;
    LayoutPrefix(cs, k + 1);
  }

  lemma ChunkInPlace(seg: seq<byte>, cs: seq<Chunk>, k: nat)
    requires Holds(seg, cs) && k < |cs|
    ensures Boundary(cs, k + 1) == Boundary(cs, k) + |cs[k].Image()|
    ensures Boundary(cs, k + 1) <= End(cs) <= |seg|
    ensures seg[Boundary(cs, k)..Boundary(cs, k + 1)] == cs[k].Image()
  {
    hide Holds, Chunk.Image;
    BoundaryStep(cs, k);
    HoldsLayout(seg, cs);
    ImageInLayout(cs, k);
    SliceOfSlice(seg, DB_FILE_HEAD_LEN, End(cs), |Layout(cs[..k])|, |Layout(cs[..k + 1])|);
  }

  lemma ImageInLayout(cs: seq<Chunk>, k: nat)
    requires k < |cs|
    ensures |Layout(cs[..k])| <= |Layout(cs[..k + 1])| <= |Layout(cs)|
    ensures Layout(cs)[|Layout(cs[..k])|..|Layout(cs[..k + 1])|] == cs[k].Image()
  {
    hide Chunk.Image;
    var a, b := |Layout(cs[..k])|, |Layout(cs[..k + 1])|;
    assert cs[..k + 1][..k] == cs[..k];
    LayoutPrefix(cs, k + 1);
    assert Layout(cs[..k + 1]) == Layout(cs[..k]) + cs[k].Image();
    assert Layout(cs)[a..b] == Layout(cs)[..b][a..];
  }

  lemma HoldsLayout(seg: seq<byte>, cs: seq<Chunk>)
    requires Holds(seg, cs)
    ensures End(cs) <= |seg| && seg[DB_FILE_HEAD_LEN..End(cs)] == Layout(cs)
    ensures End(cs) == DB_FILE_HEAD_LEN + |Layout(cs)| && SegmentSize(|seg|)
  {
    assert cs[..|cs|] == cs;
  }

  /** No chunk and no tail starts with the second magic byte, so no pair straddles a boundary. */
  lemma NoPairAcross(seg: seq<byte>, cs: seq<Chunk>, k: nat)
    requires Holds(seg, cs) && k <= |cs|
    ensures Boundary(cs, k) <= End(cs)
    ensures !MagicAt(seg, Boundary(cs, k) - 1)
  {
    if k < |cs| {
      ChunkInPlace(seg, cs, k);
      var b := Boundary(cs, k);
      assert ChunkOk(cs[k], |seg|);
      assert seg[b] == seg[b..Boundary(cs, k + 1)][0];
    }
  }

  lemma BlankIsQuiet(seg: seq<byte>, from: nat, to: nat)
    requires SegmentSize(|seg|) && Blank(seg, from, to)
    ensures Quiet(seg, from, to)
  {
    hide Crc;
    forall p | from <= p < to && p + MSG_HEAD_LEN < |seg|
      ensures ParseMsg(seg, p).MagicErr?
    {
      assert seg[p] != MAGIC1;
    }
  }

  lemma TailIsQuiet(seg: seq<byte>, from: nat, to: nat)
    requires SegmentSize(|seg|) && Pairless(seg, from, |seg|) && to <= |seg|
    ensures Quiet(seg, from, to)
  {
    hide Crc;
    forall p | from <= p < to && p + MSG_HEAD_LEN < |seg|
      ensures ParseMsg(seg, p).MagicErr?
    {
      assert seg[p + 1] != MAGIC2;
    }
  }

  /** The bytes of a damaged chunk are passed over, wherever it lies. */
  lemma DamagedIsQuiet(seg: seq<byte>, cs: seq<Chunk>, k: nat)
    requires Holds(seg, cs) && k < |cs| && cs[k].Damaged?
    ensures Quiet(seg, Boundary(cs, k), Boundary(cs, k + 1))
  {
    var b, e := Boundary(cs, k), Boundary(cs, k + 1);
    ChunkInPlace(seg, cs, k);
    NoPairAcross(seg, cs, k + 1);
    assert ChunkOk(cs[k], |seg|);
    hide Holds, Boundary;
    DeadIsQuiet(seg, b, cs[k].raw);
  }

  lemma DeadIsQuiet(seg: seq<byte>, b: nat, raw: seq<byte>)
    requires SegmentSize(|seg|) && b + |raw| <= |seg| && seg[b..b + |raw|] == raw
    requires Dead(raw) && !MagicAt(seg, b + |raw| - 1)
    ensures Quiet(seg, b, b + |raw|)
  {
    hide Crc, FromLe16, FromLe32;
    var e := b + |raw|;
    Window(seg, b, raw, 0, |raw|);
    forall p | b <= p < e && p + MSG_HEAD_LEN < |seg|
      ensures ParseMsg(seg, p).MagicErr? || ParseMsg(seg, p).CrcErr?
    {
      if MagicAt(seg, p) {
        assert p < e - 1;
        assert MagicAt(raw, p - b);
        FailureShows(seg, b, raw, p - b);
      }
    }
  }

  lemma FailureShows(seg: seq<byte>, b: nat, raw: seq<byte>, i: nat)
    requires SegmentSize(|seg|) && b + |raw| <= |seg| && seg[b..b + |raw|] == raw
    requires MagicAt(raw, i) && FailsAt(raw, i) && b + i + MSG_HEAD_LEN < |seg|
    ensures ParseMsg(seg, b + i).CrcErr?
  {
    hide Crc, FromLe16, FromLe32;
    Window(seg, b, raw, 0, |raw|);
    SameFields(seg, b, raw, i);
    var len := FromLe32(raw, i + 8);
    Window(seg, b, raw, i + MSG_HEAD_LEN, i + MSG_HEAD_LEN + len);
  }

  lemma SameFields(seg: seq<byte>, b: nat, raw: seq<byte>, i: nat)
    requires i + MSG_HEAD_LEN <= |raw| && b + |raw| <= |seg| && seg[b..b + |raw|] == raw
    ensures FromLe16(seg, b + i + 6) == FromLe16(raw, i + 6)
    ensures FromLe32(seg, b + i + 8) == FromLe32(raw, i + 8)
  {
    Window(seg, b, raw, 0, |raw|);
  }

  lemma {:induction false} GoodsSplit(cs: seq<Chunk>, ds: seq<Chunk>)
    ensures Goods(cs + ds) == Goods(cs) + Goods(ds)
  {
    if cs == [] {
      assert cs + ds == ds;
    } else {
      assert (cs + ds)[1..] == cs[1..] + ds;
      GoodsSplit(cs[1..], ds);
      var first := if cs[0].Good? then [cs[0].msg] else [];
      assert first + (Goods(cs[1..]) + Goods(ds)) == first + Goods(cs[1..]) + Goods(ds);
    }
  }

  // ----- What put does to a segment

  /** A new segment: ftruncate leaves zeros, and one character '0' is written over the last byte. */
  function FreshSegment(max: nat): (seg: seq<byte>)
    requires SegmentSize(max)
    ensures |seg| == max
  {
    seq(max - 1, i => 0) + [48]
  }

  lemma {:induction false} FreshHoldsNothing(max: nat)
    requires SegmentSize(max)
    ensures Holds(FreshSegment(max), [])
  {
    var seg := FreshSegment(max);
    assert seg[128..128] == [];
  }

  /** Writing a frame at the end of the frames adds one message and disturbs nothing. */
  lemma {:induction false} AppendFrame(seg: seq<byte>, cs: seq<Chunk>, m: Msg)
    requires Holds(seg, cs) && Fits(m, |seg|) && End(cs) + |Frame(m)| <= |seg|
    ensures Holds(Overwrite(seg, End(cs), Frame(m)), cs + [Good(m)])
    ensures End(cs + [Good(m)]) == End(cs) + |Frame(m)|
    ensures forall k :: 0 <= k <= |cs| ==> Boundary(cs + [Good(m)], k) == Boundary(cs, k)
  {
    hide Frame, Crc;
    var cs' := cs + [Good(m)];
    var f := Frame(m);
    var seg' := Overwrite(seg, End(cs), f);
    assert cs'[..|cs|] == cs && cs'[..|cs'|] == cs' && cs[..|cs|] == cs;
    assert Layout(cs') == Layout(cs) + f;
    var h, e, e' := DB_FILE_HEAD_LEN, End(cs), End(cs');
    assert seg'[h..e'] == seg[h..e] + f;
    forall k | 0 <= k <= |cs|
      ensures Boundary(cs', k) == Boundary(cs, k)
    {
      assert cs'[..k] == cs[..k];
    }
  }

  /** Rewriting the head with blank bytes disturbs nothing. */
  lemma {:induction false} RewriteHead(seg: seq<byte>, cs: seq<Chunk>, head: seq<byte>)
    requires Holds(seg, cs) && |head| == DB_FILE_HEAD_LEN && Blank(head, 0, DB_FILE_HEAD_LEN)
    ensures Holds(Overwrite(seg, 0, head), cs)
  {
    var seg' := Overwrite(seg, 0, head);
    assert seg'[DB_FILE_HEAD_LEN..End(cs)] == seg[DB_FILE_HEAD_LEN..End(cs)];
    assert forall p :: 0 <= p < DB_FILE_HEAD_LEN ==> seg'[p] == head[p];
    assert forall p :: DB_FILE_HEAD_LEN <= p < |seg| ==> seg'[p] == seg[p];
  }

  // ----- Damage

  /** Replaces the k-th stored frame by other bytes of the same length. */
  function Damage(seg: seq<byte>, cs: seq<Chunk>, k: nat, raw: seq<byte>): seq<byte>
    requires k < |cs| && |raw| == |cs[k].Image()| && Boundary(cs, k) + |raw| <= |seg|
  {
    Overwrite(seg, Boundary(cs, k), raw)
  }

  lemma {:induction false} LayoutUpdate(cs: seq<Chunk>, k: nat, c: Chunk)
    requires k < |cs| && |c.Image()| == |cs[k].Image()|
    ensures |Layout(cs[..k])| + |c.Image()| <= |Layout(cs)|
    ensures Layout(cs[k := c]) == Overwrite(Layout(cs), |Layout(cs[..k])|, c.Image())
    decreases |cs|
  {
    hide Frame, Chunk.Image, Overwrite;
    var n := |cs| - 1;
    var cs', last := cs[..n], cs[n];
    if k == n {
      assert cs[k := c][..n] == cs';
      OverwriteTail(Layout(cs'), last.Image(), c.Image());
    } else {
      LayoutUpdate(cs', k, c);
      assert cs[k := c][..n] == cs'[k := c];
      assert cs'[..k] == cs[..k];
      OverwriteExtends(Layout(cs'), last.Image(), |Layout(cs[..k])|, c.Image());
    }
  }

  /** Damage turns exactly one chunk dead; every other message is still where it was. */
  lemma {:induction false} DamageKillsOne(seg: seq<byte>, cs: seq<Chunk>, k: nat, raw: seq<byte>)
    requires Holds(seg, cs) && k < |cs| && |raw| == |cs[k].Image()| && Dead(raw)
    ensures Boundary(cs, k) + |raw| <= |seg|
    ensures Holds(Damage(seg, cs, k, raw), cs[k := Damaged(raw)])
    ensures End(cs[k := Damaged(raw)]) == End(cs)
    ensures Goods(cs[k := Damaged(raw)]) == Goods(cs[..k]) + Goods(cs[k + 1..])
  {
    hide Crc, Dead, Frame, Holds, Layout, Boundary, Damage;
    var cs' := cs[k := Damaged(raw)];
    ChunkInPlace(seg, cs, k);
    DamageHolds(seg, cs, k, raw);
    assert cs' == cs[..k] + [Damaged(raw)] + cs[k + 1..];
    GoodsSplit(cs[..k] + [Damaged(raw)], cs[k + 1..]);
    GoodsSplit(cs[..k], [Damaged(raw)]);
  }

  lemma DamageHolds(seg: seq<byte>, cs: seq<Chunk>, k: nat, raw: seq<byte>)
    requires Holds(seg, cs) && k < |cs| && |raw| == |cs[k].Image()| && Dead(raw)
    requires Boundary(cs, k) + |raw| <= End(cs)
    ensures Holds(Damage(seg, cs, k, raw), cs[k := Damaged(raw)])
    ensures End(cs[k := Damaged(raw)]) == End(cs)
  {
    hide Crc, Dead, Frame, Overwrite;
    var cs' := cs[k := Damaged(raw)];
    LayoutUpdate(cs, k, Damaged(raw));
    HoldsLayout(seg, cs);
    assert cs'[..|cs'|] == cs';
    var h, e, a := DB_FILE_HEAD_LEN, End(cs), Boundary(cs, k) - DB_FILE_HEAD_LEN;
    var seg' := Damage(seg, cs, k, raw);
    OverwriteInside(seg, h, e, a, raw);
    assert seg'[h..e] == Layout(cs');
    forall p | 0 <= p < h
      ensures seg'[p] == seg[p]
    {
      assert seg'[..h][p] == seg[..h][p];
    }
    forall p | e <= p < |seg|
      ensures seg'[p] == seg[p]
    {
      assert seg'[e..][p - e] == seg[e..][p - e];
    }
    assert forall c :: c in cs' ==> c in cs || c == Damaged(raw);
  }

  lemma OverwriteTail(x: seq<byte>, y: seq<byte>, src: seq<byte>)
    requires |src| == |y|
    ensures Overwrite(x + y, |x|, src) == x + src
  {}

  /** Body damage under an intact head is such damage, provided the checksum notices and the
      damaged frame contains no magic pair after its first two bytes. */
  lemma {:induction false} BodyDamageIsDead(m: Msg, raw: seq<byte>, max: nat)
    requires SegmentSize(max) && Fits(m, max)
    requires |raw| == |Frame(m)| && raw[..MSG_HEAD_LEN] == Frame(m)[..MSG_HEAD_LEN]
    requires Crc(raw[MSG_HEAD_LEN..]) != Crc(m.body)
    requires forall i :: 2 <= i < |raw| ==> !MagicAt(raw, i)
    ensures Dead(raw)
  {
    hide Frame, Crc, Le16, Le32, FromLe16, FromLe32, Fits;
    FrameFields(m);
    var f := Frame(m);
    assert raw[0] == raw[..MSG_HEAD_LEN][0] && raw[1] == raw[..MSG_HEAD_LEN][1];
    assert f[0] == f[..MSG_HEAD_LEN][0] && f[1] == f[..MSG_HEAD_LEN][1];
    assert raw[6..8] == raw[..MSG_HEAD_LEN][6..8] == f[6..8];
    assert raw[8..12] == raw[..MSG_HEAD_LEN][8..12] == f[8..12];
    Le16RoundTrip(Crc(m.body), raw, 6);
    Le32RoundTrip(|m.body|, raw, 8);
    FitsSmall(m, max);
    assert raw[MSG_HEAD_LEN..MSG_HEAD_LEN + |m.body|] == raw[MSG_HEAD_LEN..];
  }

  // ----- The restart scan

  /** The loop of mq_sm_db_cal_msg_count from pos on: every other outcome moves one or two bytes. */
  function ScanCount(seg: seq<byte>, pos: nat, end: nat): nat
    requires SegmentSize(|seg|) && end <= |seg|
    decreases end - pos
  {
    if pos >= end then 0
    else match ParseMsg(seg, pos)
      case Ok(m) => 1 + ScanCount(seg, pos + MSG_HEAD_LEN + |m.body|, end)
      case MagicErr => ScanCount(seg, pos + 1, end)
      case CrcErr => ScanCount(seg, pos + 2, end)
      case LenBeyond => ScanCount(seg, pos + 2, end)
  }

  /** One round over the integers: a message is counted, a pair without one costs two bytes, any other byte one,
      and at the end of the file two. */
  lemma {:induction false} ScanDecides(seg: seq<byte>, pos: nat, end: nat)
    requires SegmentSize(|seg|) && pos < end <= |seg|
    ensures var body := pos + MSG_HEAD_LEN;
      ScanCount(seg, pos, end) ==
      if body >= |seg| then ScanCount(seg, pos + 2, end)
      else if seg[pos..pos + 2] != [MAGIC1, MAGIC2] then ScanCount(seg, pos + 1, end)
      else
        var len := Number(seg[pos + 8..pos + 12]);
        if body + len <= |seg| && Crc(seg[body..body + len]) == Number(seg[pos + 6..pos + 8])
        then 1 + ScanCount(seg, body + len, end) else ScanCount(seg, pos + 2, end)
  {
    hide ParseMsg, Crc, Number;
    ParseDecides(seg, pos);
  }

  method CalMsgCount(file: array<byte>, end: nat) returns (count: nat)
    requires SegmentSize(file.Length) && end <= file.Length
    ensures count == ScanCount(file[..], 0, end)
  {
    hide ParseMsg;
    var pos := 0;
    count := 0;
    while pos < end
      invariant count + ScanCount(file[..], pos, end) == ScanCount(file[..], 0, end)
      decreases end - pos
    {
      var ret := ParseMsgAt(file, pos);
      match ret
      case Ok(m) =>
        pos := pos + MSG_HEAD_LEN + |m.body|;
        count := count + 1;
      case MagicErr =>
        pos := pos + 1;
      case CrcErr =>
        pos := pos + 2;
      case LenBeyond =>
        pos := pos + 2;
    }
  }

  lemma {:induction false} ScanSkips(seg: seq<byte>, p: nat, q: nat, end: nat)
    requires SegmentSize(|seg|) && p <= q <= end <= |seg| && Quiet(seg, p, q)
    requires q + MSG_HEAD_LEN <= |seg|
    requires p < q ==> !MagicAt(seg, q - 1)
    ensures ScanCount(seg, p, end) == ScanCount(seg, q, end)
    decreases q - p
  {
    hide Crc, FromLe32, FromLe16;
    if p < q {
      if ParseMsg(seg, p).MagicErr? {
        ScanSkips(seg, p + 1, q, end);
      } else {
        assert MagicAt(seg, p);
        ScanSkips(seg, p + 2, q, end);
      }
    }
  }

  /** Once nothing but quiet bytes is left the scan finds nothing more. */
  lemma {:induction false} ScanEnds(seg: seq<byte>, p: nat, end: nat)
    requires SegmentSize(|seg|) && end <= |seg| && Quiet(seg, p, end)
    ensures ScanCount(seg, p, end) == 0
    decreases end - p
  {
    hide Crc, FromLe32, FromLe16;
    if p < end {
      match ParseMsg(seg, p)
      case Ok(m) =>
      case MagicErr => ScanEnds(seg, p + 1, end);
      case CrcErr => ScanEnds(seg, p + 2, end);
      case LenBeyond => ScanEnds(seg, p + 2, end);
    }
  }

  lemma QuietJoin(seg: seq<byte>, a: nat, b: nat, c: nat)
    requires SegmentSize(|seg|) && Quiet(seg, a, b) && Quiet(seg, b, c)
    ensures Quiet(seg, a, c)
  {
    hide ParseMsg;
  }

  lemma {:induction false} ScanFrom(seg: seq<byte>, cs: seq<Chunk>, k: nat, end: nat)
    requires Holds(seg, cs) && k <= |cs| && End(cs) <= end <= |seg|
    ensures Boundary(cs, k) <= End(cs)
    ensures ScanCount(seg, Boundary(cs, k), end) == |Goods(cs[k..])|
    decreases |cs| - k
  {
    NoPairAcross(seg, cs, k);
    if k == |cs| {
      TailIsQuiet(seg, End(cs), end);
      ScanEnds(seg, End(cs), end);
    } else {
      ScanFrom(seg, cs, k + 1, end);
      GoodsCons(cs, k);
      if cs[k].Good? {
        ScanGood(seg, cs, k, end);
      } else {
        ScanOver(seg, cs, k, end);
      }
    }
  }

  lemma ScanGood(seg: seq<byte>, cs: seq<Chunk>, k: nat, end: nat)
    requires Holds(seg, cs) && k < |cs| && cs[k].Good? && End(cs) <= end <= |seg|
    ensures ScanCount(seg, Boundary(cs, k), end) == 1 + ScanCount(seg, Boundary(cs, k + 1), end)
  {
    hide *;
    GoodInPlace(seg, cs, k, end);
    ParseFrame(seg, Boundary(cs, k), cs[k].msg);
    ScanOk(seg, Boundary(cs, k), cs[k].msg, end);
  }

  lemma GoodInPlace(seg: seq<byte>, cs: seq<Chunk>, k: nat, end: nat)
    requires Holds(seg, cs) && k < |cs| && cs[k].Good? && End(cs) <= end <= |seg|
    ensures var p, m := Boundary(cs, k), cs[k].msg;
      && SegmentSize(|seg|) && Fits(m, |seg|) && p + |Frame(m)| <= |seg| && seg[p..p + |Frame(m)|] == Frame(m)
      && p < end && Boundary(cs, k + 1) == p + MSG_HEAD_LEN + |m.body|
  {
    ChunkInPlace(seg, cs, k);
    assert ChunkOk(cs[k], |seg|);
  }

  lemma ScanOk(seg: seq<byte>, p: nat, m: Msg, end: nat)
    requires SegmentSize(|seg|) && p < end <= |seg| && ParseMsg(seg, p) == Ok(m)
    ensures ScanCount(seg, p, end) == 1 + ScanCount(seg, p + MSG_HEAD_LEN + |m.body|, end)
  {
    hide ParseMsg;
  }

  lemma GoodsCons(cs: seq<Chunk>, k: nat)
    requires k < |cs|
    ensures Goods(cs[k..]) == (if cs[k].Good? then [cs[k].msg] else []) + Goods(cs[k + 1..])
  {
    assert cs[k..][1..] == cs[k + 1..];
  }

  lemma ScanOver(seg: seq<byte>, cs: seq<Chunk>, k: nat, end: nat)
    requires Holds(seg, cs) && k < |cs| && cs[k].Damaged? && End(cs) <= end <= |seg|
    ensures ScanCount(seg, Boundary(cs, k), end) == ScanCount(seg, Boundary(cs, k + 1), end)
  {
    ChunkInPlace(seg, cs, k);
    DamagedIsQuiet(seg, cs, k);
    NoPairAcross(seg, cs, k + 1);
    var b, b' := Boundary(cs, k), Boundary(cs, k + 1);
    hide Boundary, Holds;
    if b' + MSG_HEAD_LEN <= |seg| {
      ScanSkips(seg, b, b', end);
    } else {
      ScanShort(seg, b', end);
      QuietTail(seg, b', end);
      QuietJoin(seg, b, b', end);
      ScanEnds(seg, b, end);
    }
  }

  lemma QuietTail(seg: seq<byte>, p: nat, end: nat)
    requires SegmentSize(|seg|) && end <= |seg| && p + MSG_HEAD_LEN >= |seg|
    ensures Quiet(seg, p, end)
  {}

  lemma {:induction false} ScanShort(seg: seq<byte>, p: nat, end: nat)
    requires SegmentSize(|seg|) && end <= |seg| && p + MSG_HEAD_LEN >= |seg|
    ensures ScanCount(seg, p, end) == 0
  {
    QuietTail(seg, p, end);
    ScanEnds(seg, p, end);
  }

  /** The restart scan, from byte 0 to the write position or to the end of the file, counts
      exactly the messages of the segment. */
  lemma {:induction false} ScanIsExact(seg: seq<byte>, cs: seq<Chunk>, end: nat)
    requires Holds(seg, cs) && End(cs) <= end <= |seg|
    ensures ScanCount(seg, 0, end) == |Goods(cs)|
  {
    BlankIsQuiet(seg, 0, DB_FILE_HEAD_LEN);
    assert cs[..0] == [] && cs[0..] == cs;
    NoPairAcross(seg, cs, 0);
    ScanFrom(seg, cs, 0, end);
    ScanSkips(seg, 0, DB_FILE_HEAD_LEN, end);
  }

  /** Up to the end of the n-th message the scan counts n, whatever follows. */
  lemma {:induction false} ScanUpTo(seg: seq<byte>, cs: seq<Chunk>, k: nat, n: nat)
    requires Holds(seg, cs) && k <= n <= |cs| && forall i :: 0 <= i < n ==> cs[i].Good?
    ensures Boundary(cs, k) <= Boundary(cs, n) <= End(cs) <= |seg|
    ensures ScanCount(seg, Boundary(cs, k), Boundary(cs, n)) == n - k
    decreases n - k
  {
    hide Holds, ParseMsg, Boundary, ScanCount, Frame;
    NoPairAcross(seg, cs, n);
    HoldsLayout(seg, cs);
    if k < n {
      ScanUpTo(seg, cs, k + 1, n);
      GoodInPlace(seg, cs, k, |seg|);
      ParseFrame(seg, Boundary(cs, k), cs[k].msg);
      ScanOk(seg, Boundary(cs, k), cs[k].msg, Boundary(cs, n));
    } else {
      ScanNothing(seg, Boundary(cs, n));
    }
  }

  lemma ScanNothing(seg: seq<byte>, end: nat)
    requires SegmentSize(|seg|) && end <= |seg|
    ensures ScanCount(seg, end, end) == 0
  {}

  lemma {:induction false} ScanFromStart(seg: seq<byte>, cs: seq<Chunk>, n: nat)
    requires Holds(seg, cs) && n <= |cs| && forall i :: 0 <= i < n ==> cs[i].Good?
    ensures Boundary(cs, n) <= |seg| && ScanCount(seg, 0, Boundary(cs, n)) == n
  {
    BlankIsQuiet(seg, 0, DB_FILE_HEAD_LEN);
    assert cs[..0] == [];
    NoPairAcross(seg, cs, 0);
    ScanUpTo(seg, cs, 0, n);
    ScanSkips(seg, 0, DB_FILE_HEAD_LEN, Boundary(cs, n));
  }
}
