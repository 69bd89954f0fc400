/** Messages on disk (mq_store_msg.c): a frame is `FE AC | delay4 | crc2 | len4 | body`. */
module Message {
  import opened Bytes
  import opened Crc16

  const MSG_HEAD_LEN: nat := 12
  const DB_FILE_HEAD_LEN: nat := 128
  const MAGIC1: byte := 0xFE
  const MAGIC2: byte := 0xAC

  /** Segment sizes: room for one frame, and never above the configured limit of 64 MiB. */
  predicate SegmentSize(max: nat) { 141 <= max <= 0x400_0000 }

  /** What the store keeps of a message: its put time (the `delay` field) and its body. */
  datatype Msg = Msg(time: nat, body: seq<byte>)

  /** The messages a segment of size max can hold: http_opt_put refuses all others. */
  predicate Fits(m: Msg, max: nat) {
    m.time < U32 && 1 <= |m.body| <= max - DB_FILE_HEAD_LEN - MSG_HEAD_LEN
  }

  function Frame(m: Msg): (f: seq<byte>)
    ensures |f| == MSG_HEAD_LEN + |m.body|
  {
    [MAGIC1, MAGIC2] + Le32(m.time) + Le16(Crc(m.body)) + Le32(|m.body|) + m.body
  }

  // ----- Parsing

  /** msg_check_ret_e; MSG_ERR (no mapping) and PARSE_ERR (never produced) have no counterpart. */
  datatype Parsed = Ok(msg: Msg) | MagicErr | CrcErr | LenBeyond

  predicate MagicAt(seg: seq<byte>, pos: nat) {
    pos + 1 < |seg| && seg[pos] == MAGIC1 && seg[pos + 1] == MAGIC2
  }

  /** mq_sm_db_parse_msg, with its uint32 sums and the int conversion of the length written out. */
  function ParseMsg(seg: seq<byte>, pos: nat): (r: Parsed)
    requires SegmentSize(|seg|) && pos <= |seg|
    ensures r.Ok? ==> pos + MSG_HEAD_LEN + |r.msg.body| <= |seg| && r.msg.time < U32
  {
    if (pos + MSG_HEAD_LEN) % U32 >= |seg| then LenBeyond
    else if seg[pos] != MAGIC1 || seg[pos + 1] != MAGIC2 then MagicErr
    else
      var len := FromLe32(seg, pos + 8);
      if (pos + len + MSG_HEAD_LEN) % U32 > |seg| then LenBeyond
      else if len >= 0x8000_0000 then CrcErr
      else
        var body := seg[pos + MSG_HEAD_LEN..pos + MSG_HEAD_LEN + len];
        if Crc(body) == FromLe16(seg, pos + 6) then Ok(Msg(FromLe32(seg, pos + 2), body)) else CrcErr
  }

  /** The parser over the mapped file itself; the body stays in the mapping, named by its offset. */
  method ParseMsgAt(map_: array<byte>, pos: nat) returns (r: Parsed)
    requires SegmentSize(map_.Length) && pos <= map_.Length
    ensures r == ParseMsg(map_[..], pos)
  {
    ghost var seg := map_[..];
    if (pos + MSG_HEAD_LEN) % U32 >= map_.Length {
      return LenBeyond;
    }
    if map_[pos] != MAGIC1 || map_[pos + 1] != MAGIC2 {
      return MagicErr;
    }
    var time := FromLe32(map_[pos + 2..pos + 6], 0);
    var crc16 := FromLe16(map_[pos + 6..pos + 8], 0);
    var len := FromLe32(map_[pos + 8..pos + 12], 0);
    assert time == FromLe32(seg, pos + 2) && crc16 == FromLe16(seg, pos + 6) && len == FromLe32(seg, pos + 8);
    if (pos + len + MSG_HEAD_LEN) % U32 > map_.Length {
      return LenBeyond;
    }
    if len < 0x8000_0000 {
      var tmp := Crc16Append(map_, pos + MSG_HEAD_LEN, len);
      if crc16 == tmp {
        return Ok(Msg(time, map_[pos + MSG_HEAD_LEN..pos + MSG_HEAD_LEN + len]));
      }
    }
    return CrcErr;
  }

  lemma FrameFields(m: Msg)
    ensures var f := Frame(m);
      && f[0] == MAGIC1 && f[1] == MAGIC2 && f[2..6] == Le32(m.time) && f[6..8] == Le16(Crc(m.body))
      && f[8..12] == Le32(|m.body|) && f[12..] == m.body
  {
    hide Crc, Le32, Le16;
    var a := [MAGIC1, MAGIC2] + Le32(m.time);
    var b := a + Le16(Crc(m.body));
    var c := b + Le32(|m.body|);
    assert Frame(m) == c + m.body;
    assert Frame(m)[..12] == c && c[..8] == b && b[..6] == a;
  }

  /** A frame is parsed back to its message, wherever it lies and whatever surrounds it. */
  lemma {:induction false} ParseFrame(seg: seq<byte>, pos: nat, m: Msg)
    requires SegmentSize(|seg|) && Fits(m, |seg|)
    requires pos + |Frame(m)| <= |seg| && seg[pos..pos + |Frame(m)|] == Frame(m)
    ensures ParseMsg(seg, pos) == Ok(m)
  {
    hide Crc, Le32, Le16, Frame, FromLe16, FromLe32, ParseMsg, Fits, SegmentSize;
    var f := Frame(m);
    FrameFields(m);
    Window(seg, pos, f, 0, 2);
    Window(seg, pos, f, 2, 6);
    Window(seg, pos, f, 6, 8);
    Window(seg, pos, f, 8, 12);
    Window(seg, pos, f, 12, |f|);
    Le32RoundTrip(m.time, seg, pos + 2);
    Le16RoundTrip(Crc(m.body), seg, pos + 6);
    Le32RoundTrip(|m.body|, seg, pos + 8);
    FitsSmall(m, |seg|);
    ParseFields(seg, pos, m);
  }

  lemma FitsSmall(m: Msg, max: nat)
    requires SegmentSize(max) && Fits(m, max)
    ensures m.time % U32 == m.time && |m.body| % U32 == |m.body| && Crc(m.body) % U16 == Crc(m.body)
  {
    hide Crc;
  }

  lemma ParseFields(seg: seq<byte>, pos: nat, m: Msg)
    requires SegmentSize(|seg|) && Fits(m, |seg|) && pos + MSG_HEAD_LEN + |m.body| <= |seg|
    requires seg[pos] == MAGIC1 && seg[pos + 1] == MAGIC2
    requires FromLe32(seg, pos + 2) == m.time && FromLe16(seg, pos + 6) == Crc(m.body)
        && FromLe32(seg, pos + 8) == |m.body|
    requires seg[pos + MSG_HEAD_LEN..pos + MSG_HEAD_LEN + |m.body|] == m.body
    ensures ParseMsg(seg, pos) == Ok(m)
  {
    hide Crc, FromLe16, FromLe32;
  }

  lemma Window(seg: seq<byte>, pos: nat, f: seq<byte>, i: nat, j: nat)
    requires i <= j <= |f| && pos + |f| <= |seg| && seg[pos..pos + |f|] == f
    ensures seg[pos + i..pos + j] == f[i..j]
    ensures forall k :: i <= k < j ==> seg[pos + k] == f[k]
  {
    forall k | i <= k < j
      ensures seg[pos + k] == f[k]
    {
      assert seg[pos..pos + |f|][k] == f[k];
    }
  }

  /** Bytes as the number they hold, the lowest first. */
  function Number(s: seq<byte>): nat {
    if s == [] then 0 else s[0] as int + 256 * Number(s[1..])
  }

  lemma NumberStep(seg: seq<byte>, at: nat, end: nat)
    requires at < end <= |seg|
    ensures Number(seg[at..end]) == seg[at] as int + 256 * Number(seg[at + 1..end])
  {
    assert seg[at..end][1..] == seg[at + 1..end];
  }

  lemma NumberOf(seg: seq<byte>, at: nat)
    requires at + 4 <= |seg|
    ensures FromLe16(seg, at) == Number(seg[at..at + 2]) && FromLe32(seg, at) == Number(seg[at..at + 4])
  {
    hide Number;
    NothingCounts(seg, at + 2);
    NothingCounts(seg, at + 4);
    NumberStep(seg, at, at + 2);
    NumberStep(seg, at + 1, at + 2);
    NumberStep(seg, at, at + 4);
    NumberStep(seg, at + 1, at + 4);
    NumberStep(seg, at + 2, at + 4);
    NumberStep(seg, at + 3, at + 4);
  }

  lemma NothingCounts(seg: seq<byte>, at: nat)
    requires at <= |seg|
    ensures Number(seg[at..at]) == 0
  {}

  /** The parser over the integers, for arbitrary bytes. Too close to the end: beyond. No magic pair: no
      message here. Otherwise the length decides: one that ends inside the segment leaves it to the checksum,
      one that ends outside is beyond, and one so large that its sum with the position passes 2^32 is taken
      for a bad checksum. */
  lemma {:induction false} ParseDecides(seg: seq<byte>, pos: nat)
    requires SegmentSize(|seg|) && pos <= |seg|
    ensures var r := ParseMsg(seg, pos);
      if pos + MSG_HEAD_LEN >= |seg| then r == LenBeyond
      else if seg[pos..pos + 2] != [MAGIC1, MAGIC2] then r == MagicErr
      else
        var len, body := Number(seg[pos + 8..pos + 12]), pos + MSG_HEAD_LEN;
        if body + len <= |seg| then
          r == if Crc(seg[body..body + len]) == Number(seg[pos + 6..pos + 8])
            then Ok(Msg(Number(seg[pos + 2..pos + 6]), seg[body..body + len])) else CrcErr
        else if body + len < U32 then r == LenBeyond
        else r == CrcErr
  {
    hide Crc, FromLe16, FromLe32, Number;
    if pos + MSG_HEAD_LEN < |seg| {
      NumberOf(seg, pos + 2);
      NumberOf(seg, pos + 6);
      NumberOf(seg, pos + 8);
      assert seg[pos..pos + 2] == [seg[pos], seg[pos + 1]];
    }
  }

  /** The uint32 sum may wrap, but a length that makes it wrap is refused by the signed test:
      OK, and every checksum the parser computes, stay inside the mapping. */
  lemma {:induction false} ParseStaysInside(seg: seq<byte>, pos: nat)
    requires SegmentSize(|seg|) && pos <= |seg| && pos + MSG_HEAD_LEN < |seg|
    requires FromLe32(seg, pos + 8) < 0x8000_0000
    requires (pos + FromLe32(seg, pos + 8) + MSG_HEAD_LEN) % U32 <= |seg|
    ensures pos + MSG_HEAD_LEN + FromLe32(seg, pos + 8) <= |seg|
  {}
}
