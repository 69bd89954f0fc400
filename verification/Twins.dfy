/** A queue with bytes behind its write position that it does not know, next to the same queue without
    them: request by request they answer alike, as long as nothing in those bytes reads as a message. */
module Twins {
  import opened Bytes
  import opened Crc16
  import opened Message
  import opened Segment
  import opened Journal
  import opened Strings
  import opened Store
  import F = Fifo
  import R = Runs

  /** The queue with the bytes x behind its write position. */
  function WithOrphan(q: Queue, x: seq<byte>): (q': Queue)
    requires q.wr.index in q.disk && q.wr.pos + |x| <= |q.disk[q.wr.index]|
    ensures WellFormed(q) ==> WellFormed(q')
  {
    q.(disk := q.disk[q.wr.index := Overwrite(q.disk[q.wr.index], q.wr.pos, x)])
  }

  /** Undamaged files, with the writer right behind the last frame the journal knows. */
  ghost predicate Known(q: Queue, lay: seq<seq<Chunk>>, k: nat, x: seq<byte>) {
    && F.Stores(q, lay, k) && |lay| > 0 && k <= |lay[0]| && F.Exact(q, lay, k)
    && q.wr.pos == End(lay[|lay| - 1]) && q.wr.pos + |x| <= q.max
  }

  lemma KnownParts(q: Queue, lay: seq<seq<Chunk>>, k: nat, x: seq<byte>)
    requires Known(q, lay, k, x)
    ensures F.Stores(q, lay, k) && |lay| > 0 && k <= |lay[0]| && F.Exact(q, lay, k) && WellFormed(q)
    ensures q.wr.index in q.disk && q.wr.pos + |x| <= q.max == |q.disk[q.wr.index]|
    ensures q.wr.pos == End(lay[|lay| - 1])
    ensures F.Reads(q, lay[0], k) && F.AllGood(lay[0]) && (|lay| == 1 <==> q.rd.index == q.wr.index)
    ensures WellFormed(WithOrphan(q, x))
  {
    hide Holds, F.ReadAt, F.HeadUnder, F.AllGood, F.Reads;
    F.ReaderSegment(q, lay, k);
    assert lay[0] in lay;
  }

  lemma KnownOrder(q: Queue, lay: seq<seq<Chunk>>, k: nat)
    requires F.Stores(q, lay, k)
    ensures q.rd.index == q.wr.index ==> q.rd.pos <= q.wr.pos
  {
    hide Holds, F.ReadAt;
  }

  // ----- Get does not see what is behind the write position

  lemma SameBelow(seg: seq<byte>, w: nat, x: seq<byte>, from: nat, to: nat)
    requires from <= to <= w && w + |x| <= |seg|
    ensures Overwrite(seg, w, x)[from..to] == seg[from..to]
    ensures forall p :: from <= p < to ==> Overwrite(seg, w, x)[p] == seg[p]
  {}

  /** A frame below the write position is parsed as before. */
  lemma FrameBelow(seg: seq<byte>, cs: seq<Chunk>, k: nat, x: seq<byte>)
    requires Holds(seg, cs) && k < |cs| && cs[k].Good? && End(cs) + |x| <= |seg|
    ensures var seg', b, m := Overwrite(seg, End(cs), x), Boundary(cs, k), cs[k].msg;
      && SegmentSize(|seg'|) && b + MSG_HEAD_LEN + |m.body| <= End(cs) && b > 0 && |m.body| > 0
      && ParseMsg(seg', b) == Ok(m) && !MagicAt(seg', b - 1)
  {
    hide Holds, ParseMsg, Frame, Boundary, Overwrite;
    var seg', b, m := Overwrite(seg, End(cs), x), Boundary(cs, k), cs[k].msg;
    ChunkInPlace(seg, cs, k);
    NoPairAcross(seg, cs, k);
    F.GoodFits(seg, cs, k);
    SameBelow(seg, End(cs), x, b, b + |Frame(m)|);
    SameBelow(seg, End(cs), x, b - 1, b + 1);
    ParseFrame(seg', b, m);
  }

  lemma HeadBelow(seg: seq<byte>, cs: seq<Chunk>, x: seq<byte>)
    requires Holds(seg, cs) && End(cs) + |x| <= |seg|
    ensures SegmentSize(|seg|) && Quiet(Overwrite(seg, End(cs), x), 0, DB_FILE_HEAD_LEN)
  {
    var seg' := Overwrite(seg, End(cs), x);
    SameBelow(seg, End(cs), x, 0, DB_FILE_HEAD_LEN);
    assert Blank(seg', 0, DB_FILE_HEAD_LEN);
    BlankIsQuiet(seg', 0, DB_FILE_HEAD_LEN);
  }

  lemma NothingOver(seg: seq<byte>, w: nat)
    requires w <= |seg|
    ensures Overwrite(seg, w, []) == seg
  {}

  lemma GoodAt(cs: seq<Chunk>, k: nat)
    requires F.AllGood(cs) && k < |cs|
    ensures cs[k].Good?
  {
    assert cs[k] in cs;
  }

  lemma ReadsParts(q: Queue, cs: seq<Chunk>, k: nat)
    requires F.Reads(q, cs, k)
    ensures WellFormed(q) && q.rd.index in q.disk && Holds(q.disk[q.rd.index], cs) && F.ReadAt(cs, k, q.rd.pos)
    ensures SegmentSize(q.max) && |q.disk[q.rd.index]| == q.max && q.rd.pos <= q.max && q.wr.pos <= q.max
    ensures q.wr.index in q.disk && |q.disk[q.wr.index]| == q.max
  {
    hide Holds, F.ReadAt;
  }

  /** Nothing but the head can lie between the read position and the chunk it stands before. */
  lemma QuietTo(seg: seq<byte>, cs: seq<Chunk>, k: nat, pos: nat)
    requires SegmentSize(|seg|) && Quiet(seg, 0, DB_FILE_HEAD_LEN) && F.ReadAt(cs, k, pos) && pos <= End(cs) <= |seg|
    ensures Boundary(cs, k) <= End(cs) && pos <= Boundary(cs, k) && Quiet(seg, pos, Boundary(cs, k))
  {
    hide ParseMsg;
    LayoutPrefix(cs, k);
    F.EndIsLast(cs);
    assert cs[..0] == [] && cs[..|cs|] == cs;
  }

  /** In the writer's segment: the same message, or the same end. */
  lemma GetTwinLast(q: Queue, lay: seq<seq<Chunk>>, k: nat, x: seq<byte>, now: int)
    requires Known(q, lay, k, x) && |lay| == 1
    ensures q.wr.index in q.disk && q.wr.pos + |x| <= |q.disk[q.wr.index]| && WellFormed(WithOrphan(q, x))
        && WellFormed(q)
    ensures var (q', msg) := GetData(q, now);
      && q'.wr == q.wr && q'.disk == q.disk
      && GetData(WithOrphan(q, x), now) == (WithOrphan(q', x), msg)
  {
    hide Holds, F.Exact, F.Stores, F.AllGood, F.Reads, ParseMsg;
    hide Boundary, Quiet, MagicAt, GetData, Overwrite, WellFormed;
    KnownParts(q, lay, k, x);
    KnownOrder(q, lay, k);
    F.EndIsLast(lay[0]);
    var cs, qd := lay[0], WithOrphan(q, x);
    var seg := q.disk[q.wr.index];
    ReadsParts(q, cs, k);
    F.AllGoodNext(cs, k);
    HeadBelow(seg, cs, x);
    HeadBelow(seg, cs, []);
    NothingOver(seg, End(cs));
    if k < |cs| {
      GoodAt(cs, k);
      FrameBelow(seg, cs, k, x);
      F.MessageRound(q, cs, k, now);
      var b, m := Boundary(cs, k), cs[k].msg;
      QuietTo(qd.disk[qd.rd.index], cs, k, q.rd.pos);
      F.SkipTo(qd, b, now);
      F.OneRound(F.At(qd, b), m, now);
    } else {
      QuietTo(seg, cs, k, q.rd.pos);
      QuietTo(qd.disk[qd.rd.index], cs, k, q.rd.pos);
      F.EndOfQueue(q, now);
      F.EndOfQueue(qd, now);
    }
  }

  lemma {:induction false} GetTwin(q: Queue, lay: seq<seq<Chunk>>, k: nat, x: seq<byte>, now: int)
    requires Known(q, lay, k, x)
    ensures q.wr.index in q.disk && q.wr.pos + |x| <= |q.disk[q.wr.index]| && WellFormed(WithOrphan(q, x))
        && WellFormed(q)
    ensures var (q', msg) := GetData(q, now);
      && q'.wr == q.wr && q.wr.index in q'.disk && q'.disk[q.wr.index] == q.disk[q.wr.index]
      && GetData(WithOrphan(q, x), now) == (WithOrphan(q', x), msg)
    decreases |lay|
  {
    hide Holds, F.Exact, F.Stores, F.AllGood, F.Reads, ParseMsg;
    hide Boundary, Quiet, MagicAt, GetData, Overwrite, WellFormed;
    hide NextReadFile;
    KnownParts(q, lay, k, x);
    if |lay| == 1 {
      GetTwinLast(q, lay, k, x, now);
    } else {
      var cs, qd := lay[0], WithOrphan(q, x);
      OlderReads(q, cs, k, x);
      F.AllGoodNext(cs, k);
      if k < |cs| {
        F.MessageRound(q, cs, k, now);
        F.MessageRound(qd, cs, k, now);
      } else {
        ReadsParts(q, cs, k);
        F.QuietAhead(q.disk[q.rd.index], cs, k, q.rd.pos);
        OlderIndex(q, lay, k);
        F.EndOfSegment(q, now);
        F.EndOfSegment(qd, now);
        F.EnterNextSegment(q, lay, k);
        F.EnterNextExact(q, lay, k);
        NextTwin(q, lay, x);
        GetTwin(NextReadFile(q), lay[1..], 0, x, now);
      }
    }
  }

  lemma OlderIndex(q: Queue, lay: seq<seq<Chunk>>, k: nat)
    requires F.Stores(q, lay, k) && |lay| > 1
    ensures q.rd.index < q.wr.index
  {
    hide Holds, F.ReadAt;
  }

  lemma OlderReads(q: Queue, cs: seq<Chunk>, k: nat, x: seq<byte>)
    requires F.Reads(q, cs, k) && q.wr.index in q.disk && q.wr.pos + |x| <= |q.disk[q.wr.index]|
    requires q.rd.index != q.wr.index
    ensures F.Reads(WithOrphan(q, x), cs, k) && WithOrphan(q, x).disk[q.rd.index] == q.disk[q.rd.index]
  {
    hide Holds, F.ReadAt, Overwrite;
  }

  lemma NextTwin(q: Queue, lay: seq<seq<Chunk>>, x: seq<byte>)
    requires q.wr.index in q.disk && q.wr.pos + |x| <= |q.disk[q.wr.index]| && q.rd.index != q.wr.index && |lay| > 1
    ensures var q' := NextReadFile(q);
      && q'.wr == q.wr && q'.max == q.max && q.wr.index in q'.disk && q'.disk[q.wr.index] == q.disk[q.wr.index]
      && NextReadFile(WithOrphan(q, x)) == WithOrphan(q', x)
    ensures lay[1..][|lay| - 2] == lay[|lay| - 1]
  {
    hide Overwrite, Line, WellFormed;
    var s := Overwrite(q.disk[q.wr.index], q.wr.pos, x);
    assert q.disk[q.wr.index := s] - {q.rd.index} == (q.disk - {q.rd.index})[q.wr.index := s];
  }

  // ----- A put writes over them

  lemma OverTwice(seg: seq<byte>, w: nat, x: seq<byte>, f: seq<byte>)
    requires w + |x| <= |seg| && w + |f| <= |seg|
    ensures Overwrite(Overwrite(seg, w, x), w, f)
      == Overwrite(Overwrite(seg, w, f), w + |f|, if |x| > |f| then x[|f|..] else [])
  {}

  /** What the frame f leaves of the orphan x. */
  function Leftover(x: seq<byte>, f: seq<byte>): seq<byte> {
    if |x| > |f| then x[|f|..] else []
  }

  lemma PutTwin(q: Queue, lay: seq<seq<Chunk>>, k: nat, x: seq<byte>, m: Msg)
    requires Known(q, lay, k, x) && Fits(m, q.max) && !NeedsRotation(q, m)
    ensures q.wr.index in q.disk && q.wr.pos + |x| <= |q.disk[q.wr.index]| && WellFormed(WithOrphan(q, x))
        && WellFormed(q)
    ensures var q' := PutData(q, m);
      && q'.wr.index == q.wr.index && Known(q', F.AfterPut(q, lay, m), k, Leftover(x, Frame(m)))
      && PutData(WithOrphan(q, x), m) == WithOrphan(q', Leftover(x, Frame(m)))
  {
    hide Frame, F.Exact, F.Stores, Boundary, Overwrite, F.Reads;
    KnownParts(q, lay, k, x);
    F.PutAppends(q, lay, k, m);
    F.PutExact(q, lay, k, m);
    var lay' := F.AfterPut(q, lay, m);
    R.StoresShape(PutData(q, m), lay', k);
    var n := |lay| - 1;
    EndGrows(lay[n], m);
    OverTwice(q.disk[q.wr.index], q.wr.pos, x, Frame(m));
  }

  lemma EndGrows(cs: seq<Chunk>, m: Msg)
    ensures End(cs + [Good(m)]) == End(cs) + |Frame(m)|
  {
    hide Frame;
    assert (cs + [Good(m)])[..|cs| + 1] == cs + [Good(m)] && cs[..|cs|] == cs;
    assert (cs + [Good(m)])[..|cs|] == cs;
  }

  /** A request that stores nothing does not see the orphan. */
  lemma QuietTwin(q: Queue, lay: seq<seq<Chunk>>, k: nat, x: seq<byte>, req: R.Request)
      returns (lay': seq<seq<Chunk>>, k': nat)
    requires Known(q, lay, k, x) && R.Sensible(req)
    requires q.wr.index in q.disk && q.wr.pos + |x| <= |q.disk[q.wr.index]| && WellFormed(WithOrphan(q, x))
        && WellFormed(q)
    requires R.Serve(q, req).1 != R.PutReply(PutOk) && |x| > 0
    ensures var (q', reply) := R.Serve(q, req);
      && |lay'| > 0 && k' <= |lay'[0]| && Known(q', lay', k', x)
      && (R.View(q', lay', k'), reply) == R.Answer(R.View(q, lay, k), q.max, req)
      && q'.wr.index in q'.disk && q'.wr.pos + |x| <= |q'.disk[q'.wr.index]| && q'.max == q.max
      && R.Serve(WithOrphan(q, x), req) == (WithOrphan(q', x), reply)
  {
    hide F.Exact, F.Stores, F.Pending, F.Reads, GetData, PutData, Overwrite, WellFormed, Line;
    KnownParts(q, lay, k, x);
    lay', k' := R.OneServed(q, lay, k, req);
    GetTwin(q, lay, k, x, if req.GetReq? then req.now else 0);
    R.StoresShape(R.Serve(q, req).0, lay', k');
    WriterPlace(R.Serve(q, req).0, lay', k');
  }

  lemma WriterPlace(q: Queue, lay: seq<seq<Chunk>>, k: nat)
    requires F.Stores(q, lay, k)
    ensures |lay| > 0 && (q.wr.pos == End(lay[|lay| - 1]) || q.wr.pos == q.max)
  {
    hide Holds, F.ReadAt;
  }

  lemma DelayFits(q: Queue)
    requires WellFormed(q)
    ensures q.delay < U32
  {}

  lemma OnlyPut(q: Queue, req: R.Request)
    requires WellFormed(q) && R.Sensible(req) && R.Serve(q, req).1 == R.PutReply(PutOk)
    ensures req.PutReq?
  {
    hide PutData, GetData, WellFormed;
  }

  lemma ServeKeepsWriter(q: Queue, req: R.Request)
    requires WellFormed(q) && R.Sensible(req) && R.Serve(q, req).1 != R.PutReply(PutOk)
    ensures R.Serve(q, req).0.wr == q.wr
  {
    hide WellFormed, GetData, PutData, Line;
    if req.GetReq? {
      F.DiskOfGet(q, req.now);
    }
  }

  lemma SameBesidesFiles(q: Queue, x: seq<byte>)
    requires q.wr.index in q.disk && q.wr.pos + |x| <= |q.disk[q.wr.index]|
    ensures WithOrphan(q, x) == q.(disk := WithOrphan(q, x).disk)
  {
    hide Overwrite;
  }

  lemma PutKeepsSettings(q: Queue, m: Msg)
    requires WellFormed(q) && Fits(m, q.max)
    ensures PutData(q, m).delay == q.delay < U32 && PutData(q, m).unread == q.unread && PutData(q, m).max == q.max
  {
    hide Frame, Overwrite, FreshSegment, FileHead, Line;
  }

  lemma WrittenBehind(q: Queue, x: seq<byte>, q': Queue)
    requires q.wr.index in q.disk && q.wr.pos + |x| <= |q.disk[q.wr.index]|
    requires q' == WriteItem(q).(unread := q.unread + 1)
    ensures WithOrphan(q', x) == WriteItem(WithOrphan(q, x)).(unread := q.unread + 1)
  {
    hide Overwrite, Line;
  }

  lemma Acknowledged(q: Queue, req: R.Request)
    requires WellFormed(q) && R.Sensible(req) && R.Serve(q, req).1 == R.PutReply(PutOk)
    ensures req.PutReq? && Fits(Msg(req.now, req.body), q.max)
    ensures R.Seals(q, req) <==> NeedsRotation(q, Msg(req.now, req.body))
    ensures var q' := PutData(q, Msg(req.now, req.body));
      R.Serve(q, req).0 == WriteItem(q').(unread := q'.unread + 1)
  {
    OnlyPut(q, req);
    hide PutData, Line;
  }

  lemma AlsoAcknowledged(q: Queue, q2: Queue, req: R.Request)
    requires WellFormed(q) && WellFormed(q2) && R.Sensible(req) && R.Serve(q, req).1 == R.PutReply(PutOk)
    requires q2 == q.(disk := q2.disk)
    ensures R.Serve(q2, req).1 == R.PutReply(PutOk)
  {
    OnlyPut(q, req);
    hide PutData, Line;
  }

  /** A put that fits covers the beginning of the bytes. */
  lemma PutServedTwin(q: Queue, lay: seq<seq<Chunk>>, k: nat, x: seq<byte>, req: R.Request)
      returns (lay': seq<seq<Chunk>>, y: seq<byte>)
    requires Known(q, lay, k, x) && R.Sensible(req) && WellFormed(q) && |lay| > 0 && k <= |lay[0]|
    requires R.Serve(q, req).1 == R.PutReply(PutOk) && !R.Seals(q, req)
    ensures q.wr.index in q.disk && q.wr.pos + |x| <= |q.disk[q.wr.index]| && WellFormed(WithOrphan(q, x))
    ensures req.PutReq? && y == Leftover(x, Frame(Msg(req.now, req.body)))
    ensures var q' := R.Serve(q, req).0;
      && |lay'| > 0 && k <= |lay'[0]| && Known(q', lay', k, y) && q'.max == q.max
      && (R.View(q', lay', k), R.PutReply(PutOk)) == R.Answer(R.View(q, lay, k), q.max, req)
      && q'.wr.index == q.wr.index && q'.wr.pos == q.wr.pos + MSG_HEAD_LEN + |req.body|
      && q'.wr.index in q'.disk && q'.wr.pos + |y| <= |q'.disk[q'.wr.index]|
      && R.Serve(WithOrphan(q, x), req) == (WithOrphan(q', y), R.PutReply(PutOk))
  {
    hide F.Exact, F.Stores, F.Pending, F.Reads, PutData, WithOrphan, WellFormed, Line, F.AfterPut, Frame, R.Serve;
    hide NeedsRotation, Fits;
    KnownParts(q, lay, k, x);
    Acknowledged(q, req);
    var m := Msg(req.now, req.body);
    var q1 := PutData(q, m);
    y := Leftover(x, Frame(m));
    PutTwin(q, lay, k, x, m);
    lay' := R.PutServed(q, lay, k, req.body, req.now);
    KnownParts(q1, lay', k, y);
    var q' := R.Serve(q, req).0;
    RecordedKnown(q1, lay', k, y, q');
    WrittenBehind(q1, y, q');
    SameBesidesFiles(q, x);
    SameBesidesFiles(q1, y);
    AlsoAcknowledged(q, WithOrphan(q, x), req);
    Acknowledged(WithOrphan(q, x), req);
    PutMoves(q, m);
  }

  lemma RecordedKnown(q: Queue, lay: seq<seq<Chunk>>, k: nat, x: seq<byte>, q': Queue)
    requires Known(q, lay, k, x) && q' == WriteItem(q).(unread := q'.unread)
    ensures Known(q', lay, k, x)
  {
    hide F.Exact, F.Stores, Line;
    KnownParts(q, lay, k, x);
    DelayFits(q);
    R.Recorded(q, lay, k, q');
  }

  lemma PutMoves(q: Queue, m: Msg)
    requires WellFormed(q) && Fits(m, q.max) && !NeedsRotation(q, m)
    ensures PutData(q, m).wr.pos == q.wr.pos + MSG_HEAD_LEN + |m.body| && PutData(q, m).max == q.max
  {
    hide Frame, Overwrite;
  }

  // ----- Bytes that hold no message

  /** No message can be parsed from offset from on. */
  ghost predicate Mute(seg: seq<byte>, from: nat)
    requires SegmentSize(|seg|)
  {
    forall p: nat :: from <= p <= |seg| ==> !ParseMsg(seg, p).Ok?
  }

  /** The parser looks forward only. */
  lemma ParseSuffix(a: seq<byte>, b: seq<byte>, from: nat, p: nat)
    requires SegmentSize(|a|) && |a| == |b| && from <= p <= |a| && a[from..] == b[from..]
    ensures ParseMsg(a, p) == ParseMsg(b, p)
  {
    hide Crc, FromLe16, FromLe32;
    forall i | from <= i < |a|
      ensures a[i] == b[i]
    {
      assert a[from..][i - from] == b[from..][i - from];
    }
    if p + MSG_HEAD_LEN < |a| {
      SameNumbers(a, b, p);
      var len := FromLe32(a, p + 8);
      if p + MSG_HEAD_LEN + len <= |a| {
        assert a[p + MSG_HEAD_LEN..p + MSG_HEAD_LEN + len] == b[p + MSG_HEAD_LEN..p + MSG_HEAD_LEN + len];
      }
    }
  }

  lemma SameNumbers(a: seq<byte>, b: seq<byte>, p: nat)
    requires |a| == |b| && p + MSG_HEAD_LEN <= |a| && forall i :: p <= i < p + MSG_HEAD_LEN ==> a[i] == b[i]
    ensures FromLe32(a, p + 2) == FromLe32(b, p + 2) && FromLe16(a, p + 6) == FromLe16(b, p + 6)
    ensures FromLe32(a, p + 8) == FromLe32(b, p + 8)
  {}

  lemma MuteSuffix(a: seq<byte>, b: seq<byte>, from: nat, later: nat)
    requires SegmentSize(|a|) && |a| == |b| && Mute(a, from) && from <= later <= |a| && a[later..] == b[later..]
    ensures Mute(b, later)
  {
    hide ParseMsg;
    forall p: nat | later <= p <= |b|
      ensures !ParseMsg(b, p).Ok?
    {
      ParseSuffix(a, b, later, p);
    }
  }

  /** In an older segment, with no message ahead: on to the next segment, whatever the bytes are. */
  lemma {:induction false} MuteEnds(q: Queue, now: int)
    requires WellFormed(q) && q.rd.index < q.wr.index && SegmentSize(|q.disk[q.rd.index]|)
    requires Mute(q.disk[q.rd.index], q.rd.pos)
    ensures WellFormed(NextReadFile(q)) && GetData(q, now) == GetData(NextReadFile(q), now)
    decreases q.max - q.rd.pos
  {
    hide ParseMsg, NextReadFile, GetData;
    var p := q.rd.pos;
    var r := ParseMsg(q.disk[q.rd.index], p);
    assert !r.Ok?;
    if r.LenBeyond? {
      F.NextRound(q, now);
    } else {
      RoomAhead(q.disk[q.rd.index], p);
      F.SkipOne(q, now);
      var p' := if r.MagicErr? then p + 1 else p + 2;
      MuteEnds(F.At(q, p'), now);
      F.NextFromAnywhere(q, p');
    }
  }

  lemma RoomAhead(seg: seq<byte>, pos: nat)
    requires SegmentSize(|seg|) && pos <= |seg| && !ParseMsg(seg, pos).LenBeyond?
    ensures pos + MSG_HEAD_LEN < |seg|
  {}

  // ----- A sealed segment with such bytes behind its frames

  /** The queue with other bytes in its segment i, when it still has one. */
  function WithSegment(q: Queue, i: nat, s: seq<byte>): (q': Queue)
    ensures WellFormed(q) && |s| == q.max ==> WellFormed(q')
  {
    if i in q.disk then q.(disk := q.disk[i := s]) else q
  }

  /** s is the segment seg up to the end of the frames cs, and no message can be parsed behind them. */
  ghost predicate MuteBehind(seg: seq<byte>, cs: seq<Chunk>, s: seq<byte>) {
    && SegmentSize(|s|) && End(cs) <= |s| == |seg| && s == Overwrite(seg, End(cs), s[End(cs)..]) && Mute(s, End(cs))
  }

  ghost predicate Sealed(q: Queue, lay: seq<seq<Chunk>>, k: nat, i: nat, s: seq<byte>) {
    && F.Stores(q, lay, k) && |lay| > 0 && k <= |lay[0]| && F.Exact(q, lay, k) && i < q.wr.index && |s| == q.max
    && (q.rd.index <= i ==>
          i in q.disk && i - q.rd.index < |lay| - 1 && MuteBehind(q.disk[i], lay[i - q.rd.index], s))
  }

  lemma SealedParts(q: Queue, lay: seq<seq<Chunk>>, k: nat, i: nat, s: seq<byte>)
    requires Sealed(q, lay, k, i, s)
    ensures F.Stores(q, lay, k) && |lay| > 0 && k <= |lay[0]| && F.Exact(q, lay, k) && WellFormed(q)
    ensures i < q.wr.index && |s| == q.max && (i in q.disk <==> q.rd.index <= i)
    ensures q.rd.index <= i ==> i - q.rd.index < |lay| - 1 && MuteBehind(q.disk[i], lay[i - q.rd.index], s)
    ensures F.Reads(q, lay[0], k) && F.AllGood(lay[0])
    ensures WellFormed(WithSegment(q, i, s))
  {
    hide Holds, F.ReadAt, F.HeadUnder, F.AllGood, F.Reads, MuteBehind;
    F.ReaderSegment(q, lay, k);
    assert lay[0] in lay;
  }

  lemma MuteFromHead(seg: seq<byte>, cs: seq<Chunk>, s: seq<byte>, k: nat, pos: nat)
    requires Holds(seg, cs) && MuteBehind(seg, cs, s) && F.ReadAt(cs, k, pos) && k == |cs| && pos <= |s|
    ensures Mute(s, pos)
  {
    hide ParseMsg, Overwrite;
    F.EndIsLast(cs);
    if pos < End(cs) {
      HeadBelow(seg, cs, s[End(cs)..]);
      assert cs == [] && End(cs) == DB_FILE_HEAD_LEN by { assert cs[..0] == []; }
    }
  }

  lemma NextOfSealed(q: Queue, i: nat, s: seq<byte>)
    ensures q.rd.index == i ==> NextReadFile(WithSegment(q, i, s)) == NextReadFile(q)
    ensures NextReadFile(q).rd.index == q.rd.index + 1
    ensures q.rd.index != i ==> NextReadFile(WithSegment(q, i, s)) == WithSegment(NextReadFile(q), i, s)
  {
    hide Line, WellFormed;
    if i in q.disk {
      if q.rd.index == i {
        assert q.disk[i := s] - {i} == q.disk - {i};
      } else {
        assert q.disk[i := s] - {q.rd.index} == (q.disk - {q.rd.index})[i := s];
      }
    }
  }

  /** In the segment itself: the same message, or on to the next segment. */
  lemma GetSealedHere(q: Queue, lay: seq<seq<Chunk>>, k: nat, i: nat, s: seq<byte>, now: int)
    requires Sealed(q, lay, k, i, s) && q.rd.index == i
    ensures WellFormed(q) && WellFormed(WithSegment(q, i, s))
    ensures var (q', msg) := GetData(q, now); GetData(WithSegment(q, i, s), now) == (WithSegment(q', i, s), msg)
  {
    hide Holds, F.Exact, F.Stores, F.AllGood, F.Reads, ParseMsg, F.ReadAt, Mute;
    hide Boundary, Quiet, MagicAt, GetData, Overwrite, WellFormed, NextReadFile, MuteBehind;
    SealedParts(q, lay, k, i, s);
    var cs, seg, qs := lay[0], q.disk[i], WithSegment(q, i, s);
    ReadsParts(q, cs, k);
    BehindParts(seg, cs, s);
    F.AllGoodNext(cs, k);
    if k < |cs| {
      GoodAt(cs, k);
      FrameBelow(seg, cs, k, s[End(cs)..]);
      HeadBelow(seg, cs, s[End(cs)..]);
      F.MessageRound(q, cs, k, now);
      ReadBefore(cs, k, q.rd.pos);
      var b, m := Boundary(cs, k), cs[k].msg;
      QuietTo(s, cs, k, q.rd.pos);
      F.SkipTo(qs, b, now);
      F.OneRound(F.At(qs, b), m, now);
      GetKeepsSegment(q, now, i);
    } else {
      F.QuietAhead(seg, cs, k, q.rd.pos);
      F.EndOfSegment(q, now);
      MuteFromHead(seg, cs, s, k, q.rd.pos);
      MuteEnds(qs, now);
      NextOfSealed(q, i, s);
      GoneBehind(NextReadFile(q), now, i);
    }
  }

  lemma BehindParts(seg: seq<byte>, cs: seq<Chunk>, s: seq<byte>)
    requires MuteBehind(seg, cs, s)
    ensures SegmentSize(|s|) && End(cs) <= |s| == |seg| && s == Overwrite(seg, End(cs), s[End(cs)..])
    ensures End(cs) + |s[End(cs)..]| <= |seg| && Mute(s, End(cs))
  {}

  lemma ReadBefore(cs: seq<Chunk>, k: nat, pos: nat)
    requires F.ReadAt(cs, k, pos) && k < |cs|
    ensures pos <= Boundary(cs, k) <= End(cs)
  {
    LayoutPrefix(cs, k);
    F.EndIsLast(cs);
    assert cs[..|cs|] == cs;
  }

  lemma GetKeepsSegment(q: Queue, now: int, i: nat)
    requires WellFormed(q) && i in q.disk && GetData(q, now).0.rd.index <= i
    ensures var q' := GetData(q, now).0; i in q'.disk && q'.disk[i] == q.disk[i]
  {
    hide GetData;
    F.DiskOfGet(q, now);
  }

  /** Files that the reader has left are gone. */
  lemma GoneBehind(q: Queue, now: int, i: nat)
    requires WellFormed(q) && i < q.rd.index
    ensures i !in q.disk && i !in GetData(q, now).0.disk
  {
    hide GetData;
    F.DiskOfGet(q, now);
  }

  lemma {:induction false} GetSealed(q: Queue, lay: seq<seq<Chunk>>, k: nat, i: nat, s: seq<byte>, now: int)
    requires Sealed(q, lay, k, i, s)
    ensures WellFormed(q) && WellFormed(WithSegment(q, i, s))
    ensures var (q', msg) := GetData(q, now); GetData(WithSegment(q, i, s), now) == (WithSegment(q', i, s), msg)
    decreases |lay|
  {
    hide Holds, F.Exact, F.Stores, F.AllGood, F.Reads, ParseMsg, F.ReadAt, Mute;
    hide Boundary, Quiet, MagicAt, GetData, Overwrite, WellFormed, NextReadFile, MuteBehind;
    SealedParts(q, lay, k, i, s);
    if q.rd.index > i {
      GoneBehind(q, now, i);
    } else if q.rd.index == i {
      GetSealedHere(q, lay, k, i, s, now);
    } else {
      var cs, qs := lay[0], WithSegment(q, i, s);
      OlderStill(q, cs, k, i, s);
      F.AllGoodNext(cs, k);
      if k < |cs| {
        F.MessageRound(q, cs, k, now);
        F.MessageRound(qs, cs, k, now);
        GetKeepsSegment(q, now, i);
      } else {
        ReadsParts(q, cs, k);
        F.QuietAhead(q.disk[q.rd.index], cs, k, q.rd.pos);
        F.EndOfSegment(q, now);
        F.EndOfSegment(qs, now);
        SealedNext(q, lay, k, i, s);
        NextOfSealed(q, i, s);
        GetSealed(NextReadFile(q), lay[1..], 0, i, s, now);
      }
    }
  }

  lemma OlderStill(q: Queue, cs: seq<Chunk>, k: nat, i: nat, s: seq<byte>)
    requires F.Reads(q, cs, k) && |s| == q.max && q.rd.index != i && i != q.wr.index
    ensures F.Reads(WithSegment(q, i, s), cs, k) && WithSegment(q, i, s).disk[q.rd.index] == q.disk[q.rd.index]
  {
    hide Holds, F.ReadAt;
  }

  lemma SealedNext(q: Queue, lay: seq<seq<Chunk>>, k: nat, i: nat, s: seq<byte>)
    requires Sealed(q, lay, k, i, s) && q.rd.index < i
    ensures Sealed(NextReadFile(q), lay[1..], 0, i, s)
  {
    hide F.Exact, F.Stores, MuteBehind, Line, F.AllGood, F.Reads;
    SealedParts(q, lay, k, i, s);
    F.EnterNextSegment(q, lay, k);
    F.EnterNextExact(q, lay, k);
    assert lay[1..][i - (q.rd.index + 1)] == lay[i - q.rd.index];
  }

  /** A put writes elsewhere. */
  lemma PutElsewhere(q: Queue, i: nat, s: seq<byte>, m: Msg)
    requires WellFormed(q) && Fits(m, q.max) && |s| == q.max && i < q.wr.index
    ensures WellFormed(WithSegment(q, i, s)) && NeedsRotation(WithSegment(q, i, s), m) == NeedsRotation(q, m)
    ensures PutData(WithSegment(q, i, s), m) == WithSegment(PutData(q, m), i, s)
    ensures i in PutData(q, m).disk <==> i in q.disk
    ensures i in q.disk ==> PutData(q, m).disk[i] == q.disk[i]
    ensures PutData(q, m).wr.index >= q.wr.index && PutData(q, m).rd == q.rd && PutData(q, m).max == q.max
  {
    hide Frame, Overwrite, FileHead, WellFormed, WithSegment, Rotated, AppendMsg;
    RotatedElsewhere(q, i, s, m);
    RotatedRoom(q, m);
    AppendElsewhere(Rotated(q, m), i, s, m);
  }

  lemma RotatedRoom(q: Queue, m: Msg)
    requires WellFormed(q) && Fits(m, q.max)
    ensures var q' := Rotated(q, m); q'.wr.index in q'.disk && q'.wr.pos + |Frame(m)| <= |q'.disk[q'.wr.index]|
  {
    hide Frame, FileHead, Line;
  }

  lemma RotatedElsewhere(q: Queue, i: nat, s: seq<byte>, m: Msg)
    requires WellFormed(q) && |s| == q.max && i < q.wr.index
    ensures WellFormed(WithSegment(q, i, s)) && NeedsRotation(WithSegment(q, i, s), m) == NeedsRotation(q, m)
    ensures Rotated(WithSegment(q, i, s), m) == WithSegment(Rotated(q, m), i, s)
    ensures i in Rotated(q, m).disk <==> i in q.disk
    ensures i in q.disk ==> Rotated(q, m).disk[i] == q.disk[i]
    ensures q.wr.index <= Rotated(q, m).wr.index && Rotated(q, m).rd == q.rd && Rotated(q, m).max == q.max
  {
    hide Overwrite, FreshSegment, FileHead, Line;
    var a, b := Rotated(WithSegment(q, i, s), m), WithSegment(Rotated(q, m), i, s);
    assert a.disk == b.disk;
  }

  lemma AppendElsewhere(q: Queue, i: nat, s: seq<byte>, m: Msg)
    requires q.wr.index in q.disk && q.wr.pos + |Frame(m)| <= |q.disk[q.wr.index]| && i < q.wr.index
    ensures AppendMsg(WithSegment(q, i, s), m) == WithSegment(AppendMsg(q, m), i, s)
    ensures i in AppendMsg(q, m).disk <==> i in q.disk
    ensures i in q.disk ==> AppendMsg(q, m).disk[i] == q.disk[i]
    ensures AppendMsg(q, m).wr.index == q.wr.index && AppendMsg(q, m).rd == q.rd && AppendMsg(q, m).max == q.max
  {
    hide Frame, Overwrite, WellFormed;
    var a, b := AppendMsg(WithSegment(q, i, s), m), WithSegment(AppendMsg(q, m), i, s);
    assert a.disk == b.disk;
  }

  lemma SealedKept(q: Queue, lay: seq<seq<Chunk>>, k: nat, i: nat, s: seq<byte>,
                   q': Queue, lay': seq<seq<Chunk>>, k': nat)
    requires Sealed(q, lay, k, i, s) && F.Stores(q', lay', k') && F.Exact(q', lay', k')
    requires |lay'| > 0 && k' <= |lay'[0]| && q'.wr.index >= q.wr.index && q'.rd.index >= q.rd.index && q'.max == q.max
    requires q'.rd.index <= i ==> i in q'.disk && i in q.disk && q'.disk[i] == q.disk[i]
    requires q'.rd.index <= i ==>
      i - q'.rd.index < |lay'| - 1 && i - q.rd.index < |lay| && lay'[i - q'.rd.index] == lay[i - q.rd.index]
    ensures Sealed(q', lay', k', i, s)
  {
    hide F.Stores, F.Exact, MuteBehind;
  }

  /** Any request is answered alike. */
  lemma SealedTwin(q: Queue, lay: seq<seq<Chunk>>, k: nat, i: nat, s: seq<byte>, req: R.Request)
      returns (lay': seq<seq<Chunk>>, k': nat)
    requires Sealed(q, lay, k, i, s) && R.Sensible(req) && WellFormed(q) && |lay| > 0 && k <= |lay[0]|
    ensures WellFormed(WithSegment(q, i, s)) && |lay'| > 0 && k' <= |lay'[0]|
    ensures var (q', reply) := R.Serve(q, req);
      && Sealed(q', lay', k', i, s) && q'.max == q.max
      && (R.View(q', lay', k'), reply) == R.Answer(R.View(q, lay, k), q.max, req)
      && R.Serve(WithSegment(q, i, s), req) == (WithSegment(q', i, s), reply)
  {
    hide F.Exact, F.Stores, F.Pending, F.Reads, GetData, PutData, WellFormed, Line, Sealed, R.Serve, F.AllGood;
    hide MuteBehind, R.Answer, R.View;
    SealedParts(q, lay, k, i, s);
    match req {
      case PutReq(body, now) =>
        lay' := SealedPut(q, lay, k, i, s, body, now);
        k' := k;
      case GetReq(now) =>
        lay', k' := SealedGet(q, lay, k, i, s, now);
      case _ =>
        lay', k' := lay, k;
        SealedSetting(q, lay, k, i, s, req);
    }
  }

  lemma SealedSetting(q: Queue, lay: seq<seq<Chunk>>, k: nat, i: nat, s: seq<byte>, req: R.Request)
    requires Sealed(q, lay, k, i, s) && R.Sensible(req) && !req.PutReq? && !req.GetReq?
    ensures WellFormed(q) && WellFormed(WithSegment(q, i, s)) && |lay| > 0 && k <= |lay[0]|
    ensures var (q', reply) := R.Serve(q, req);
      && Sealed(q', lay, k, i, s) && q'.max == q.max
      && (R.View(q', lay, k), reply) == R.Answer(R.View(q, lay, k), q.max, req)
      && R.Serve(WithSegment(q, i, s), req) == (WithSegment(q', i, s), reply)
  {
    hide F.Exact, F.Stores, F.Pending, WellFormed, Line, MuteBehind, F.Reads, F.AllGood;
    SealedParts(q, lay, k, i, s);
    DelayFits(q);
    R.Recorded(q, lay, k, R.Serve(q, req).0);
  }

  lemma SealedPut(q: Queue, lay: seq<seq<Chunk>>, k: nat, i: nat, s: seq<byte>, body: seq<byte>, now: nat)
      returns (lay': seq<seq<Chunk>>)
    requires Sealed(q, lay, k, i, s) && now < 0x8000_0000
    ensures WellFormed(q) && WellFormed(WithSegment(q, i, s)) && |lay| > 0 && k <= |lay[0]|
    ensures |lay'| > 0 && k <= |lay'[0]|
    ensures var req := R.PutReq(body, now);
      var (q', reply) := R.Serve(q, req);
      && Sealed(q', lay', k, i, s) && q'.max == q.max
      && (R.View(q', lay', k), reply) == R.Answer(R.View(q, lay, k), q.max, req)
      && R.Serve(WithSegment(q, i, s), req) == (WithSegment(q', i, s), reply)
  {
    hide F.Exact, F.Stores, F.Pending, F.Reads, PutData, WellFormed, Line, F.AllGood, Sealed, MuteBehind, F.AfterPut;
    SealedParts(q, lay, k, i, s);
    lay' := R.PutServed(q, lay, k, body, now);
    if R.Serve(q, R.PutReq(body, now)).1 == R.PutReply(PutOk) {
      PutElsewhere(q, i, s, Msg(now, body));
      OlderLayout(q, lay, Msg(now, body));
      SealedKept(q, lay, k, i, s, R.Serve(q, R.PutReq(body, now)).0, lay', k);
    }
  }

  lemma OlderLayout(q: Queue, lay: seq<seq<Chunk>>, m: Msg)
    requires |lay| > 0
    ensures var lay' := F.AfterPut(q, lay, m);
      |lay'| >= |lay| && forall j :: 0 <= j < |lay| - 1 ==> lay'[j] == lay[j]
  {}

  lemma SealedGet(q: Queue, lay: seq<seq<Chunk>>, k: nat, i: nat, s: seq<byte>, now: nat)
      returns (lay': seq<seq<Chunk>>, k': nat)
    requires Sealed(q, lay, k, i, s) && now < 0x8000_0000
    ensures WellFormed(q) && WellFormed(WithSegment(q, i, s)) && |lay| > 0 && k <= |lay[0]|
    ensures |lay'| > 0 && k' <= |lay'[0]|
    ensures var req := R.GetReq(now);
      var (q', reply) := R.Serve(q, req);
      && Sealed(q', lay', k', i, s) && q'.max == q.max
      && (R.View(q', lay', k'), reply) == R.Answer(R.View(q, lay, k), q.max, req)
      && R.Serve(WithSegment(q, i, s), req) == (WithSegment(q', i, s), reply)
  {
    hide F.Exact, F.Stores, F.Pending, F.Reads, GetData, WellFormed, Line, F.AllGood, Sealed, MuteBehind;
    SealedParts(q, lay, k, i, s);
    lay', k' := lay, k;
    if q.unread >= 1 {
      lay', k' := F.GetDelivers(q, lay, k, now);
      R.GetAnswered(q, lay, k, now, lay', k');
      GetSealed(q, lay, k, i, s, now);
      F.DiskOfGet(q, now);
      SealedKept(q, lay, k, i, s, R.Serve(q, R.GetReq(now)).0, lay', k');
    }
  }

  lemma {:induction false} SealedRun(q: Queue, lay: seq<seq<Chunk>>, k: nat, i: nat, s: seq<byte>,
                                     reqs: seq<R.Request>)
    requires Sealed(q, lay, k, i, s) && R.AllSensible(reqs) && |lay| > 0 && k <= |lay[0]|
    ensures WellFormed(WithSegment(q, i, s))
    ensures R.ServeAll(WithSegment(q, i, s), reqs).1 == R.AnswerAll(R.View(q, lay, k), q.max, reqs).1
    decreases |reqs|
  {
    hide Sealed, R.Serve, R.Answer, R.View, WithSegment, WellFormed, F.Stores, F.Exact, F.Reads, F.AllGood, MuteBehind;
    SealedParts(q, lay, k, i, s);
    if reqs != [] {
      var lay', k' := SealedTwin(q, lay, k, i, s, reqs[0]);
      SealedRun(R.Serve(q, reqs[0]).0, lay', k', i, s, reqs[1..]);
    }
  }

  // ----- A put that does not fit seals the segment over the bytes

  /** The segment as it is sealed, with the bytes y behind its frames. */
  function SealedBytes(q: Queue, y: seq<byte>): seq<byte>
    requires q.wr.index in q.disk && DB_FILE_HEAD_LEN <= q.wr.pos && q.wr.pos + |y| <= |q.disk[q.wr.index]|
  {
    Overwrite(Overwrite(q.disk[q.wr.index], q.wr.pos, y), 0, FileHead(q.wr.count))
  }

  lemma SealedOver(seg: seq<byte>, head: seq<byte>, e: nat, y: seq<byte>)
    requires |head| == DB_FILE_HEAD_LEN <= e && e + |y| <= |seg|
    ensures var s := Overwrite(Overwrite(seg, e, y), 0, head);
      && |s| == |seg| && s == Overwrite(Overwrite(seg, 0, head), e, s[e..])
      && s[e..] == Overwrite(seg, e, y)[e..]
  {}

  lemma RotatedOver(q: Queue, y: seq<byte>, m: Msg)
    requires WellFormed(q) && NeedsRotation(q, m) && DB_FILE_HEAD_LEN <= q.wr.pos
    requires q.wr.index in q.disk && q.wr.pos + |y| <= |q.disk[q.wr.index]|
    ensures WellFormed(WithOrphan(q, y)) && NeedsRotation(WithOrphan(q, y), m)
    ensures Rotated(WithOrphan(q, y), m) == WithSegment(Rotated(q, m), q.wr.index, SealedBytes(q, y))
    ensures q.wr.index in Rotated(q, m).disk && Rotated(q, m).wr.index == q.wr.index + 1
    ensures Rotated(q, m).disk[q.wr.index] == Overwrite(q.disk[q.wr.index], 0, FileHead(q.wr.count))
  {
    hide Overwrite, FreshSegment, FileHead, Line;
    var a, b := Rotated(WithOrphan(q, y), m), WithSegment(Rotated(q, m), q.wr.index, SealedBytes(q, y));
    assert a.disk == b.disk;
  }

  lemma PutOver(q: Queue, y: seq<byte>, m: Msg)
    requires WellFormed(q) && NeedsRotation(q, m) && Fits(m, q.max) && DB_FILE_HEAD_LEN <= q.wr.pos
    requires q.wr.index in q.disk && q.wr.pos + |y| <= |q.disk[q.wr.index]|
    ensures WellFormed(WithOrphan(q, y))
    ensures PutData(WithOrphan(q, y), m) == WithSegment(PutData(q, m), q.wr.index, SealedBytes(q, y))
    ensures q.wr.index in PutData(q, m).disk && PutData(q, m).wr.index == q.wr.index + 1
    ensures PutData(q, m).disk[q.wr.index] == Overwrite(q.disk[q.wr.index], 0, FileHead(q.wr.count))
    ensures PutData(q, m).rd == q.rd && PutData(q, m).max == q.max
  {
    hide Frame, Overwrite, FileHead, WellFormed, WithSegment, WithOrphan, Rotated, AppendMsg, SealedBytes;
    RotatedOver(q, y, m);
    RotatedRoom(q, m);
    SameReaderThere(q, m);
    AppendElsewhere(Rotated(q, m), q.wr.index, SealedBytes(q, y), m);
  }

  lemma SameReaderThere(q: Queue, m: Msg)
    requires WellFormed(q)
    ensures Rotated(q, m).rd == q.rd && Rotated(q, m).max == q.max
  {
    hide FileHead, FreshSegment, Overwrite, Line;
  }

  lemma AfterHead(q: Queue, lay: seq<seq<Chunk>>, k: nat, x: seq<byte>)
    requires Known(q, lay, k, x)
    ensures q.wr.pos >= DB_FILE_HEAD_LEN && |lay| - 1 == q.wr.index - q.rd.index && q.wr.pos == End(lay[|lay| - 1])
  {
    hide Holds, F.ReadAt, F.Exact, Layout;
  }

  lemma SealTwin(q: Queue, lay: seq<seq<Chunk>>, k: nat, y: seq<byte>, req: R.Request)
      returns (lay': seq<seq<Chunk>>, s: seq<byte>)
    requires Known(q, lay, k, y) && R.Sensible(req) && WellFormed(q) && |lay| > 0 && k <= |lay[0]|
    requires q.wr.index in q.disk && q.wr.pos + |y| <= |q.disk[q.wr.index]|
    requires R.Serve(q, req).1 == R.PutReply(PutOk) && R.Seals(q, req)
    requires SegmentSize(q.max) && Mute(WithOrphan(q, y).disk[q.wr.index], q.wr.pos)
    ensures WellFormed(WithOrphan(q, y)) && |lay'| > 0 && k <= |lay'[0]|
    ensures var q' := R.Serve(q, req).0;
      && Sealed(q', lay', k, q.wr.index, s) && q'.max == q.max
      && (R.View(q', lay', k), R.PutReply(PutOk)) == R.Answer(R.View(q, lay, k), q.max, req)
      && R.Serve(WithOrphan(q, y), req) == (WithSegment(q', q.wr.index, s), R.PutReply(PutOk))
  {
    hide F.Exact, F.Stores, F.Pending, F.Reads, PutData, WellFormed, Line, F.AfterPut, Overwrite, FileHead;
    hide NeedsRotation, Fits, ParseMsg, R.Seals, F.AllGood;
    KnownParts(q, lay, k, y);
    AfterHead(q, lay, k, y);
    Acknowledged(q, req);
    var m := Msg(req.now, req.body);
    s := SealedBytes(q, y);
    PutOver(q, y, m);
    lay' := R.PutServed(q, lay, k, req.body, req.now);
    OlderLayout(q, lay, m);
    RotationAdds(q, lay, m);
    AlsoAcknowledged(q, WithOrphan(q, y), req);
    Acknowledged(WithOrphan(q, y), req);
    var seg, e := q.disk[q.wr.index], q.wr.pos;
    SealedOver(seg, FileHead(q.wr.count), e, y);
    MuteSuffix(WithOrphan(q, y).disk[q.wr.index], s, e, e);
  }

  lemma RotationAdds(q: Queue, lay: seq<seq<Chunk>>, m: Msg)
    requires |lay| > 0 && NeedsRotation(q, m)
    ensures |F.AfterPut(q, lay, m)| == |lay| + 1 && F.AfterPut(q, lay, m)[|lay| - 1] == lay[|lay| - 1]
  {}

  // ----- Whole runs

  /** The file being written, as it is with the bytes x. */
  function LastFile(q: Queue, x: seq<byte>): seq<byte>
    requires q.wr.index in q.disk && q.wr.pos + |x| <= |q.disk[q.wr.index]|
  {
    Overwrite(q.disk[q.wr.index], q.wr.pos, x)
  }

  lemma ServeKeepsLast(q: Queue, req: R.Request)
    requires WellFormed(q) && R.Sensible(req) && R.Serve(q, req).1 != R.PutReply(PutOk)
    ensures var q' := R.Serve(q, req).0;
      q'.wr == q.wr && q'.max == q.max && q.wr.index in q.disk && q.wr.index in q'.disk
      && q'.disk[q.wr.index] == q.disk[q.wr.index]
  {
    hide GetData, PutData, Line;
    R.ServeKeepsMax(q, req);
    ServeKeepsWriter(q, req);
    if req.GetReq? {
      F.DiskOfGet(q, req.now);
    }
  }

  /** What a frame covers is gone, what is behind it is as it was. */
  lemma CoverSuffix(seg: seq<byte>, w: nat, x: seq<byte>, f: seq<byte>)
    requires w + |x| <= |seg| && w + |f| <= |seg|
    ensures var e, y := w + |f|, Leftover(x, f);
      e + |y| <= |seg| && Overwrite(Overwrite(seg, w, f), e, y)[e..] == Overwrite(seg, w, x)[e..]
  {
    var e, y := w + |f|, Leftover(x, f);
    var a, b := Overwrite(Overwrite(seg, w, f), e, y), Overwrite(seg, w, x);
    forall p | e <= p < |seg|
      ensures a[p] == b[p]
    {
      if p < w + |x| {
        assert a[p] == y[p - e] == x[p - w];
      } else {
        assert a[p] == Overwrite(seg, w, f)[p] == seg[p];
      }
    }
    assert a[e..] == b[e..];
  }

  lemma FrameWritten(q: Queue, req: R.Request)
    requires WellFormed(q) && R.Sensible(req) && R.Serve(q, req).1 == R.PutReply(PutOk) && !R.Seals(q, req)
    ensures req.PutReq? && q.wr.index in q.disk
    ensures var f := Frame(Msg(req.now, req.body));
      var q' := R.Serve(q, req).0;
      && q.wr.pos + |f| <= |q.disk[q.wr.index]| && q'.wr.index == q.wr.index && q'.wr.pos == q.wr.pos + |f|
      && q.wr.index in q'.disk && q'.disk[q.wr.index] == Overwrite(q.disk[q.wr.index], q.wr.pos, f)
  {
    Acknowledged(q, req);
    hide Frame, Overwrite, Line;
  }

  /** The bytes that a put leaves hold no message, if there was none behind the frame before. */
  lemma CoverMute(q: Queue, x: seq<byte>, req: R.Request, from: nat)
    requires WellFormed(q) && R.Sensible(req) && R.Serve(q, req).1 == R.PutReply(PutOk) && !R.Seals(q, req)
    requires q.wr.index in q.disk && q.wr.pos + |x| <= |q.disk[q.wr.index]| && SegmentSize(q.max)
    requires |q.disk[q.wr.index]| == q.max && Mute(LastFile(q, x), from) && req.PutReq?
    requires from <= q.wr.pos + MSG_HEAD_LEN + |req.body|
    ensures var q', y := R.Serve(q, req).0, Leftover(x, Frame(Msg(req.now, req.body)));
      && q'.wr.index in q'.disk && q'.wr.pos + |y| <= |q'.disk[q'.wr.index]| && |q'.disk[q'.wr.index]| == q.max
      && Mute(LastFile(q', y), q'.wr.pos)
  {
    hide Frame, ParseMsg, WellFormed, R.Serve, R.Seals, Overwrite;
    FrameWritten(q, req);
    var f := Frame(Msg(req.now, req.body));
    var seg, w := q.disk[q.wr.index], q.wr.pos;
    CoverSuffix(seg, w, x, f);
    SameLengths(seg, w, f, x);
    MuteSuffix(Overwrite(seg, w, x), LastFile(R.Serve(q, req).0, Leftover(x, f)), from, w + |f|);
  }

  lemma SameLengths(seg: seq<byte>, w: nat, f: seq<byte>, x: seq<byte>)
    requires w + |x| <= |seg| && w + |f| <= |seg|
    ensures |Overwrite(seg, w, f)| == |seg| && |Overwrite(seg, w, x)| == |seg|
    ensures w + |f| + |Leftover(x, f)| <= |seg|
    ensures |Overwrite(Overwrite(seg, w, f), w + |f|, Leftover(x, f))| == |seg|
  {}

  lemma LastFileOf(q: Queue, x: seq<byte>)
    requires WellFormed(q) && q.wr.index in q.disk && q.wr.pos + |x| <= |q.disk[q.wr.index]|
    ensures WithOrphan(q, x).disk[q.wr.index] == LastFile(q, x) && |q.disk[q.wr.index]| == q.max && SegmentSize(q.max)
  {
    hide Overwrite;
  }

  lemma NoBytes(q: Queue)
    requires WellFormed(q) && q.wr.index in q.disk && q.wr.pos <= |q.disk[q.wr.index]|
    ensures WithOrphan(q, []) == q
  {
    NothingOver(q.disk[q.wr.index], q.wr.pos);
    assert q.disk[q.wr.index := q.disk[q.wr.index]] == q.disk;
  }

  /** Bytes behind the write position that hold no message are never seen. */
  lemma {:induction false} MuteRun(q: Queue, lay: seq<seq<Chunk>>, k: nat, x: seq<byte>, reqs: seq<R.Request>)
    requires Known(q, lay, k, x) && R.AllSensible(reqs) && |lay| > 0 && k <= |lay[0]|
    requires q.wr.index in q.disk && q.wr.pos + |x| <= |q.disk[q.wr.index]| && SegmentSize(|q.disk[q.wr.index]|)
    requires Mute(LastFile(q, x), q.wr.pos)
    ensures WellFormed(WithOrphan(q, x))
    ensures R.ServeAll(WithOrphan(q, x), reqs).1 == R.AnswerAll(R.View(q, lay, k), q.max, reqs).1
    decreases |reqs|
  {
    hide Known, R.Serve, R.Answer, R.View, WithOrphan, WellFormed, F.Stores, F.Exact, F.Reads, F.AllGood, R.Seals;
    hide LastFile, Sealed, Leftover, ParseMsg, Mute;
    KnownParts(q, lay, k, x);
    LastFileOf(q, x);
    if x == [] {
      NoBytes(q);
      var lay2, k2 := R.RunRefinesFifo(q, lay, k, reqs);
    } else if reqs != [] {
      var req, rest := reqs[0], reqs[1..];
      var q' := R.Serve(q, req).0;
      if R.Serve(q, req).1 != R.PutReply(PutOk) {
        var lay', k' := QuietTwin(q, lay, k, x, req);
        ServeKeepsLast(q, req);
        SameLast(q, q', x);
        MuteRun(q', lay', k', x, rest);
      } else if R.Seals(q, req) {
        var lay', s := SealTwin(q, lay, k, x, req);
        SealedRun(q', lay', k, q.wr.index, s, rest);
      } else {
        var lay', y := PutServedTwin(q, lay, k, x, req);
        CoverMute(q, x, req, q.wr.pos);
        MuteRun(q', lay', k, y, rest);
      }
    }
  }

  lemma SameLast(q: Queue, q': Queue, x: seq<byte>)
    requires q'.wr == q.wr && q.wr.index in q.disk && q.wr.index in q'.disk
    requires q'.disk[q.wr.index] == q.disk[q.wr.index] && q.wr.pos + |x| <= |q.disk[q.wr.index]|
    ensures LastFile(q', x) == LastFile(q, x)
  {}
}
