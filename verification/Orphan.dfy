/** A stop after a frame is complete and before the first byte of its journal line: the restarted
    writer stands in front of a frame that the journal does not know. When does it leave no trace? */
module Orphan {
  import opened Bytes
  import opened Crc16
  import opened Message
  import opened Segment
  import opened Journal
  import opened Strings
  import opened Store
  import opened Recovery
  import opened Recount
  import opened Crash
  import opened Restarts
  import opened Twins
  import F = Fifo
  import R = Runs

  // ----- A put that fits covers it

  /** The first message that the run accepts fits into the segment. */
  predicate FirstFits(q: Queue, reqs: seq<R.Request>)
    requires WellFormed(q) && R.AllSensible(reqs)
    decreases |reqs|
  {
    reqs == []
    || (!R.Seals(q, reqs[0])
        && (R.Serve(q, reqs[0]).1 == R.PutReply(PutOk) || FirstFits(R.Serve(q, reqs[0]).0, reqs[1..])))
  }

  /** A restarted queue with an orphan behind its write position answers like one without it, if the
      first message that is accepted fits into the segment, and no message can be parsed behind the head
      and the first byte of the body that this message covers at least. */
  lemma {:induction false} OrphanUnnoticed(q: Queue, lay: seq<seq<Chunk>>, k: nat, x: seq<byte>, reqs: seq<R.Request>)
    requires Known(q, lay, k, x) && WellFormed(q) && |lay| > 0 && k <= |lay[0]|
    requires R.AllSensible(reqs) && |x| > 0 && FirstFits(q, reqs)
    requires q.wr.index in q.disk && q.wr.pos + |x| <= |q.disk[q.wr.index]| && SegmentSize(|q.disk[q.wr.index]|)
    requires Mute(LastFile(q, x), q.wr.pos + MSG_HEAD_LEN + 1)
    ensures WellFormed(WithOrphan(q, x))
    ensures R.ServeAll(WithOrphan(q, x), reqs).1 == R.AnswerAll(R.View(q, lay, k), q.max, reqs).1
    decreases |reqs|
  {
    hide F.Exact, F.Stores, F.Pending, F.Reads, F.AllGood, WellFormed, Known, R.Serve, R.Answer, R.Seals, WithOrphan;
    hide LastFile, Mute, Leftover, R.View;
    KnownParts(q, lay, k, x);
    LastFileOf(q, x);
    if reqs != [] {
      var req, rest := reqs[0], reqs[1..];
      if R.Serve(q, req).1 == R.PutReply(PutOk) {
        Acknowledged(q, req);
        BodyThere(q, req);
        var lay', y := PutServedTwin(q, lay, k, x, req);
        CoverMute(q, x, req, q.wr.pos + MSG_HEAD_LEN + 1);
        MuteRun(R.Serve(q, req).0, lay', k, y, rest);
      } else {
        var lay', k' := QuietTwin(q, lay, k, x, req);
        ServeKeepsLast(q, req);
        SameLast(q, R.Serve(q, req).0, x);
        OrphanUnnoticed(R.Serve(q, req).0, lay', k', x, rest);
      }
    }
  }

  lemma BodyThere(q: Queue, req: R.Request)
    requires req.PutReq? && Fits(Msg(req.now, req.body), q.max)
    ensures |req.body| >= 1
  {}

  // ----- A put that does not fit seals the segment over it

  /** Otherwise the unacknowledged message is stored after all, right before the new one. */
  lemma {:induction false} OrphanReturns(q: Queue, lay: seq<seq<Chunk>>, k: nat, m: Msg, m': Msg)
    requires Known(q, lay, k, Frame(m)) && WellFormed(q) && Fits(m, q.max) && Fits(m', q.max) && NeedsRotation(q, m')
    ensures q.wr.index in q.disk && q.wr.pos + |Frame(m)| <= |q.disk[q.wr.index]| && WellFormed(WithOrphan(q, Frame(m)))
    ensures var lay' := F.AppendTo(lay, Good(m)) + [[Good(m')]];
      && |lay'| > 0 && k <= |lay'[0]|
      && F.Stores(PutData(WithOrphan(q, Frame(m)), m'), lay', k)
      && F.Pending(lay', k) == F.Pending(lay, k) + [m, m']
      && PutData(WithOrphan(q, Frame(m)), m').unread == q.unread
  {
    hide F.Exact, F.Stores, F.Pending, F.Reads, F.Exact, Frame, Overwrite, PutData;
    KnownParts(q, lay, k, Frame(m));
    var qd, layM := WithOrphan(q, Frame(m)), F.AppendTo(lay, Good(m));
    var full := qd.(wr := qd.wr.(pos := q.max));
    FullStores(q, lay, k, m);
    F.PutAppends(full, layM, k, m');
    F.PendingAppend(lay, k, m);
    FullPut(qd, full, m');
    assert [] + [Good(m')] == [Good(m')];
    assert F.AppendTo(layM + [[]], Good(m')) == layM + [[Good(m')]];
    assert F.Pending(lay, k) + [m] + [m'] == F.Pending(lay, k) + [m, m'];
  }

  lemma FullStores(q: Queue, lay: seq<seq<Chunk>>, k: nat, m: Msg)
    requires Known(q, lay, k, Frame(m)) && Fits(m, q.max)
    ensures q.wr.index in q.disk && q.wr.pos + |Frame(m)| <= |q.disk[q.wr.index]|
    ensures var qd := WithOrphan(q, Frame(m));
      F.Stores(qd.(wr := qd.wr.(pos := q.max)), F.AppendTo(lay, Good(m)), k)
  {
    hide F.Exact, Frame, Overwrite, Holds, F.Reads;
    KnownParts(q, lay, k, Frame(m));
    F.MessageAppended(q, lay, k, m);
  }

  lemma FullPut(q: Queue, full: Queue, m: Msg)
    requires WellFormed(q) && WellFormed(full) && Fits(m, q.max) && full == q.(wr := q.wr.(pos := q.max))
    requires NeedsRotation(q, m)
    ensures PutData(full, m) == PutData(q, m) && NeedsRotation(full, m) && PutData(q, m).unread == q.unread
  {
    hide Frame, Overwrite, FreshSegment, FileHead, Line;
  }

  /** In a segment that is still empty every message fits. */
  lemma {:induction false} AlwaysFits(q: Queue, reqs: seq<R.Request>)
    requires WellFormed(q) && R.AllSensible(reqs) && q.wr.pos == DB_FILE_HEAD_LEN
    ensures FirstFits(q, reqs)
    decreases |reqs|
  {
    hide WellFormed, R.Serve, R.Seals;
    if reqs != [] {
      FitsEmpty(q, reqs[0]);
      if R.Serve(q, reqs[0]).1 != R.PutReply(PutOk) {
        ServeKeepsWriter(q, reqs[0]);
        AlwaysFits(R.Serve(q, reqs[0]).0, reqs[1..]);
      }
    }
  }

  lemma FitsEmpty(q: Queue, req: R.Request)
    requires WellFormed(q) && R.Sensible(req) && q.wr.pos == DB_FILE_HEAD_LEN
    ensures !R.Seals(q, req)
  {
    hide PutData, GetData, Line;
  }

  lemma {:induction false} QuietAll(q: Queue, lay: seq<seq<Chunk>>, k: nat, x: seq<byte>, reqs: seq<R.Request>)
      returns (q': Queue, lay': seq<seq<Chunk>>, k': nat)
    requires Known(q, lay, k, x) && R.AllSensible(reqs) && |x| > 0 && |lay| > 0 && k <= |lay[0]|
    requires R.PutReply(PutOk) !in R.AnswerAll(R.View(q, lay, k), q.max, reqs).1
    ensures |lay'| > 0 && k' <= |lay'[0]|
    ensures q.wr.index in q.disk && q.wr.pos + |x| <= |q.disk[q.wr.index]| && WellFormed(WithOrphan(q, x))
    ensures Known(q', lay', k', x) && q'.wr.index in q'.disk && q'.wr.pos + |x| <= |q'.disk[q'.wr.index]|
    ensures var (f, replies) := R.AnswerAll(R.View(q, lay, k), q.max, reqs);
      && R.ServeAll(WithOrphan(q, x), reqs) == (WithOrphan(q', x), replies)
      && R.View(q', lay', k') == f && q'.max == q.max && q'.wr == q.wr
      && q'.disk[q.wr.index] == q.disk[q.wr.index]
    decreases |reqs|
  {
    hide Known, R.Serve, R.Answer, R.View, WithOrphan, WellFormed;
    KnownParts(q, lay, k, x);
    q', lay', k' := q, lay, k;
    if reqs != [] {
      var f1, reply := Replied(q, lay, k, x, reqs[0]);
      assert R.AnswerAll(R.View(q, lay, k), q.max, reqs).1 == [reply] + R.AnswerAll(f1, q.max, reqs[1..]).1;
      var lay1, k1 := QuietTwin(q, lay, k, x, reqs[0]);
      ServeKeepsLast(q, reqs[0]);
      q', lay', k' := QuietAll(R.Serve(q, reqs[0]).0, lay1, k1, x, reqs[1..]);
    }
  }

  lemma Replied(q: Queue, lay: seq<seq<Chunk>>, k: nat, x: seq<byte>, req: R.Request)
      returns (f: R.Memory, reply: R.Reply)
    requires Known(q, lay, k, x) && R.Sensible(req) && |lay| > 0 && k <= |lay[0]|
    ensures (f, reply) == R.Answer(R.View(q, lay, k), q.max, req)
    ensures WellFormed(q) && reply == R.Serve(q, req).1
  {
    hide F.Stores, F.Exact, R.Serve, R.Answer, R.View;
    KnownParts(q, lay, k, x);
    var lay', k' := R.OneServed(q, lay, k, req);
    f, reply := R.Answer(R.View(q, lay, k), q.max, req).0, R.Answer(R.View(q, lay, k), q.max, req).1;
  }

  /** A message that fills a segment. */
  function FullBody(max: nat): seq<byte>
    requires SegmentSize(max)
  {
    seq(max - DB_FILE_HEAD_LEN - MSG_HEAD_LEN, i => 0)
  }

  /** No limit, no delay, no lock; one message that fills a segment; then n + 1 gets. */
  function Reveal(max: nat, n: nat): (reqs: seq<R.Request>)
    requires SegmentSize(max)
    ensures R.AllSensible(reqs)
  {
    R.OPENING + ([R.PutReq(FullBody(max), 0)] + R.Gets(n + 1))
  }

  lemma FullBodyTurns(q: Queue)
    requires WellFormed(q) && q.wr.pos > DB_FILE_HEAD_LEN
    ensures SegmentSize(q.max) && Fits(Msg(0, FullBody(q.max)), q.max) && NeedsRotation(q, Msg(0, FullBody(q.max)))
    ensures 0 < |FullBody(q.max)| == q.max - DB_FILE_HEAD_LEN - MSG_HEAD_LEN
  {}

  lemma FullAccepted(q: Queue)
    requires WellFormed(q) && SegmentSize(q.max) && q.maxque == 0 && q.wlock == 0
    ensures R.Serve(q, R.PutReq(FullBody(q.max), 0)).1 == R.PutReply(PutOk)
  {
    hide PutData, Line;
  }

  lemma FullBodyRotates(q: Queue, lay: seq<seq<Chunk>>, k: nat, m: Msg)
    requires Known(q, lay, k, Frame(m)) && q.wr.pos > DB_FILE_HEAD_LEN
    ensures WellFormed(q) && SegmentSize(q.max) && Fits(Msg(0, FullBody(q.max)), q.max)
    ensures NeedsRotation(q, Msg(0, FullBody(q.max))) && m != Msg(0, FullBody(q.max)) && |FullBody(q.max)| > 0
    ensures |FullBody(q.max)| == q.max - DB_FILE_HEAD_LEN - MSG_HEAD_LEN
  {
    hide F.Stores, F.Exact, Frame;
    KnownParts(q, lay, k, Frame(m));
    FullBodyTurns(q);
  }

  lemma PutReveals(q: Queue, lay: seq<seq<Chunk>>, k: nat, m: Msg, m': Msg) returns (lay': seq<seq<Chunk>>)
    requires Known(q, lay, k, Frame(m)) && Fits(m, q.max) && Fits(m', q.max) && NeedsRotation(q, m')
    requires q.delay == 0 && q.maxque == 0 && q.wlock == 0 && m'.time < 0x8000_0000
    ensures |lay| > 0 && k <= |lay[0]| && |lay'| > 0 && k <= |lay'[0]|
    ensures q.wr.index in q.disk && q.wr.pos + |Frame(m)| <= |q.disk[q.wr.index]| && WellFormed(WithOrphan(q, Frame(m)))
    ensures var (q', reply) := R.Serve(WithOrphan(q, Frame(m)), R.PutReq(m'.body, m'.time));
      && reply == R.PutReply(PutOk) && F.Stores(q', lay', k) && q'.delay == 0 && q'.unread == q.unread + 1
      && F.Pending(lay', k) == F.Pending(lay, k) + [m, m']
  {
    hide F.Exact, F.Stores, F.Pending, F.Reads, Frame, PutData, WithOrphan, Line, WellFormed;
    KnownParts(q, lay, k, Frame(m));
    OrphanReturns(q, lay, k, m, m');
    lay' := F.AppendTo(lay, Good(m)) + [[Good(m')]];
    var qd := WithOrphan(q, Frame(m));
    SameBesidesFiles(q, Frame(m));
    PutKeepsSettings(qd, m');
    R.Recorded(PutData(qd, m'), lay', k, R.Serve(qd, R.PutReq(m'.body, m'.time)).0);
  }

  lemma OpeningPutsNothing(f: R.Memory, max: nat)
    ensures R.AnswerAll(f, max, R.OPENING)
      == (f.(maxque := 0, delay := 0, wlock := 0), [R.Done, R.Done, R.Done])
  {
    R.Opening(f, max, []);
    assert R.OPENING + [] == R.OPENING && [R.Done, R.Done, R.Done] + [] == [R.Done, R.Done, R.Done];
  }

  /** The log's last reply: the unacknowledged message, as soon as the counter reaches it. */
  lemma {:induction false} LogReveals(q: Queue, lay: seq<seq<Chunk>>, k: nat, m: Msg, n: nat)
    requires Known(q, lay, k, Frame(m)) && Fits(m, q.max) && q.wr.pos > DB_FILE_HEAD_LEN
    requires |lay| > 0 && k <= |lay[0]| && n == |F.Pending(lay, k)|
    ensures q.wr.index in q.disk && q.wr.pos + |Frame(m)| <= |q.disk[q.wr.index]|
    ensures WellFormed(WithOrphan(q, Frame(m))) && SegmentSize(q.max)
    ensures var replies := R.ServeAll(WithOrphan(q, Frame(m)), Reveal(q.max, n)).1;
      |replies| == n + 5 && replies[n + 4] == R.GetReply(if n <= q.unread then Some(m) else None)
  {
    hide Known, Frame, WellFormed, WithOrphan, R.Serve, R.ServeAll, R.AnswerAll, F.Pending, F.Stores;
    hide R.OPENING, R.Gets, FullBody, NeedsRotation, Fits;
    R.OpeningSensible();
    OpeningPutsNothing(R.View(q, lay, k), q.max);
    KnownParts(q, lay, k, Frame(m));
    var q1, lay1, k1 := QuietAll(q, lay, k, Frame(m), R.OPENING);
    FullBodyRotates(q1, lay1, k1, m);
    var qd, qd1 := WithOrphan(q, Frame(m)), WithOrphan(q1, Frame(m));
    var m' := Msg(0, FullBody(q.max));
    var put, gets := R.PutReq(m'.body, 0), R.Gets(n + 1);
    var lay2 := PutReveals(q1, lay1, k1, m, m');
    var q2 := R.Serve(qd1, put).0;
    R.StoresShape(q2, lay2, k1);
    var lay3, k3 := R.RunRefinesFifo(q2, lay2, k1, gets);
    R.GetsGive(R.View(q2, lay2, k1), q2.max, n + 1);
    assert R.AllSensible([put] + gets);
    R.ServesContinue(qd, R.OPENING, [put] + gets);
    ServeFirst(qd1, put, gets);
    var replies := R.ServeAll(q2, gets).1;
    assert q1.unread == q.unread && F.Pending(lay1, k1) == F.Pending(lay, k);
    assert (F.Pending(lay, k) + [m, m'])[n] == m;
    assert ([R.Done, R.Done, R.Done] + ([R.PutReply(PutOk)] + replies))[n + 4] == replies[n];
  }

  lemma ServeFirst(q: Queue, req: R.Request, rest: seq<R.Request>)
    requires WellFormed(q) && R.Sensible(req) && R.AllSensible(rest)
    ensures R.AllSensible([req] + rest)
    ensures var (q1, reply) := R.Serve(q, req);
      R.ServeAll(q, [req] + rest) == (R.ServeAll(q1, rest).0, [reply] + R.ServeAll(q1, rest).1)
  {
    hide R.Serve, WellFormed;
    assert ([req] + rest)[1..] == rest;
  }

  /** The FIFO's last reply: the message that was accepted. */
  lemma {:induction false} FifoReveals(f: R.Memory, max: nat)
    requires SegmentSize(max) && f.unread == |f.items|
    ensures var replies, n := R.AnswerAll(f, max, Reveal(max, |f.items|)).1, |f.items|;
      |replies| == n + 5 && replies[n + 4] == R.GetReply(Some(Msg(0, FullBody(max))))
  {
    hide R.AnswerAll, R.OPENING, R.Gets, FullBody;
    var n, put, gets := |f.items|, R.PutReq(FullBody(max), 0), R.Gets(|f.items| + 1);
    FullBodyFits(max);
    R.Opening(f, max, [put] + gets);
    var f1 := f.(maxque := 0, delay := 0, wlock := 0);
    R.AnswerFirst(f1, max, put, gets);
    var f2 := R.Answer(f1, max, put).0;
    R.GetsGive(f2, max, n + 1);
    var replies := R.AnswerAll(f2, max, gets).1;
    assert ([R.Done, R.Done, R.Done] + ([R.PutReply(PutOk)] + replies))[n + 4] == replies[n];
  }

  lemma FullBodyFits(max: nat)
    requires SegmentSize(max)
    ensures 0 < |FullBody(max)| == max - DB_FILE_HEAD_LEN - MSG_HEAD_LEN
  {}

  // ----- A message that can be read inside the frame

  function Zeros(n: nat): (body: seq<byte>)
    ensures |body| == n
  {
    seq(n, i => 0)
  }

  /** No limit, no delay, no lock; a message of len bytes; gets for it and the n messages before it. */
  function Uncover(len: nat, n: nat): (reqs: seq<R.Request>)
    ensures R.AllSensible(reqs)
  {
    R.OPENING + ([R.PutReq(Zeros(len), 0)] + R.Gets(n + 1))
  }

  /** A message that fills a segment, and one get more. */
  function Behind(max: nat): (reqs: seq<R.Request>)
    requires SegmentSize(max)
    ensures R.AllSensible(reqs)
  {
    [R.PutReq(FullBody(max), 0)] + [R.GetReq(0)]
  }

  lemma PutAnswered(f: R.Memory, max: nat, body: seq<byte>)
    requires f.maxque == 0 && f.wlock == 0 && 1 <= |body| && |body| + DB_FILE_HEAD_LEN + MSG_HEAD_LEN <= max
    ensures R.Answer(f, max, R.PutReq(body, 0))
      == (f.(items := f.items + [Msg(0, body)], puts := f.puts + 1, unread := f.unread + 1), R.PutReply(PutOk))
  {}

  lemma FourReplies(x: seq<R.Reply>)
    ensures [R.Done, R.Done, R.Done] + ([R.PutReply(PutOk)] + x)
         == [R.Done, R.Done, R.Done, R.PutReply(PutOk)] + x
  {}

  lemma OpenPut(f: R.Memory, max: nat, body: seq<byte>, later: seq<R.Request>)
    requires 1 <= |body| && |body| + DB_FILE_HEAD_LEN + MSG_HEAD_LEN <= max
    ensures var g := R.Answer(f.(maxque := 0, delay := 0, wlock := 0), max, R.PutReq(body, 0)).0;
      R.AnswerAll(f, max, R.OPENING + ([R.PutReq(body, 0)] + later))
      == (R.AnswerAll(g, max, later).0,
          [R.Done, R.Done, R.Done, R.PutReply(PutOk)] + R.AnswerAll(g, max, later).1)
  {
    hide R.AnswerAll, R.Answer, R.OPENING;
    var put := R.PutReq(body, 0);
    R.Opening(f, max, [put] + later);
    var f1 := f.(maxque := 0, delay := 0, wlock := 0);
    R.AnswerFirst(f1, max, put, later);
    PutAnswered(f1, max, body);
    FourReplies(R.AnswerAll(R.Answer(f1, max, put).0, max, later).1);
  }

  lemma GetAt(f: R.Memory, max: nat, n: nat, i: nat)
    requires f.delay == 0 && i < n
    ensures R.AnswerAll(f, max, R.Gets(n)).1[i]
         == R.GetReply(if i < f.unread && i < |f.items| then Some(f.items[i]) else None)
  {
    hide R.AnswerAll, R.Gets;
    R.GetsGive(f, max, n);
  }

  /** The FIFO's replies to that, whatever its counter. */
  lemma MemoryUncovers(f: R.Memory, max: nat, len: nat)
    requires SegmentSize(max) && 1 <= len && len + DB_FILE_HEAD_LEN + MSG_HEAD_LEN <= max
    ensures var n, (f', replies) := |f.items|, R.AnswerAll(f, max, Uncover(len, |f.items|));
      && |replies| == n + 5
      && (forall i :: 4 <= i < n + 5 ==>
            replies[i] == R.GetReply(if i - 4 <= f.unread then Some((f.items + [Msg(0, Zeros(len))])[i - 4]) else None))
      && (n <= f.unread ==>
            f'.items == [] && f'.unread == f.unread - n && f'.delay == 0 && f'.maxque == 0 && f'.wlock == 0)
  {
    hide R.AnswerAll, R.Answer, R.OPENING, R.Gets, Zeros;
    var n, body, gets := |f.items|, Zeros(len), R.Gets(|f.items| + 1);
    var f1 := f.(maxque := 0, delay := 0, wlock := 0);
    OpenPut(f, max, body, gets);
    PutAnswered(f1, max, body);
    var g := R.Answer(f1, max, R.PutReq(body, 0)).0;
    R.GetsGive(g, max, n + 1);
    var front, more := [R.Done, R.Done, R.Done, R.PutReply(PutOk)], R.AnswerAll(g, max, gets).1;
    var replies := R.AnswerAll(f, max, Uncover(len, n)).1;
    assert replies == front + more;
    forall i | 4 <= i < n + 5
      ensures replies[i] == R.GetReply(if i - 4 <= f.unread then Some((f.items + [Msg(0, body)])[i - 4]) else None)
    {
      GetAt(g, max, n + 1, i - 4);
      assert (front + more)[i] == more[i - 4];
    }
    assert n <= f.unread ==> g.items[n + 1..] == [];
  }

  lemma GetsStoreNothing(f: R.Memory, max: nat, n: nat)
    requires f.delay == 0
    ensures R.PutReply(PutOk) !in R.AnswerAll(f, max, R.Gets(n)).1
  {
    hide R.AnswerAll, R.Gets;
    R.GetsGive(f, max, n);
  }

  lemma SettingsSeen(q: Queue, lay: seq<seq<Chunk>>, k: nat)
    requires |lay| > 0 && k <= |lay[0]|
    ensures var f := R.View(q, lay, k);
      f.maxque == q.maxque && f.wlock == q.wlock && f.delay == q.delay && f.unread == q.unread
      && f.items == F.Pending(lay, k)
  {}

  lemma RoomFor(q: Queue, x: seq<byte>, len: nat)
    requires WellFormed(q) && q.wr.index in q.disk && q.wr.pos + |x| <= |q.disk[q.wr.index]|
    requires 1 <= len && MSG_HEAD_LEN + len < |x| && q.wr.pos >= DB_FILE_HEAD_LEN
    ensures len + DB_FILE_HEAD_LEN + MSG_HEAD_LEN <= q.max && SegmentSize(q.max)
    ensures Fits(Msg(0, Zeros(len)), q.max) && !NeedsRotation(q, Msg(0, Zeros(len)))
  {}

  lemma ZerosAccepted(q: Queue, len: nat)
    requires WellFormed(q) && q.maxque == 0 && q.wlock == 0 && Fits(Msg(0, Zeros(len)), q.max)
    requires !NeedsRotation(q, Msg(0, Zeros(len)))
    ensures var put := R.PutReq(Zeros(len), 0);
      R.Serve(q, put).1 == R.PutReply(PutOk) && !R.Seals(q, put)
  {
    hide PutData, Line, NeedsRotation;
  }

  /** A short put covers the beginning of the orphan, and changes nothing behind itself. */
  lemma PutCovers(q: Queue, lay: seq<seq<Chunk>>, k: nat, x: seq<byte>, len: nat)
      returns (q': Queue, lay': seq<seq<Chunk>>, y: seq<byte>)
    requires Known(q, lay, k, x) && |lay| > 0 && k <= |lay[0]| && q.maxque == 0 && q.wlock == 0
    requires 1 <= len && MSG_HEAD_LEN + len < |x|
    ensures q.wr.index in q.disk && q.wr.pos + |x| <= |q.disk[q.wr.index]| && WellFormed(WithOrphan(q, x))
    ensures |lay'| > 0 && k <= |lay'[0]| && Known(q', lay', k, y) && |y| > 0
    ensures len + DB_FILE_HEAD_LEN + MSG_HEAD_LEN <= q.max
    ensures q'.wr.index in q'.disk && q'.wr.pos + |y| <= |q'.disk[q'.wr.index]|
    ensures q'.wr.index == q.wr.index && q'.wr.pos == q.wr.pos + MSG_HEAD_LEN + len && q'.max == q.max
    ensures LastFile(q', y)[q'.wr.pos..] == LastFile(q, x)[q'.wr.pos..]
    ensures var put := R.PutReq(Zeros(len), 0);
      && (R.View(q', lay', k), R.PutReply(PutOk)) == R.Answer(R.View(q, lay, k), q.max, put)
      && R.Serve(WithOrphan(q, x), put) == (WithOrphan(q', y), R.PutReply(PutOk))
  {
    hide F.Stores, F.Exact, F.Reads, F.AllGood;
    hide Known, R.Serve, R.Answer, WithOrphan, WellFormed, R.Seals, F.Pending, Zeros, R.View, Frame, NeedsRotation;
    hide Overwrite;
    KnownParts(q, lay, k, x);
    AfterHead(q, lay, k, x);
    RoomFor(q, x, len);
    ZerosAccepted(q, len);
    var put := R.PutReq(Zeros(len), 0);
    q' := R.Serve(q, put).0;
    lay', y := PutServedTwin(q, lay, k, x, put);
    FrameWritten(q, put);
    CoverSuffix(q.disk[q.wr.index], q.wr.pos, x, Frame(Msg(0, Zeros(len))));
  }

  lemma LogOpens(q: Queue, lay: seq<seq<Chunk>>, k: nat, x: seq<byte>, len: nat, later: seq<R.Request>)
      returns (q': Queue, lay': seq<seq<Chunk>>, k': nat, y: seq<byte>)
    requires Known(q, lay, k, x) && |lay| > 0 && k <= |lay[0]| && R.AllSensible(later)
    requires 1 <= len && MSG_HEAD_LEN + len < |x|
    ensures q.wr.index in q.disk && q.wr.pos + |x| <= |q.disk[q.wr.index]| && WellFormed(WithOrphan(q, x))
    ensures |lay'| > 0 && k' <= |lay'[0]| && Known(q', lay', k', y) && |y| > 0
    ensures q'.wr.index in q'.disk && q'.wr.pos + |y| <= |q'.disk[q'.wr.index]| && WellFormed(WithOrphan(q', y))
    ensures q'.wr.index == q.wr.index && q'.wr.pos == q.wr.pos + MSG_HEAD_LEN + len && q'.max == q.max
    ensures LastFile(q', y)[q'.wr.pos..] == LastFile(q, x)[q'.wr.pos..]
    ensures len + DB_FILE_HEAD_LEN + MSG_HEAD_LEN <= q.max
    ensures var f := R.View(q, lay, k).(maxque := 0, delay := 0, wlock := 0);
      R.View(q', lay', k') == R.Answer(f, q.max, R.PutReq(Zeros(len), 0)).0
    ensures var reqs := R.OPENING + ([R.PutReq(Zeros(len), 0)] + later);
      var r := R.ServeAll(WithOrphan(q', y), later);
      && R.AllSensible(reqs)
      && R.ServeAll(WithOrphan(q, x), reqs) == (r.0, [R.Done, R.Done, R.Done, R.PutReply(PutOk)] + r.1)
  {
    hide F.Stores, F.Exact, F.Reads, F.AllGood;
    hide Known, R.Serve, R.Answer, R.AnswerAll, R.ServeAll, WithOrphan, WellFormed, R.Seals, R.OPENING;
    hide F.Pending, LastFile, Zeros, R.View, Leftover;
    R.OpeningSensible();
    OpeningPutsNothing(R.View(q, lay, k), q.max);
    KnownParts(q, lay, k, x);
    var put := R.PutReq(Zeros(len), 0);
    var q1;
    q1, lay', k' := QuietAll(q, lay, k, x, R.OPENING);
    SettingsSeen(q1, lay', k');
    q', lay', y := PutCovers(q1, lay', k', x, len);
    KnownParts(q', lay', k', y);
    SameLast(q, q1, x);
    assert R.AllSensible([put] + later);
    R.ServesContinue(WithOrphan(q, x), R.OPENING, [put] + later);
    ServeFirst(WithOrphan(q1, x), put, later);
    FourReplies(R.ServeAll(WithOrphan(q', y), later).1);
  }

  /** The log answers as the FIFO does: the orphan is not seen. */
  lemma LogUncovers(q: Queue, lay: seq<seq<Chunk>>, k: nat, x: seq<byte>, len: nat, n: nat)
      returns (q': Queue, lay': seq<seq<Chunk>>, k': nat, y: seq<byte>)
    requires Known(q, lay, k, x) && |lay| > 0 && k <= |lay[0]|
    requires 1 <= len && MSG_HEAD_LEN + len < |x|
    ensures q.wr.index in q.disk && q.wr.pos + |x| <= |q.disk[q.wr.index]| && WellFormed(WithOrphan(q, x))
    ensures |lay'| > 0 && k' <= |lay'[0]| && Known(q', lay', k', y)
    ensures q'.wr.index in q'.disk && q'.wr.pos + |y| <= |q'.disk[q'.wr.index]| && WellFormed(WithOrphan(q', y))
    ensures q'.wr.index == q.wr.index && q'.wr.pos == q.wr.pos + MSG_HEAD_LEN + len && q'.max == q.max
    ensures LastFile(q', y)[q'.wr.pos..] == LastFile(q, x)[q'.wr.pos..]
    ensures len + DB_FILE_HEAD_LEN + MSG_HEAD_LEN <= q.max
    ensures var (f, replies) := R.AnswerAll(R.View(q, lay, k), q.max, Uncover(len, n));
      R.ServeAll(WithOrphan(q, x), Uncover(len, n)) == (WithOrphan(q', y), replies) && R.View(q', lay', k') == f
  {
    hide F.Stores, F.Exact, F.Reads, F.AllGood;
    hide Known, R.Serve, R.Answer, R.AnswerAll, R.ServeAll, WithOrphan, WellFormed, R.Gets, R.OPENING;
    hide F.Pending, LastFile, Zeros, R.View;
    var gets := R.Gets(n + 1);
    var q1, f := q, R.View(q, lay, k);
    q1, lay', k', y := LogOpens(q, lay, k, x, len, gets);
    var f1 := R.View(q1, lay', k');
    PutAnswered(f.(maxque := 0, delay := 0, wlock := 0), q.max, Zeros(len));
    GetsStoreNothing(f1, q.max, n + 1);
    OpenPut(f, q.max, Zeros(len), gets);
    q', lay', k' := QuietAll(q1, lay', k', y, gets);
    KnownParts(q', lay', k', y);
    SameLast(q1, q', y);
  }

  /** Everything has been handed out, so the reader is at the write position. */
  lemma ReaderAtEnd(q: Queue, lay: seq<seq<Chunk>>, k: nat, y: seq<byte>)
    requires Known(q, lay, k, y) && |lay| > 0 && k <= |lay[0]| && F.Pending(lay, k) == [] && q.wr.pos > DB_FILE_HEAD_LEN
    ensures q.rd.index == q.wr.index && q.rd.pos == q.wr.pos
  {
    hide Holds, F.HeadUnder, F.HeadEmpty;
    var n := |lay| - 1;
    EmptyEnd(lay[n]);
    assert lay[n] in lay && lay[0] in lay;
    F.AllGoodCount(lay[n]);
    if n > 0 {
      assert lay[1..][n - 1] == lay[n];
      LastOfAll(lay[1..]);
    } else {
      GoodsAround(lay[0], k);
      F.AllGoodCount(lay[0]);
      F.EndIsLast(lay[0]);
    }
  }

  lemma EmptyEnd(cs: seq<Chunk>)
    ensures cs == [] ==> End(cs) == DB_FILE_HEAD_LEN
  {}

  lemma {:induction false} LastOfAll(lay: seq<seq<Chunk>>)
    requires |lay| > 0
    ensures |Goods(lay[|lay| - 1])| <= |F.AllGoods(lay)|
    decreases |lay|
  {
    hide Goods;
    if |lay| > 1 {
      LastOfAll(lay[1..]);
      assert lay[1..][|lay| - 2] == lay[|lay| - 1];
    }
  }

  /** The segment is sealed over the rest of the orphan, and the next get reads on right there. */
  lemma ReadsOn(q: Queue, lay: seq<seq<Chunk>>, k: nat, y: seq<byte>, z: Msg)
    requires Known(q, lay, k, y) && |lay| > 0 && k <= |lay[0]| && F.Pending(lay, k) == [] && q.wr.pos > DB_FILE_HEAD_LEN
    requires q.delay == 0 && q.maxque == 0 && q.wlock == 0
    requires q.wr.index in q.disk && q.wr.pos + |y| <= |q.disk[q.wr.index]| && SegmentSize(|q.disk[q.wr.index]|)
    requires ParseMsg(LastFile(q, y), q.wr.pos) == Ok(z)
    ensures WellFormed(WithOrphan(q, y)) && SegmentSize(q.max)
    ensures R.ServeAll(WithOrphan(q, y), Behind(q.max)).1 == [R.PutReply(PutOk), R.GetReply(Some(z))]
  {
    hide Known, WellFormed, F.Pending, R.ServeAll, ParseMsg, Overwrite, FileHead, FullBody, PutData, NeedsRotation;
    KnownParts(q, lay, k, y);
    LastFileOf(q, y);
    ReaderAtEnd(q, lay, k, y);
    var m, qd := Msg(0, FullBody(q.max)), WithOrphan(q, y);
    var put := R.PutReq(FullBody(q.max), 0);
    FullBodyTurns(q);
    PutOver(q, y, m);
    SameBesidesFiles(q, y);
    FullAccepted(qd);
    Acknowledged(qd, put);
    PutKeepsSettings(qd, m);
    var b := R.Serve(qd, put).0;
    var s, w := SealedBytes(q, y), q.wr.pos;
    SealedOver(q.disk[q.wr.index], FileHead(q.wr.count), w, y);
    ParseSuffix(LastFile(q, y), s, w, w);
    ReadsThere(b, z);
    ServeFirst(qd, put, [R.GetReq(0)]);
    ServeOnce(b, R.GetReq(0));
  }

  lemma ReadsThere(q: Queue, z: Msg)
    requires WellFormed(q) && q.rd.index in q.disk && q.rd.pos <= |q.disk[q.rd.index]|
    requires SegmentSize(|q.disk[q.rd.index]|) && ParseMsg(q.disk[q.rd.index], q.rd.pos) == Ok(z)
    requires q.rd.index < q.wr.index && q.delay == 0 && q.unread >= 1
    ensures R.Serve(q, R.GetReq(0)).1 == R.GetReply(Some(z))
  {
    hide ParseMsg, WellFormed, GetData, Line;
    F.OneRound(q, z, 0);
  }

  lemma ServeOnce(q: Queue, req: R.Request)
    requires WellFormed(q) && R.Sensible(req)
    ensures R.ServeAll(q, [req]).1 == [R.Serve(q, req).1]
  {
    hide R.Serve, WellFormed;
    assert [req][1..] == [];
    assert R.ServeAll(R.Serve(q, req).0, []).1 == [];
  }

  lemma MemoryBehind(f: R.Memory, max: nat)
    requires SegmentSize(max) && f.items == [] && f.delay == 0 && f.maxque == 0 && f.wlock == 0
    ensures R.AnswerAll(f, max, Behind(max)).1 == [R.PutReply(PutOk), R.GetReply(Some(Msg(0, FullBody(max))))]
  {
    hide R.AnswerAll, FullBody;
    FullBodyFits(max);
    var put, get := R.PutReq(FullBody(max), 0), R.GetReq(0);
    PutAnswered(f, max, FullBody(max));
    R.AnswerFirst(f, max, put, [get]);
    var f1 := R.Answer(f, max, put).0;
    R.AnswerFirst(f1, max, get, []);
    R.NoRequests(R.Answer(f1, max, get).0, max);
    assert [get] + [] == [get];
  }

  /** The log's last reply is the message z that can be read at the end of the short put; or it reports
      the end before. */
  lemma LogShows(q: Queue, lay: seq<seq<Chunk>>, k: nat, x: seq<byte>, len: nat, n: nat, z: Msg)
    requires Known(q, lay, k, x) && |lay| > 0 && k <= |lay[0]| && n == |F.Pending(lay, k)|
    requires 1 <= len && MSG_HEAD_LEN + len < |x|
    requires q.wr.index in q.disk && q.wr.pos + |x| <= |q.disk[q.wr.index]| && SegmentSize(|q.disk[q.wr.index]|)
    requires ParseMsg(LastFile(q, x), q.wr.pos + MSG_HEAD_LEN + len) == Ok(z)
    ensures WellFormed(WithOrphan(q, x)) && SegmentSize(q.max)
    ensures R.AllSensible(Uncover(len, n) + Behind(q.max))
    ensures var r := R.ServeAll(WithOrphan(q, x), Uncover(len, n) + Behind(q.max)).1;
      && |r| == n + 7
      && if n <= q.unread then r[n + 6] == R.GetReply(Some(z)) else r[q.unread + 5] == R.GetReply(None)
  {
    hide Known, R.AnswerAll, R.ServeAll, WithOrphan, WellFormed, F.Pending, LastFile, ParseMsg, Uncover, Behind, R.View;
    hide FullBody, F.Stores, F.Exact, F.Reads, F.AllGood;
    KnownParts(q, lay, k, x);
    AfterHead(q, lay, k, x);
    SizeOfQueue(q);
    var q1, lay1, k1, y := LogUncovers(q, lay, k, x, len, n);
    var f := R.View(q, lay, k);
    SettingsSeen(q, lay, k);
    SettingsSeen(q1, lay1, k1);
    MemoryUncovers(f, q.max, len);
    R.ServesContinue(WithOrphan(q, x), Uncover(len, n), Behind(q.max));
    var front, back := R.ServeAll(WithOrphan(q, x), Uncover(len, n)).1, R.ServeAll(WithOrphan(q1, y), Behind(q.max)).1;
    BehindLength(WithOrphan(q1, y), q.max);
    FrontOrBack(front, back);
    if n <= q.unread {
      KnownParts(q1, lay1, k1, y);
      StillParsed(q, x, q1, y, q1.wr.pos, z);
      ReadsOn(q1, lay1, k1, y, z);
    }
  }

  lemma FrontOrBack(front: seq<R.Reply>, back: seq<R.Reply>)
    ensures |front + back| == |front| + |back|
    ensures forall i :: 0 <= i < |front| ==> (front + back)[i] == front[i]
    ensures |back| == 2 ==> (front + back)[|front| + 1] == back[1]
  {}

  lemma StillParsed(q: Queue, x: seq<byte>, q': Queue, y: seq<byte>, p: nat, z: Msg)
    requires WellFormed(q) && WellFormed(q') && q'.max == q.max
    requires q.wr.index in q.disk && q.wr.pos + |x| <= |q.disk[q.wr.index]| && SegmentSize(|q.disk[q.wr.index]|)
    requires q'.wr.index in q'.disk && q'.wr.pos + |y| <= |q'.disk[q'.wr.index]| && p <= q.max
    requires |q.disk[q.wr.index]| == |q'.disk[q'.wr.index]| == q.max
    requires LastFile(q', y)[p..] == LastFile(q, x)[p..] && ParseMsg(LastFile(q, x), p) == Ok(z)
    ensures ParseMsg(LastFile(q', y), p) == Ok(z)
  {
    hide WellFormed, ParseMsg, Overwrite;
    FileLength(q, x);
    FileLength(q', y);
    ParseSuffix(LastFile(q, x), LastFile(q', y), p, p);
  }

  lemma BehindLength(q: Queue, max: nat)
    requires WellFormed(q) && SegmentSize(max)
    ensures |R.ServeAll(q, Behind(max)).1| == 2
  {}

  lemma FileLength(q: Queue, x: seq<byte>)
    requires q.wr.index in q.disk && q.wr.pos + |x| <= |q.disk[q.wr.index]|
    ensures |LastFile(q, x)| == |q.disk[q.wr.index]|
  {}

  /** The FIFO's last reply is the message that fills a segment. */
  lemma FifoShows(f: R.Memory, max: nat, len: nat)
    requires SegmentSize(max) && 1 <= len && len + DB_FILE_HEAD_LEN + MSG_HEAD_LEN <= max && f.unread == |f.items|
    ensures var n, r := |f.items|, R.AnswerAll(f, max, Uncover(len, |f.items|) + Behind(max)).1;
      && |r| == n + 7 && r[n + 6] == R.GetReply(Some(Msg(0, FullBody(max))))
      && forall i :: 4 <= i < n + 5 ==> r[i] != R.GetReply(None)
  {
    hide R.AnswerAll, Uncover, Behind, FullBody;
    var n := |f.items|;
    MemoryUncovers(f, max, len);
    R.AnswersContinue(f, max, Uncover(len, n), Behind(max));
    var (f1, front) := R.AnswerAll(f, max, Uncover(len, n));
    MemoryBehind(f1, max);
    var back := R.AnswerAll(f1, max, Behind(max)).1;
    assert (front + back)[n + 6] == back[1];
    assert forall i :: 4 <= i < n + 5 ==> (front + back)[i] == front[i];
  }

  // ----- The recount of a restart

  /** The queue that knows the frame has the same files. */
  lemma KnowsFrame(q: Queue, lay: seq<seq<Chunk>>, k: nat, m: Msg)
    requires Known(q, lay, k, Frame(m)) && Fits(m, q.max)
    ensures q.wr.index in q.disk && q.wr.pos + |Frame(m)| <= |q.disk[q.wr.index]|
    ensures var q', lay' := AppendMsg(q, m), F.AppendTo(lay, Good(m));
      && F.Stores(q', lay', k) && F.Exact(q', lay', k) && q'.disk == WithOrphan(q, Frame(m)).disk
      && |lay'| == |lay| > 0 && k <= |lay[0]| && k <= |lay'[0]|
      && F.Pending(lay', k) == F.Pending(lay, k) + [m]
      && q'.rd == q.rd && q'.wr.index == q.wr.index && q'.unread == q.unread && q'.max == q.max
  {
    hide F.Exact, F.Stores, Frame, Overwrite, F.Reads, F.Pending;
    KnownParts(q, lay, k, Frame(m));
    F.MessageAppended(q, lay, k, m);
    F.AppendExact(q, lay, k, m);
    F.PendingAppend(lay, k, m);
    R.StoresShape(AppendMsg(q, m), F.AppendTo(lay, Good(m)), k);
  }

  /** In the only segment the recount stops at the write position. */
  lemma CountsBelow(q: Queue, lay: seq<seq<Chunk>>, k: nat, m: Msg, files: seq<nat>)
    requires Known(q, lay, k, Frame(m)) && Fits(m, q.max) && Lists(q, files) && |lay| == 1
    ensures q.wr.index in q.disk && q.wr.pos + |Frame(m)| <= |q.disk[q.wr.index]|
    ensures WellFormed(WithOrphan(q, Frame(m))) && Lists(WithOrphan(q, Frame(m)), files)
    ensures TotalCount(WithOrphan(q, Frame(m)), files) == |lay[0]|
  {
    hide F.Exact, Frame, Overwrite, WithOrphan, FileCount, TotalCount, Holds, AppendMsg, Boundary, ScanCount, F.ReadAt;
    hide F.HeadEmpty;
    KnownParts(q, lay, k, Frame(m));
    KnowsFrame(q, lay, k, m);
    SameBesidesFiles(q, Frame(m));
    OrphanListed(q, Frame(m), files);
    var qd, q', lay' := WithOrphan(q, Frame(m)), AppendMsg(q, m), F.AppendTo(lay, Good(m));
    var w, cs, n := q.wr.index, lay'[0], |lay[0]|;
    assert Holds(q'.disk[q'.rd.index + 0], lay'[0]);
    LastHeadEmpty(q', lay', k);
    KnownGood(lay[0], m);
    ScanFromStart(qd.disk[w], cs, n);
    BoundaryBelow(lay[0], m);
    EmptyHeadScans(qd.disk[w], q.wr.pos);
    assert Enumerates(files, w, w + 1);
    TotalIsRange(qd, files, w, w + 1);
    OneFile(qd, w);
  }

  lemma OrphanListed(q: Queue, x: seq<byte>, files: seq<nat>)
    requires q.wr.index in q.disk && q.wr.pos + |x| <= |q.disk[q.wr.index]| && Lists(q, files)
    ensures Lists(WithOrphan(q, x), files)
  {}

  lemma LastHeadEmpty(q: Queue, lay: seq<seq<Chunk>>, k: nat)
    requires F.Exact(q, lay, k)
    ensures q.wr.index in q.disk && F.HeadEmpty(q.disk[q.wr.index])
  {}

  lemma KnownGood(cs: seq<Chunk>, m: Msg)
    requires F.AllGood(cs)
    ensures forall i :: 0 <= i < |cs| ==> (cs + [Good(m)])[i].Good?
  {}

  lemma BoundaryBelow(cs: seq<Chunk>, m: Msg)
    ensures Boundary(cs + [Good(m)], |cs|) == End(cs)
  {
    assert (cs + [Good(m)])[..|cs|] == cs && cs[..|cs|] == cs;
  }

  lemma OneFile(q: Queue, f: nat)
    requires WellFormed(q) && f in q.disk
    ensures RangeCount(q, f, f + 1) == FileCount(q.disk[f], ScanEnd(q))
  {
    hide FileCount, WellFormed;
    assert RangeCount(q, f, f) == 0;
  }

  /** With older segments the scan runs to the end of the file, and finds the orphan as well. */
  lemma HonestWith(q: Queue, lay: seq<seq<Chunk>>, k: nat, m: Msg)
    requires Known(q, lay, k, Frame(m)) && Fits(m, q.max) && |lay| > 1 && WellFormed(q) && Honest(q)
    ensures q.wr.index in q.disk && q.wr.pos + |Frame(m)| <= |q.disk[q.wr.index]|
    ensures WellFormed(AppendMsg(q, m)) && Honest(AppendMsg(q, m))
  {
    hide F.Exact, F.Stores, Frame, Overwrite, FileCount, F.HeadEmpty, ScanCount, F.Reads, F.Pending, F.AllGood;
    KnownParts(q, lay, k, Frame(m));
    KnowsFrame(q, lay, k, m);
    var q' := AppendMsg(q, m);
    R.StoresShape(q', F.AppendTo(lay, Good(m)), k);
    LastHeadEmpty(q', F.AppendTo(lay, Good(m)), k);
    forall f | f in q'.disk
      ensures HonestFile(q', f)
    {
      if f == q.wr.index {
        EmptyHeadScans(q'.disk[f], ScanEnd(q'));
      } else {
        assert HonestFile(q, f);
      }
    }
  }

  /** Once recounted, the unread number is right in a single segment; with older segments, and heads that
      are honest, it is one too large. */
  lemma {:induction false} OrphanRecount(q: Queue, lay: seq<seq<Chunk>>, k: nat, m: Msg, files: seq<nat>)
    requires Known(q, lay, k, Frame(m)) && Fits(m, q.max) && Lists(q, files) && q.unread == 0
    ensures q.wr.index in q.disk && q.wr.pos + |Frame(m)| <= |q.disk[q.wr.index]| && |lay| > 0 && k <= |lay[0]|
    ensures WellFormed(q) && WellFormed(WithOrphan(q, Frame(m))) && Lists(WithOrphan(q, Frame(m)), files)
    ensures |lay| == 1 ==> Recounted(WithOrphan(q, Frame(m)), files).unread == |F.Pending(lay, k)|
    ensures |lay| > 1 && Honest(q) ==> Recounted(WithOrphan(q, Frame(m)), files).unread == |F.Pending(lay, k)| + 1
  {
    hide F.Exact, F.Stores, Frame, WithOrphan, TotalCount, AppendMsg, F.Pending, HeadsUnder, Honest, F.AllGood, Lists;
    hide F.Reads;
    KnownParts(q, lay, k, Frame(m));
    KnowsFrame(q, lay, k, m);
    SameBesidesFiles(q, Frame(m));
    OrphanListed(q, Frame(m), files);
    var qd, q', lay' := WithOrphan(q, Frame(m)), AppendMsg(q, m), F.AppendTo(lay, Good(m));
    ExactShape(q, lay, k);
    if |lay| == 1 {
      CountsBelow(q, lay, k, m, files);
      OnlySegment(lay, k);
    } else if Honest(q) {
      HonestWith(q, lay, k, m);
      ExactHeadsUnder(q', lay', k);
      ExactShape(q', lay', k);
      ListsAlike(qd, q', files);
      UnreadIff(q', lay', k, files);
      ListedFiles(qd, files);
      TotalAlike(qd, q', files);
    }
  }

  lemma OnlySegment(lay: seq<seq<Chunk>>, k: nat)
    requires |lay| == 1 && k <= |lay[0]| && F.AllGood(lay[0])
    ensures |F.Pending(lay, k)| == |lay[0]| - k
  {
    F.AllGoodCount(lay[0]);
    GoodsAround(lay[0], k);
    assert lay[1..] == [];
  }

  lemma ListedFiles(q: Queue, files: seq<nat>)
    requires Lists(q, files)
    ensures forall f :: f in files ==> f in q.disk
  {}

  // ----- How a queue comes to be like that

  /** A put that is stopped right before its journal line, without a rotation: the restarted queue is the
      one restarted without that put, but for the frame behind its write position. */
  lemma {:induction false} OrphanRestart(q: Queue, lay: seq<seq<Chunk>>, k: nat, pre: seq<byte>, rs: seq<Record>,
                                         k0: nat,
                                         m: Msg, conf: Defaults)
    requires Running(q, lay, k, pre, rs, k0) && WellFormed(q) && Fits(m, q.max) && conf.delay < U32
    requires !NeedsRotation(q, m) && |lay| > 0 && q.wr.pos == End(lay[|lay| - 1])
    ensures var q1 := Reborn(q, 0, conf);
      && Known(q1, lay, k0, Frame(m)) && q1.wr.index in q1.disk && q1.wr.pos + |Frame(m)| <= |q1.disk[q1.wr.index]|
      && Reborn(PutData(q, m), 0, conf) == WithOrphan(q1, Frame(m))
  {
    hide F.Stores, F.Exact, F.Pending, Running, ReadItem, Line, Frame, Overwrite, Journalled;
    RunningParts(q, lay, k, pre, rs, k0);
    RebornParts(q, lay, k, pre, rs, k0, conf);
    var q1 := Reborn(q, 0, conf);
    R.StoresShape(q1, lay, k0);
    F.ExactMoved(q, lay, k, q1, k0);
    assert Line(CurrentRecord(q))[..0] == [] && Line(CurrentRecord(PutData(q, m)))[..0] == [];
  }

  /** A rotation writes a journal line of its own, in front of the frame. */
  lemma {:induction false} RotatedRuns(q: Queue, lay: seq<seq<Chunk>>, k: nat, pre: seq<byte>, rs: seq<Record>,
                                       k0: nat, m: Msg)
      returns (rs': seq<Record>)
    requires Running(q, lay, k, pre, rs, k0) && WellFormed(q) && Fits(m, q.max) && NeedsRotation(q, m)
    ensures var q', lay' := Rotated(q, m), lay + [[]];
      && Running(q', lay', k, pre, rs', k) && F.Pending(lay', k) == F.Pending(lay, k)
      && !NeedsRotation(q', m) && q'.wr.pos == DB_FILE_HEAD_LEN && PutData(q, m) == PutData(q', m) && q'.max == q.max
      && q'.rd.index < q'.wr.index
  {
    hide F.Stores, F.Exact, F.Pending, Line, Lines, Journalled, FileHead, FreshSegment, Overwrite, Frame;
    RunningParts(q, lay, k, pre, rs, k0);
    RtagOf(q, lay, F.Pending(lay, k), true, pre, rs, k0);
    F.RotationStores(q, lay, k, m);
    F.RotationExact(q, lay, k);
    var q', lay' := Rotated(q, m), lay + [[]];
    R.StoresShape(q', lay', k);
    var q1 := q'.(rtag := q.rtag);
    SameDelay(q, m);
    R.Recorded(q', lay', k, q1);
    JustWritten(q1, lay', k, true, pre, rs);
    rs' := rs + [CurrentRecord(q1)];
    assert WriteItem(q1) == q';
  }

  lemma SameDelay(q: Queue, m: Msg)
    requires WellFormed(q) && Fits(m, q.max)
    ensures Rotated(q, m).delay == q.delay < U32
  {
    hide Line, FileHead, FreshSegment, Overwrite;
  }

  /** The place where the frame lies: the queue after any rotation. */
  lemma OrphanPlace(q: Queue, lay: seq<seq<Chunk>>, k: nat, pre: seq<byte>, rs: seq<Record>, k0: nat, m: Msg,
                    conf: Defaults)
      returns (lay': seq<seq<Chunk>>, k': nat)
    requires Running(q, lay, k, pre, rs, k0) && WellFormed(q) && Fits(m, q.max) && conf.delay < U32
    ensures |lay| > 0 && k <= |lay[0]| && |lay'| > 0 && k' <= |lay'[0]| && F.Pending(lay', k') == F.Pending(lay, k)
    ensures var q1 := Reborn(Rotated(q, m), 0, conf);
      && Known(q1, lay', k', Frame(m)) && q1.wr.index in q1.disk && q1.wr.pos + |Frame(m)| <= |q1.disk[q1.wr.index]|
      && Reborn(PutData(q, m), 0, conf) == WithOrphan(q1, Frame(m))
      && q1.unread == 0 && q1.max == q.max && q1.wr.pos == Rotated(q, m).wr.pos
      && q1.rd.index == Rotated(q, m).rd.index && q1.wr.index == Rotated(q, m).wr.index
  {
    hide F.Stores, F.Exact, F.Pending, Running, Journalled, Line, Frame, NeedsRotation, PutData, WithOrphan, ReadItem;
    hide Known, Reborn, WellFormed;
    RunningParts(q, lay, k, pre, rs, k0);
    var rs', q0 := rs, Rotated(q, m);
    lay', k' := lay, k0;
    if NeedsRotation(q, m) {
      rs' := RotatedRuns(q, lay, k, pre, rs, k0, m);
      lay', k' := lay + [[]], k;
    }
    RunningParts(q0, lay', k, pre, rs', k');
    RoomThere(q0, lay', k, m);
    OrphanRestart(q0, lay', k, pre, rs', k', m, conf);
    RebornParts(q0, lay', k, pre, rs', k', conf);
  }

  lemma RoomThere(q: Queue, lay: seq<seq<Chunk>>, k: nat, m: Msg)
    requires F.Stores(q, lay, k) && !NeedsRotation(q, m) && Fits(m, q.max)
    ensures |lay| > 0 && q.wr.pos == End(lay[|lay| - 1])
  {
    hide Holds, F.ReadAt;
  }

  /** The restarted queue, recounted: the orphan with the counters that the recount gives. */
  lemma Counted(q: Queue, lay: seq<seq<Chunk>>, k: nat, m: Msg, files: seq<nat>) returns (q2: Queue)
    requires Known(q, lay, k, Frame(m)) && q.wr.index in q.disk && q.wr.pos + |Frame(m)| <= |q.disk[q.wr.index]|
    requires WellFormed(WithOrphan(q, Frame(m))) && Lists(WithOrphan(q, Frame(m)), files)
    ensures q2 == q.(putNum := q2.putNum, getNum := q2.getNum, unread := q2.unread) && Known(q2, lay, k, Frame(m))
    ensures Recounted(WithOrphan(q, Frame(m)), files) == WithOrphan(q2, Frame(m))
    ensures WellFormed(q2) && WellFormed(WithOrphan(q2, Frame(m)))
  {
    hide F.Stores, F.Exact, Frame, Overwrite, Lists, Recounted, F.Reads, WellFormed;
    var q' := Recounted(WithOrphan(q, Frame(m)), files);
    q2 := q.(putNum := q'.putNum, getNum := q'.getNum, unread := q'.unread);
    KnownParts(q, lay, k, Frame(m));
    CountersOnly(q, lay, k, q2);
    KnownParts(q2, lay, k, Frame(m));
    RecountedFields(WithOrphan(q, Frame(m)), files);
  }

  lemma CountersOnly(q: Queue, lay: seq<seq<Chunk>>, k: nat, q': Queue)
    requires F.Stores(q, lay, k) && F.Exact(q, lay, k)
    requires q' == q.(putNum := q'.putNum, getNum := q'.getNum, unread := q'.unread)
    ensures F.Stores(q', lay, k) && F.Exact(q', lay, k)
  {
    hide Holds, F.ReadAt, F.HeadUnder, F.HeadEmpty, F.AllGood;
  }

  /** Behind an empty segment's head every run covers the orphan before it can show. */
  lemma CoveredAnswers(q: Queue, lay: seq<seq<Chunk>>, k: nat, x: seq<byte>, files: seq<nat>, q2: Queue)
    requires Known(q2, lay, k, x) && |lay| > 0 && k <= |lay[0]| && WellFormed(q2) && WellFormed(q) && Lists(q, files)
    requires q2.wr.index in q2.disk && q2.wr.pos + |x| <= |q2.disk[q2.wr.index]| && WellFormed(WithOrphan(q2, x))
    requires Recounted(q, files) == WithOrphan(q2, x)
    requires |x| > 0 && q2.wr.pos == DB_FILE_HEAD_LEN && SegmentSize(|q2.disk[q2.wr.index]|)
    requires Mute(LastFile(q2, x), q2.wr.pos + MSG_HEAD_LEN + 1)
    ensures AnswersCounting(q, F.Pending(lay, k), files)
  {
    hide Known, WellFormed, Lists, Recounted, WithOrphan, R.ServeAll, R.AnswerAll, F.Pending, FirstFits, LastFile, Mute;
    RecountedFields(q, files);
    SameBesidesFiles(q2, x);
    var f := Queued(q, F.Pending(lay, k)).(unread := q2.unread);
    forall reqs | R.AllSensible(reqs)
      ensures R.ServeAll(WithOrphan(q2, x), reqs).1 == R.AnswerAll(f, q.max, reqs).1
    {
      AlwaysFits(q2, reqs);
      OrphanUnnoticed(q2, lay, k, x, reqs);
      R.TotalsDoNotShow(R.View(q2, lay, k), f, q.max, reqs);
    }
  }

  /** Whatever the frame, a wrong counter shows before any message covers it. */
  lemma WrongCountShows(q: Queue, lay: seq<seq<Chunk>>, k: nat, x: seq<byte>, files: seq<nat>, q2: Queue)
    requires Known(q2, lay, k, x) && |lay| > 0 && k <= |lay[0]| && WellFormed(q2) && WellFormed(q) && Lists(q, files)
    requires q2.wr.index in q2.disk && q2.wr.pos + |x| <= |q2.disk[q2.wr.index]| && WellFormed(WithOrphan(q2, x))
    requires Recounted(q, files) == WithOrphan(q2, x) && |x| > 0
    ensures Answers(q, F.Pending(lay, k), files) ==> Recounted(q, files).unread == |F.Pending(lay, k)|
  {
    hide Known, WellFormed, Lists, Recounted, WithOrphan, R.ServeAll, R.AnswerAll, F.Pending, R.AllSensible;
    RecountedFields(q, files);
    SameBesidesFiles(q2, x);
    SizeOfQueue(q);
    var f, u := Queued(q, F.Pending(lay, k)), q2.unread;
    if u != |f.items| {
      var reqs := R.UnreadShows(f, u, q.max);
      R.TotalsDoNotShow(f.(unread := u), R.View(q2, lay, k), q.max, reqs);
      var q3, lay3, k3 := QuietAll(q2, lay, k, x, reqs);
    }
  }

  /** Behind other messages some run seals the segment over the orphan and hands it out, or reports the end. */
  lemma OrphanAppears(q: Queue, lay: seq<seq<Chunk>>, k: nat, m: Msg, files: seq<nat>, q2: Queue)
    requires Known(q2, lay, k, Frame(m)) && |lay| > 0 && k <= |lay[0]| && WellFormed(q2) && Fits(m, q2.max)
    requires WellFormed(q) && Lists(q, files)
    requires q2.wr.index in q2.disk && q2.wr.pos + |Frame(m)| <= |q2.disk[q2.wr.index]|
    requires WellFormed(WithOrphan(q2, Frame(m))) && Recounted(q, files) == WithOrphan(q2, Frame(m))
    requires q2.wr.pos > DB_FILE_HEAD_LEN
    ensures !Answers(q, F.Pending(lay, k), files)
  {
    hide Known, WellFormed, Lists, Recounted, WithOrphan, R.ServeAll, R.AnswerAll, F.Pending, Reveal, Frame, FullBody;
    hide R.AllSensible, Fits;
    RecountedFields(q, files);
    SameBesidesFiles(q2, Frame(m));
    var f, n := Queued(q, F.Pending(lay, k)), |F.Pending(lay, k)|;
    LogReveals(q2, lay, k, m, n);
    FifoReveals(f, q2.max);
    FullBodyRotates(q2, lay, k, m);
    var reqs := Reveal(q2.max, n);
    R.DiffersAt(R.ServeAll(Recounted(q, files), reqs).1, R.AnswerAll(f, q2.max, reqs).1, n + 4);
  }

  /** No message can be parsed in the frame of m at the write position of q, from the second byte of its
      body on. */
  ghost predicate Harmless(q: Queue, m: Msg)
    requires WellFormed(q)
  {
    var seg, body := q.disk[q.wr.index], q.wr.pos + MSG_HEAD_LEN;
    forall p: nat :: body < p < body + |m.body| && p <= |seg| ==> !ParseMsg(seg, p).Ok?
  }

  lemma TailOfLast(q: Queue, lay: seq<seq<Chunk>>, k: nat, x: seq<byte>)
    requires Known(q, lay, k, x)
    ensures q.wr.index in q.disk && Pairless(q.disk[q.wr.index], q.wr.pos, |q.disk[q.wr.index]|)
  {
    hide F.ReadAt, F.Exact, ChunkOk, Layout;
    assert Holds(q.disk[q.rd.index + (|lay| - 1)], lay[|lay| - 1]);
  }

  lemma ParsedFits(seg: seq<byte>, p: nat, z: Msg)
    requires SegmentSize(|seg|) && DB_FILE_HEAD_LEN + MSG_HEAD_LEN < p <= |seg| && ParseMsg(seg, p) == Ok(z)
    ensures |z.body| < |seg| - DB_FILE_HEAD_LEN - MSG_HEAD_LEN
  {}

  /** Behind the frame the file is as it was, so no message can be parsed there either. */
  lemma HarmlessIsMute(q: Queue, lay: seq<seq<Chunk>>, k: nat, m: Msg)
    requires Known(q, lay, k, Frame(m)) && WellFormed(WithOrphan(q, Frame(m))) && Harmless(WithOrphan(q, Frame(m)), m)
    requires q.wr.index in q.disk && q.wr.pos + |Frame(m)| <= |q.disk[q.wr.index]| && SegmentSize(|q.disk[q.wr.index]|)
    ensures Mute(LastFile(q, Frame(m)), q.wr.pos + MSG_HEAD_LEN + 1)
  {
    hide ParseMsg, F.Stores, F.Exact, WellFormed, F.Reads, F.AllGood, Frame, Overwrite;
    KnownParts(q, lay, k, Frame(m));
    TailOfLast(q, lay, k, Frame(m));
    SameBesidesFiles(q, Frame(m));
    LastFileOf(q, Frame(m));
    FileLength(q, Frame(m));
    var seg, s, e := q.disk[q.wr.index], LastFile(q, Frame(m)), q.wr.pos + |Frame(m)|;
    TailUntouched(seg, q.wr.pos, Frame(m));
    forall p: nat | q.wr.pos + MSG_HEAD_LEN + 1 <= p <= |s|
      ensures !ParseMsg(s, p).Ok?
    {
      if p >= e {
        PairlessParse(s, e, p);
      }
    }
  }

  lemma TailUntouched(seg: seq<byte>, w: nat, x: seq<byte>)
    requires w + |x| <= |seg| && Pairless(seg, w, |seg|)
    ensures Pairless(Overwrite(seg, w, x), w + |x|, |seg|)
  {}

  lemma PairlessParse(seg: seq<byte>, from: nat, p: nat)
    requires SegmentSize(|seg|) && Pairless(seg, from, |seg|) && from <= p <= |seg|
    ensures !ParseMsg(seg, p).Ok?
  {
    hide Crc, FromLe16, FromLe32;
    if p + MSG_HEAD_LEN < |seg| {
      assert seg[p + 1] != MAGIC2;
    }
  }

  /** A stop after the frame and before its journal line. Once restarted and recounted, the queue answers
      every run as if that put had never been asked, if and only if the frame lies right behind the head
      of its segment, the recount finds what is pending, and no message can be parsed inside the frame from
      the second byte of its body on. */
  lemma {:induction false} OrphanIff(q: Queue, lay: seq<seq<Chunk>>, k: nat, pre: seq<byte>, rs: seq<Record>, k0: nat,
                                     m: Msg, conf: Defaults, files: seq<nat>)
    requires Running(q, lay, k, pre, rs, k0) && WellFormed(q) && Fits(m, q.max) && conf.delay < U32
    requires Lists(PutData(q, m), files)
    ensures |lay| > 0 && k <= |lay[0]|
    ensures var q', n := Reborn(PutData(q, m), 0, conf), |F.Pending(lay, k)|;
      && WellFormed(q') && Lists(q', files) && WellFormed(Recounted(q', files))
      && (Answers(q', F.Pending(lay, k), files) <==>
            Rotated(q, m).wr.pos == DB_FILE_HEAD_LEN && Recounted(q', files).unread == n && Harmless(q', m))
  {
    hide F.Stores, F.Exact, F.Pending, Running, Known, Frame, PutData, WithOrphan, WellFormed, Lists, Recounted;
    hide Reborn, Rotated, Fits, R.ServeAll, R.AnswerAll, Reveal, R.AllSensible, FullBody, AnswersCounting, Harmless;
    hide LastFile, Mute, Answers;
    RunningParts(q, lay, k, pre, rs, k0);
    var lay1, k1 := OrphanPlace(q, lay, k, pre, rs, k0, m, conf);
    var q1, q', x := Reborn(Rotated(q, m), 0, conf), Reborn(PutData(q, m), 0, conf), Frame(m);
    RebornFiles(PutData(q, m), conf, files);
    KnownParts(q1, lay1, k1, x);
    var q2 := Counted(q1, lay1, k1, m, files);
    AfterHead(q2, lay1, k1, x);
    SameBesidesFiles(q1, x);
    SameBesidesFiles(q2, x);
    if q2.wr.pos > DB_FILE_HEAD_LEN {
      OrphanAppears(q', lay1, k1, m, files, q2);
    } else {
      WrongCountShows(q', lay1, k1, x, files, q2);
      if Harmless(q', m) {
        LastFileOf(q1, x);
        HarmlessIsMute(q1, lay1, k1, m);
        SameLast(q1, q2, x);
        CoveredAnswers(q', lay1, k1, x, files, q2);
        CountDecides(q', F.Pending(lay, k), files);
      } else {
        var p, z := Harmful(q', m);
        OrphanUncovers(q, lay, k, pre, rs, k0, m, p, z, conf, files);
      }
    }
  }

  lemma Harmful(q: Queue, m: Msg) returns (p: nat, z: Msg)
    requires WellFormed(q) && !Harmless(q, m)
    ensures SegmentSize(|q.disk[q.wr.index]|) && p <= |q.disk[q.wr.index]|
    ensures q.wr.pos + MSG_HEAD_LEN < p < q.wr.pos + MSG_HEAD_LEN + |m.body|
    ensures ParseMsg(q.disk[q.wr.index], p) == Ok(z)
  {
    hide ParseMsg;
    var seg, body := q.disk[q.wr.index], q.wr.pos + MSG_HEAD_LEN;
    p :| body < p < body + |m.body| && p <= |seg| && ParseMsg(seg, p).Ok?;
    z := ParseMsg(seg, p).msg;
  }

  /** Why the body matters: wherever a message can be parsed in it, behind its first byte, some run hands that
      message out, although nobody has put it. */
  lemma {:induction false} OrphanUncovers(q: Queue, lay: seq<seq<Chunk>>, k: nat, pre: seq<byte>, rs: seq<Record>,
                                          k0: nat, m: Msg, p: nat, z: Msg, conf: Defaults, files: seq<nat>)
    requires Running(q, lay, k, pre, rs, k0) && WellFormed(q) && Fits(m, q.max) && conf.delay < U32
    requires Lists(PutData(q, m), files) && WellFormed(Reborn(PutData(q, m), 0, conf))
    requires var q' := Reborn(PutData(q, m), 0, conf);
      && q'.wr.pos + MSG_HEAD_LEN < p < q'.wr.pos + MSG_HEAD_LEN + |m.body| && p <= |q'.disk[q'.wr.index]|
      && SegmentSize(|q'.disk[q'.wr.index]|) && ParseMsg(q'.disk[q'.wr.index], p) == Ok(z)
    ensures |lay| > 0 && k <= |lay[0]| && SegmentSize(q.max)
    ensures var q', n := Reborn(PutData(q, m), 0, conf), |F.Pending(lay, k)|;
      && Lists(q', files) && WellFormed(Recounted(q', files)) && !Answers(q', F.Pending(lay, k), files)
      && var reqs, u := Uncover(p - MSG_HEAD_LEN - q'.wr.pos, n) + Behind(q.max), Recounted(q', files).unread;
        && R.AllSensible(reqs)
        && var x := R.ServeAll(Recounted(q', files), reqs).1;
           var y := R.AnswerAll(Queued(q', F.Pending(lay, k)), q.max, reqs).1;
          && |x| == |y| == n + 7
          && (if n <= u then x[n + 6] == R.GetReply(Some(z)) else x[u + 5] == R.GetReply(None) != y[u + 5])
          && y[n + 6] == R.GetReply(Some(Msg(0, FullBody(q.max)))) && z.body != FullBody(q.max)
  {
    hide F.Stores, F.Exact, F.Pending, Running, Known, Frame, PutData, WithOrphan, WellFormed, Lists, Recounted;
    hide Reborn, Rotated, Fits, R.ServeAll, R.AnswerAll, R.AllSensible, FullBody, Uncover, Behind, ParseMsg, LastFile;
    RunningParts(q, lay, k, pre, rs, k0);
    var lay1, k1 := OrphanPlace(q, lay, k, pre, rs, k0, m, conf);
    var q1, q', x := Reborn(Rotated(q, m), 0, conf), Reborn(PutData(q, m), 0, conf), Frame(m);
    var n := |F.Pending(lay, k)|;
    RebornFiles(PutData(q, m), conf, files);
    KnownParts(q1, lay1, k1, x);
    var q2 := Counted(q1, lay1, k1, m, files);
    SizeOfQueue(q);
    SameBesidesFiles(q1, x);
    SameBesidesFiles(q2, x);
    LastFileOf(q1, x);
    SameLast(q1, q2, x);
    AfterHead(q2, lay1, k1, x);
    var len := p - MSG_HEAD_LEN - q'.wr.pos;
    LogShows(q2, lay1, k1, x, len, n, z);
    FifoShows(Queued(q', F.Pending(lay, k)), q.max, len);
    FullBodyFits(q.max);
    FileLength(q1, x);
    ParsedFits(LastFile(q1, x), p, z);
    var reqs := Uncover(len, n) + Behind(q.max);
    var a, b := R.ServeAll(Recounted(q', files), reqs).1, R.AnswerAll(Queued(q', F.Pending(lay, k)), q.max, reqs).1;
    var u := q2.unread;
    R.DiffersAt(a, b, if n <= u then n + 6 else u + 5);
  }

  /** A frame inside the body can be parsed. */
  lemma {:induction false} FrameInside(q: Queue, lay: seq<seq<Chunk>>, k: nat, pre: seq<byte>, rs: seq<Record>,
                                       k0: nat, m: Msg, a: seq<byte>, z: Msg, b: seq<byte>, conf: Defaults)
    requires Running(q, lay, k, pre, rs, k0) && WellFormed(q) && Fits(m, q.max) && conf.delay < U32
    requires m.body == a + Frame(z) + b && |a| >= 1 && Fits(z, q.max)
    ensures WellFormed(Reborn(PutData(q, m), 0, conf)) && !Harmless(Reborn(PutData(q, m), 0, conf), m)
  {
    hide F.Stores, F.Exact, F.Pending, Running, Known, PutData, WithOrphan, WellFormed, Reborn, Rotated, ParseMsg;
    hide Frame, Fits, F.Reads, F.AllGood, Overwrite;
    RunningParts(q, lay, k, pre, rs, k0);
    var lay1, k1 := OrphanPlace(q, lay, k, pre, rs, k0, m, conf);
    var q1, x := Reborn(Rotated(q, m), 0, conf), Frame(m);
    KnownParts(q1, lay1, k1, x);
    LastFileOf(q1, x);
    SizeOfQueue(q1);
    SameBesidesFiles(q1, x);
    BodyThereToo(q1.disk[q1.wr.index], q1.wr.pos, m, a, z, b);
    ParseFrame(LastFile(q1, x), q1.wr.pos + MSG_HEAD_LEN + |a|, z);
  }

  lemma BodyThereToo(seg: seq<byte>, w: nat, m: Msg, a: seq<byte>, z: Msg, b: seq<byte>)
    requires m.body == a + Frame(z) + b && w + |Frame(m)| <= |seg|
    ensures var s, p := Overwrite(seg, w, Frame(m)), w + MSG_HEAD_LEN + |a|;
      |s| == |seg| && p + |Frame(z)| <= w + |Frame(m)| && s[p..p + |Frame(z)|] == Frame(z)
  {
    FrameFields(m);
    hide Frame;
    var s, f, p := Overwrite(seg, w, Frame(m)), Frame(m), w + MSG_HEAD_LEN + |a|;
    assert s[w..w + |f|] == f;
    Window(s, w, f, MSG_HEAD_LEN + |a|, MSG_HEAD_LEN + |a| + |Frame(z)|);
    assert f[MSG_HEAD_LEN + |a|..MSG_HEAD_LEN + |a| + |Frame(z)|] == f[12..][|a|..|a| + |Frame(z)|] == Frame(z);
  }

  /** A body without the second magic byte behind its first byte is harmless. */
  lemma {:induction false} NoMagicIsHarmless(q: Queue, lay: seq<seq<Chunk>>, k: nat, pre: seq<byte>, rs: seq<Record>,
                                             k0: nat, m: Msg, conf: Defaults)
    requires Running(q, lay, k, pre, rs, k0) && WellFormed(q) && Fits(m, q.max) && conf.delay < U32
    requires MAGIC2 !in m.body[1..]
    ensures WellFormed(Reborn(PutData(q, m), 0, conf)) && Harmless(Reborn(PutData(q, m), 0, conf), m)
  {
    hide F.Stores, F.Exact, F.Pending, Running, PutData, WellFormed, Reborn, Rotated, ParseMsg, Known, Frame;
    hide Overwrite, F.Reads, F.AllGood, NeedsRotation;
    RunningParts(q, lay, k, pre, rs, k0);
    var lay1, k1 := OrphanPlace(q, lay, k, pre, rs, k0, m, conf);
    var q1, x := Reborn(Rotated(q, m), 0, conf), Frame(m);
    KnownParts(q1, lay1, k1, x);
    LastFileOf(q1, x);
    SizeOfQueue(q1);
    SameBesidesFiles(q1, x);
    TailOfLast(q1, lay1, k1, x);
    FileLength(q1, x);
    var s, w := LastFile(q1, x), q1.wr.pos;
    TailUntouched(q1.disk[q1.wr.index], w, x);
    NoMagicWritten(q1.disk[q1.wr.index], w, m);
    forall p: nat | w + MSG_HEAD_LEN < p < w + MSG_HEAD_LEN + |m.body| && p <= |s|
      ensures !ParseMsg(s, p).Ok?
    {
      PairlessParse(s, w + MSG_HEAD_LEN + 1, p);
    }
  }

  lemma NoMagicWritten(seg: seq<byte>, w: nat, m: Msg)
    requires w + |Frame(m)| <= |seg| && |m.body| >= 1 && MAGIC2 !in m.body[1..]
    requires Pairless(Overwrite(seg, w, Frame(m)), w + |Frame(m)|, |seg|)
    ensures Pairless(Overwrite(seg, w, Frame(m)), w + MSG_HEAD_LEN + 1, |seg|)
  {
    FrameFields(m);
    hide Frame;
    var s, f := Overwrite(seg, w, Frame(m)), Frame(m);
    forall p | w + MSG_HEAD_LEN + 1 <= p < w + |f|
      ensures s[p] != MAGIC2
    {
      assert s[p] == f[p - w] == f[12..][p - w - 12] == m.body[1..][p - w - 13];
    }
  }

  /** With honest heads the condition can be read off the queue before the put: nothing was written into
      its only segment yet. With older segments the recount finds the orphan and counts one too many. */
  lemma {:induction false} OrphanIffAlone(q: Queue, lay: seq<seq<Chunk>>, k: nat, pre: seq<byte>, rs: seq<Record>,
                                          k0: nat, m: Msg, conf: Defaults, files: seq<nat>)
    requires Running(q, lay, k, pre, rs, k0) && WellFormed(q) && Fits(m, q.max) && conf.delay < U32
    requires Lists(PutData(q, m), files) && WellFormed(Reborn(Rotated(q, m), 0, conf))
    requires Honest(Reborn(Rotated(q, m), 0, conf))
    ensures |lay| > 0 && k <= |lay[0]|
    ensures var q' := Reborn(PutData(q, m), 0, conf);
      && WellFormed(q') && Lists(q', files) && WellFormed(Recounted(q', files))
      && (Answers(q', F.Pending(lay, k), files) <==>
            !NeedsRotation(q, m) && q.rd.index == q.wr.index && q.wr.pos == DB_FILE_HEAD_LEN && Harmless(q', m))
  {
    hide F.Stores, F.Exact, F.Pending, Running, Known, Frame, PutData, WithOrphan, WellFormed, Lists, Recounted;
    hide Reborn, Fits, Answers, Honest, Harmless;
    OrphanCounts(q, lay, k, pre, rs, k0, m, conf, files);
    OrphanIff(q, lay, k, pre, rs, k0, m, conf, files);
    if NeedsRotation(q, m) {
      var rs' := RotatedRuns(q, lay, k, pre, rs, k0, m);
    }
  }

  lemma OrphanCounts(q: Queue, lay: seq<seq<Chunk>>, k: nat, pre: seq<byte>, rs: seq<Record>, k0: nat,
                     m: Msg, conf: Defaults, files: seq<nat>)
    requires Running(q, lay, k, pre, rs, k0) && WellFormed(q) && Fits(m, q.max) && conf.delay < U32
    requires Lists(PutData(q, m), files)
    ensures |lay| > 0 && k <= |lay[0]| && WellFormed(Reborn(Rotated(q, m), 0, conf))
    ensures var q', n := Reborn(PutData(q, m), 0, conf), |F.Pending(lay, k)|;
      && WellFormed(q') && Lists(q', files) && WellFormed(Recounted(q', files))
      && (Honest(Reborn(Rotated(q, m), 0, conf)) ==>
            Recounted(q', files).unread
            == if Rotated(q, m).rd.index == Rotated(q, m).wr.index then n else n + 1)
  {
    hide F.Stores, F.Exact, F.Pending, Running, Known, Frame, PutData, WithOrphan, WellFormed, Lists, Recounted;
    hide Reborn, Fits, Rotated, Honest;
    RunningParts(q, lay, k, pre, rs, k0);
    var lay1, k1 := OrphanPlace(q, lay, k, pre, rs, k0, m, conf);
    var q1, x := Reborn(Rotated(q, m), 0, conf), Frame(m);
    RebornFiles(PutData(q, m), conf, files);
    KnownParts(q1, lay1, k1, x);
    OrphanBelongs(q1, x, files);
    var q2 := Counted(q1, lay1, k1, m, files);
    OrphanRecount(q1, lay1, k1, m, files);
  }

  lemma OrphanBelongs(q: Queue, x: seq<byte>, files: seq<nat>)
    requires q.wr.index in q.disk && q.wr.pos + |x| <= |q.disk[q.wr.index]| && Lists(WithOrphan(q, x), files)
    ensures Lists(q, files)
  {}

  /** What a client sees then: behind other messages, the message it was never told about comes out where
      the FIFO has a later one; right behind the head, with older segments, a limited queue is full
      although everything has been handed out. */
  lemma {:induction false} OrphanSeen(q: Queue, lay: seq<seq<Chunk>>, k: nat, pre: seq<byte>, rs: seq<Record>,
                                      k0: nat, m: Msg, conf: Defaults, files: seq<nat>)
    requires Running(q, lay, k, pre, rs, k0) && WellFormed(q) && Fits(m, q.max) && conf.delay < U32
    requires Lists(PutData(q, m), files) && WellFormed(Reborn(Rotated(q, m), 0, conf))
    requires Honest(Reborn(Rotated(q, m), 0, conf))
    ensures |lay| > 0 && k <= |lay[0]| && SegmentSize(q.max)
    ensures var q', items := Reborn(PutData(q, m), 0, conf), F.Pending(lay, k);
      && WellFormed(q') && Lists(q', files) && WellFormed(Recounted(q', files))
      && var last, f := |items| + 4, Queued(q', items);
        && (Rotated(q, m).wr.pos > DB_FILE_HEAD_LEN ==>
              var x := R.ServeAll(Recounted(q', files), Reveal(q.max, |items|)).1;
              var y := R.AnswerAll(f, q.max, Reveal(q.max, |items|)).1;
              && |x| == |y| == last + 1
              && x[last] == R.GetReply(Some(m)) && y[last] == R.GetReply(Some(Msg(0, FullBody(q.max))))
              && m.body != FullBody(q.max))
        && (Rotated(q, m).wr.pos == DB_FILE_HEAD_LEN && Rotated(q, m).rd.index < Rotated(q, m).wr.index ==>
              var x := R.ServeAll(Recounted(q', files), R.Probe(|items|)).1;
              var y := R.AnswerAll(f, q.max, R.Probe(|items|)).1;
              && |x| == |y| == last + 1
              && x[last] == R.PutReply(Full) && y[last] == R.PutReply(PutOk))
  {
    hide F.Stores, F.Exact, F.Pending, Running, Known, Frame, PutData, WithOrphan, WellFormed, Lists, Recounted;
    hide Reborn, Rotated, Fits, R.ServeAll, R.AnswerAll, Reveal, R.AllSensible, FullBody, R.Probe, Honest;
    RunningParts(q, lay, k, pre, rs, k0);
    var lay1, k1 := OrphanPlace(q, lay, k, pre, rs, k0, m, conf);
    var q1, q', x := Reborn(Rotated(q, m), 0, conf), Reborn(PutData(q, m), 0, conf), Frame(m);
    RebornFiles(PutData(q, m), conf, files);
    KnownParts(q1, lay1, k1, x);
    OrphanCounts(q, lay, k, pre, rs, k0, m, conf, files);
    var q2 := Counted(q1, lay1, k1, m, files);
    SameBesidesFiles(q2, x);
    SizeOfQueue(q);
    var f, n := Queued(q', F.Pending(lay, k)), |F.Pending(lay, k)|;
    if q2.wr.pos > DB_FILE_HEAD_LEN {
      LogReveals(q2, lay1, k1, m, n);
      FifoReveals(f, q2.max);
      FullBodyRotates(q2, lay1, k1, m);
    }
    if q2.rd.index < q2.wr.index {
      ProbeFull(q2, lay1, k1, x);
      R.ProbeGives(f, q2.max);
    }
  }

  lemma ProbeFull(q: Queue, lay: seq<seq<Chunk>>, k: nat, x: seq<byte>)
    requires Known(q, lay, k, x) && |x| > 0 && |lay| > 0 && k <= |lay[0]| && q.unread == |F.Pending(lay, k)| + 1
    ensures q.wr.index in q.disk && q.wr.pos + |x| <= |q.disk[q.wr.index]| && WellFormed(WithOrphan(q, x))
    ensures var n, replies := |F.Pending(lay, k)|, R.ServeAll(WithOrphan(q, x), R.Probe(|F.Pending(lay, k)|)).1;
      |replies| == n + 5 && replies[n + 4] == R.PutReply(Full)
  {
    hide Known, WellFormed, WithOrphan, R.ServeAll, R.AnswerAll, F.Pending, R.AllSensible, R.Probe;
    KnownParts(q, lay, k, x);
    SizeOfQueue(q);
    R.ProbeGives(R.View(q, lay, k), q.max);
    var q1, lay1, k1 := QuietAll(q, lay, k, x, R.Probe(|F.Pending(lay, k)|));
  }
}
