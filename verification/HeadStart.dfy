/** A queue that is restarted before it has written a journal line of its own. The only line is the
    one mq_sm_creat_db wrote while every position was still zero, so the writer restarts at byte 0,
    inside the file head: sealing that segment overwrites the first messages in it. */
module HeadStart {
  import opened Bytes
  import opened Crc16
  import opened Message
  import opened Segment
  import opened Journal
  import opened Strings
  import opened Store
  import opened Recovery
  import opened Recount
  import opened Crash
  import opened Restarts
  import F = Fifo
  import R = Runs

  // ----- Messages of one zero byte

  const FRAME_LEN: nat := 13

  const ZERO_BODY: seq<byte> := [0]

  /** The frame of a message of one zero byte that was put at second t. */
  function SmallFrame(t: byte): (f: seq<byte>)
    ensures |f| == FRAME_LEN
  {
    [MAGIC1, MAGIC2, t, 0, 0, 0, 0, 0, 1, 0, 0, 0, 0]
  }

  lemma {:induction false} ZerosFeedZero(n: nat)
    ensures FeedBits(0, 0, n) == 0
  {
    if n > 0 {
      ZeroStep();
      ZerosFeedZero(n - 1);
    }
  }

  lemma ZeroStep()
    ensures BitStep(Xor(0, 0 & 1)) == 0 && (0 as bv16) >> 1 == 0
  {}

  lemma ZeroCrc()
    ensures Crc([0]) == 0
  {
    assert [0 as byte][..0] == [];
    assert Widen(0) == 0;
    hide FeedBits, Widen;
    ZerosFeedZero(BITS);
    assert Remainder([0]) == 0;
  }

  lemma SmallFrameIs(t: byte)
    ensures Frame(Msg(t as int, ZERO_BODY)) == SmallFrame(t)
  {
    hide Crc;
    ZeroCrc();
    assert Le32(t as int) == [t, 0, 0, 0];
    assert Le32(1) == [1, 0, 0, 0];
    assert Le16(0) == [0, 0];
  }

  // ----- A segment filled from byte 0 on

  /** The first message is told from the others by its time. */
  function TimeOf(n: nat): byte { if n == 0 then 1 else 0 }

  function Pattern(p: nat): byte { SmallFrame(TimeOf(p / FRAME_LEN))[p % FRAME_LEN] }

  ghost predicate Filled(seg: seq<byte>, n: nat) {
    && FRAME_LEN * n <= |seg|
    && (forall p :: 0 <= p < FRAME_LEN * n ==> seg[p] == Pattern(p))
    && (forall p :: FRAME_LEN * n <= p < |seg| ==> seg[p] != MAGIC1)
  }

  lemma PatternOf(n: nat, j: nat)
    requires j < FRAME_LEN
    ensures Pattern(FRAME_LEN * n + j) == SmallFrame(TimeOf(n))[j]
  {
    assert (FRAME_LEN * n + j) / FRAME_LEN == n && (FRAME_LEN * n + j) % FRAME_LEN == j;
  }

  lemma FillOne(seg: seq<byte>, n: nat)
    requires Filled(seg, n) && FRAME_LEN * n + FRAME_LEN <= |seg|
    ensures Filled(Overwrite(seg, FRAME_LEN * n, SmallFrame(TimeOf(n))), n + 1)
  {
    hide Pattern, SmallFrame;
    var seg' := Overwrite(seg, FRAME_LEN * n, SmallFrame(TimeOf(n)));
    forall p | 0 <= p < FRAME_LEN * (n + 1)
      ensures seg'[p] == Pattern(p)
    {
      if p >= FRAME_LEN * n {
        PatternOf(n, p - FRAME_LEN * n);
      }
    }
  }

  /** Wherever a magic pair stands, the time behind it is a multiple of 256 seconds. */
  ghost predicate Calm(seg: seq<byte>) {
    forall p :: 0 <= p && MagicAt(seg, p) ==> p + 2 < |seg| && seg[p + 2] == 0
  }

  lemma CalmParse(seg: seq<byte>, pos: nat)
    requires SegmentSize(|seg|) && pos <= |seg| && Calm(seg) && ParseMsg(seg, pos).Ok?
    ensures ParseMsg(seg, pos).msg.time % 256 == 0
  {
    hide Crc;
    assert MagicAt(seg, pos);
  }

  /** The first magic byte stands at the start of a frame only. */
  lemma MagicPlace(p: nat) returns (i: nat)
    requires Pattern(p) == MAGIC1
    ensures p == FRAME_LEN * i
  {
    i := p / FRAME_LEN;
    assert p == FRAME_LEN * i + p % FRAME_LEN;
  }

  lemma LateTimes()
    ensures SmallFrame(0)[2] == 0
  {}

  /** Sealing the segment overwrites the one frame with another time. */
  lemma SealedIsCalm(seg: seq<byte>, n: nat, head: seq<byte>)
    requires Filled(seg, n) && |head| == DB_FILE_HEAD_LEN <= |seg| && Blank(head, 0, DB_FILE_HEAD_LEN)
    ensures Calm(Overwrite(seg, 0, head))
  {
    hide Pattern, SmallFrame;
    var seg' := Overwrite(seg, 0, head);
    assert forall p :: 0 <= p < DB_FILE_HEAD_LEN ==> seg'[p] == head[p];
    forall p | 0 <= p && MagicAt(seg', p)
      ensures p + 2 < |seg'| && seg'[p + 2] == 0
    {
      assert p >= DB_FILE_HEAD_LEN && seg[p] == MAGIC1 && p < FRAME_LEN * n;
      var i := MagicPlace(p);
      PatternOf(i, 2);
      assert seg[p + 2] == Pattern(FRAME_LEN * i + 2) == SmallFrame(0)[2];
      LateTimes();
    }
  }

  lemma FreshIsFilled(max: nat)
    requires SegmentSize(max)
    ensures Filled(FreshSegment(max), 0)
  {}

  /** A new segment with one such message is calm too. */
  lemma NextIsCalm(max: nat, head: seq<byte>)
    requires SegmentSize(max) && |head| == DB_FILE_HEAD_LEN && Blank(head, 0, DB_FILE_HEAD_LEN)
    ensures Calm(Overwrite(Overwrite(FreshSegment(max), 0, head), DB_FILE_HEAD_LEN, SmallFrame(0)))
  {
    var s0 := FreshSegment(max);
    var s1 := Overwrite(s0, 0, head);
    var s := Overwrite(s1, DB_FILE_HEAD_LEN, SmallFrame(0));
    var f := SmallFrame(0);
    assert forall p :: 0 <= p < DB_FILE_HEAD_LEN ==> s[p] == s1[p] == head[p];
    assert forall p :: DB_FILE_HEAD_LEN + FRAME_LEN <= p < max ==> s[p] == s1[p] == s0[p];
    assert forall p :: DB_FILE_HEAD_LEN <= p < DB_FILE_HEAD_LEN + FRAME_LEN ==> s[p] == f[p - DB_FILE_HEAD_LEN];
  }

  // ----- The queue that fills it

  ghost predicate Filling(q: Queue, n: nat) {
    && WellFormed(q) && q.disk.Keys == {1} && Filled(q.disk[1], n)
    && q.rd == Cursor(1, 0, 0) && q.wr.index == 1 && q.wr.pos == FRAME_LEN * n
    && q.delay == 0 && q.maxque == 0 && q.wlock == 0 && q.unread >= n
  }

  function PutOne(n: nat): R.Request { R.PutReq(ZERO_BODY, TimeOf(n) as int) }

  lemma FillingPut(q: Queue, n: nat)
    requires Filling(q, n) && FRAME_LEN * n + FRAME_LEN <= q.max
    ensures Filling(R.Serve(q, PutOne(n)).0, n + 1) && R.Serve(q, PutOne(n)).0.max == q.max
  {
    hide Filled, Frame, Line, SmallFrame;
    SmallFrameIs(TimeOf(n));
    FillOne(q.disk[1], n);
  }

  ghost predicate AllCalm(q: Queue) {
    forall i :: i in q.disk ==> Calm(q.disk[i])
  }

  lemma FillingTurns(q: Queue, n: nat)
    requires Filling(q, n) && n > 0 && FRAME_LEN * n + FRAME_LEN > q.max
    ensures var q' := R.Serve(q, R.PutReq(ZERO_BODY, 0)).0;
      WellFormed(q') && AllCalm(q') && q'.unread > 0
  {
    hide Filled, Frame, Line, SmallFrame, Calm, FileHead, FreshSegment, Overwrite;
    SmallFrameIs(0);
    F.HeadIsBlank(q.wr.count);
    F.HeadIsBlank(0);
    SealedIsCalm(q.disk[1], n, FileHead(q.wr.count));
    NextIsCalm(q.max, FileHead(0));
  }

  lemma {:induction false} CalmGet(q: Queue, now: int)
    requires WellFormed(q) && AllCalm(q)
    ensures GetData(q, now).1.Some? ==> GetData(q, now).1.value.time % 256 == 0
    decreases q.wr.index - q.rd.index, q.max - q.rd.pos
  {
    hide ParseMsg, Line, Calm;
    var seg := q.disk[q.rd.index];
    if ParseMsg(seg, q.rd.pos).Ok? {
      CalmParse(seg, q.rd.pos);
    }
    match GetStep(q, now)
    case Continue(q') => CalmGet(q', now);
    case Return(_, _) =>
  }

  /** Puts until a segment is full, one more, and a get. */
  function Rest(max: nat, n: nat): (reqs: seq<R.Request>)
    ensures |reqs| > 0 && R.AllSensible(reqs)
    decreases max - FRAME_LEN * n
  {
    if FRAME_LEN * n + FRAME_LEN <= max then [PutOne(n)] + Rest(max, n + 1)
    else [R.PutReq(ZERO_BODY, 0), R.GetReq(2)]
  }

  /** The log's last reply is not the first message. */
  lemma {:induction false} LogLoses(q: Queue, n: nat)
    requires Filling(q, n)
    ensures var replies := R.ServeAll(q, Rest(q.max, n)).1;
      replies[|replies| - 1] != R.GetReply(Some(Msg(1, ZERO_BODY)))
    decreases q.max - FRAME_LEN * n
  {
    hide Filling, R.Serve, WellFormed;
    FillingRoom(q, n);
    if FRAME_LEN * n + FRAME_LEN <= q.max {
      FillingPut(q, n);
      LogLoses(R.Serve(q, PutOne(n)).0, n + 1);
    } else {
      FillingTurns(q, n);
      var last := R.PutReq(ZERO_BODY, 0);
      LastGet(R.Serve(q, last).0);
      LastReply(q, last, R.GetReq(2));
    }
  }

  lemma FillingRoom(q: Queue, n: nat)
    requires Filling(q, n)
    ensures WellFormed(q) && FRAME_LEN * n <= q.max && (n == 0 ==> FRAME_LEN <= q.max)
  {}

  lemma LastGet(q: Queue)
    requires WellFormed(q) && AllCalm(q)
    ensures R.Serve(q, R.GetReq(2)).1 != R.GetReply(Some(Msg(1, ZERO_BODY)))
  {
    hide GetData, AllCalm, Line, WellFormed;
    CalmGet(q, 2);
  }

  lemma LastReply(q: Queue, a: R.Request, b: R.Request)
    requires WellFormed(q) && R.Sensible(a) && R.Sensible(b)
    ensures R.ServeAll(q, [a, b]).1 == [R.Serve(q, a).1, R.Serve(R.Serve(q, a).0, b).1]
  {
    hide R.Serve, WellFormed;
    assert [a, b][1..] == [b] && [b][1..] == [];
    assert R.ServeAll(R.Serve(q, a).0, [b]).1 == [R.Serve(R.Serve(q, a).0, b).1];
  }

  /** The FIFO's last reply is the first message. */
  lemma {:induction false} FifoKeeps(f: R.Memory, max: nat, n: nat)
    requires f.delay == 0 && f.maxque == 0 && f.wlock == 0 && SegmentSize(max)
    requires if n == 0 then f.items == [] else f.items != [] && f.items[0] == Msg(1, ZERO_BODY)
    ensures var replies := R.AnswerAll(f, max, Rest(max, n)).1;
      replies[|replies| - 1] == R.GetReply(Some(Msg(1, ZERO_BODY)))
    decreases max - FRAME_LEN * n
  {
    if FRAME_LEN * n + FRAME_LEN <= max {
      var f1 := R.Answer(f, max, PutOne(n)).0;
      assert f1.items == f.items + [Msg(TimeOf(n) as int, ZERO_BODY)];
      FifoKeeps(f1, max, n + 1);
    } else {
      var a, b := R.PutReq(ZERO_BODY, 0), R.GetReq(2);
      assert [a, b][1..] == [b] && [b][1..] == [];
      var f1 := R.Answer(f, max, a).0;
      assert f1.items[0] == f.items[0];
      assert R.AnswerAll(f1, max, [b]).1 == [R.Answer(f1, max, b).1];
    }
  }

  /** Unlimited, undelayed, then one message more than the segment takes from byte 0 on. */
  function Overfill(max: nat): seq<R.Request> {
    [R.MaxQueueReq(0), R.DelayReq(0)] + Rest(max, 0)
  }

  lemma Settled(q: Queue)
    requires WellFormed(q) && q.disk.Keys == {1} && Filled(q.disk[1], 0)
    requires q.rd == Cursor(1, 0, 0) && q.wr.index == 1 && q.wr.pos == 0 && q.wlock == 0
    ensures var (q1, x) := R.Serve(q, R.MaxQueueReq(0));
      var (q', y) := R.Serve(q1, R.DelayReq(0));
      Filling(q', 0) && q'.max == q.max && x == R.Done && y == R.Done
  {
    hide Line;
  }

  lemma SettledFifo(f: R.Memory, max: nat)
    requires f.items == [] && f.wlock == 0
    ensures var (f1, x) := R.Answer(f, max, R.MaxQueueReq(0));
      var (f', y) := R.Answer(f1, max, R.DelayReq(0));
      x == R.Done && y == R.Done && f'.items == [] && f'.delay == 0 && f'.maxque == 0 && f'.wlock == 0
  {}

  lemma ServeTwo(q: Queue, a: R.Request, b: R.Request, rest: seq<R.Request>)
    requires WellFormed(q) && R.AllSensible([a, b]) && R.AllSensible(rest)
    ensures R.Sensible(a) && R.Sensible(b) && R.AllSensible([a, b] + rest)
    ensures var (q1, x) := R.Serve(q, a);
      var (q2, y) := R.Serve(q1, b);
      R.ServeAll(q, [a, b] + rest).1 == [x, y] + R.ServeAll(q2, rest).1
  {
    hide R.Serve, WellFormed;
    assert a in [a, b] && b in [a, b];
    assert ([a, b] + rest)[1..] == [b] + rest && ([b] + rest)[1..] == rest;
    var (q1, x) := R.Serve(q, a);
    assert R.ServeAll(q1, [b] + rest).1 == [R.Serve(q1, b).1] + R.ServeAll(R.Serve(q1, b).0, rest).1;
  }

  lemma AnswerTwo(f: R.Memory, max: nat, a: R.Request, b: R.Request, rest: seq<R.Request>)
    ensures var (f1, x) := R.Answer(f, max, a);
      var (f2, y) := R.Answer(f1, max, b);
      R.AnswerAll(f, max, [a, b] + rest).1 == [x, y] + R.AnswerAll(f2, max, rest).1
  {
    hide R.Answer;
    assert ([a, b] + rest)[1..] == [b] + rest && ([b] + rest)[1..] == rest;
    var (f1, x) := R.Answer(f, max, a);
    assert R.AnswerAll(f1, max, [b] + rest).1
        == [R.Answer(f1, max, b).1] + R.AnswerAll(R.Answer(f1, max, b).0, max, rest).1;
  }

  lemma LastsDiffer(front: seq<R.Reply>, x: seq<R.Reply>, y: seq<R.Reply>)
    requires |x| > 0 && |y| > 0 && x[|x| - 1] != y[|y| - 1]
    ensures front + x != front + y
  {
    assert (front + x)[|front + x| - 1] == x[|x| - 1] && (front + y)[|front + y| - 1] == y[|y| - 1];
  }

  /** The queue as created, restarted. */
  lemma CreatedBegins(max: nat, conf: Defaults, files: seq<nat>)
    requires SegmentSize(max) && conf.delay < U32 && conf.maxque < U32 && Lists(Create(max, conf), files)
    ensures CanBegin(Create(max, conf), conf, files)
    ensures var q := Begin(Create(max, conf), conf, files);
      && q.disk.Keys == {1} && Filled(q.disk[1], 0) && q.max == max
      && q.rd == Cursor(1, 0, 0) && q.wr.index == 1 && q.wr.pos == 0 && q.wlock == 0
  {
    hide Line, ReadItem, FreshSegment, Filled, TotalCount;
    var r := Record(0, 0, 0, conf.maxque, conf.delay, 0);
    assert [] + Line(r) == Line(r);
    CleanTail([], r, max, conf);
    var q0 := Create(max, conf);
    assert q0.rtag + Line(CurrentRecord(q0))[..0] == q0.rtag;
    FreshIsFilled(max);
  }

  /** Some later run gets an answer no FIFO would give. */
  lemma {:induction false} HeadStartShows(max: nat, conf: Defaults, files: seq<nat>)
    requires SegmentSize(max) && conf.delay < U32 && conf.maxque < U32 && Lists(Create(max, conf), files)
    ensures R.AllSensible(Overfill(max))
    ensures Run(Create(max, conf), conf, Process(files, Overfill(max))).1
         != R.AnswerAll(R.Empty(conf), max, Overfill(max)).1
  {
    hide Create, Rest, R.Serve, R.Answer, Lists, CanBegin, Begin, WellFormed, Filled, Filling;
    CreatedBegins(max, conf, files);
    var q, f := Begin(Create(max, conf), conf, files), R.Empty(conf);
    var a, b, rest := R.MaxQueueReq(0), R.DelayReq(0), Rest(max, 0);
    ServeTwo(q, a, b, rest);
    AnswerTwo(f, max, a, b, rest);
    Settled(q);
    SettledFifo(f, max);
    var q2, f2 := R.Serve(R.Serve(q, a).0, b).0, R.Answer(R.Answer(f, max, a).0, max, b).0;
    LogLoses(q2, 0);
    FifoKeeps(f2, max, 0);
    LastsDiffer([R.Done, R.Done], R.ServeAll(q2, rest).1, R.AnswerAll(f2, max, rest).1);
  }

  /** A stop between two requests goes unnoticed by every later client if and only if the queue had
      changed a setting or accepted a message before. */
  lemma {:induction false} StopUnnoticedIff(max: nat, conf: Defaults, reqs: seq<R.Request>, files: seq<nat>)
    requires SegmentSize(max) && conf.delay < U32 && conf.maxque < U32 && R.AllSensible(reqs)
    requires Lists(R.ServeAll(Create(max, conf), reqs).0, files)
    ensures SomeJournal(reqs, R.ServeAll(Create(max, conf), reqs).1) <==>
      forall later :: R.AllSensible(later) ==>
        R.ServeAll(Create(max, conf), reqs).1
          + Run(R.ServeAll(Create(max, conf), reqs).0, conf, Process(files, later)).1
        == R.AnswerAll(R.Empty(conf), max, reqs + later).1
  {
    hide Create, R.ServeAll, R.AnswerAll, R.Answer, Lists, SomeJournal, Run, Overfill, RunAll;
    var (q, replies) := R.ServeAll(Create(max, conf), reqs);
    if SomeJournal(reqs, replies) {
      forall later | R.AllSensible(later)
        ensures replies + Run(q, conf, Process(files, later)).1 == R.AnswerAll(R.Empty(conf), max, reqs + later).1
      {
        OneProcess(q, conf, files, later);
        ManyProcesses(max, conf, reqs, [Process(files, later)]);
      }
    } else {
      var lay, k, pre, rs, k0 := FirstRun(max, conf, reqs);
      HeadStartShows(max, conf, files);
      R.NewQueueAnswersAsFifo(max, conf, reqs);
      R.AnswersContinue(R.Empty(conf), max, reqs, Overfill(max));
      var later := Overfill(max);
      R.SameFront(replies, Run(q, conf, Process(files, later)).1, R.AnswerAll(R.Empty(conf), max, later).1);
    }
  }

  lemma OneProcess(q: Queue, conf: Defaults, files: seq<nat>, later: seq<R.Request>)
    requires Lists(q, files) && R.AllSensible(later)
    ensures var ps := [Process(files, later)];
      && Proper(q, conf, ps) && SealRight(q, conf, ps) && Requests(ps) == later
      && RunAll(q, conf, ps) == Run(q, conf, Process(files, later)).1
  {
    hide Run, Lists, R.AllSensible;
    var p := Process(files, later);
    assert [p][1..] == [];
    assert RunAll(Run(q, conf, p).0, conf, []) == [] && Requests([]) == [];
  }
}
