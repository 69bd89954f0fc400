/** Several processes, one after the other, on the same files: what their clients see. */
module Restarts {
  import opened Bytes
  import opened Message
  import opened Segment
  import opened Journal
  import opened Strings
  import opened Store
  import opened Recovery
  import opened Recount
  import opened Crash
  import F = Fifo
  import R = Runs

  // ----- One process after another

  /** A process: the order in which it finds the segment files listed, and the requests it serves. */
  datatype Process = Process(files: seq<nat>, reqs: seq<R.Request>)

  ghost predicate CanBegin(q: Queue, conf: Defaults, files: seq<nat>) {
    var q' := Reborn(q, 0, conf);
    WellFormed(q') && Lists(q', files) && WellFormed(Recounted(q', files))
  }

  /** The restarted and recounted queue, after a stop between two requests. */
  ghost function Begin(q: Queue, conf: Defaults, files: seq<nat>): (q': Queue)
    requires CanBegin(q, conf, files)
    ensures WellFormed(q')
  {
    Recounted(Reborn(q, 0, conf), files)
  }

  ghost function Run(q: Queue, conf: Defaults, p: Process): (Queue, seq<R.Reply>) {
    if CanBegin(q, conf, p.files) && R.AllSensible(p.reqs) then R.ServeAll(Begin(q, conf, p.files), p.reqs) else (q, [])
  }

  /** The replies of all processes. */
  ghost function RunAll(q: Queue, conf: Defaults, ps: seq<Process>): seq<R.Reply>
    decreases |ps|
  {
    if ps == [] then [] else Run(q, conf, ps[0]).1 + RunAll(Run(q, conf, ps[0]).0, conf, ps[1..])
  }

  /** Every process finds each segment file listed once, and serves sensible requests. */
  ghost predicate Proper(q: Queue, conf: Defaults, ps: seq<Process>)
    decreases |ps|
  {
    ps == [] || (Lists(q, ps[0].files) && R.AllSensible(ps[0].reqs) && Proper(Run(q, conf, ps[0]).0, conf, ps[1..]))
  }

  /** No process but the last seals a segment with the count of some of its messages only. */
  ghost predicate SealRight(q: Queue, conf: Defaults, ps: seq<Process>)
    decreases |ps|
  {
    |ps| <= 1
    || (CanBegin(q, conf, ps[0].files) && R.AllSensible(ps[0].reqs)
        && R.SealsRight(Begin(q, conf, ps[0].files), ps[0].reqs)
        && SealRight(Run(q, conf, ps[0]).0, conf, ps[1..]))
  }

  function Requests(ps: seq<Process>): seq<R.Request> {
    if ps == [] then [] else ps[0].reqs + Requests(ps[1..])
  }

  /** f is the FIFO that q stands for, but for the totals. */
  ghost predicate StandsFor(q: Queue, items: seq<Msg>, f: R.Memory) {
    f.items == items && f.unread == |items| && f.delay == q.delay && f.maxque == q.maxque && f.wlock == q.wlock
  }

  /** The restarted queue, before the recount. */
  lemma RebornFor(q: Queue, lay: seq<seq<Chunk>>, k: nat, todo: seq<Msg>, pre: seq<byte>, rs: seq<Record>, k0: nat,
                  conf: Defaults)
    requires F.Stores(q, lay, k) && |lay| > 0 && k <= |lay[0]| && F.Exact(q, lay, k) && conf.delay < U32
    requires Journalled(q, lay, todo, true, pre, rs, k0)
    ensures var q' := Reborn(q, 0, conf);
      && k0 <= |lay[0]| && F.Pending(lay, k0) == todo
      && F.Stores(q', lay, k0) && F.AllGood(lay[0]) && q'.rd.count == k0 && q'.unread == 0
      && SameSettings(q', q) && q'.disk == q.disk && q'.rd.index == q.rd.index
      && q'.wr == q.wr.(count := 0) && q'.rtag == q.rtag
      && Journalled(q', lay, todo, true, pre, rs, k0)
  {
    hide F.Stores, F.Exact, F.Pending, Journalled, ResumesBefore, Line, F.AllGood;
    TodoOf(q, lay, todo, true, pre, rs, k0);
    ExactShape(q, lay, k);
    var k2 := RestartResumes(q, lay, k, todo, true, pre, rs, k0, 0, conf);
    assert q.rtag + Line(CurrentRecord(q))[..0] == q.rtag;
    JournalSurvives(q, Reborn(q, 0, conf), lay, todo, pre, rs, k0);
  }

  lemma RebornParts(q: Queue, lay: seq<seq<Chunk>>, k: nat, pre: seq<byte>, rs: seq<Record>, k0: nat, conf: Defaults)
    requires Logged(q, lay, k, pre, rs, k0) && conf.delay < U32
    ensures var q' := Reborn(q, 0, conf);
      && |lay| > 0 && k <= |lay[0]| && k0 <= |lay[0]| && F.Pending(lay, k0) == F.Pending(lay, k)
      && F.Stores(q', lay, k0) && F.AllGood(lay[0]) && q'.rd.count == k0 && q'.unread == 0
      && SameSettings(q', q) && q'.disk == q.disk && q'.rd.index == q.rd.index
      && q'.wr == q.wr.(count := 0) && q'.rtag == q.rtag
      && Journalled(q', lay, F.Pending(lay, k0), true, pre, rs, k0)
  {
    hide F.Stores, F.Exact, F.Pending, Journalled, ResumesBefore, Line, F.AllGood;
    LoggedParts(q, lay, k, pre, rs, k0);
    RebornFor(q, lay, k, F.Pending(lay, k), pre, rs, k0, conf);
  }

  /** After a restart between two requests the files hold what was pending. */
  lemma RestartStores(q: Queue, lay: seq<seq<Chunk>>, k: nat, pre: seq<byte>, rs: seq<Record>, k0: nat,
                      conf: Defaults, files: seq<nat>)
    requires Running(q, lay, k, pre, rs, k0) && conf.delay < U32 && Lists(q, files)
    ensures CanBegin(q, conf, files) && |lay| > 0 && k <= |lay[0]| && k0 <= |lay[0]|
    ensures var q' := Begin(q, conf, files);
      && F.Stores(q', lay, k0) && F.Exact(q', lay, k0) && (F.Right(q, lay) ==> F.Right(q', lay))
      && F.Pending(lay, k0) == F.Pending(lay, k) && SameSettings(q', q)
      && Journalled(q', lay, F.Pending(lay, k0), true, pre, rs, k0)
      && q'.unread <= |F.Pending(lay, k)|
      && (q'.unread == |F.Pending(lay, k)| <==> F.Pending(lay, k) == [] || Honest(Reborn(q, 0, conf)))
  {
    hide F.Stores, F.Exact, F.Right, F.Pending, Lists, Recounted, HeadsUnder, Journalled, F.AllGood, Honest, Reborn;
    RunningParts(q, lay, k, pre, rs, k0);
    RebornParts(q, lay, k, pre, rs, k0, conf);
    ExactHeadsUnder(q, lay, k);
    var q1 := Reborn(q, 0, conf);
    HeadsUnderAlike(q, q1, lay);
    ListsAlike(q, q1, files);
    UnreadIff(q1, lay, k0, files);
    var q2 := Recounted(q1, files);
    R.StoresShape(q2, lay, k0);
    RecountedFields(q1, files);
    F.ExactMoved(q, lay, k, q2, k0);
    RightMoved(q, q2, lay);
    JournalSurvives(q1, q2, lay, F.Pending(lay, k0), pre, rs, k0);
  }

  lemma RightMoved(q: Queue, q': Queue, lay: seq<seq<Chunk>>)
    requires q'.disk == q.disk && q'.rd.index == q.rd.index
    ensures F.Right(q, lay) ==> F.Right(q', lay)
  {
    hide F.RightFrom;
  }

  lemma HeadsTrueAlike(q: Queue, q': Queue, lay: seq<seq<Chunk>>)
    requires HeadsTrue(q, lay) && q'.disk == q.disk && q'.rd.index == q.rd.index
    ensures HeadsTrue(q', lay)
  {
    hide F.HeadCounts, F.HeadEmpty, Goods;
  }

  /** Heads that are right are honest. */
  lemma RightIsHonest(q: Queue, lay: seq<seq<Chunk>>, k: nat, pre: seq<byte>, rs: seq<Record>, k0: nat,
                      conf: Defaults, files: seq<nat>)
    requires Running(q, lay, k, pre, rs, k0) && conf.delay < U32 && Lists(q, files) && F.Right(q, lay)
    ensures CanBegin(q, conf, files) && |lay| > 0 && k <= |lay[0]|
    ensures Begin(q, conf, files).unread == |F.Pending(lay, k)|
  {
    hide F.Stores, F.Exact, F.Right, F.Pending, Lists, Recounted, HeadsTrue, Journalled, F.AllGood, Reborn;
    RunningParts(q, lay, k, pre, rs, k0);
    RebornParts(q, lay, k, pre, rs, k0, conf);
    ExactHeadsTrue(q, lay, k);
    var q1 := Reborn(q, 0, conf);
    HeadsTrueAlike(q, q1, lay);
    ListsAlike(q, q1, files);
    RecountExact(q1, lay, k0, files);
    R.StoresShape(Recounted(q1, files), lay, k0);
  }

  /** A restart between two requests keeps the invariant. */
  lemma RestartRuns(q: Queue, lay: seq<seq<Chunk>>, k: nat, pre: seq<byte>, rs: seq<Record>, k0: nat,
                    conf: Defaults, files: seq<nat>)
    requires Running(q, lay, k, pre, rs, k0) && conf.delay < U32 && Lists(q, files)
    ensures CanBegin(q, conf, files) && |lay| > 0 && k <= |lay[0]| && k0 <= |lay[0]|
    ensures var q' := Begin(q, conf, files);
      && Running(q', lay, k0, pre, rs, k0) && F.Pending(lay, k0) == F.Pending(lay, k) && SameSettings(q', q)
      && (F.Right(q, lay) ==> F.Right(q', lay))
  {
    hide F.Stores, F.Exact, F.Right, F.Pending, Lists, Begin, CanBegin, Journalled, Line, Honest;
    RestartStores(q, lay, k, pre, rs, k0, conf, files);
    RunningParts(q, lay, k, pre, rs, k0);
  }

  lemma JournalSurvives(q: Queue, q': Queue, lay: seq<seq<Chunk>>, todo: seq<Msg>, pre: seq<byte>, rs: seq<Record>,
                        k0: nat)
    requires Journalled(q, lay, todo, true, pre, rs, k0)
    requires q'.rd.index == q.rd.index && q'.wr.index == q.wr.index && q'.wr.pos == q.wr.pos && q'.rtag == q.rtag
    requires SameSettings(q', q)
    ensures Journalled(q', lay, todo, true, pre, rs, k0)
  {
    hide F.Pending, F.ReadAt, Lines;
  }

  /** Any number of processes answer, together, what one FIFO that never stopped would have answered. */
  lemma {:induction false} ProcessesServe(q: Queue, lay: seq<seq<Chunk>>, k: nat, pre: seq<byte>, rs: seq<Record>,
                                          k0: nat, f: R.Memory, conf: Defaults, ps: seq<Process>)
    requires Running(q, lay, k, pre, rs, k0) && conf.delay < U32 && |lay| > 0 && k <= |lay[0]|
    requires StandsFor(q, F.Pending(lay, k), f) && F.Right(q, lay)
    requires Proper(q, conf, ps) && SealRight(q, conf, ps)
    ensures RunAll(q, conf, ps) == R.AnswerAll(f, q.max, Requests(ps)).1
    decreases |ps|
  {
    hide F.Stores, F.Exact, F.Right, F.Pending, F.Whole, Lists, Recounted, Running, CanBegin, Begin;
    hide R.ServeAll, R.AnswerAll, R.SealsRight, WellFormed, Journalled, ResumesBefore;
    if ps == [] {
      R.NoRequests(f, q.max);
    } else {
      var p, rest := ps[0], ps[1..];
      RightIsHonest(q, lay, k, pre, rs, k0, conf, p.files);
      RestartRuns(q, lay, k, pre, rs, k0, conf, p.files);
      var q1 := Begin(q, conf, p.files);
      var f1 := R.View(q1, lay, k0);
      RunningParts(q1, lay, k0, pre, rs, k0);
      R.TotalsDoNotShow(f, f1, q.max, p.reqs);
      R.AnswersContinue(f, q.max, p.reqs, Requests(rest));
      if rest == [] {
        var lay2, k2 := R.RunRefinesFifo(q1, lay, k0, p.reqs);
        R.NoRequests(R.AnswerAll(f, q.max, p.reqs).0, q.max);
      } else {
        var lay2, k2, pre2, rs2, k02 := RunStaysRestartable(q1, lay, k0, pre, rs, k0, p.reqs);
        var q2, f2 := R.ServeAll(q1, p.reqs).0, R.AnswerAll(f, q.max, p.reqs).0;
        R.MaxStays(q1, p.reqs);
        R.MemoryCounts(f, q.max, p.reqs, 0);
        ProcessesServe(q2, lay2, k2, pre2, rs2, k02, f2, conf, rest);
      }
    }
  }

  // ----- The first journal line of a new queue

  /** The request writes a journal line: it changes a setting, or it is a put that is accepted. (A get
      that delivers comes after such a put.) */
  predicate Journals(req: R.Request, reply: R.Reply) {
    (!req.PutReq? && !req.GetReq?) || reply == R.PutReply(PutOk)
  }

  predicate SomeJournal(reqs: seq<R.Request>, replies: seq<R.Reply>)
    requires |reqs| == |replies|
  {
    exists i :: 0 <= i < |reqs| && Journals(reqs[i], replies[i])
  }

  /** Once a new queue has written a line of its own, it is in such a run. */
  lemma {:induction false} FirstLine(max: nat, conf: Defaults, req: R.Request)
      returns (lay: seq<seq<Chunk>>, k: nat, rs: seq<Record>, k0: nat)
    requires SegmentSize(max) && conf.delay < U32 && conf.maxque < U32 && R.Sensible(req)
    ensures var q0 := Create(max, conf);
      && WellFormed(q0) && (Journals(req, R.Serve(q0, req).1) ==> Running(R.Serve(q0, req).0, lay, k, [], rs, k0))
      && F.Whole(R.Serve(q0, req).0, lay) && F.Right(R.Serve(q0, req).0, lay)
      && |lay| > 0 && k <= |lay[0]| && R.Serve(q0, req).0.max == max
      && R.View(R.Serve(q0, req).0, lay, k) == R.Answer(R.Empty(conf), max, req).0
  {
    hide F.Stores, F.Exact, F.Right, F.Pending, F.Whole, Line, Lines, PutData, F.AfterPut, Journalled;
    R.CreatedStoresNothing(max, conf);
    var q0 := Create(max, conf);
    R.StoresShape(q0, [[]], 0);
    lay, k, rs, k0 := [[]], 0, [Record(0, 0, 0, conf.maxque, conf.delay, 0)], 0;
    OneLine(rs[0]);
    match req
    case PutReq(body, now) =>
      if R.Serve(q0, req).1 == R.PutReply(PutOk) {
        var m := Msg(now, body);
        lay := R.PutServed(q0, [[]], 0, body, now);
        F.PutAppends(q0, [[]], 0, m);
        F.PutExact(q0, [[]], 0, m);
        RtagOfPut(q0, m);
        ExactShape(PutData(q0, m), lay, 0);
        if NeedsRotation(q0, m) {
          var r := CurrentRecord(q0).(wpos := DB_FILE_HEAD_LEN);
          JournalAppend([], rs, r);
          rs := rs + [r];
        }
        JustWritten(PutData(q0, m), lay, 0, true, [], rs);
        rs := rs + [CurrentRecord(PutData(q0, m))];
        JournalledAlike(WriteItem(PutData(q0, m)), R.Serve(q0, req).0, lay, F.Pending(lay, 0), true, [], rs, 0);
      }
    case GetReq(now) =>
    case _ =>
      var q' := R.Serve(q0, req).0;
      var q1 := q0.(maxque := q'.maxque, delay := q'.delay, wlock := q'.wlock);
      R.Recorded(q0, lay, k, q1);
      R.Recorded(q0, lay, k, q');
      ExactShape(q0, lay, k);
      JustWritten(q1, lay, k, true, [], rs);
      rs := rs + [CurrentRecord(q1)];
  }

  /** Until then nothing changes. */
  lemma Unjournalled(max: nat, conf: Defaults, req: R.Request)
    requires SegmentSize(max) && conf.delay < U32 && R.Sensible(req)
    requires !Journals(req, R.Serve(Create(max, conf), req).1)
    ensures R.Serve(Create(max, conf), req).0 == Create(max, conf)
    ensures R.Answer(R.Empty(conf), max, req).0 == R.Empty(conf)
  {
    hide PutData, Line, FreshSegment;
  }

  lemma SomeSplit(reqs: seq<R.Request>, replies: seq<R.Reply>)
    requires |reqs| == |replies| > 0
    ensures SomeJournal(reqs, replies) <==> Journals(reqs[0], replies[0]) || SomeJournal(reqs[1..], replies[1..])
  {
    if Journals(reqs[0], replies[0]) {
    } else if SomeJournal(reqs, replies) {
      var i :| 0 <= i < |reqs| && Journals(reqs[i], replies[i]);
      assert Journals(reqs[1..][i - 1], replies[1..][i - 1]);
    } else {
      forall i | 0 <= i < |reqs| - 1
        ensures !Journals(reqs[1..][i], replies[1..][i])
      {
        assert !Journals(reqs[i + 1], replies[i + 1]);
      }
    }
  }

  /** A new queue after any run: as created, or in a run that can be restarted. */
  lemma {:induction false} FirstRun(max: nat, conf: Defaults, reqs: seq<R.Request>)
      returns (lay: seq<seq<Chunk>>, k: nat, pre: seq<byte>, rs: seq<Record>, k0: nat)
    requires SegmentSize(max) && conf.delay < U32 && conf.maxque < U32 && R.AllSensible(reqs)
    ensures var q0 := Create(max, conf);
      && WellFormed(q0) && R.ServeAll(q0, reqs).0.max == max
      && var (q, replies) := R.ServeAll(q0, reqs);
        var f := R.AnswerAll(R.Empty(conf), max, reqs).0;
        if SomeJournal(reqs, replies) then
          && |lay| > 0 && k <= |lay[0]| && Running(q, lay, k, pre, rs, k0) && F.Whole(q, lay) && F.Right(q, lay)
          && R.View(q, lay, k) == f
        else q == q0 && f == R.Empty(conf)
    decreases |reqs|
  {
    hide F.Stores, F.Exact, F.Right, F.Pending, F.Whole, Create, Journals, SomeJournal, Running, WellFormed;
    hide R.Serve, R.Answer;
    R.CreatedStoresNothing(max, conf);
    var q0 := Create(max, conf);
    R.MaxStays(q0, reqs);
    lay, k, pre, rs, k0 := [[]], 0, [], [], 0;
    if reqs == [] {
      NoJournal();
    } else {
      var req, rest := reqs[0], reqs[1..];
      var (q1, reply) := R.Serve(q0, req);
      SomeSplit(reqs, R.ServeAll(q0, reqs).1);
      if Journals(req, reply) {
        lay, k, rs, k0 := FirstLine(max, conf, req);
        lay, k, pre, rs, k0 := RunStaysRestartable(q1, lay, k, [], rs, k0, rest);
      } else {
        Unjournalled(max, conf, req);
        lay, k, pre, rs, k0 := FirstRun(max, conf, rest);
      }
    }
  }

  lemma NoJournal()
    ensures !SomeJournal([], [])
  {}

  // ----- What clients see

  /** A new queue that has journalled anything can be stopped between requests any number of times:
      all its processes together answer what one FIFO that never stopped would have answered, if no
      process but the last seals a segment with the count of some of its messages only. */
  lemma {:induction false} ManyProcesses(max: nat, conf: Defaults, first: seq<R.Request>, ps: seq<Process>)
    requires SegmentSize(max) && conf.delay < U32 && conf.maxque < U32 && R.AllSensible(first)
    requires SomeJournal(first, R.ServeAll(Create(max, conf), first).1)
    requires Proper(R.ServeAll(Create(max, conf), first).0, conf, ps)
    requires SealRight(R.ServeAll(Create(max, conf), first).0, conf, ps)
    ensures R.ServeAll(Create(max, conf), first).1 + RunAll(R.ServeAll(Create(max, conf), first).0, conf, ps)
         == R.AnswerAll(R.Empty(conf), max, first + Requests(ps)).1
  {
    hide Create, R.ServeAll, R.AnswerAll, R.Answer, WellFormed, Running, F.Pending, Proper, SealRight, SomeJournal;
    var lay, k, pre, rs, k0 := FirstRun(max, conf, first);
    var f := R.AnswerAll(R.Empty(conf), max, first).0;
    R.MemoryCounts(R.Empty(conf), max, first, 0);
    ProcessesServe(R.ServeAll(Create(max, conf), first).0, lay, k, pre, rs, k0, f, conf, ps);
    R.AnswersContinue(R.Empty(conf), max, first, Requests(ps));
    R.NewQueueAnswersAsFifo(max, conf, first);
  }

  // ----- When a restart counts wrong

  /** The queue stopped between two requests is answered later as f answers. */
  ghost predicate AgreesLater(q: Queue, conf: Defaults, files: seq<nat>, f: R.Memory) {
    forall later :: R.AllSensible(later) ==>
      Run(q, conf, Process(files, later)).1 == R.AnswerAll(f, q.max, later).1
  }

  lemma AgreesIffAnswers(q: Queue, items: seq<Msg>, f: R.Memory, conf: Defaults, files: seq<nat>)
    requires CanBegin(q, conf, files) && StandsFor(q, items, f) && SameSettings(Reborn(q, 0, conf), q)
    ensures AgreesLater(q, conf, files, f) <==> Answers(Reborn(q, 0, conf), items, files)
  {
    hide WellFormed, Lists, Recounted, Reborn, R.ServeAll, R.AnswerAll;
    var q1 := Reborn(q, 0, conf);
    var g := Queued(q1, items);
    forall later
      ensures R.AnswerAll(g, q.max, later).1 == R.AnswerAll(f, q.max, later).1
    {
      R.TotalsDoNotShow(g, f, q.max, later);
    }
    if AgreesLater(q, conf, files, f) {
      forall later | R.AllSensible(later)
        ensures R.ServeAll(Recounted(q1, files), later).1 == R.AnswerAll(g, q1.max, later).1
      {
        assert Run(q, conf, Process(files, later)).1 == R.AnswerAll(f, q.max, later).1;
      }
    }
    if Answers(q1, items, files) {
      forall later | R.AllSensible(later)
        ensures Run(q, conf, Process(files, later)).1 == R.AnswerAll(f, q.max, later).1
      {
        assert R.ServeAll(Recounted(q1, files), later).1 == R.AnswerAll(g, q1.max, later).1;
      }
    }
  }

  /** However the processes before it sealed their segments, a queue stopped between two requests can
      be restarted unnoticed if and only if nothing is pending, or every head that announces a count
      announces what a scan of its file finds. */
  lemma {:induction false} UnnoticedIffHonest(q: Queue, lay: seq<seq<Chunk>>, k: nat, pre: seq<byte>, rs: seq<Record>,
                                              k0: nat, f: R.Memory, conf: Defaults, files: seq<nat>)
    requires Running(q, lay, k, pre, rs, k0) && conf.delay < U32 && Lists(q, files) && |lay| > 0 && k <= |lay[0]|
    requires StandsFor(q, F.Pending(lay, k), f)
    ensures WellFormed(Reborn(q, 0, conf))
    ensures AgreesLater(q, conf, files, f) <==> f.items == [] || Honest(Reborn(q, 0, conf))
  {
    hide F.Stores, F.Exact, F.Pending, Lists, Running, CanBegin, AgreesLater, Answers, Honest, Journalled, Reborn;
    hide F.AllGood, HeadsUnder;
    RunningParts(q, lay, k, pre, rs, k0);
    RebornParts(q, lay, k, pre, rs, k0, conf);
    RestartStores(q, lay, k, pre, rs, k0, conf, files);
    ExactHeadsUnder(q, lay, k);
    var q1 := Reborn(q, 0, conf);
    HeadsUnderAlike(q, q1, lay);
    ListsAlike(q, q1, files);
    StoredAnswers(q1, lay, k0, files);
    AgreesIffAnswers(q, F.Pending(lay, k), f, conf, files);
  }

  /** A new queue, stopped once, and served by a second process that may seal as it likes: the second
      stop goes unnoticed by every later client if and only if nothing is pending or the heads are honest. */
  lemma {:induction false} SecondStopIff(max: nat, conf: Defaults, first: seq<R.Request>, p: Process, files: seq<nat>)
    requires SegmentSize(max) && conf.delay < U32 && conf.maxque < U32 && R.AllSensible(first) && R.AllSensible(p.reqs)
    requires SomeJournal(first, R.ServeAll(Create(max, conf), first).1)
    requires Lists(R.ServeAll(Create(max, conf), first).0, p.files)
    requires Lists(Run(R.ServeAll(Create(max, conf), first).0, conf, p).0, files)
    ensures var q := Run(R.ServeAll(Create(max, conf), first).0, conf, p).0;
      var f := R.AnswerAll(R.Empty(conf), max, first + p.reqs).0;
      && WellFormed(Reborn(q, 0, conf))
      && (AgreesLater(q, conf, files, f) <==> f.items == [] || Honest(Reborn(q, 0, conf)))
  {
    hide Create, R.ServeAll, R.AnswerAll, R.Answer, Lists;
    hide WellFormed, Running, F.Pending, F.Right, F.Whole, SomeJournal;
    hide CanBegin, Begin, Honest, Reborn, AgreesLater;
    var lay, k, pre, rs, k0 := FirstRun(max, conf, first);
    var q1, f0 := R.ServeAll(Create(max, conf), first).0, R.AnswerAll(R.Empty(conf), max, first).0;
    R.MemoryCounts(R.Empty(conf), max, first, 0);
    RightIsHonest(q1, lay, k, pre, rs, k0, conf, p.files);
    RestartRuns(q1, lay, k, pre, rs, k0, conf, p.files);
    var b := Begin(q1, conf, p.files);
    RunningParts(b, lay, k0, pre, rs, k0);
    var lay2, k2, pre2, rs2, k02 := RunStaysRestartable(b, lay, k0, pre, rs, k0, p.reqs);
    var f1 := R.View(b, lay, k0);
    R.TotalsDoNotShow(f0, f1, max, p.reqs);
    R.MemoryCounts(f0, max, p.reqs, 0);
    R.AnswersContinue(R.Empty(conf), max, first, p.reqs);
    UnnoticedIffHonest(R.ServeAll(b, p.reqs).0, lay2, k2, pre2, rs2, k02,
                       R.AnswerAll(f0, max, p.reqs).0, conf, files);
  }
}
