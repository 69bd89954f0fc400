/** A process that stops between requests, or while a journal line is being appended, loses no
    accepted message: after restart and recount the queue is again a FIFO of exactly the messages the
    journal promises, whose counter is right if and only if the heads of the segments are honest. */
module Crash {
  import opened Bytes
  import opened Message
  import opened Segment
  import opened Journal
  import opened Strings
  import opened Store
  import opened Recovery
  import opened Recount
  import F = Fifo
  import R = Runs

  /** The restarted and recounted queue. */
  function Reborn(q: Queue, t: nat, conf: Defaults): Queue
    requires t <= RTAG_ITEM_LEN
  {
    Restart(q, q.rtag + Line(CurrentRecord(q))[..t], conf)
  }

  lemma RebornFiles(q: Queue, conf: Defaults, files: seq<nat>)
    requires Lists(q, files)
    ensures Reborn(q, 0, conf).disk == q.disk && Lists(Reborn(q, 0, conf), files)
  {
    hide ReadItem, Line;
  }

  /** A FIFO of the messages items, with the settings of q. */
  function Queued(q: Queue, items: seq<Msg>): R.Memory {
    R.Memory(items, |items|, 0, |items|, q.delay, q.maxque, q.wlock)
  }

  /** Once recounted, the queue answers every run as a FIFO that starts with the messages items. */
  ghost predicate Answers(q: Queue, items: seq<Msg>, files: seq<nat>) {
    && WellFormed(q) && Lists(q, files) && WellFormed(Recounted(q, files))
    && forall reqs | R.AllSensible(reqs) ::
         R.ServeAll(Recounted(q, files), reqs).1 == R.AnswerAll(Queued(q, items), q.max, reqs).1
  }

  /** And its counters are right. */
  ghost predicate ServesFrom(q: Queue, items: seq<Msg>, files: seq<nat>) {
    && Answers(q, items, files)
    && var q' := Recounted(q, files);
      q'.unread == |items| && q'.putNum == q'.getNum + |items|
  }

  /** A restarted queue answers as a FIFO of what its files hold, whose counter is what the recount
      found. That is the FIFO with the right counter if and only if nothing is pending or the heads
      are honest. */
  lemma StoredAnswers(q: Queue, lay: seq<seq<Chunk>>, k: nat, files: seq<nat>)
    requires F.Stores(q, lay, k) && HeadsUnder(q, lay) && Lists(q, files)
    requires k <= |lay[0]| && F.AllGood(lay[0]) && q.rd.count == k && q.unread == 0
    ensures WellFormed(q) && WellFormed(Recounted(q, files))
    ensures Recounted(q, files).unread <= |F.Pending(lay, k)|
    ensures AnswersCounting(q, F.Pending(lay, k), files)
    ensures Answers(q, F.Pending(lay, k), files) <==> F.Pending(lay, k) == [] || Honest(q)
    ensures Honest(q) ==> ServesFrom(q, F.Pending(lay, k), files)
  {
    hide F.Stores, F.Pending, HeadsUnder, Lists, Recounted, F.AllGood, Honest, R.AllSensible, R.AnswerAll, R.ServeAll;
    UnreadIff(q, lay, k, files);
    RecountedFields(q, files);
    var q' := Recounted(q, files);
    R.StoresShape(q', lay, k);
    var f := Queued(q, F.Pending(lay, k));
    var u := q'.unread;
    forall reqs | R.AllSensible(reqs)
      ensures R.ServeAll(q', reqs).1 == R.AnswerAll(f.(unread := u), q.max, reqs).1
    {
      var lay', k' := R.RunRefinesFifo(q', lay, k, reqs);
      R.TotalsDoNotShow(R.View(q', lay, k), f.(unread := u), q.max, reqs);
    }
    CountDecides(q, F.Pending(lay, k), files);
  }

  /** The recounted queue answers every run as a FIFO of the messages items whose counter it shows. */
  ghost predicate AnswersCounting(q: Queue, items: seq<Msg>, files: seq<nat>)
    requires WellFormed(q) && Lists(q, files) && WellFormed(Recounted(q, files))
  {
    forall reqs :: R.AllSensible(reqs) ==>
      R.ServeAll(Recounted(q, files), reqs).1
      == R.AnswerAll(Queued(q, items).(unread := Recounted(q, files).unread), q.max, reqs).1
  }

  /** A wrong counter shows, a right one does not. */
  lemma CountDecides(q: Queue, items: seq<Msg>, files: seq<nat>)
    requires WellFormed(q) && Lists(q, files) && WellFormed(Recounted(q, files)) && AnswersCounting(q, items, files)
    ensures Answers(q, items, files) <==> Recounted(q, files).unread == |items|
  {
    hide Lists, Recounted, R.AllSensible, R.AnswerAll, R.ServeAll, WellFormed;
    var f, u := Queued(q, items), Recounted(q, files).unread;
    if u == |items| {
      assert f.(unread := u) == f;
    } else {
      SizeOfQueue(q);
      var reqs := R.UnreadShows(f, u, q.max);
      assert R.ServeAll(Recounted(q, files), reqs).1 != R.AnswerAll(f, q.max, reqs).1;
    }
  }

  lemma SizeOfQueue(q: Queue)
    requires WellFormed(q)
    ensures SegmentSize(q.max) && q.delay < U32
  {}

  lemma RecountedFields(q: Queue, files: seq<nat>)
    requires WellFormed(q) && Lists(q, files)
    ensures var q' := Recounted(q, files);
      q' == q.(putNum := q'.putNum, getNum := q'.getNum, unread := q'.unread)
  {
    hide WellFormed, Lists, TotalCount;
  }

  lemma ExactShape(q: Queue, lay: seq<seq<Chunk>>, k: nat)
    requires F.Exact(q, lay, k) && |lay| > 0
    ensures F.AllGood(lay[0]) && q.rd.count == k
  {
    assert lay[0] in lay;
  }

  lemma HeadsUnderAlike(q: Queue, q': Queue, lay: seq<seq<Chunk>>)
    requires HeadsUnder(q, lay) && q'.disk == q.disk && q'.rd.index == q.rd.index
    ensures HeadsUnder(q', lay)
  {
    hide F.HeadUnder, Goods;
  }

  /** The general statement, for a journal that resumes before the messages todo. */
  lemma RebornServes(q: Queue, lay: seq<seq<Chunk>>, k: nat, todo: seq<Msg>,
                     pre: seq<byte>, rs: seq<Record>, k0: nat, t: nat, conf: Defaults, files: seq<nat>)
      returns (items: seq<Msg>)
    requires F.Stores(q, lay, k) && k <= |lay[0]| && F.Exact(q, lay, k) && Lists(q, files)
    requires ResumesBefore(q, lay, todo, true, pre, rs, k0)
    requires t == 0 ==> Journalled(q, lay, todo, true, pre, rs, k0)
    requires t <= RTAG_ITEM_LEN && conf.delay < U32
    ensures items ==
      if t == RTAG_ITEM_LEN then F.Pending(lay, k) else if TooShort(pre, |rs|, t) then F.Pending(lay, 0) else todo
    ensures GoesBack(pre, |rs|, t) || TooShort(pre, |rs|, t) ==>
      && WellFormed(Reborn(q, t, conf))
      && (Answers(Reborn(q, t, conf), items, files) <==> items == [] || Honest(Reborn(q, t, conf)))
      && (Honest(Reborn(q, t, conf)) ==> ServesFrom(Reborn(q, t, conf), items, files))
    ensures GoesBack(pre, |rs|, t) ==> SameSettings(Reborn(q, t, conf), q)
    ensures TooShort(pre, |rs|, t) ==> DefaultSettings(Reborn(q, t, conf), conf)
  {
    hide F.Stores, F.Exact, F.Pending, ResumesBefore, Journalled, HeadsUnder, Lists, ServesFrom, Answers, Honest;
    hide F.AllGood, ReadItem;
    hide SameSettings, DefaultSettings, Survivor, GoesBack;
    R.StoresShape(q, lay, k);
    ExactShape(q, lay, k);
    ExactHeadsUnder(q, lay, k);
    var k2 := RestartResumes(q, lay, k, todo, true, pre, rs, k0, t, conf);
    items := F.Pending(lay, k2);
    var q2 := Reborn(q, t, conf);
    HeadsUnderAlike(q, q2, lay);
    ListsAlike(q, q2, files);
    if GoesBack(pre, |rs|, t) || TooShort(pre, |rs|, t) {
      StoredAnswers(q2, lay, k2, files);
    }
  }

  lemma ListsAlike(q: Queue, q': Queue, files: seq<nat>)
    requires Lists(q, files) && q'.disk == q.disk
    ensures Lists(q', files)
  {}

  /** The second tear, seen by a client. Before anything was read the messages survive it, but the
      limit on the number of messages has become their delay: a message that a queue without delay
      would hand out at once is withheld. */
  lemma {:induction false} SecondTearWithholds(q: Queue, lay: seq<seq<Chunk>>, k: nat, todo: seq<Msg>,
                             older: seq<byte>, a: Record, n: Record, r: Record, t: nat, conf: Defaults, files: seq<nat>)
    requires F.Stores(q, lay, k) && k <= |lay[0]| && F.Exact(q, lay, k) && Lists(q, files)
    requires ResumesBefore(q, lay, todo, true, older + Line(a) + Line(n)[..10], [r], 0)
    requires 0 < t <= 51 && Storable(n) && n.rcount == 0
    requires todo != [] && q.delay == 0 < q.maxque && todo[0].time < 0x8000_0000
    ensures var q' := Reborn(q, t, conf);
      && q'.delay == q.maxque && q'.maxque == r.wpos && WellFormed(q') && Lists(q', files)
      && (Answers(q', todo, files) <==> Honest(q')) && (Honest(q') ==> ServesFrom(q', todo, files))
      && WellFormed(Recounted(q', files))
      && R.Serve(Recounted(q', files), R.GetReq(todo[0].time)).1 == R.GetReply(None)
    ensures var f := R.Memory(todo, |todo|, 0, |todo|, q.delay, q.maxque, q.wlock);
      R.Answer(f, q.max, R.GetReq(todo[0].time)).1 == R.GetReply(Some(todo[0]))
  {
    hide F.Stores, F.Exact, F.Pending, HeadsUnder, Lists, Honest;
    hide ServesFrom, Answers, F.AllGood, ReadItem, Line, Lines, F.ReadAt, Recounted;
    R.StoresShape(q, lay, k);
    ExactShape(q, lay, k);
    ExactHeadsUnder(q, lay, k);
    SecondTearRestart(q, lay, k, todo, true, older, a, n, r, 0, t, conf);
    var q1 := Reborn(q, t, conf);
    HeadReadable(lay[0]);
    StartParts(q, lay, todo, older + Line(a) + Line(n)[..10], r);
    RestoredStores(q, lay, k, Shifted(n, r).(wpos := q.max), 0, q1.rtag);
    HeadsUnderAlike(q, q1, lay);
    ListsAlike(q, q1, files);
    StoredAnswers(q1, lay, 0, files);
    RecountedFields(q1, files);
    Withheld(Recounted(q1, files), Queued(q1, todo).(unread := Recounted(q1, files).unread), q1.max);
  }

  lemma StartParts(q: Queue, lay: seq<seq<Chunk>>, todo: seq<Msg>, pre: seq<byte>, r: Record)
    requires ResumesBefore(q, lay, todo, true, pre, [r], 0)
    ensures |lay| > 0 && F.Pending(lay, 0) == todo && r.rcount == 0 && SettingsOk(q)
    ensures r.maxque == q.maxque && r.delay == q.delay
  {
    hide F.Pending, F.ReadAt;
  }

  lemma Withheld(q: Queue, f: R.Memory, max: nat)
    requires WellFormed(q) && f.items != [] && f.delay > 0 && f.items[0].time < 0x8000_0000
    requires forall reqs :: R.AllSensible(reqs) ==> R.ServeAll(q, reqs).1 == R.AnswerAll(f, max, reqs).1
    ensures R.Serve(q, R.GetReq(f.items[0].time)).1 == R.GetReply(None)
  {
    hide WellFormed, R.Serve;
    var req := R.GetReq(f.items[0].time);
    assert R.AllSensible([req]);
    assert R.ServeAll(q, [req]).1[0] == R.Serve(q, req).1;
    assert R.AnswerAll(f, max, [req]).1[0] == R.Answer(f, max, req).1;
  }

  // ----- Every state of every run can be restarted

  /** The invariant of a run without damage: the files hold the pending messages, the counters are
      exact, the journal resumes before the pending messages. */
  ghost predicate Logged(q: Queue, lay: seq<seq<Chunk>>, k: nat, pre: seq<byte>, rs: seq<Record>, k0: nat) {
    && F.Stores(q, lay, k) && |lay| > 0 && k <= |lay[0]|
    && F.Exact(q, lay, k)
    && Journalled(q, lay, F.Pending(lay, k), true, pre, rs, k0) && |rs| >= 1
  }

  /** There is always enough journal to go back to: a get that enters a new segment starts a new one, and
      until another line is written the reader is at the head of that segment. */
  ghost predicate Running(q: Queue, lay: seq<seq<Chunk>>, k: nat, pre: seq<byte>, rs: seq<Record>, k0: nat) {
    Logged(q, lay, k, pre, rs, k0) && (|rs| == 1 ==> pre == [] && k == 0 && k0 == 0)
  }

  lemma LoggedParts(q: Queue, lay: seq<seq<Chunk>>, k: nat, pre: seq<byte>, rs: seq<Record>, k0: nat)
    requires Logged(q, lay, k, pre, rs, k0)
    ensures F.Stores(q, lay, k) && |lay| > 0 && k <= |lay[0]| && F.Exact(q, lay, k) && WellFormed(q)
    ensures Journalled(q, lay, F.Pending(lay, k), true, pre, rs, k0)
    ensures ResumesBefore(q, lay, F.Pending(lay, k), true, pre, rs, k0)
    ensures |rs| >= 1 && q.rd.count == k
  {
    hide F.Stores, F.Pending, ResumesBefore;
    R.StoresShape(q, lay, k);
  }

  lemma RunningParts(q: Queue, lay: seq<seq<Chunk>>, k: nat, pre: seq<byte>, rs: seq<Record>, k0: nat)
    requires Running(q, lay, k, pre, rs, k0)
    ensures F.Stores(q, lay, k) && |lay| > 0 && k <= |lay[0]| && F.Exact(q, lay, k) && WellFormed(q)
    ensures Journalled(q, lay, F.Pending(lay, k), true, pre, rs, k0)
    ensures ResumesBefore(q, lay, F.Pending(lay, k), true, pre, rs, k0)
    ensures |rs| >= 1 && q.rd.count == k && Logged(q, lay, k, pre, rs, k0)
    ensures |rs| == 1 ==> pre == [] && k == 0 && k0 == 0
  {
    hide Logged;
    LoggedParts(q, lay, k, pre, rs, k0);
  }

  lemma NoAnchor(t: nat)
    requires 0 < t < RTAG_ITEM_LEN
    ensures TooShort([], 1, t) && !GoesBack([], 1, t)
  {}

  /** A stop while put appends its line: the message is already in its segment and is kept. The log then
      answers every run as a FIFO of what was pending and the new message, if and only if the heads are
      honest. The settings are kept, unless the journal has only one line to go back to. */
  lemma {:induction false} CrashInPut(q: Queue, lay: seq<seq<Chunk>>, k: nat, pre: seq<byte>, rs: seq<Record>,
                   k0: nat, m: Msg, t: nat, conf: Defaults, files: seq<nat>)
    requires Running(q, lay, k, pre, rs, k0) && Fits(m, q.max)
    requires 0 < t <= RTAG_ITEM_LEN && conf.delay < U32
    requires WellFormed(q) && Lists(PutData(q, m), files)
    ensures |lay| > 0 && k <= |lay[0]|
    ensures var q', items := Reborn(PutData(q, m), t, conf), F.Pending(lay, k) + [m];
      WellFormed(q') && (Answers(q', items, files) <==> Honest(q')) && (Honest(q') ==> ServesFrom(q', items, files))
    ensures if t == RTAG_ITEM_LEN || |rs| >= 2 || NeedsRotation(q, m)
      then SameSettings(Reborn(PutData(q, m), t, conf), PutData(q, m))
      else DefaultSettings(Reborn(PutData(q, m), t, conf), conf)
  {
    hide SameSettings, DefaultSettings, F.Stores, F.Exact, F.Pending, ResumesBefore, Journalled, Lists, ServesFrom;
    hide PutData, F.AfterPut, Running, NeedsRotation, Answers, Honest;
    RunningParts(q, lay, k, pre, rs, k0);
    var q', lay' := PutData(q, m), F.AfterPut(q, lay, m);
    var rs', k0' := PutJournalled(q, lay, k, true, pre, rs, k0, m);
    F.PutAppends(q, lay, k, m);
    F.PutExact(q, lay, k, m);
    R.StoresShape(q', lay', k);
    var items := RebornServes(q', lay', k, F.Pending(lay, k) + [m], pre, rs', k0', t, conf, files);
    if t < RTAG_ITEM_LEN && |rs'| == 1 {
      NoAnchor(t);
    }
  }

  /** A stop while get appends its line: the message it was about to hand out is pending again,
      unless the whole line but for its newline is there; and again the heads decide. When the get
      entered a new segment, the journal holds one line only: reading restarts at the head of that
      segment, with the defaults. */
  lemma {:induction false} CrashInGet(q: Queue, lay: seq<seq<Chunk>>, k: nat, pre: seq<byte>, rs: seq<Record>,
                   k0: nat, now: nat, t: nat, conf: Defaults, files: seq<nat>)
    requires Running(q, lay, k, pre, rs, k0)
    requires 0 < t <= RTAG_ITEM_LEN && conf.delay < U32
    requires WellFormed(q) && GetData(q, now).1.Some? && Lists(GetData(q, now).0, files)
    ensures |lay| > 0 && k <= |lay[0]| && F.Pending(lay, k) != []
    ensures var q' := Reborn(GetData(q, now).0, t, conf);
      var items := if t == RTAG_ITEM_LEN then F.Pending(lay, k)[1..] else F.Pending(lay, k);
      && WellFormed(q') && (Answers(q', items, files) <==> items == [] || Honest(q'))
      && (Honest(q') ==> ServesFrom(q', items, files))
    ensures var q' := GetData(q, now).0;
      if t == RTAG_ITEM_LEN || (|rs| >= 2 && q'.rd.index == q.rd.index) then SameSettings(Reborn(q', t, conf), q')
      else DefaultSettings(Reborn(q', t, conf), conf)
  {
    hide SameSettings, DefaultSettings, F.Stores, F.Exact, F.Pending, Lists, ServesFrom, GetData, Journalled;
    hide ResumesBefore, Running, Answers, Honest;
    RunningParts(q, lay, k, pre, rs, k0);
    var lay', k', pre', rs', k0' := GetJournalled(q, lay, k, true, pre, rs, k0, now);
    var q' := GetData(q, now).0;
    TodoOf(q', lay', F.Pending(lay, k), true, pre', rs', k0');
    var items := RebornServes(q', lay', k', F.Pending(lay, k), pre', rs', k0', t, conf, files);
    if t < RTAG_ITEM_LEN && |rs'| == 1 {
      NoAnchor(t);
    }
  }

  lemma PutRuns(q: Queue, lay: seq<seq<Chunk>>, k: nat, pre: seq<byte>, rs: seq<Record>, k0: nat,
                body: seq<byte>, now: nat)
      returns (lay': seq<seq<Chunk>>, rs': seq<Record>, k0': nat)
    requires Logged(q, lay, k, pre, rs, k0) && now < 0x8000_0000 && WellFormed(q)
    ensures var req := R.PutReq(body, now);
      && |lay'| > 0 && k <= |lay'[0]|
      && (R.View(R.Serve(q, req).0, lay', k), R.Serve(q, req).1) == R.Answer(R.View(q, lay, k), q.max, req)
      && R.Serve(q, req).0.max == q.max
      && (F.Right(q, lay) && (F.Whole(q, lay) || R.SealsWell(q, req)) ==> F.Right(R.Serve(q, req).0, lay'))
      && (F.Whole(q, lay) ==> F.Whole(R.Serve(q, req).0, lay'))
      && Logged(R.Serve(q, req).0, lay', k, pre, rs', k0')
      && (Running(q, lay, k, pre, rs, k0) ==> Running(R.Serve(q, req).0, lay', k, pre, rs', k0'))
      && (if R.Logs(R.Serve(q, req).1) then |rs'| >= 2 else rs' == rs)
  {
    hide F.Stores, F.Exact, F.Right, F.Whole, F.Pending, PutData, F.AfterPut, Line, Lines, Journalled;
    hide R.SealsWell, ResumesBefore;
    LoggedParts(q, lay, k, pre, rs, k0);
    var req := R.PutReq(body, now);
    lay' := R.PutServed(q, lay, k, body, now);
    var q' := R.Serve(q, req).0;
    rs', k0' := rs, k0;
    if R.Serve(q, req).1 == R.PutReply(PutOk) {
      var m := Msg(now, body);
      rs' := PutWrites(q, lay, k, pre, rs, k0, m);
      k0' := k;
      var q1 := WriteItem(PutData(q, m));
      JournalledAlike(q1, q', lay', F.Pending(lay', k), true, pre, rs', k0');
    }
  }

  /** The journal after a put and its line. */
  lemma PutWrites(q: Queue, lay: seq<seq<Chunk>>, k: nat, pre: seq<byte>, rs: seq<Record>, k0: nat, m: Msg)
      returns (rs': seq<Record>)
    requires Logged(q, lay, k, pre, rs, k0) && WellFormed(q) && Fits(m, q.max)
    ensures var lay' := F.AfterPut(q, lay, m);
      && |lay'| > 0 && k <= |lay'[0]| && |rs'| >= 2
      && Journalled(WriteItem(PutData(q, m)), lay', F.Pending(lay', k), true, pre, rs', k)
  {
    hide F.Stores, F.Exact, F.Pending, PutData, F.AfterPut, Line, Lines, Journalled, Resumes;
    LoggedParts(q, lay, k, pre, rs, k0);
    var q1, lay' := PutData(q, m), F.AfterPut(q, lay, m);
    var rs1, k1 := PutJournalled(q, lay, k, true, pre, rs, k0, m);
    F.PutAppends(q, lay, k, m);
    R.StoresShape(q1, lay', k);
    RtagOfResumes(q1, lay', F.Pending(lay, k) + [m], pre, rs1, k1);
    SameReader(q, m);
    JustWritten(q1, lay', k, true, pre, rs1);
    rs' := rs1 + [CurrentRecord(q1)];
  }

  lemma RtagOfResumes(q: Queue, lay: seq<seq<Chunk>>, todo: seq<Msg>, pre: seq<byte>, rs: seq<Record>, k0: nat)
    requires ResumesBefore(q, lay, todo, true, pre, rs, k0)
    ensures SettingsOk(q) && q.rtag == pre + Lines(rs) && |rs| >= 1
  {}

  lemma SameReader(q: Queue, m: Msg)
    requires WellFormed(q) && Fits(m, q.max)
    ensures PutData(q, m).rd == q.rd
  {
    hide Line, FreshSegment, FileHead, Frame, Overwrite;
  }

  lemma JournalledAlike(q: Queue, q': Queue, lay: seq<seq<Chunk>>, todo: seq<Msg>, exact: bool,
                        pre: seq<byte>, rs: seq<Record>, k0: nat)
    requires Journalled(q, lay, todo, exact, pre, rs, k0) && q' == q.(unread := q'.unread)
    ensures Journalled(q', lay, todo, exact, pre, rs, k0)
  {}

  lemma GetRuns(q: Queue, lay: seq<seq<Chunk>>, k: nat, pre: seq<byte>, rs: seq<Record>, k0: nat, now: nat)
      returns (lay': seq<seq<Chunk>>, k': nat, pre': seq<byte>, rs': seq<Record>, k0': nat)
    requires Logged(q, lay, k, pre, rs, k0) && now < 0x8000_0000 && WellFormed(q)
    ensures var req := R.GetReq(now);
      && |lay'| > 0 && k' <= |lay'[0]|
      && (R.View(R.Serve(q, req).0, lay', k'), R.Serve(q, req).1) == R.Answer(R.View(q, lay, k), q.max, req)
      && R.Serve(q, req).0.max == q.max
      && (F.Right(q, lay) ==> F.Right(R.Serve(q, req).0, lay'))
      && (F.Whole(q, lay) ==> F.Whole(R.Serve(q, req).0, lay'))
      && Logged(R.Serve(q, req).0, lay', k', pre', rs', k0')
      && (Running(q, lay, k, pre, rs, k0) ==> Running(R.Serve(q, req).0, lay', k', pre', rs', k0'))
      && (R.Logs(R.Serve(q, req).1) ==> |rs'| >= 2)
  {
    hide F.Stores, F.Exact, F.Right, F.Whole, F.Pending, GetData, Line, Lines, Journalled, ResumesBefore;
    LoggedParts(q, lay, k, pre, rs, k0);
    lay', k', pre', rs', k0' := lay, k, pre, rs, k0;
    if q.unread >= 1 {
      lay', k', pre', rs', k0' := GetJournalled(q, lay, k, true, pre, rs, k0, now);
      F.GetRight(q, lay, k, now);
      R.GetAnswered(q, lay, k, now, lay', k');
      var (q1, msg) := GetData(q, now);
      R.StoresShape(q1, lay', k');
      ExactShape(q1, lay', k');
      TodoOf(q1, lay', F.Pending(lay, k), true, pre', rs', k0');
      if msg.Some? {
        RtagOf(q1, lay', F.Pending(lay, k), true, pre', rs', k0');
        JustWritten(q1, lay', k', true, pre', rs');
        rs', k0' := rs' + [CurrentRecord(q1)], k';
      } else {
        CountOfGet(q, now);
      }
    }
  }

  lemma RtagOf(q: Queue, lay: seq<seq<Chunk>>, todo: seq<Msg>, exact: bool, pre: seq<byte>, rs: seq<Record>, k0: nat)
    requires Journalled(q, lay, todo, exact, pre, rs, k0)
    ensures SettingsOk(q) && q.rtag == pre + Lines(rs)
  {}

  lemma SettingRuns(q: Queue, lay: seq<seq<Chunk>>, k: nat, pre: seq<byte>, rs: seq<Record>, k0: nat, req: R.Request)
      returns (rs': seq<Record>)
    requires Logged(q, lay, k, pre, rs, k0) && R.Sensible(req) && !req.PutReq? && !req.GetReq? && WellFormed(q)
    ensures R.Serve(q, req).0.max == q.max && (F.Whole(q, lay) ==> F.Whole(R.Serve(q, req).0, lay))
    ensures F.Right(q, lay) ==> F.Right(R.Serve(q, req).0, lay)
    ensures (R.View(R.Serve(q, req).0, lay, k), R.Serve(q, req).1) == R.Answer(R.View(q, lay, k), q.max, req)
    ensures Logged(R.Serve(q, req).0, lay, k, pre, rs', k)
    ensures Running(q, lay, k, pre, rs, k0) ==> Running(R.Serve(q, req).0, lay, k, pre, rs', k)
    ensures |rs'| >= 2
  {
    hide F.Stores, F.Exact, F.Pending, Line, Lines, Journalled;
    R.StoresShape(q, lay, k);
    RtagOf(q, lay, F.Pending(lay, k), true, pre, rs, k0);
    var q' := R.Serve(q, req).0;
    var q1 := q.(maxque := q'.maxque, delay := q'.delay, wlock := q'.wlock);
    R.Recorded(q, lay, k, q1);
    R.Recorded(q, lay, k, q');
    ExactShape(q, lay, k);
    JustWritten(q1, lay, k, true, pre, rs);
    rs' := rs + [CurrentRecord(q1)];
  }

  /** One request keeps the invariant, and the heads right unless it seals a segment with a wrong count. */
  lemma OneRuns(q: Queue, lay: seq<seq<Chunk>>, k: nat, pre: seq<byte>, rs: seq<Record>, k0: nat, req: R.Request)
      returns (lay': seq<seq<Chunk>>, k': nat, pre': seq<byte>, rs': seq<Record>, k0': nat)
    requires Logged(q, lay, k, pre, rs, k0) && R.Sensible(req) && WellFormed(q)
    ensures |lay'| > 0 && k' <= |lay'[0]| && R.Serve(q, req).0.max == q.max
    ensures (R.View(R.Serve(q, req).0, lay', k'), R.Serve(q, req).1) == R.Answer(R.View(q, lay, k), q.max, req)
    ensures F.Right(q, lay) && (F.Whole(q, lay) || R.SealsWell(q, req)) ==> F.Right(R.Serve(q, req).0, lay')
    ensures F.Whole(q, lay) ==> F.Whole(R.Serve(q, req).0, lay')
    ensures Logged(R.Serve(q, req).0, lay', k', pre', rs', k0')
    ensures Running(q, lay, k, pre, rs, k0) ==> Running(R.Serve(q, req).0, lay', k', pre', rs', k0')
    ensures R.Logs(R.Serve(q, req).1) ==> |rs'| >= 2
  {
    hide F.Stores, F.Exact, F.Right, F.Whole, F.Pending, Journalled, WellFormed, Running, Logged;
    hide R.Serve, R.Answer, R.SealsWell;
    LoggedParts(q, lay, k, pre, rs, k0);
    lay', k', pre', rs', k0' := lay, k, pre, rs, k0;
    match req {
      case PutReq(body, now) =>
        lay', rs', k0' := PutRuns(q, lay, k, pre, rs, k0, body, now);
      case GetReq(now) =>
        lay', k', pre', rs', k0' := GetRuns(q, lay, k, pre, rs, k0, now);
      case _ =>
        rs' := SettingRuns(q, lay, k, pre, rs, k0, req);
        k0' := k;
    }
  }

  /** Over every run the queue answers as a FIFO, its journal stays good for a restart, and the heads
      stay right as long as no segment is sealed with a wrong count; within one process none is. */
  lemma {:induction false} RunStaysRestartable(q: Queue, lay: seq<seq<Chunk>>, k: nat,
                                              pre: seq<byte>, rs: seq<Record>, k0: nat, reqs: seq<R.Request>)
      returns (lay': seq<seq<Chunk>>, k': nat, pre': seq<byte>, rs': seq<Record>, k0': nat)
    requires Running(q, lay, k, pre, rs, k0) && R.AllSensible(reqs) && WellFormed(q)
    ensures |lay'| > 0 && k' <= |lay'[0]|
    ensures (R.View(R.ServeAll(q, reqs).0, lay', k'), R.ServeAll(q, reqs).1)
         == R.AnswerAll(R.View(q, lay, k), q.max, reqs)
    ensures F.Right(q, lay) && (F.Whole(q, lay) || R.SealsRight(q, reqs)) ==> F.Right(R.ServeAll(q, reqs).0, lay')
    ensures F.Whole(q, lay) ==> F.Whole(R.ServeAll(q, reqs).0, lay')
    ensures Running(R.ServeAll(q, reqs).0, lay', k', pre', rs', k0')
    decreases |reqs|
  {
    hide F.Stores, F.Exact, F.Right, F.Whole, F.Pending, Journalled, WellFormed, Running, Logged;
    hide R.Serve, R.Answer, R.SealsWell;
    RunningParts(q, lay, k, pre, rs, k0);
    lay', k', pre', rs', k0' := lay, k, pre, rs, k0;
    if reqs != [] {
      assert R.Sensible(reqs[0]);
      lay', k', pre', rs', k0' := OneRuns(q, lay, k, pre, rs, k0, reqs[0]);
      lay', k', pre', rs', k0' :=
        RunStaysRestartable(R.Serve(q, reqs[0]).0, lay', k', pre', rs', k0', reqs[1..]);
    }
  }

  /** How a journal comes to be like that: a put is torn ten bytes into its line, the queue is restarted,
      and one setting is changed. */
  lemma {:induction false} TornThenSet(q: Queue, lay: seq<seq<Chunk>>, k: nat, pre: seq<byte>, rs: seq<Record>, k0: nat,
                                       m: Msg, conf: Defaults, files: seq<nat>, maxque: nat)
      returns (older: seq<byte>, a: Record, n: Record, r: Record)
    requires Running(q, lay, k, pre, rs, k0) && |rs| >= 2 && Fits(m, q.max) && conf.delay < U32 && maxque < U32
    requires WellFormed(q) && Lists(PutData(q, m), files)
    ensures var q1 := Reborn(PutData(q, m), 10, conf);
      && WellFormed(q1) && Lists(q1, files) && |lay| > 0 && k <= |lay[0]| && n == CurrentRecord(PutData(q, m))
      && var q2, lay', k1 := SetMaxQueue(Recounted(q1, files), maxque), F.AfterPut(q, lay, m),
           if NeedsRotation(q, m) then k else k0;
        && |lay'| > 0 && k1 <= |lay'[0]| && F.Stores(q2, lay', k1)
        && ResumesBefore(q2, lay', F.Pending(lay, k) + [m], true, older + Line(a) + Line(n)[..10], [r], k1)
  {
    hide F.Stores, F.Exact, F.Pending, ResumesBefore, Journalled, Lists, PutData, F.AfterPut, Running;
    hide NeedsRotation, Line, Lines, Recounted, HeadsUnder, F.AllGood, ReadItem, Survivor, WellFormed, Honest;
    RunningParts(q, lay, k, pre, rs, k0);
    var q', lay', todo := PutData(q, m), F.AfterPut(q, lay, m), F.Pending(lay, k) + [m];
    var rs', k1 := PutJournalled(q, lay, k, true, pre, rs, k0, m);
    F.PutAppends(q, lay, k, m);
    F.PutExact(q, lay, k, m);
    R.StoresShape(q', lay', k);
    ExactShape(q', lay', k);
    ExactHeadsUnder(q', lay', k);
    RtagOfResumes(q', lay', todo, pre, rs', k1);
    var k2 := RestartResumes(q', lay', k, todo, true, pre, rs', k1, 10, conf);
    var q1 := Reborn(q', 10, conf);
    HeadsUnderAlike(q', q1, lay');
    ListsAlike(q', q1, files);
    UnreadIff(q1, lay', k1, files);
    n := CurrentRecord(q');
    var torn := q'.rtag + Line(n)[..10];
    var q2 := SettingRecorded(q1, lay', k1, files, torn, maxque);
    r := CurrentRecord(q2);
    var last := |rs'| - 1;
    older, a := pre + Lines(rs'[..last]), rs'[last];
    LinesLast(rs');
    assert torn == older + Line(a) + Line(n)[..10];
    TodoOf(WriteItem(q2), lay', F.Pending(lay', k1), true, torn, [r], k1);
  }

  lemma LinesLast(rs: seq<Record>)
    requires |rs| > 0
    ensures Lines(rs) == Lines(rs[..|rs| - 1]) + Line(rs[|rs| - 1])
  {
    hide Line;
  }

  lemma SettingRecorded(q: Queue, lay: seq<seq<Chunk>>, k: nat, files: seq<nat>, torn: seq<byte>, maxque: nat)
      returns (q2: Queue)
    requires WellFormed(q) && Lists(q, files) && F.Stores(Recounted(q, files), lay, k) && q.rtag == torn
    requires SettingsOk(q) && q.rd.count == k && maxque < U32
    ensures |lay| > 0 && k <= |lay[0]| && WriteItem(q2) == SetMaxQueue(Recounted(q, files), maxque)
    ensures F.Stores(WriteItem(q2), lay, k)
    ensures Journalled(WriteItem(q2), lay, F.Pending(lay, k), true, torn, [CurrentRecord(q2)], k)
  {
    hide WellFormed, Lists, TotalCount, F.Stores, F.Pending, Journalled, Line, Lines;
    var q1 := Recounted(q, files);
    R.StoresShape(q1, lay, k);
    q2 := q1.(maxque := maxque);
    DelayOk(q1);
    R.Recorded(q1, lay, k, q2);
    R.Recorded(q1, lay, k, WriteItem(q2));
    NoLines();
    assert torn + [] == torn && [] + [CurrentRecord(q2)] == [CurrentRecord(q2)];
    JustWritten(q2, lay, k, true, torn, []);
  }

  lemma DelayOk(q: Queue)
    requires WellFormed(q)
    ensures q.delay < U32
  {}

  lemma NoLines()
    ensures Lines([]) == []
  {}
}
