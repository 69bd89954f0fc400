/** Several processes on the same files, each stopped between two requests, before the line of a get or a
    setting, or inside a journal line: no message is lost, repeated or reordered on the way. */
module Stops {
  import opened Bytes
  import opened Message
  import opened Segment
  import opened Journal
  import opened Strings
  import opened Store
  import opened Recovery
  import opened Recount
  import opened Crash
  import opened Restarts
  import F = Fifo
  import R = Runs

  // ----- Stops

  /** Between two requests; after t bytes of the journal line of the request req; or, for a put that
      seals a segment, after t bytes of the line that the rotation writes. */
  datatype Stop = Between | InLine(req: R.Request, t: nat) | InRotation(req: R.Request, t: nat)

  /** A process: the order in which it finds the segment files listed, the requests it answers, its end. */
  datatype Life = Life(files: seq<nat>, reqs: seq<R.Request>, stop: Stop)

  /** The line of a request is the last thing it writes: t bytes of it are there. */
  ghost function Torn(q: Queue, req: R.Request, t: nat): (q': Queue)
    requires WellFormed(q) && R.Sensible(req) && t <= LINE_LEN
    ensures WellFormed(q')
  {
    var q' := R.Serve(q, req).0;
    if |q'.rtag| < LINE_LEN then q' else q'.(rtag := q'.rtag[..|q'.rtag| - LINE_LEN + t])
  }

  /** The queue behind the rotation that a put begins with, before any line was written for it. */
  function Turned(q: Queue): (q': Queue)
    requires WellFormed(q)
    ensures WellFormed(q')
  {
    NextWriteFile(WriteFileHead(q)).(rtag := q.rtag)
  }

  /** t bytes of the line of the rotation are there. */
  function TurnTorn(q: Queue, t: nat): (q': Queue)
    requires WellFormed(q) && t <= LINE_LEN
    ensures WellFormed(q')
  {
    Turned(q).(rtag := q.rtag + Line(CurrentRecord(Turned(q)))[..t])
  }

  // ----- What a restart reads back

  /** A restart finds the messages todo before it, and the settings of q. */
  ghost predicate Readable(q: Queue, lay: seq<seq<Chunk>>, todo: seq<Msg>, k0: nat, conf: Defaults) {
    var q' := Reborn(q, 0, conf);
    && F.Stores(q', lay, k0) && q'.rd.count == k0 && |lay| > 0 && k0 <= |lay[0]| && F.Pending(lay, k0) == todo
    && SameSettings(q', q)
  }

  /** A journal: older bytes, fragments among them, and the complete lines since the last tear. */
  datatype Trail = Trail(pre: seq<byte>, rs: seq<Record>, k0: nat)

  /** The invariant over stops of any kind. */
  ghost predicate Kept(q: Queue, lay: seq<seq<Chunk>>, k: nat, tr: Trail, conf: Defaults) {
    && F.Stores(q, lay, k) && |lay| > 0 && k <= |lay[0]| && F.Exact(q, lay, k) && SettingsOk(q)
    && if tr.rs == [] then Readable(q, lay, F.Pending(lay, k), tr.k0, conf)
       else Logged(q, lay, k, tr.pre, tr.rs, tr.k0)
  }

  /** At least n lines since the last tear, or as good as two. */
  ghost predicate Lined(q: Queue, lay: seq<seq<Chunk>>, k: nat, tr: Trail, n: nat) {
    && (n >= 1 ==> tr.rs != [])
    && (n >= 2 ==> Running(q, lay, k, tr.pre, tr.rs, tr.k0))
  }

  lemma KeptParts(q: Queue, lay: seq<seq<Chunk>>, k: nat, tr: Trail, conf: Defaults)
    requires Kept(q, lay, k, tr, conf)
    ensures F.Stores(q, lay, k) && |lay| > 0 && k <= |lay[0]| && F.Exact(q, lay, k) && SettingsOk(q) && WellFormed(q)
    ensures q.rd.count == k
    ensures if tr.rs == [] then Readable(q, lay, F.Pending(lay, k), tr.k0, conf)
            else Logged(q, lay, k, tr.pre, tr.rs, tr.k0)
  {
    hide F.Stores, Readable, Logged, F.Pending;
    R.StoresShape(q, lay, k);
    ExactShape(q, lay, k);
  }

  lemma LoggedSettings(q: Queue, lay: seq<seq<Chunk>>, k: nat, pre: seq<byte>, rs: seq<Record>, k0: nat)
    requires Logged(q, lay, k, pre, rs, k0)
    ensures SettingsOk(q)
  {
    hide F.Stores, F.Exact, F.Pending, Resumes;
  }

  // ----- One request

  /** The first line behind a fragment. */
  lemma FreshLine(q: Queue, lay: seq<seq<Chunk>>, k: nat)
    requires F.Stores(q, lay, k) && SettingsOk(q) && q.rd.count == k
    ensures |lay| > 0 && k <= |lay[0]|
    ensures Journalled(WriteItem(q), lay, F.Pending(lay, k), true, q.rtag, [CurrentRecord(q)], k)
  {
    hide F.Stores, F.Pending, Journalled, Line, Lines;
    R.StoresShape(q, lay, k);
    NoLines();
    assert q.rtag + [] == q.rtag && [] + [CurrentRecord(q)] == [CurrentRecord(q)];
    JustWritten(q, lay, k, true, q.rtag, []);
  }

  lemma BarePut(q: Queue, lay: seq<seq<Chunk>>, k: nat, body: seq<byte>, now: nat)
      returns (lay': seq<seq<Chunk>>, tr': Trail)
    requires F.Stores(q, lay, k) && F.Exact(q, lay, k) && SettingsOk(q) && q.rd.count == k && WellFormed(q)
    requires now < 0x8000_0000 && R.Serve(q, R.PutReq(body, now)).1 == R.PutReply(PutOk)
    requires |lay| > 0 && k <= |lay[0]|
    ensures var q' := R.Serve(q, R.PutReq(body, now)).0;
      && |lay'| > 0 && k <= |lay'[0]| && q'.max == q.max
      && Logged(q', lay', k, tr'.pre, tr'.rs, tr'.k0) && tr'.rs != []
      && (R.View(q', lay', k), R.PutReply(PutOk)) == R.Answer(R.View(q, lay, k), q.max, R.PutReq(body, now))
  {
    hide F.Stores, F.Exact, F.Right, F.Whole, F.Pending, PutData, F.AfterPut, Line, Lines, Journalled;
    hide R.SealsWell;
    var m, req := Msg(now, body), R.PutReq(body, now);
    lay' := R.PutServed(q, lay, k, body, now);
    F.PutAppends(q, lay, k, m);
    SameReader(q, m);
    var q1 := PutData(q, m);
    FreshLine(q1, lay', k);
    tr' := Trail(q1.rtag, [CurrentRecord(q1)], k);
    JournalledAlike(WriteItem(q1), R.Serve(q, req).0, lay', F.Pending(lay', k), true, q1.rtag, tr'.rs, k);
  }

  lemma BareSetting(q: Queue, lay: seq<seq<Chunk>>, k: nat, req: R.Request) returns (tr': Trail)
    requires F.Stores(q, lay, k) && F.Exact(q, lay, k) && SettingsOk(q) && q.rd.count == k && WellFormed(q)
    requires R.Sensible(req) && !req.PutReq? && !req.GetReq? && |lay| > 0 && k <= |lay[0]|
    ensures var (q', reply) := R.Serve(q, req);
      && q'.max == q.max && Logged(q', lay, k, tr'.pre, tr'.rs, tr'.k0) && tr'.rs != []
      && (R.View(q', lay, k), reply) == R.Answer(R.View(q, lay, k), q.max, req)
  {
    hide F.Stores, F.Exact, F.Pending, Line, Lines, Journalled;
    var q' := R.Serve(q, req).0;
    var q1 := q.(maxque := q'.maxque, delay := q'.delay, wlock := q'.wlock);
    R.Recorded(q, lay, k, q1);
    R.Recorded(q, lay, k, q');
    FreshLine(q1, lay, k);
    tr' := Trail(q1.rtag, [CurrentRecord(q1)], k);
  }

  lemma BareGet(q: Queue, lay: seq<seq<Chunk>>, k: nat, tr: Trail, conf: Defaults, now: nat)
      returns (lay': seq<seq<Chunk>>, k': nat, tr': Trail)
    requires Kept(q, lay, k, tr, conf) && tr.rs == [] && now < 0x8000_0000 && WellFormed(q)
    ensures var (q', reply) := R.Serve(q, R.GetReq(now));
      && |lay'| > 0 && k' <= |lay'[0]| && q'.max == q.max
      && Kept(q', lay', k', tr', conf) && (R.Logs(reply) ==> tr'.rs != [])
      && (R.View(q', lay', k'), reply) == R.Answer(R.View(q, lay, k), q.max, R.GetReq(now))
  {
    hide F.Stores, F.Exact, F.Right, F.Whole, F.Pending, GetData, Line, Lines, Journalled, Readable;
    KeptParts(q, lay, k, tr, conf);
    lay', k', tr' := lay, k, tr;
    if q.unread >= 1 {
      lay', k' := F.GetDelivers(q, lay, k, now);
      R.GetAnswered(q, lay, k, now, lay', k');
      var (q1, msg) := GetData(q, now);
      R.StoresShape(q1, lay', k');
      ExactShape(q1, lay', k');
      if msg.Some? {
        FreshLine(q1, lay', k');
        tr' := Trail(q1.rtag, [CurrentRecord(q1)], k');
      } else {
        tr' := EmptyGet(q, lay, k, tr, conf, now, lay', k');
      }
    }
  }

  /** What the journal of q promises a restart: the messages todo, with n lines since the last tear. */
  ghost predicate Promises(q: Queue, lay: seq<seq<Chunk>>, todo: seq<Msg>, tr: Trail, conf: Defaults, n: nat) {
    && (if tr.rs == [] then Readable(q, lay, todo, tr.k0, conf)
        else Journalled(q, lay, todo, true, tr.pre, tr.rs, tr.k0))
    && (n >= 1 ==> tr.rs != []) && (n >= 2 && |tr.rs| == 1 ==> tr.pre == [] && tr.k0 == 0)
  }

  /** A get leaves the journal alone, or starts a new one. */
  lemma BarePromise(q: Queue, lay: seq<seq<Chunk>>, k: nat, tr: Trail, conf: Defaults, now: nat,
                    lay': seq<seq<Chunk>>, k': nat)
      returns (tr': Trail)
    requires Kept(q, lay, k, tr, conf) && tr.rs == [] && WellFormed(q) && |lay| > 0 && k <= |lay[0]|
    requires |lay'| > 0 && k' <= |lay'[0]| && F.Stores(GetData(q, now).0, lay', k')
    requires F.GetSpec(q, F.Pending(lay, k), now, GetData(q, now).0, GetData(q, now).1, F.Pending(lay', k'))
    requires GetData(q, now).0.rd.index == q.rd.index ==> lay' == lay
    requires GetData(q, now).0.rd.index > q.rd.index ==> F.Pending(lay', 0) == F.Pending(lay, k)
    ensures Promises(GetData(q, now).0, lay', F.Pending(lay, k), tr', conf, 0)
  {
    hide F.Stores, F.Exact, F.Pending, GetData, Line, Lines, Resumes, ReadItem, F.AllGood;
    JournalOfGet(q, now);
    F.DiskOfGet(q, now);
    var q1 := GetData(q, now).0;
    R.StoresShape(q1, lay', k');
    tr' := tr;
    if q1.rd.index == q.rd.index {
      SameFiles(q, q1);
    } else {
      var r := Record(0, DB_FILE_HEAD_LEN, q.wr.pos, q.maxque, q.delay, q.wlock);
      OneLine(r);
      FreshReaderResumes(q1, lay', k', r);
      tr' := Trail([], [r], 0);
    }
  }

  lemma EmptyGet(q: Queue, lay: seq<seq<Chunk>>, k: nat, tr: Trail, conf: Defaults, now: nat,
                 lay': seq<seq<Chunk>>, k': nat)
      returns (tr': Trail)
    requires Kept(q, lay, k, tr, conf) && tr.rs == [] && GetData(q, now).1.None? && |lay'| > 0 && k' <= |lay'[0]|
    requires WellFormed(q) && |lay| > 0 && k <= |lay[0]|
    requires F.Stores(GetData(q, now).0, lay', k') && F.Exact(GetData(q, now).0, lay', k')
    requires F.GetSpec(q, F.Pending(lay, k), now, GetData(q, now).0, GetData(q, now).1, F.Pending(lay', k'))
    requires GetData(q, now).0.rd.index == q.rd.index ==> lay' == lay
    requires GetData(q, now).0.rd.index > q.rd.index ==> F.Pending(lay', 0) == F.Pending(lay, k)
    ensures Kept(GetData(q, now).0, lay', k', tr', conf)
  {
    hide F.Stores, F.Exact, F.Pending, GetData, Readable, Journalled;
    R.StoresShape(GetData(q, now).0, lay', k');
    KeptParts(q, lay, k, tr, conf);
    tr' := BarePromise(q, lay, k, tr, conf, now, lay', k');
  }

  lemma SameFiles(q: Queue, q': Queue)
    requires WellFormed(q) && WellFormed(q') && q'.rd.index == q.rd.index && q'.wr == q.wr
    requires forall i :: q'.rd.index <= i <= q.wr.index ==> i in q.disk && i in q'.disk && q'.disk[i] == q.disk[i]
    ensures q'.disk == q.disk
  {}

  /** One request keeps the invariant, and adds its line. */
  lemma {:induction false} OneKept(q: Queue, lay: seq<seq<Chunk>>, k: nat, tr: Trail, conf: Defaults, n: nat,
                                   req: R.Request)
      returns (lay': seq<seq<Chunk>>, k': nat, tr': Trail)
    requires Kept(q, lay, k, tr, conf) && Lined(q, lay, k, tr, n) && R.Sensible(req) && WellFormed(q)
    ensures |lay| > 0 && k <= |lay[0]|
    ensures var (q', reply) := R.Serve(q, req);
      && |lay'| > 0 && k' <= |lay'[0]| && q'.max == q.max
      && Kept(q', lay', k', tr', conf) && Lined(q', lay', k', tr', if R.Logs(reply) then n + 1 else n)
      && (R.View(q', lay', k'), reply) == R.Answer(R.View(q, lay, k), q.max, req)
  {
    hide F.Stores, F.Exact, F.Right, F.Whole, F.Pending, Readable, Logged, R.Serve, R.Answer, R.View;
    KeptParts(q, lay, k, tr, conf);
    var q' := R.Serve(q, req).0;
    if tr.rs != [] {
      var pre, rs, k0;
      lay', k', pre, rs, k0 := OneRuns(q, lay, k, tr.pre, tr.rs, tr.k0, req);
      tr' := Trail(pre, rs, k0);
      LoggedIsKept(q', lay', k', tr', conf);
    } else if req.GetReq? {
      lay', k', tr' := BareGet(q, lay, k, tr, conf, req.now);
    } else if req.PutReq? {
      lay', k', tr' := lay, k, tr;
      if R.Serve(q, req).1 == R.PutReply(PutOk) {
        lay', tr' := BarePut(q, lay, k, req.body, req.now);
        LoggedIsKept(q', lay', k', tr', conf);
      } else {
        Refused(q, lay, k, req);
      }
    } else {
      lay', k' := lay, k;
      tr' := BareSetting(q, lay, k, req);
      LoggedIsKept(q', lay', k', tr', conf);
    }
  }

  lemma Refused(q: Queue, lay: seq<seq<Chunk>>, k: nat, req: R.Request)
    requires WellFormed(q) && req.PutReq? && R.Sensible(req) && R.Serve(q, req).1 != R.PutReply(PutOk)
    requires F.Stores(q, lay, k) && |lay| > 0 && k <= |lay[0]|
    ensures R.Serve(q, req).0 == q && !R.Logs(R.Serve(q, req).1)
    ensures (R.View(q, lay, k), R.Serve(q, req).1) == R.Answer(R.View(q, lay, k), q.max, req)
  {
    hide F.Stores, PutData, F.Pending, WellFormed;
    R.StoresShape(q, lay, k);
    var lay' := R.PutServed(q, lay, k, req.body, req.now);
  }

  lemma LoggedIsKept(q: Queue, lay: seq<seq<Chunk>>, k: nat, tr: Trail, conf: Defaults)
    requires Logged(q, lay, k, tr.pre, tr.rs, tr.k0)
    ensures |tr.rs| >= 1 && Kept(q, lay, k, tr, conf) && (|tr.rs| >= 2 ==> Running(q, lay, k, tr.pre, tr.rs, tr.k0))
  {
    hide F.Stores, F.Exact, F.Pending, Journalled, Readable;
    LoggedSettings(q, lay, k, tr.pre, tr.rs, tr.k0);
  }

  /** The journal lines that a run has written. */
  function LinesIn(replies: seq<R.Reply>): nat {
    if replies == [] then 0 else (if R.Logs(replies[0]) then 1 else 0) + LinesIn(replies[1..])
  }

  lemma {:induction false} RunKept(q: Queue, lay: seq<seq<Chunk>>, k: nat, tr: Trail, conf: Defaults, n: nat,
                                   reqs: seq<R.Request>)
      returns (lay': seq<seq<Chunk>>, k': nat, tr': Trail)
    requires Kept(q, lay, k, tr, conf) && Lined(q, lay, k, tr, n) && R.AllSensible(reqs) && WellFormed(q)
    ensures |lay| > 0 && k <= |lay[0]|
    ensures var (q', replies) := R.ServeAll(q, reqs);
      && |lay'| > 0 && k' <= |lay'[0]| && q'.max == q.max
      && Kept(q', lay', k', tr', conf) && Lined(q', lay', k', tr', n + LinesIn(replies))
      && (R.View(q', lay', k'), replies) == R.AnswerAll(R.View(q, lay, k), q.max, reqs)
    decreases |reqs|
  {
    hide Kept, Lined, R.Serve, R.Answer, R.View, WellFormed, R.Logs, F.Stores, F.Exact, F.Pending, Readable, Logged;
    hide SettingsOk;
    KeptParts(q, lay, k, tr, conf);
    lay', k', tr' := lay, k, tr;
    if reqs != [] {
      var (q1, reply) := R.Serve(q, reqs[0]);
      var lay1, k1, tr1 := OneKept(q, lay, k, tr, conf, n, reqs[0]);
      var n1 := if R.Logs(reply) then n + 1 else n;
      lay', k', tr' := RunKept(q1, lay1, k1, tr1, conf, n1, reqs[1..]);
      var replies := R.ServeAll(q1, reqs[1..]).1;
      assert ([reply] + replies)[1..] == replies;
    }
  }

  // ----- One restart

  /** The recounted queue answers as a FIFO of the messages items, with a counter that is not too large;
      it is the right one if and only if nothing is pending or the heads are honest. */
  ghost predicate Served(q: Queue, items: seq<Msg>, conf: Defaults, files: seq<nat>) {
    var q' := Reborn(q, 0, conf);
    && CanBegin(q, conf, files)
    && AnswersCounting(q', items, files) && Begin(q, conf, files).unread <= |items|
    && (Answers(q', items, files) <==> items == [] || Honest(q'))
  }

  /** What a restart can count on, and what it makes of it. */
  lemma Begins(q: Queue, lay: seq<seq<Chunk>>, todo: seq<Msg>, k0: nat, conf: Defaults, files: seq<nat>)
    requires WellFormed(q) && Lists(q, files) && conf.delay < U32 && conf.maxque < U32
    requires F.Stores(Reborn(q, 0, conf), lay, k0) && F.Exact(Reborn(q, 0, conf), lay, k0)
    requires |lay| > 0 && k0 <= |lay[0]| && F.Pending(lay, k0) == todo
    ensures CanBegin(q, conf, files) && WellFormed(Reborn(q, 0, conf))
    ensures Readable(Begin(q, conf, files), lay, todo, k0, conf)
    ensures Kept(Begin(q, conf, files), lay, k0, Trail(q.rtag, [], k0), conf)
    ensures Served(q, todo, conf, files)
  {
    hide F.Stores, F.Exact, F.Pending, Recounted, HeadsUnder, Answers, AnswersCounting, Honest, Lists, ReadFrom, Line;
    hide F.AllGood;
    var q1 := Reborn(q, 0, conf);
    RebornFiles(q, conf, files);
    ExactShape(q1, lay, k0);
    ExactHeadsUnder(q1, lay, k0);
    StoredAnswers(q1, lay, k0, files);
    UnreadIff(q1, lay, k0, files);
    RecountedFields(q1, files);
    var q2 := Recounted(q1, files);
    F.ExactMoved(q1, lay, k0, q2, k0);
    assert Line(CurrentRecord(q))[..0] == [] && Line(CurrentRecord(q2))[..0] == [];
    assert q.rtag + [] == q.rtag;
    ReadIsPlausible(q.rtag, 1, q.max, conf);
    SettingsRead(q, conf);
  }

  lemma SettingsRead(q: Queue, conf: Defaults)
    requires conf.delay < U32 && conf.maxque < U32
    ensures SettingsOk(Reborn(q, 0, conf)) && Reborn(q, 0, conf).rtag == q.rtag && Reborn(q, 0, conf).unread == 0
  {
    hide Line, ReadFrom;
    assert q.rtag + Line(CurrentRecord(q))[..0] == q.rtag;
    ReadIsPlausible(q.rtag, 1, q.max, conf);
  }

  /** A restart that finds its journal complete keeps the promise and every line. */
  lemma RestartFor(q: Queue, lay: seq<seq<Chunk>>, k: nat, todo: seq<Msg>, tr: Trail, conf: Defaults, n: nat,
                   files: seq<nat>)
      returns (k': nat, tr': Trail)
    requires F.Stores(q, lay, k) && |lay| > 0 && k <= |lay[0]| && F.Exact(q, lay, k) && Lists(q, files)
    requires Promises(q, lay, todo, tr, conf, n) && conf.delay < U32 && conf.maxque < U32
    ensures CanBegin(q, conf, files) && WellFormed(Reborn(q, 0, conf))
    ensures k' <= |lay[0]| && F.Pending(lay, k') == todo
    ensures Kept(Begin(q, conf, files), lay, k', tr', conf) && Lined(Begin(q, conf, files), lay, k', tr', n)
    ensures Served(q, todo, conf, files)
  {
    hide F.Stores, F.Exact, F.Pending, Journalled, Begin, CanBegin, Answers, Honest, F.AllGood, Lists;
    hide AnswersCounting, Reborn, WellFormed;
    R.StoresShape(q, lay, k);
    var q1 := Reborn(q, 0, conf);
    k', tr' := tr.k0, Trail(q.rtag, [], tr.k0);
    RebornCursors(q, conf);
    if tr.rs != [] {
      RebornFor(q, lay, k, todo, tr.pre, tr.rs, tr.k0, conf);
    }
    F.ExactMoved(q, lay, k, q1, k');
    Begins(q, lay, todo, k', conf, files);
    if tr.rs != [] {
      BeginFields(q, conf, files);
      JournalSurvives(q1, Begin(q, conf, files), lay, todo, tr.pre, tr.rs, tr.k0);
      KeptParts(Begin(q, conf, files), lay, k', tr', conf);
      tr' := tr;
      LoggedIsKept(Begin(q, conf, files), lay, k', tr', conf);
    }
  }

  /** A restart after a stop between two requests keeps the invariant and every line. */
  lemma {:induction false} RestartKept(q: Queue, lay: seq<seq<Chunk>>, k: nat, tr: Trail, conf: Defaults, n: nat,
                                       files: seq<nat>)
      returns (k': nat, tr': Trail)
    requires Kept(q, lay, k, tr, conf) && Lined(q, lay, k, tr, n) && Lists(q, files)
    requires conf.delay < U32 && conf.maxque < U32
    ensures CanBegin(q, conf, files) && WellFormed(Reborn(q, 0, conf))
    ensures |lay| > 0 && k <= |lay[0]| && k' <= |lay[0]| && F.Pending(lay, k') == F.Pending(lay, k)
    ensures Kept(Begin(q, conf, files), lay, k', tr', conf) && Lined(Begin(q, conf, files), lay, k', tr', n)
    ensures Served(q, F.Pending(lay, k), conf, files)
  {
    hide F.Stores, F.Exact, F.Pending, Journalled, Begin, CanBegin, Served, Lists, Reborn, Readable;
    KeptParts(q, lay, k, tr, conf);
    k', tr' := RestartFor(q, lay, k, F.Pending(lay, k), tr, conf, n, files);
  }

  lemma RebornCursors(q: Queue, conf: Defaults)
    ensures var q' := Reborn(q, 0, conf);
      && q'.disk == q.disk && q'.wr.index == q.wr.index && q'.wr.count == 0 && q'.rd.index == q.rd.index
      && q'.max == q.max
  {
    hide ReadItem, Line;
  }

  lemma BeginFields(q: Queue, conf: Defaults, files: seq<nat>)
    requires CanBegin(q, conf, files)
    ensures WellFormed(Reborn(q, 0, conf)) && Lists(Reborn(q, 0, conf), files)
    ensures var q1, q' := Reborn(q, 0, conf), Begin(q, conf, files);
      q' == q1.(putNum := q'.putNum, getNum := q'.getNum, unread := q'.unread)
  {
    hide WellFormed, Lists, Reborn, Recounted;
    RecountedFields(Reborn(q, 0, conf), files);
  }

  // ----- A tear

  /** The messages that are pending when the request is stopped after t bytes of its line. */
  function Remaining(items: seq<Msg>, req: R.Request, t: nat): seq<Msg> {
    match req
    case PutReq(body, now) => items + [Msg(now, body)]
    case GetReq(_) => if t >= RTAG_ITEM_LEN && items != [] then items[1..] else items
    case _ => items
  }

  lemma TornPut(q: Queue, lay: seq<seq<Chunk>>, k: nat, tr: Trail, req: R.Request, t: nat, conf: Defaults)
      returns (lay': seq<seq<Chunk>>, k': nat)
    requires Running(q, lay, k, tr.pre, tr.rs, tr.k0) && 0 < t <= RTAG_ITEM_LEN && conf.delay < U32
    requires WellFormed(q) && R.Sensible(req) && req.PutReq? && R.Serve(q, req).1 == R.PutReply(PutOk)
    ensures |lay| > 0 && k <= |lay[0]| && |lay'| > 0 && k' <= |lay'[0]|
    ensures var q' := Reborn(Torn(q, req, t), 0, conf);
      && F.Stores(q', lay', k') && F.Exact(q', lay', k')
      && F.Pending(lay', k') == F.Pending(lay, k) + [Msg(req.now, req.body)]
  {
    hide F.Stores, F.Exact, F.Pending, ResumesBefore, Journalled, PutData, F.AfterPut, NeedsRotation, Line, ReadItem;
    hide Survivor, WellFormed, SameSettings, DefaultSettings;
    RunningParts(q, lay, k, tr.pre, tr.rs, tr.k0);
    var m := Msg(req.now, req.body);
    assert Fits(m, q.max);
    var u, todo := PutData(q, m), F.Pending(lay, k) + [m];
    lay' := F.AfterPut(q, lay, m);
    var rs', k0' := PutJournalled(q, lay, k, true, tr.pre, tr.rs, tr.k0, m);
    F.PutAppends(q, lay, k, m);
    F.PutExact(q, lay, k, m);
    R.StoresShape(u, lay', k);
    ExactShape(u, lay', k);
    k' := RestartResumes(u, lay', k, todo, true, tr.pre, rs', k0', t, conf);
    TornIs(u, Torn(q, req, t), t, conf);
    F.ExactMoved(u, lay', k, Reborn(u, t, conf), k');
  }

  /** It does not matter whether the line was cut or not finished. */
  lemma TornIs(u: Queue, q: Queue, t: nat, conf: Defaults)
    requires t <= RTAG_ITEM_LEN && q.rtag == u.rtag + Line(CurrentRecord(u))[..t]
    requires q.max == u.max && q.disk == u.disk && q.rd.index == u.rd.index && q.wr.index == u.wr.index
    ensures Reborn(q, 0, conf) == Reborn(u, t, conf)
  {
    hide Line, ReadItem;
    assert q.rtag + Line(CurrentRecord(q))[..0] == q.rtag;
  }

  lemma TornGet(q: Queue, lay: seq<seq<Chunk>>, k: nat, tr: Trail, req: R.Request, t: nat, conf: Defaults)
      returns (lay': seq<seq<Chunk>>, k': nat)
    requires Running(q, lay, k, tr.pre, tr.rs, tr.k0) && 0 < t <= RTAG_ITEM_LEN && conf.delay < U32
    requires WellFormed(q) && R.Sensible(req) && req.GetReq? && R.Logs(R.Serve(q, req).1)
    ensures |lay| > 0 && k <= |lay[0]| && |lay'| > 0 && k' <= |lay'[0]|
    ensures var q' := Reborn(Torn(q, req, t), 0, conf);
      && F.Stores(q', lay', k') && F.Exact(q', lay', k') && F.Pending(lay, k) != []
      && F.Pending(lay', k') == Remaining(F.Pending(lay, k), req, t)
  {
    hide F.Stores, F.Exact, F.Pending, ResumesBefore, Journalled, GetData, Line, ReadItem;
    hide Survivor, WellFormed, SameSettings, DefaultSettings;
    RunningParts(q, lay, k, tr.pre, tr.rs, tr.k0);
    var lay1, k1, pre1, rs1, k01 := GetJournalled(q, lay, k, true, tr.pre, tr.rs, tr.k0, req.now);
    var u := GetData(q, req.now).0;
    TodoOf(u, lay1, F.Pending(lay, k), true, pre1, rs1, k01);
    R.StoresShape(u, lay1, k1);
    ExactShape(u, lay1, k1);
    lay' := lay1;
    k' := RestartResumes(u, lay1, k1, F.Pending(lay, k), true, pre1, rs1, k01, t, conf);
    TornIs(u, Torn(q, req, t), t, conf);
    F.ExactMoved(u, lay1, k1, Reborn(u, t, conf), k');
  }

  lemma TornSetting(q: Queue, lay: seq<seq<Chunk>>, k: nat, tr: Trail, req: R.Request, t: nat, conf: Defaults)
      returns (k': nat)
    requires Running(q, lay, k, tr.pre, tr.rs, tr.k0) && 0 < t <= RTAG_ITEM_LEN && conf.delay < U32
    requires WellFormed(q) && R.Sensible(req) && !req.PutReq? && !req.GetReq?
    ensures |lay| > 0 && k <= |lay[0]| && k' <= |lay[0]|
    ensures var q' := Reborn(Torn(q, req, t), 0, conf);
      F.Stores(q', lay, k') && F.Exact(q', lay, k') && F.Pending(lay, k') == F.Pending(lay, k)
  {
    hide F.Stores, F.Exact, F.Pending, Journalled, Line, Lines, ReadItem, F.ReadAt, Plausible, TornResult, Anchored;
    hide WellFormed, Resumes;
    RunningParts(q, lay, k, tr.pre, tr.rs, tr.k0);
    var q' := R.Serve(q, req).0;
    var u := q.(maxque := q'.maxque, delay := q'.delay, wlock := q'.wlock);
    var r, last := CurrentRecord(u), tr.rs[|tr.rs| - 1];
    R.Recorded(q, lay, k, u);
    RtagOfResumes(q, lay, F.Pending(lay, k), tr.pre, tr.rs, tr.k0);
    CurrentResumes(u, lay, k);
    ResumesFits(r, u, lay, k);
    ResumesFits(last, q, lay, tr.k0);
    TornRecovery(tr.pre, tr.rs, r, t, q.max, conf);
    HeadReadable(lay[0]);
    RotationResumes(u, lay, k);
    var journal := q.rtag + Line(r)[..t];
    TornIs(u, Torn(q, req, t), t, conf);
    var rec := if t == RTAG_ITEM_LEN then r else if |tr.rs| >= 2 then last.(wpos := q.max) else Fallback(q.max, conf);
    k' := if t == RTAG_ITEM_LEN then k else if |tr.rs| >= 2 then tr.k0 else 0;
    if t < RTAG_ITEM_LEN && |tr.rs| == 1 {
      ShortFallsBack([], last, Line(r)[..t], q.max, conf);
    }
    RestoredStores(u, lay, k, rec, k', journal);
    F.ExactMoved(u, lay, k, Reborn(u, t, conf), k');
  }

  /** A stop inside a line, with two lines to go back to: what it leaves is stored and read back. */
  lemma {:induction false} TornKept(q: Queue, lay: seq<seq<Chunk>>, k: nat, tr: Trail, req: R.Request, t: nat,
                                    conf: Defaults, files: seq<nat>)
      returns (lay': seq<seq<Chunk>>, k': nat, tr': Trail)
    requires Running(q, lay, k, tr.pre, tr.rs, tr.k0) && 0 < t <= RTAG_ITEM_LEN
    requires conf.delay < U32 && conf.maxque < U32
    requires WellFormed(q) && R.Sensible(req) && R.Logs(R.Serve(q, req).1) && Lists(Torn(q, req, t), files)
    ensures CanBegin(Torn(q, req, t), conf, files)
    ensures |lay| > 0 && k <= |lay[0]| && |lay'| > 0 && k' <= |lay'[0]|
    ensures F.Pending(lay', k') == Remaining(F.Pending(lay, k), req, t)
    ensures Kept(Begin(Torn(q, req, t), conf, files), lay', k', tr', conf)
    ensures Served(Torn(q, req, t), F.Pending(lay', k'), conf, files)
  {
    hide F.Stores, F.Exact, F.Pending, Running, Torn, Reborn, R.Serve, Served, Kept, Begin, CanBegin, Lists;
    hide WellFormed;
    lay' := lay;
    match req {
      case PutReq(body, now) =>
        OnlyAccepted(q, req);
        lay', k' := TornPut(q, lay, k, tr, req, t, conf);
      case GetReq(now) =>
        lay', k' := TornGet(q, lay, k, tr, req, t, conf);
      case _ =>
        k' := TornSetting(q, lay, k, tr, req, t, conf);
    }
    Begins(Torn(q, req, t), lay', F.Pending(lay', k'), k', conf, files);
    tr' := Trail(Torn(q, req, t).rtag, [], k');
  }

  lemma OnlyAccepted(q: Queue, req: R.Request)
    requires WellFormed(q) && R.Sensible(req) && req.PutReq? && R.Logs(R.Serve(q, req).1)
    ensures R.Serve(q, req).1 == R.PutReply(PutOk)
  {
    hide WellFormed, PutData;
  }

  /** The same inside the line of a rotation: nothing is put yet. */
  lemma {:induction false} TurnKept(q: Queue, lay: seq<seq<Chunk>>, k: nat, tr: Trail, req: R.Request, t: nat,
                                    conf: Defaults, files: seq<nat>)
      returns (lay': seq<seq<Chunk>>, k': nat, tr': Trail)
    requires Running(q, lay, k, tr.pre, tr.rs, tr.k0) && 0 < t <= RTAG_ITEM_LEN
    requires conf.delay < U32 && conf.maxque < U32
    requires WellFormed(q) && R.Sensible(req) && R.Seals(q, req) && Lists(TurnTorn(q, t), files)
    ensures CanBegin(TurnTorn(q, t), conf, files)
    ensures |lay| > 0 && k <= |lay[0]| && |lay'| > 0 && k' <= |lay'[0]|
    ensures F.Pending(lay', k') == F.Pending(lay, k)
    ensures Kept(Begin(TurnTorn(q, t), conf, files), lay', k', tr', conf)
    ensures Served(TurnTorn(q, t), F.Pending(lay', k'), conf, files)
  {
    hide F.Stores, F.Exact, F.Pending, Running, TurnTorn, Turned, ReadItem, R.Seals, Served, Kept, Begin, CanBegin;
    hide Lists;
    hide ResumesBefore, Journalled, Line, Survivor, WellFormed, SameSettings, DefaultSettings;
    RunningParts(q, lay, k, tr.pre, tr.rs, tr.k0);
    var u, q' := Turned(q), TurnTorn(q, t);
    lay' := lay + [[]];
    TurnStores(q, lay, k, tr, req);
    ExactShape(u, lay', k);
    k' := RestartResumes(u, lay', k, F.Pending(lay, k), true, tr.pre, tr.rs, tr.k0, t, conf);
    TurnTornIs(q, t, conf);
    RebornCursors(q', conf);
    TurnFiles(q, t);
    F.ExactMoved(u, lay', k, Reborn(q', 0, conf), k');
    Begins(q', lay', F.Pending(lay', k'), k', conf, files);
    tr' := Trail(q'.rtag, [], k');
  }

  lemma TurnFiles(q: Queue, t: nat)
    requires WellFormed(q) && t <= LINE_LEN
    ensures var u, q' := Turned(q), TurnTorn(q, t);
      q'.disk == u.disk && q'.wr == u.wr && q'.rd.index == u.rd.index && q'.max == u.max
  {
    hide Line, NextWriteFile, WriteFileHead;
  }

  lemma TurnTornIs(q: Queue, t: nat, conf: Defaults)
    requires WellFormed(q) && t <= RTAG_ITEM_LEN
    ensures Reborn(TurnTorn(q, t), 0, conf) == Reborn(Turned(q), t, conf)
  {
    hide Line, NextWriteFile, WriteFileHead, Reborn;
    TurnFiles(q, t);
    TornIs(Turned(q), TurnTorn(q, t), t, conf);
  }

  lemma TurnStores(q: Queue, lay: seq<seq<Chunk>>, k: nat, tr: Trail, req: R.Request)
    requires Running(q, lay, k, tr.pre, tr.rs, tr.k0) && WellFormed(q) && R.Sensible(req) && R.Seals(q, req)
    ensures var u, lay' := Turned(q), lay + [[]];
      && |lay| > 0 && k <= |lay[0]| && |lay'| > 0 && k <= |lay'[0]|
      && F.Stores(u, lay', k) && F.Exact(u, lay', k) && F.Pending(lay', k) == F.Pending(lay, k)
      && F.Pending(lay', 0) == F.Pending(lay, 0)
      && ResumesBefore(u, lay', F.Pending(lay, k), true, tr.pre, tr.rs, tr.k0)
  {
    hide F.Stores, F.Exact, F.Pending, Journalled, Line, Lines, FileHead, FreshSegment, Overwrite, PutData;
    RunningParts(q, lay, k, tr.pre, tr.rs, tr.k0);
    var m := Msg(req.now, req.body);
    F.RotationStores(q, lay, k, m);
    F.RotationExact(q, lay, k);
    SameDelayThere(q);
    R.Recorded(Rotated(q, m), lay + [[]], k, Turned(q));
    F.PendingEmptySegment(lay, k);
    F.PendingEmptySegment(lay, 0);
    TurnResumes(q, lay, k, tr);
  }

  lemma SameDelayThere(q: Queue)
    requires WellFormed(q)
    ensures var u := Turned(q);
      u.delay == q.delay < U32 && u.maxque == q.maxque && u.wlock == q.wlock && u.max == q.max && u.rtag == q.rtag
  {
    hide Line, FileHead, FreshSegment, Overwrite;
  }

  lemma TurnResumes(q: Queue, lay: seq<seq<Chunk>>, k: nat, tr: Trail)
    requires WellFormed(q) && |lay| > 0 && k <= |lay[0]|
    requires ResumesBefore(q, lay, F.Pending(lay, k), true, tr.pre, tr.rs, tr.k0)
    ensures ResumesBefore(Turned(q), lay + [[]], F.Pending(lay, k), true, tr.pre, tr.rs, tr.k0)
  {
    hide F.Pending, Lines, F.ReadAt, Turned;
    SameDelayThere(q);
    F.PendingEmptySegment(lay, tr.k0);
  }

  // ----- A stop before the line

  /** A get that has handed out nothing yet, or a setting: the journal promises what it promised before. */
  lemma {:induction false} GetUnlogged(q: Queue, lay: seq<seq<Chunk>>, k: nat, tr: Trail, now: nat, conf: Defaults,
                                       n: nat)
      returns (lay': seq<seq<Chunk>>, k': nat, tr': Trail)
    requires Kept(q, lay, k, tr, conf) && Lined(q, lay, k, tr, n) && WellFormed(q) && now < 0x8000_0000
    ensures |lay| > 0 && k <= |lay[0]| && |lay'| > 0 && k' <= |lay'[0]|
    ensures var u := GetData(q, now).0;
      F.Stores(u, lay', k') && F.Exact(u, lay', k') && Promises(u, lay', F.Pending(lay, k), tr', conf, n)
  {
    hide F.Stores, F.Exact, F.Pending, GetData, Journalled, Line, Lines, Readable, Resumes;
    KeptParts(q, lay, k, tr, conf);
    if tr.rs != [] {
      var pre, rs, k0;
      lay', k', pre, rs, k0 := GetJournalled(q, lay, k, true, tr.pre, tr.rs, tr.k0, now);
      tr' := Trail(pre, rs, k0);
      TodoOf(GetData(q, now).0, lay', F.Pending(lay, k), true, pre, rs, k0);
    } else {
      lay', k' := F.GetDelivers(q, lay, k, now);
      tr' := BarePromise(q, lay, k, tr, conf, now, lay', k');
    }
  }

  // ----- One process after another

  /** The queue can be restarted before the messages items, with n lines written since the last tear. */
  ghost predicate Startable(q: Queue, items: seq<Msg>, conf: Defaults, n: nat) {
    forall files :: Lists(q, files) ==>
      && Served(q, items, conf, files)
      && exists lay, k, tr :: Starts(q, items, conf, n, files, lay, k, tr)
  }

  ghost predicate Starts(q: Queue, items: seq<Msg>, conf: Defaults, n: nat, files: seq<nat>,
                         lay: seq<seq<Chunk>>, k: nat, tr: Trail) {
    && CanBegin(q, conf, files) && Kept(Begin(q, conf, files), lay, k, tr, conf)
    && Lined(Begin(q, conf, files), lay, k, tr, n) && F.Pending(lay, k) == items
  }

  lemma KeptStarts(q: Queue, lay: seq<seq<Chunk>>, k: nat, tr: Trail, conf: Defaults, n: nat)
    requires Kept(q, lay, k, tr, conf) && Lined(q, lay, k, tr, n) && conf.delay < U32 && conf.maxque < U32
    ensures |lay| > 0 && k <= |lay[0]| && Startable(q, F.Pending(lay, k), conf, n)
  {
    hide Kept, Lined, Served, Lists, Begin, CanBegin, F.Pending, F.Stores, F.Exact, Readable, Logged, SettingsOk;
    KeptParts(q, lay, k, tr, conf);
    forall files | Lists(q, files)
      ensures Served(q, F.Pending(lay, k), conf, files)
      ensures exists lay', k', tr' :: Starts(q, F.Pending(lay, k), conf, n, files, lay', k', tr')
    {
      var k', tr' := RestartKept(q, lay, k, tr, conf, n, files);
      assert Starts(q, F.Pending(lay, k), conf, n, files, lay, k', tr');
    }
  }

  lemma TornStarts(q: Queue, lay: seq<seq<Chunk>>, k: nat, tr: Trail, req: R.Request, t: nat, conf: Defaults)
    requires Running(q, lay, k, tr.pre, tr.rs, tr.k0) && 0 < t <= RTAG_ITEM_LEN
    requires conf.delay < U32 && conf.maxque < U32
    requires WellFormed(q) && R.Sensible(req) && R.Logs(R.Serve(q, req).1)
    ensures |lay| > 0 && k <= |lay[0]| && Startable(Torn(q, req, t), Remaining(F.Pending(lay, k), req, t), conf, 0)
  {
    hide Kept, Served, Lists, Begin, CanBegin, F.Pending, F.Stores, F.Exact, Running, Torn, Remaining, R.Serve;
    hide WellFormed;
    RunningParts(q, lay, k, tr.pre, tr.rs, tr.k0);
    var q', items := Torn(q, req, t), Remaining(F.Pending(lay, k), req, t);
    forall files | Lists(q', files)
      ensures Served(q', items, conf, files)
      ensures exists lay', k', tr' :: Starts(q', items, conf, 0, files, lay', k', tr')
    {
      var lay', k', tr' := TornKept(q, lay, k, tr, req, t, conf, files);
      assert Starts(q', items, conf, 0, files, lay', k', tr');
    }
  }

  lemma TurnStarts(q: Queue, lay: seq<seq<Chunk>>, k: nat, tr: Trail, req: R.Request, t: nat, conf: Defaults)
    requires Running(q, lay, k, tr.pre, tr.rs, tr.k0) && 0 < t <= RTAG_ITEM_LEN
    requires conf.delay < U32 && conf.maxque < U32
    requires WellFormed(q) && R.Sensible(req) && R.Seals(q, req)
    ensures |lay| > 0 && k <= |lay[0]| && Startable(TurnTorn(q, t), F.Pending(lay, k), conf, 0)
  {
    hide Kept, Served, Lists, Begin, CanBegin, F.Pending, F.Stores, F.Exact, Running, TurnTorn, R.Seals, WellFormed;
    RunningParts(q, lay, k, tr.pre, tr.rs, tr.k0);
    var q', items := TurnTorn(q, t), F.Pending(lay, k);
    forall files | Lists(q', files)
      ensures Served(q', items, conf, files)
      ensures exists lay', k', tr' :: Starts(q', items, conf, 0, files, lay', k', tr')
    {
      var lay', k', tr' := TurnKept(q, lay, k, tr, req, t, conf, files);
      assert Starts(q', items, conf, 0, files, lay', k', tr');
    }
  }

  lemma PromiseStarts(q: Queue, lay: seq<seq<Chunk>>, k: nat, todo: seq<Msg>, tr: Trail, conf: Defaults, n: nat)
    requires F.Stores(q, lay, k) && |lay| > 0 && k <= |lay[0]| && F.Exact(q, lay, k)
    requires Promises(q, lay, todo, tr, conf, n) && conf.delay < U32 && conf.maxque < U32
    ensures Startable(q, todo, conf, n)
  {
    hide Kept, Lined, Served, Lists, Begin, CanBegin, F.Pending, F.Stores, F.Exact, Promises;
    forall files | Lists(q, files)
      ensures Served(q, todo, conf, files)
      ensures exists lay', k', tr' :: Starts(q, todo, conf, n, files, lay', k', tr')
    {
      var k', tr' := RestartFor(q, lay, k, todo, tr, conf, n, files);
      assert Starts(q, todo, conf, n, files, lay, k', tr');
    }
  }

  /** Only the files and the journal count for a restart. */
  lemma StartsAlike(q: Queue, q': Queue, items: seq<Msg>, conf: Defaults, n: nat)
    requires Startable(q, items, conf, n) && q'.disk == q.disk && Reborn(q', 0, conf) == Reborn(q, 0, conf)
    ensures Startable(q', items, conf, n)
  {
    hide Kept, Lined, F.Pending, Reborn, AnswersCounting, Answers, Honest, WellFormed, Recounted;
    forall files | Lists(q', files)
      ensures Served(q', items, conf, files)
      ensures exists lay', k', tr' :: Starts(q', items, conf, n, files, lay', k', tr')
    {
      ListsAlike(q', q, files);
      var lay, k, tr :| Starts(q, items, conf, n, files, lay, k, tr);
      assert Starts(q', items, conf, n, files, lay, k, tr);
    }
  }

  lemma UnloggedStarts(q: Queue, lay: seq<seq<Chunk>>, k: nat, tr: Trail, req: R.Request, conf: Defaults, n: nat)
    requires Kept(q, lay, k, tr, conf) && Lined(q, lay, k, tr, n) && conf.delay < U32 && conf.maxque < U32
    requires WellFormed(q) && R.Sensible(req) && R.Logs(R.Serve(q, req).1) && !req.PutReq?
    ensures |lay| > 0 && k <= |lay[0]| && Startable(Torn(q, req, 0), F.Pending(lay, k), conf, n)
  {
    hide Kept, Lined, F.Pending, F.Stores, F.Exact, WellFormed, Startable, Promises, Torn, Reborn, R.Serve;
    KeptParts(q, lay, k, tr, conf);
    if req.GetReq? {
      var lay', k', tr' := GetUnlogged(q, lay, k, tr, req.now, conf, n);
      PromiseStarts(GetData(q, req.now).0, lay', k', F.Pending(lay, k), tr', conf, n);
      UnloggedGet(q, req);
    } else {
      KeptStarts(q, lay, k, tr, conf, n);
      UnloggedSetting(q, req, conf);
      StartsAlike(q, Torn(q, req, 0), F.Pending(lay, k), conf, n);
    }
  }

  lemma UnloggedGet(q: Queue, req: R.Request)
    requires WellFormed(q) && R.Sensible(req) && R.Logs(R.Serve(q, req).1) && req.GetReq?
    ensures Torn(q, req, 0) == GetData(q, req.now).0
  {
    hide GetData, Line, WellFormed, R.Serve;
    var u := GetData(q, req.now).0;
    DeliveredLogs(q, req.now);
    CutAll(u.rtag, Line(CurrentRecord(u)));
  }

  lemma DeliveredLogs(q: Queue, now: nat)
    requires WellFormed(q) && now < 0x8000_0000 && R.Logs(R.Serve(q, R.GetReq(now)).1)
    ensures R.Serve(q, R.GetReq(now)).0 == WriteItem(GetData(q, now).0)
  {
    hide GetData, Line, WellFormed, WriteItem;
    assert R.Serve(q, R.GetReq(now)) == (Get(q, now).0, R.GetReply(Get(q, now).1));
    assert Get(q, now).1.Some?;
  }

  lemma CutAll(a: seq<byte>, line: seq<byte>)
    requires |line| == LINE_LEN
    ensures (a + line)[..|a + line| - LINE_LEN] == a
  {}

  lemma UnloggedSetting(q: Queue, req: R.Request, conf: Defaults)
    requires WellFormed(q) && R.Sensible(req) && !req.PutReq? && !req.GetReq?
    ensures Torn(q, req, 0).disk == q.disk && Reborn(Torn(q, req, 0), 0, conf) == Reborn(q, 0, conf)
  {
    hide Line, ReadItem, WellFormed;
    var q' := Torn(q, req, 0);
    assert q'.rtag == q.rtag;
    assert q.rtag + Line(CurrentRecord(q))[..0] == q.rtag && q.rtag + Line(CurrentRecord(q'))[..0] == q.rtag;
  }

  // ----- One process

  /** The stop is one of a request that journals: inside its line, before it when the request is no put, or
      inside the line of its rotation. */
  ghost predicate CanStop(q: Queue, stop: Stop)
    requires WellFormed(q)
  {
    match stop
    case Between => true
    case InLine(req, t) =>
      R.Sensible(req) && R.Logs(R.Serve(q, req).1) && t <= RTAG_ITEM_LEN && (t == 0 ==> !req.PutReq?)
    case InRotation(req, t) =>
      R.Sensible(req) && R.Seals(q, req) && 0 < t <= RTAG_ITEM_LEN
  }

  /** It leaves a fragment of a line. */
  predicate Tears(stop: Stop) { !stop.Between? && stop.t > 0 }

  /** The files that it leaves. */
  ghost function Stopped(q: Queue, stop: Stop): (q': Queue)
    requires WellFormed(q) && CanStop(q, stop)
    ensures WellFormed(q')
  {
    match stop
    case Between => q
    case InLine(req, t) => Torn(q, req, t)
    case InRotation(_, t) => TurnTorn(q, t)
  }

  /** A message whose put was stopped inside its own line is stored. */
  function StoredBy(stop: Stop): seq<Msg> {
    if stop.InLine? && stop.req.PutReq? then [Msg(stop.req.now, stop.req.body)] else []
  }

  /** A message whose get was stopped right before the newline of its line is taken out. */
  ghost function TakenBy(q: Queue, stop: Stop): seq<Msg>
    requires WellFormed(q) && CanStop(q, stop)
  {
    if stop.InLine? && stop.req.GetReq? && stop.t == RTAG_ITEM_LEN then R.DeliveredOne(R.Serve(q, stop.req).1) else []
  }

  /** What the stop leaves can be started again. */
  lemma StopStarts(q: Queue, lay: seq<seq<Chunk>>, k: nat, tr: Trail, stop: Stop, conf: Defaults, n: nat)
      returns (items: seq<Msg>)
    requires Kept(q, lay, k, tr, conf) && Lined(q, lay, k, tr, n) && conf.delay < U32 && conf.maxque < U32
    requires WellFormed(q) && CanStop(q, stop) && (Tears(stop) ==> n >= 2)
    ensures |lay| > 0 && k <= |lay[0]|
    ensures F.Pending(lay, k) + StoredBy(stop) == TakenBy(q, stop) + items
    ensures Startable(Stopped(q, stop), items, conf, if Tears(stop) then 0 else n)
  {
    hide Kept, Lined, F.Pending, F.Stores, F.Exact, WellFormed, Startable, Torn, TurnTorn, R.Serve, R.Seals, Running;
    hide Readable, Logged, SettingsOk, R.DeliveredOne, Remaining;
    KeptParts(q, lay, k, tr, conf);
    items := F.Pending(lay, k);
    assert items + [] == [] + items;
    match stop {
      case Between =>
        KeptStarts(q, lay, k, tr, conf, n);
      case InRotation(req, t) =>
        LinedRuns(q, lay, k, tr, n);
        TurnStarts(q, lay, k, tr, req, t, conf);
      case InLine(req, t) =>
        if t == 0 {
          UnloggedStarts(q, lay, k, tr, req, conf, n);
        } else {
          LinedRuns(q, lay, k, tr, n);
          TornStarts(q, lay, k, tr, req, t, conf);
          StopTakes(q, lay, k, req, t);
          items := Remaining(items, req, t);
        }
    }
  }

  lemma LinedRuns(q: Queue, lay: seq<seq<Chunk>>, k: nat, tr: Trail, n: nat)
    requires Lined(q, lay, k, tr, n) && n >= 2
    ensures Running(q, lay, k, tr.pre, tr.rs, tr.k0)
  {}

  /** The message of a get that is stopped at the end of its line is the first one pending. */
  lemma StopTakes(q: Queue, lay: seq<seq<Chunk>>, k: nat, req: R.Request, t: nat)
    requires F.Stores(q, lay, k) && |lay| > 0 && k <= |lay[0]| && WellFormed(q) && R.Sensible(req)
    requires R.Logs(R.Serve(q, req).1) && 0 < t <= RTAG_ITEM_LEN
    ensures var items := F.Pending(lay, k);
      var a := if req.PutReq? then [Msg(req.now, req.body)] else [];
      var c := if req.GetReq? && t == RTAG_ITEM_LEN then R.DeliveredOne(R.Serve(q, req).1) else [];
      items + a == c + Remaining(items, req, t)
  {
    hide F.Stores, F.Pending, R.Serve, WellFormed, IsLocked, TooYoung, NewLock;
    var lay', k' := R.OneServed(q, lay, k, req);
    var items := F.Pending(lay, k);
    if req.GetReq? {
      assert items != [] && R.Serve(q, req).1.msg == Some(items[0]);
      assert items == [items[0]] + items[1..];
    }
  }

  /** The process finds every segment file listed once, serves sensible requests, and leaves a fragment of a
      line only when two lines have been written since the last one. */
  ghost predicate Orderly(q: Queue, conf: Defaults, n: nat, life: Life) {
    && Lists(q, life.files) && R.AllSensible(life.reqs) && CanBegin(q, conf, life.files)
    && var (q1, replies) := Run(q, conf, Process(life.files, life.reqs));
      WellFormed(q1) && CanStop(q1, life.stop) && (Tears(life.stop) ==> n + LinesIn(replies) >= 2)
  }

  /** The files that the process leaves, and the lines since the last tear. */
  ghost function Left(q: Queue, conf: Defaults, n: nat, life: Life): (r: (Queue, nat))
    requires Orderly(q, conf, n, life)
  {
    var (q1, replies) := Run(q, conf, Process(life.files, life.reqs));
    (Stopped(q1, life.stop), if Tears(life.stop) then 0 else n + LinesIn(replies))
  }

  /** What put has stored: everything acknowledged, and a message whose put was stopped inside its line. */
  ghost function Stored(q: Queue, conf: Defaults, n: nat, life: Life): seq<Msg>
    requires Orderly(q, conf, n, life)
  {
    R.Accepted(life.reqs, Run(q, conf, Process(life.files, life.reqs)).1) + StoredBy(life.stop)
  }

  /** What get has taken out: everything handed out, and a message whose get was stopped right before the
      newline of its line. */
  ghost function Taken(q: Queue, conf: Defaults, n: nat, life: Life): seq<Msg>
    requires Orderly(q, conf, n, life)
  {
    var (q1, replies) := Run(q, conf, Process(life.files, life.reqs));
    R.Delivered(replies) + TakenBy(q1, life.stop)
  }

  /** One process: what was pending and what it stored is what it took out and what is pending then. */
  lemma {:induction false} OneLife(q: Queue, items: seq<Msg>, conf: Defaults, n: nat, life: Life)
      returns (items': seq<Msg>)
    requires Startable(q, items, conf, n) && Orderly(q, conf, n, life) && conf.delay < U32 && conf.maxque < U32
    ensures Served(q, items, conf, life.files)
    ensures items + Stored(q, conf, n, life) == Taken(q, conf, n, life) + items'
    ensures Startable(Left(q, conf, n, life).0, items', conf, Left(q, conf, n, life).1)
  {
    hide Kept, Lined, Served, Lists, Begin, CanBegin, F.Pending, F.Stores, F.Exact, R.Serve, R.ServeAll, CanStop;
    hide WellFormed, Startable, R.AnswerAll, Readable, Logged, SettingsOk, R.Accepted, R.Delivered, R.Answer, Stopped;
    hide StoredBy, TakenBy, Tears;
    var lay, k, tr := StartOf(q, items, conf, n, life.files);
    var b := Begin(q, conf, life.files);
    KeptParts(b, lay, k, tr, conf);
    var lay1, k1, tr1 := RunKept(b, lay, k, tr, conf, n, life.reqs);
    var (q1, replies) := R.ServeAll(b, life.reqs);
    R.MemoryConserves(R.View(b, lay, k), b.max, life.reqs);
    KeptParts(q1, lay1, k1, tr1, conf);
    var items1 := F.Pending(lay1, k1);
    assert items + R.Accepted(life.reqs, replies) == R.Delivered(replies) + items1;
    items' := StopStarts(q1, lay1, k1, tr1, life.stop, conf, n + LinesIn(replies));
    var a, c := StoredBy(life.stop), TakenBy(q1, life.stop);
    R.Regroup(items, R.Accepted(life.reqs, replies), R.Delivered(replies), items1, a, c + items');
    assert R.Delivered(replies) + (c + items') == (R.Delivered(replies) + c) + items';
  }

  lemma StartOf(q: Queue, items: seq<Msg>, conf: Defaults, n: nat, files: seq<nat>)
      returns (lay: seq<seq<Chunk>>, k: nat, tr: Trail)
    requires Startable(q, items, conf, n) && Lists(q, files)
    ensures Served(q, items, conf, files) && CanBegin(q, conf, files)
    ensures Kept(Begin(q, conf, files), lay, k, tr, conf) && Lined(Begin(q, conf, files), lay, k, tr, n)
    ensures |lay| > 0 && k <= |lay[0]| && F.Pending(lay, k) == items
  {
    hide Lined, Served, Lists, Begin, CanBegin, F.Pending, F.Stores, F.Exact, Logged, Readable;
    lay, k, tr :| Starts(q, items, conf, n, files, lay, k, tr);
  }

  // ----- Any number of them

  ghost predicate AllOrderly(q: Queue, conf: Defaults, n: nat, lives: seq<Life>)
    decreases |lives|
  {
    lives == []
    || (Orderly(q, conf, n, lives[0])
        && AllOrderly(Left(q, conf, n, lives[0]).0, conf, Left(q, conf, n, lives[0]).1, lives[1..]))
  }

  /** The queue behind the last process, what all of them stored and what they took out. */
  ghost function After(q: Queue, conf: Defaults, n: nat, lives: seq<Life>): (Queue, seq<Msg>, seq<Msg>)
    requires AllOrderly(q, conf, n, lives)
    decreases |lives|
  {
    if lives == [] then (q, [], [])
    else
      var (q1, n1) := Left(q, conf, n, lives[0]);
      var (q2, stored, taken) := After(q1, conf, n1, lives[1..]);
      (q2, Stored(q, conf, n, lives[0]) + stored, Taken(q, conf, n, lives[0]) + taken)
  }

  lemma {:induction false} LivesConserve(q: Queue, items: seq<Msg>, conf: Defaults, n: nat, lives: seq<Life>)
      returns (items': seq<Msg>)
    requires Startable(q, items, conf, n) && AllOrderly(q, conf, n, lives) && conf.delay < U32 && conf.maxque < U32
    ensures var (q', stored, taken) := After(q, conf, n, lives);
      && items + stored == taken + items'
      && forall files :: Lists(q', files) ==> Served(q', items', conf, files)
    decreases |lives|
  {
    hide Served, Orderly, Left, Stored, Taken, Lists;
    items' := items;
    if lives == [] {
      assert items + [] == [] + items;
    } else {
      var items1 := OneLife(q, items, conf, n, lives[0]);
      var (q1, n1) := Left(q, conf, n, lives[0]);
      items' := LivesConserve(q1, items1, conf, n1, lives[1..]);
      var (q2, stored, taken) := After(q1, conf, n1, lives[1..]);
      R.Regroup(items, Stored(q, conf, n, lives[0]), Taken(q, conf, n, lives[0]), items1, stored, taken + items');
      assert Taken(q, conf, n, lives[0]) + (taken + items') == (Taken(q, conf, n, lives[0]) + taken) + items';
    }
  }

  /** A new queue that has journalled anything, and any number of processes after it, each stopped between
      two requests or at any byte of a journal line: everything stored is taken out once and in order, or
      is still there, whatever the heads of the segments announce; and every process answers as a FIFO of
      what it found, whose counter is right if and only if nothing was pending or the heads are honest. */
  lemma {:induction false} StopsLoseNothing(max: nat, conf: Defaults, first: seq<R.Request>, lives: seq<Life>)
      returns (items: seq<Msg>)
    requires SegmentSize(max) && conf.delay < U32 && conf.maxque < U32 && R.AllSensible(first)
    requires SomeJournal(first, R.ServeAll(Create(max, conf), first).1)
    requires AllOrderly(R.ServeAll(Create(max, conf), first).0, conf, 2, lives)
    ensures var (q, replies) := R.ServeAll(Create(max, conf), first);
      var (q', stored, taken) := After(q, conf, 2, lives);
      && R.Accepted(first, replies) + stored == R.Delivered(replies) + taken + items
      && forall files :: Lists(q', files) ==> Served(q', items, conf, files)
  {
    hide Create, R.ServeAll, R.AnswerAll, AllOrderly, After, Served, Lists, SomeJournal, F.Pending, R.Accepted;
    hide R.Delivered, WellFormed, Startable, F.Stores, F.Exact, F.Right, F.Whole;
    var lay, k, pre, rs, k0 := FirstRun(max, conf, first);
    var (q, replies) := R.ServeAll(Create(max, conf), first);
    R.NewQueueAnswersAsFifo(max, conf, first);
    R.MemoryConserves(R.Empty(conf), max, first);
    var pending := F.Pending(lay, k);
    RunningStarts(q, lay, k, pre, rs, k0, conf);
    items := LivesConserve(q, pending, conf, 2, lives);
    var (q', stored, taken) := After(q, conf, 2, lives);
    assert [] + R.Accepted(first, replies) == R.Accepted(first, replies);
    R.Regroup([], R.Accepted(first, replies), R.Delivered(replies), pending, stored, taken + items);
    assert [] + (R.Accepted(first, replies) + stored) == R.Accepted(first, replies) + stored;
    assert R.Delivered(replies) + (taken + items) == R.Delivered(replies) + taken + items;
  }

  lemma RunningStarts(q: Queue, lay: seq<seq<Chunk>>, k: nat, pre: seq<byte>, rs: seq<Record>, k0: nat, conf: Defaults)
    requires Running(q, lay, k, pre, rs, k0) && conf.delay < U32 && conf.maxque < U32
    ensures |lay| > 0 && k <= |lay[0]| && Startable(q, F.Pending(lay, k), conf, 2)
  {
    hide F.Stores, F.Exact, F.Pending, Kept, Startable, Logged;
    RunningParts(q, lay, k, pre, rs, k0);
    LoggedIsKept(q, lay, k, Trail(pre, rs, k0), conf);
    KeptStarts(q, lay, k, Trail(pre, rs, k0), conf, 2);
  }
}
