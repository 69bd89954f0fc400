/** Restart: what the journal says during a run, and the state that a restart restores from it. */
module Recovery {
  import opened Bytes
  import opened Message
  import opened Segment
  import opened Journal
  import opened Strings
  import opened Store
  import F = Fifo
  import R = Runs

  // ----- The journal during a run

  ghost predicate SettingsOk(q: Queue) {
    q.maxque < U32 && q.delay < U32 && -0x8000_0000 <= q.wlock < 0x8000_0000
  }

  /** A record from which reading can resume: its position stands before chunk k of the oldest
      segment, and the settings are the current ones. */
  ghost predicate Resumes(r: Record, q: Queue, lay: seq<seq<Chunk>>, k: nat) {
    && |lay| > 0
    && Storable(r) && Plausible(r, q.max)
    && F.ReadAt(lay[0], k, r.rpos) && MSG_HEAD_LEN * r.rcount <= r.rpos
    && r.maxque == q.maxque && r.delay == q.delay && r.wlock == q.wlock
  }

  /** Behind arbitrary older bytes the journal holds the lines rs, and the last one resumes before
      exactly the messages todo. When the counts are exact, its count is the number of messages
      before its position. */
  ghost predicate ResumesBefore(q: Queue, lay: seq<seq<Chunk>>, todo: seq<Msg>, exact: bool,
                                pre: seq<byte>, rs: seq<Record>, k0: nat) {
    && |rs| >= 1 && q.rtag == pre + Lines(rs)
    && SettingsOk(q)
    && var r := rs[|rs| - 1];
      && Resumes(r, q, lay, k0)
      && k0 <= |lay[0]| && F.Pending(lay, k0) == todo
      && (exact ==> r.rcount == k0)
  }

  /** The last line also knows the write position. */
  ghost predicate Journalled(q: Queue, lay: seq<seq<Chunk>>, todo: seq<Msg>, exact: bool,
                             pre: seq<byte>, rs: seq<Record>, k0: nat) {
    && ResumesBefore(q, lay, todo, exact, pre, rs, k0)
    && var r := rs[|rs| - 1];
      r.wpos == q.wr.pos && (q.rd.index == q.wr.index ==> r.rpos <= q.wr.pos)
  }

  lemma CurrentResumes(q: Queue, lay: seq<seq<Chunk>>, k: nat)
    requires F.Stores(q, lay, k) && SettingsOk(q)
    ensures Resumes(CurrentRecord(q), q, lay, k)
  {
    hide Holds, F.ReadAt;
  }

  lemma JournalAppend(pre: seq<byte>, rs: seq<Record>, r: Record)
    ensures pre + Lines(rs) + Line(r) == pre + Lines(rs + [r])
  {
    hide Line;
    assert (rs + [r])[..|rs|] == rs;
  }

  /** Right after a line was written for it, the state is journalled. */
  lemma JustWritten(q: Queue, lay: seq<seq<Chunk>>, k: nat, exact: bool, pre: seq<byte>, rs: seq<Record>)
    requires F.Stores(q, lay, k) && SettingsOk(q) && q.rtag == pre + Lines(rs)
    requires exact ==> q.rd.count == k
    ensures k <= |lay[0]|
    ensures Journalled(WriteItem(q), lay, F.Pending(lay, k), exact, pre, rs + [CurrentRecord(q)], k)
  {
    hide Holds, F.ReadAt, Line, Lines, Resumes, F.Pending;
    CurrentResumes(q, lay, k);
    R.StoresShape(q, lay, k);
    JournalAppend(pre, rs, CurrentRecord(q));
    ResumesAlike(CurrentRecord(q), q, WriteItem(q), lay, k);
  }

  lemma ResumesAlike(r: Record, q: Queue, q': Queue, lay: seq<seq<Chunk>>, k: nat)
    requires Resumes(r, q, lay, k)
    requires q'.max == q.max && q'.maxque == q.maxque && q'.delay == q.delay && q'.wlock == q.wlock
    ensures Resumes(r, q', lay, k)
  {}

  /** Get leaves the journal alone, except that each new read segment starts a new one. */
  lemma {:induction false} JournalOfGet(q: Queue, now: int)
    requires WellFormed(q)
    ensures var q' := GetData(q, now).0;
      && q'.rd.index >= q.rd.index
      && (q'.rd.index == q.rd.index ==> q'.rtag == q.rtag)
      && (q'.rd.index > q.rd.index ==>
           q'.rtag == Line(Record(0, DB_FILE_HEAD_LEN, q.wr.pos, q.maxque, q.delay, q.wlock)))
    decreases q.wr.index - q.rd.index, q.max - q.rd.pos
  {
    hide ParseMsg, Line;
    match GetStep(q, now)
    case Continue(q') =>
      JournalOfGet(q', now);
      assert [] + Line(CurrentRecord(q')) == Line(CurrentRecord(q'));
    case Return(q', msg) =>
  }

  /** A get that delivers nothing counts nothing. */
  lemma {:induction false} CountOfGet(q: Queue, now: int)
    requires WellFormed(q) && GetData(q, now).1.None?
    ensures var q' := GetData(q, now).0;
      q'.rd.count == if q'.rd.index == q.rd.index then q.rd.count else 0
    decreases q.wr.index - q.rd.index, q.max - q.rd.pos
  {
    hide ParseMsg, Line;
    match GetStep(q, now)
    case Continue(q') => JournalOfGet(q', now); CountOfGet(q', now);
    case Return(q', msg) =>
  }

  /** A get that stays in its segment appends one line when it hands out a message, and otherwise nothing; one
      that goes on to another segment leaves a journal of one line more. */
  lemma {:induction false} GetWrites(q: Queue, now: nat)
    requires WellFormed(q)
    ensures var (q', msg) := Get(q, now);
      var lines := (if msg.Some? then 1 else 0) + if q'.rd.index > q.rd.index then 1 else 0;
      && q'.rd.index >= q.rd.index
      && (q'.rd.index == q.rd.index ==> q.rtag <= q'.rtag && |q'.rtag| == |q.rtag| + 61 * lines)
      && (q'.rd.index > q.rd.index ==> |q'.rtag| == 61 * lines)
  {
    hide Line, GetData, WellFormed;
    if q.unread >= 1 {
      JournalOfGet(q, now);
    }
  }

  // ----- Every request keeps the journal good for a restart

  /** What get does to the journal before any line is written for it: the last line still resumes
      before every message that was pending, wherever the reader has moved. */
  lemma {:induction false} GetJournalled(q: Queue, lay: seq<seq<Chunk>>, k: nat, exact: bool,
                      pre: seq<byte>, rs: seq<Record>, k0: nat, now: int)
      returns (lay': seq<seq<Chunk>>, k': nat, pre': seq<byte>, rs': seq<Record>, k0': nat)
    requires F.Stores(q, lay, k) && k <= |lay[0]|
    requires Journalled(q, lay, F.Pending(lay, k), exact, pre, rs, k0)
    ensures var (q', msg) := GetData(q, now);
      && |lay'| > 0 && k' <= |lay'[0]| && F.Stores(q', lay', k')
      && (F.Exact(q, lay, k) ==> F.Exact(q', lay', k'))
      && F.GetSpec(q, F.Pending(lay, k), now, q', msg, F.Pending(lay', k'))
      && Journalled(q', lay', F.Pending(lay, k), exact, pre', rs', k0')
      && (if q'.rd.index == q.rd.index then pre' == pre && rs' == rs && k0' == k0
          else pre' == [] && |rs'| == 1 && k0' == 0)
      && lay' == F.From(lay, q'.rd.index - q.rd.index)
  {
    hide F.Stores, F.Exact, GetData, F.Pending, Line, Lines, F.ReadAt, Resumes;
    R.StoresShape(q, lay, k);
    lay', k' := F.GetDelivers(q, lay, k, now);
    JournalOfGet(q, now);
    var q' := GetData(q, now).0;
    R.StoresShape(q', lay', k');
    if q'.rd.index == q.rd.index {
      pre', rs', k0' := pre, rs, k0;
      ResumesAlike(rs[|rs| - 1], q, q', lay, k0);
    } else {
      var r := Record(0, DB_FILE_HEAD_LEN, q.wr.pos, q.maxque, q.delay, q.wlock);
      pre', rs', k0' := [], [r], 0;
      OneLine(r);
      FreshReaderResumes(q', lay', k', r);
    }
  }

  lemma OneLine(r: Record)
    ensures Line(r) == [] + Lines([r])
  {
    hide Line;
    assert [r][..0] == [];
  }

  lemma FreshReaderResumes(q: Queue, lay: seq<seq<Chunk>>, k: nat, r: Record)
    requires F.Stores(q, lay, k) && SettingsOk(q)
    requires r == Record(0, DB_FILE_HEAD_LEN, q.wr.pos, q.maxque, q.delay, q.wlock)
    ensures Resumes(r, q, lay, 0)
    ensures q.rd.index == q.wr.index ==> DB_FILE_HEAD_LEN <= q.wr.pos
  {
    hide Holds;
    assert lay[0][..0] == [];
  }

  /** Appending a message behind everything keeps a resuming record resuming. */
  lemma PutResumes(q: Queue, lay: seq<seq<Chunk>>, k: nat, m: Msg, r: Record, k0: nat)
    requires F.Stores(q, lay, k) && Fits(m, q.max) && Resumes(r, q, lay, k0)
    requires q.rd.index == q.wr.index ==> r.rpos <= q.wr.pos
    ensures var q', lay' := PutData(q, m), F.AfterPut(q, lay, m);
      && Resumes(r, q', lay', k0) && k0 <= |lay[0]| && k0 <= |lay'[0]|
      && F.Pending(lay', k0) == F.Pending(lay, k0) + [m]
  {
    hide F.Stores, PutData, F.Pending, Holds;
    R.StoresShape(q, lay, k);
    var lay1 := if NeedsRotation(q, m) then lay + [[]] else lay;
    F.RotationStores(q, lay, k, m);
    F.PutAppends(q, lay, k, m);
    ReadStill(q, lay, k, m, r.rpos, k0);
    if NeedsRotation(q, m) {
      F.PendingEmptySegment(lay, k0);
    }
    F.PendingAppend(lay1, k0, m);
  }

  lemma ReadStill(q: Queue, lay: seq<seq<Chunk>>, k: nat, m: Msg, pos: nat, k0: nat)
    requires F.Stores(q, lay, k) && Fits(m, q.max) && F.ReadAt(lay[0], k0, pos)
    requires q.rd.index == q.wr.index ==> pos <= q.wr.pos
    ensures F.ReadAt(F.AfterPut(q, lay, m)[0], k0, pos)
  {
    hide Holds, Frame;
    if |lay| == 1 && !NeedsRotation(q, m) {
      assert Holds(q.disk[q.rd.index + 0], lay[0]);
      assert q.wr.pos == End(lay[0]);
      AppendFrame(q.disk[q.wr.index], lay[0], m);
    }
  }

  /** What put does to the journal before its own line is written. */
  lemma {:induction false} PutJournalled(q: Queue, lay: seq<seq<Chunk>>, k: nat, exact: bool,
                      pre: seq<byte>, rs: seq<Record>, k0: nat, m: Msg)
      returns (rs': seq<Record>, k0': nat)
    requires F.Stores(q, lay, k) && k <= |lay[0]| && Fits(m, q.max) && (exact ==> q.rd.count == k)
    requires Journalled(q, lay, F.Pending(lay, k), exact, pre, rs, k0)
    ensures |rs'| == (if NeedsRotation(q, m) then |rs| + 1 else |rs|)
    ensures k0' == if NeedsRotation(q, m) then k else k0
    ensures ResumesBefore(PutData(q, m), F.AfterPut(q, lay, m), F.Pending(lay, k) + [m], exact, pre, rs', k0')
  {
    hide F.Stores, F.Pending, Line, Lines, Resumes, AppendMsg, F.AfterPut;
    R.StoresShape(q, lay, k);
    var q', lay' := PutData(q, m), F.AfterPut(q, lay, m);
    RtagOfPut(q, m);
    F.PutAppends(q, lay, k, m);
    R.StoresShape(q', lay', k);
    if NeedsRotation(q, m) {
      var r := CurrentRecord(q).(wpos := DB_FILE_HEAD_LEN);
      rs', k0' := rs + [r], k;
      JournalAppend(pre, rs, r);
      RotationResumes(q, lay, k);
      PutResumes(q, lay, k, m, r, k);
      ResumesAlike(r, q', q', lay', k);
    } else {
      rs', k0' := rs, k0;
      PutResumes(q, lay, k, m, rs[|rs| - 1], k0);
    }
  }

  lemma RotationResumes(q: Queue, lay: seq<seq<Chunk>>, k: nat)
    requires F.Stores(q, lay, k) && SettingsOk(q)
    ensures Resumes(CurrentRecord(q).(wpos := DB_FILE_HEAD_LEN), q, lay, k)
    ensures q.rd.index == q.wr.index ==> q.rd.pos <= q.wr.pos
  {
    hide Holds, F.ReadAt;
  }

  lemma RtagOfPut(q: Queue, m: Msg)
    requires WellFormed(q) && Fits(m, q.max)
    ensures PutData(q, m).rtag ==
      if NeedsRotation(q, m) then q.rtag + Line(CurrentRecord(q).(wpos := DB_FILE_HEAD_LEN)) else q.rtag
  {
    hide Line, FreshSegment, FileHead, Frame, Overwrite;
  }

  // ----- Restart

  /** The queue with the positions and settings of r. */
  function Restored(q: Queue, r: Record, journal: seq<byte>): Queue {
    q.(rd := Cursor(q.rd.index, r.rpos, r.rcount), wr := Cursor(q.wr.index, r.wpos, 0),
       delay := r.delay, maxque := r.maxque, wlock := r.wlock,
       putNum := 0, getNum := 0, unread := 0, rtag := journal)
  }

  /** Restart from the files and a journal: find_handle_file has chosen the oldest segment for
      reading and the newest for writing, mq_sm_rtag_read_item restores the rest. */
  function Restart(q: Queue, journal: seq<byte>, conf: Defaults): Queue {
    Restored(q, ReadItem(journal, q.max, conf), journal)
  }

  /** Arbitrary journal bytes leave the restored cursors inside their files. */
  lemma {:induction false} RestartStaysInside(q: Queue, journal: seq<byte>, conf: Defaults)
    requires WellFormed(q) && conf.delay < U32
    ensures WellFormed(Restart(q, journal, conf))
  {
    hide ReadFrom;
    ReadIsPlausible(journal, 1, q.max, conf);
  }

  ghost predicate SameSettings(q: Queue, q': Queue) {
    q.delay == q'.delay && q.maxque == q'.maxque && q.wlock == q'.wlock && q.max == q'.max
  }

  /** The queue has the default settings. */
  ghost predicate DefaultSettings(q: Queue, conf: Defaults) {
    q.delay == conf.delay && q.maxque == conf.maxque && q.wlock == 0
  }

  /** The last complete line is read back: no tear, two lines to go back to, or an anchored one. */
  ghost predicate GoesBack(pre: seq<byte>, n: nat, t: nat) {
    t == 0 || t == RTAG_ITEM_LEN || n >= 2 || Anchored(pre, t)
  }

  /** There is not enough journal to go back to. */
  predicate TooShort(pre: seq<byte>, n: nat, t: nat) {
    0 < t < RTAG_ITEM_LEN && n == 1 && |pre| + t < LINE_LEN
  }

  /** Where the reader resumes: at the current position k when the line was complete but for its
      newline, at the start of the segment when the journal is too short, else at k0. */
  function ResumeAt(pre: seq<byte>, n: nat, t: nat, k0: nat, k: nat): nat {
    if t == RTAG_ITEM_LEN then k else if TooShort(pre, n, t) then 0 else k0
  }

  lemma RestoredStores(q: Queue, lay: seq<seq<Chunk>>, k: nat, r: Record, k2: nat, rtag: seq<byte>)
    requires F.Stores(q, lay, k) && F.ReadAt(lay[0], k2, r.rpos) && MSG_HEAD_LEN * r.rcount <= r.rpos <= q.max
    requires r.wpos == q.max || (r.wpos == q.wr.pos && (q.rd.index == q.wr.index ==> r.rpos <= q.wr.pos))
    requires r.delay < U32
    ensures F.Stores(Restored(q, r, rtag), lay, k2)
  {
    hide Holds, F.ReadAt;
  }

  /** The record that a stop after t bytes of the line for q leaves to restart from. */
  function Survivor(q: Queue, pre: seq<byte>, rs: seq<Record>, t: nat, conf: Defaults): Record
    requires |rs| >= 1 && t <= RTAG_ITEM_LEN
  {
    if t == RTAG_ITEM_LEN then CurrentRecord(q)
    else if t == 0 then rs[|rs| - 1]
    else if |rs| >= 2 then rs[|rs| - 1].(wpos := q.max)
    else TornResult(pre, rs[0], Line(CurrentRecord(q))[..t], q.max, conf)
  }

  /** The process stops while the line for the state q is being appended, after t of its bytes; with
      t == 0, between two requests. The record restored is the survivor. When the last complete line
      is read back, or the journal is too short, the restarted queue stores the same segments, its
      writer overwrites nothing, and its reader stands before the messages todo the journal
      promises, or at the start of the segment. */
  lemma {:induction false} RestartResumes(q: Queue, lay: seq<seq<Chunk>>, k: nat, todo: seq<Msg>, exact: bool,
                       pre: seq<byte>, rs: seq<Record>, k0: nat, t: nat, conf: Defaults)
      returns (k2: nat)
    requires F.Stores(q, lay, k) && k <= |lay[0]| && ResumesBefore(q, lay, todo, exact, pre, rs, k0)
    requires t <= RTAG_ITEM_LEN && conf.delay < U32 && (exact ==> q.rd.count == k)
    requires t == 0 ==> Journalled(q, lay, todo, exact, pre, rs, k0)
    ensures k2 == ResumeAt(pre, |rs|, t, k0, k) <= |lay[0]|
    ensures var journal := q.rtag + Line(CurrentRecord(q))[..t];
      var q2 := Restart(q, journal, conf);
      && q2 == Restored(q, Survivor(q, pre, rs, t, conf), journal)
      && (GoesBack(pre, |rs|, t) ==> SameSettings(q2, q))
      && (TooShort(pre, |rs|, t) ==> DefaultSettings(q2, conf))
      && (GoesBack(pre, |rs|, t) || TooShort(pre, |rs|, t) ==>
            && F.Stores(q2, lay, k2)
            && q2.wr.pos == (if 0 < t < RTAG_ITEM_LEN then q.max else q.wr.pos)
            && (exact ==> q2.rd.count == k2))
    ensures F.Pending(lay, k2) ==
      if t == RTAG_ITEM_LEN then F.Pending(lay, k)
      else if TooShort(pre, |rs|, t) then F.Pending(lay, 0) else todo
  {
    hide F.Stores, Line, Lines, F.Pending, ReadItem, F.ReadAt, Plausible, TornResult, Anchored;
    k2 := ResumeAt(pre, |rs|, t, k0, k);
    var r := rs[|rs| - 1];
    CurrentResumes(q, lay, k);
    TornRecovery(pre, rs, CurrentRecord(q), t, q.max, conf);
    RotationResumes(q, lay, k);
    HeadReadable(lay[0]);
    ResumesFits(r, q, lay, k0);
    ResumesFits(CurrentRecord(q), q, lay, k);
    var journal := q.rtag + Line(CurrentRecord(q))[..t];
    if TooShort(pre, |rs|, t) {
      ShortFallsBack(pre, r, Line(CurrentRecord(q))[..t], q.max, conf);
      RestoredStores(q, lay, k, Fallback(q.max, conf), 0, journal);
    } else if GoesBack(pre, |rs|, t) {
      RestoredStores(q, lay, k, ReadItem(journal, q.max, conf), k2, journal);
    }
  }

  lemma ShortFallsBack(pre: seq<byte>, last: Record, torn: seq<byte>, max: nat, conf: Defaults)
    requires |pre| + |torn| < LINE_LEN
    ensures TornResult(pre, last, torn, max, conf) == Fallback(max, conf)
  {}

  /** The second tear, on a queue: behind an older fragment of ten bytes the reader resumes at the
      byte that is numbered as the messages read so far, and every setting takes the value of the
      one before it: the limit the write position, the delay the limit, the lock the delay. */
  lemma {:induction false} SecondTearRestart(q: Queue, lay: seq<seq<Chunk>>, k: nat, todo: seq<Msg>, exact: bool,
                             older: seq<byte>, a: Record, n: Record, r: Record, k0: nat, t: nat, conf: Defaults)
    requires F.Stores(q, lay, k) && k <= |lay[0]| && 0 < t <= 51
    requires ResumesBefore(q, lay, todo, exact, older + Line(a) + Line(n)[..10], [r], k0)
    requires Storable(n) && n.rcount <= q.max / MSG_HEAD_LEN
    ensures var journal := q.rtag + Line(CurrentRecord(q))[..t];
      var q2 := Restart(q, journal, conf);
      && q2 == Restored(q, Shifted(n, r).(wpos := q.max), journal)
      && q2.rd == Cursor(q.rd.index, r.rcount, n.rcount) && q2.wr.pos == q.max && q2.disk == q.disk
      && q2.maxque == r.wpos && q2.delay == q.maxque && q2.wlock == ToInt32(q.delay)
  {
    hide F.Stores, Line, F.Pending, ReadItem, F.ReadAt;
    OneLine(r);
    CurrentResumes(q, lay, k);
    TornText(CurrentRecord(q), t);
    ResumesFits(r, q, lay, k0);
    SecondTearMisread(older, a, n, r, Line(CurrentRecord(q))[..t], q.max, conf);
    assert [] + Lines([r]) == Lines([r]);
    assert q.rtag == older + Line(a) + Line(n)[..10] + Line(r);
  }

  lemma ResumesFits(r: Record, q: Queue, lay: seq<seq<Chunk>>, k: nat)
    requires Resumes(r, q, lay, k)
    ensures F.ReadAt(lay[0], k, r.rpos) && MSG_HEAD_LEN * r.rcount <= r.rpos <= q.max && r.delay < U32
    ensures Storable(r) && Plausible(r, q.max)
  {}

  lemma HeadReadable(cs: seq<Chunk>)
    ensures F.ReadAt(cs, 0, 0)
  {}

  lemma TodoOf(q: Queue, lay: seq<seq<Chunk>>, todo: seq<Msg>, exact: bool, pre: seq<byte>, rs: seq<Record>, k0: nat)
    requires Journalled(q, lay, todo, exact, pre, rs, k0)
    ensures ResumesBefore(q, lay, todo, exact, pre, rs, k0)
    ensures |rs| >= 1 && |lay| > 0 && k0 <= |lay[0]| && F.Pending(lay, k0) == todo
  {}
}
