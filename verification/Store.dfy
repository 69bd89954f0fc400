/** One queue as a state machine (mq_store_manage.c, mq_store_file.c, mq_queue_manage.c): the
    numbered segment files, the two cursors, the counters and the journal. The class MessageQueue
    carries the same operations out in place; its methods are proved against these functions. */
module Store {
  import opened Bytes
  import opened Decimal
  import opened Message
  import opened Segment
  import opened Journal
  import opened Strings

  const U64: int := 0x1_0000_0000_0000_0000

  /** cur_rdb and cur_wdb: segment number, offset in it, and messages read or written there. */
  datatype Cursor = Cursor(index: nat, pos: nat, count: nat)

  datatype Queue = Queue(
    max: nat, disk: map<nat, seq<byte>>, rd: Cursor, wr: Cursor,
    delay: nat, maxque: nat, wlock: int,
    putNum: nat, getNum: nat, unread: nat, rtag: seq<byte>)

  /** Files db_rd.index .. db_wr.index exist, have full size, and the cursors are inside them. */
  ghost predicate WellFormed(q: Queue) {
    && SegmentSize(q.max)
    && q.rd.index <= q.wr.index
    && (forall i :: i in q.disk <==> q.rd.index <= i <= q.wr.index)
    && (forall i :: i in q.disk ==> |q.disk[i]| == q.max)
    && q.rd.pos <= q.max && q.wr.pos <= q.max
    && q.delay < U32
  }

  // ----- Journal and file heads

  function CurrentRecord(q: Queue): Record {
    Record(q.rd.count, q.rd.pos, q.wr.pos, q.maxque, q.delay, q.wlock)
  }

  /** mq_sm_rtag_write_item */
  function WriteItem(q: Queue): Queue {
    q.(rtag := q.rtag + Line(CurrentRecord(q)))
  }

  /** The head of a segment: version digit, twelve digits of message count, zeros. */
  function FileHead(count: nat): (h: seq<byte>)
    ensures |h| == DB_FILE_HEAD_LEN
  {
    [49] + Padded(count, 12) + seq(DB_FILE_HEAD_LEN - 13, i => 0)
  }

  /** mq_sm_db_write_file_head */
  function WriteFileHead(q: Queue): Queue
    requires q.wr.index in q.disk && |q.disk[q.wr.index]| >= DB_FILE_HEAD_LEN
  {
    q.(disk := q.disk[q.wr.index := Overwrite(q.disk[q.wr.index], 0, FileHead(q.wr.count))])
  }

  // ----- Rotation

  /** get_next_write_file, opens and the storage check succeeding. */
  function NextWriteFile(q: Queue): Queue
    requires SegmentSize(q.max)
  {
    var next := q.wr.index + 1;
    WriteItem(WriteFileHead(q.(disk := q.disk[next := FreshSegment(q.max)],
                               wr := Cursor(next, DB_FILE_HEAD_LEN, 0))))
  }

  /** get_next_read_file when there is a next segment: a new journal, the old files removed. */
  function NextReadFile(q: Queue): Queue {
    WriteItem(q.(disk := q.disk - {q.rd.index},
                 rd := Cursor(q.rd.index + 1, DB_FILE_HEAD_LEN, 0),
                 rtag := []))
  }

  // ----- Put

  function NeedsRotation(q: Queue, m: Msg): bool {
    (q.wr.pos + |m.body| + MSG_HEAD_LEN) % U32 > q.max
  }

  /** The part of mq_sm_db_write_msg after any rotation. */
  function AppendMsg(q: Queue, m: Msg): Queue
    requires q.wr.index in q.disk && q.wr.pos + |Frame(m)| <= |q.disk[q.wr.index]|
  {
    q.(disk := q.disk[q.wr.index := Overwrite(q.disk[q.wr.index], q.wr.pos, Frame(m))],
       wr := Cursor(q.wr.index, q.wr.pos + |m.body| + MSG_HEAD_LEN, q.wr.count + 1),
       putNum := q.putNum + 1)
  }

  function Rotated(q: Queue, m: Msg): Queue
    requires WellFormed(q)
  {
    if NeedsRotation(q, m) then NextWriteFile(WriteFileHead(q)) else q
  }

  /** mq_sm_put_data */
  function PutData(q: Queue, m: Msg): (q': Queue)
    requires WellFormed(q) && Fits(m, q.max)
    ensures WellFormed(q')
  {
    AppendMsg(Rotated(q, m), m)
  }

  // ----- Get

  datatype Step = Continue(q: Queue) | Return(q: Queue, msg: Option<Msg>)

  /** A message put less than `delay` seconds ago is held back; the ages are uint32 differences. */
  predicate TooYoung(time: nat, delay: nat, now: int) {
    delay != 0 && (now - time) % U32 < delay
  }

  /** The uint64 counter of unread messages goes down by one, wrapping below zero. */
  function Decremented(n: nat): nat {
    if n == 0 then U64 - 1 else n - 1
  }

  /** One round of the loop of mq_sm_get_data. */
  function GetStep(q: Queue, now: int): (s: Step)
    requires WellFormed(q)
    ensures WellFormed(s.q)
    ensures s.Continue? ==> s.q.max == q.max && s.q.wr == q.wr
    ensures s.Continue? ==>
      s.q.rd.index > q.rd.index || (s.q.rd.index == q.rd.index && s.q.rd.pos > q.rd.pos)
  {
    if q.rd.index == q.wr.index && q.rd.pos + MSG_HEAD_LEN >= q.wr.pos then
      Return(q.(rd := q.rd.(pos := q.wr.pos), unread := 0), None)
    else match ParseMsg(q.disk[q.rd.index], q.rd.pos)
      case Ok(m) =>
        if TooYoung(m.time, q.delay, now) then Return(q, None)
        else Return(
          q.(rd := Cursor(q.rd.index, q.rd.pos + |m.body| + MSG_HEAD_LEN, q.rd.count + 1),
             getNum := q.getNum + 1, unread := Decremented(q.unread)),
          Some(m))
      case MagicErr => Continue(q.(rd := q.rd.(pos := q.rd.pos + 1)))
      case CrcErr => Continue(q.(rd := q.rd.(pos := q.rd.pos + 2)))
      case LenBeyond =>
        if q.rd.index + 1 > q.wr.index then Return(q, None) else Continue(NextReadFile(q))
  }

  /** mq_sm_get_data. The decreases clause is the reason the loop ends whatever the files contain. */
  function GetData(q: Queue, now: int): (r: (Queue, Option<Msg>))
    requires WellFormed(q)
    ensures WellFormed(r.0)
    decreases q.wr.index - q.rd.index, q.max - q.rd.pos
  {
    match GetStep(q, now)
    case Continue(q') => GetData(q', now)
    case Return(q', msg) => (q', msg)
  }

  // ----- Requests

  datatype PutResult = PutOk | BadRequest | Full | Locked

  /** The write lock: -1 locks for ever, any other value until that time; the comparison with the
      clock is unsigned. */
  predicate IsLocked(wlock: int, now: nat) {
    wlock == -1 || wlock % U32 > now
  }

  /** http_opt_put around mq_qm_push_item: length guard, queue limit, lock, write, journal, count. */
  function Put(q: Queue, body: seq<byte>, now: nat): (r: (Queue, PutResult))
    requires WellFormed(q) && now < 0x8000_0000
    ensures WellFormed(r.0)
  {
    if |body| == 0 || |body| > q.max - DB_FILE_HEAD_LEN - MSG_HEAD_LEN then (q, BadRequest)
    else if q.maxque != 0 && q.unread + 1 > q.maxque then (q, Full)
    else if IsLocked(q.wlock, now) then (q, Locked)
    else
      var q' := WriteItem(PutData(q, Msg(now, body)));
      (q'.(unread := q'.unread + 1), PutOk)
  }

  /** mq_qm_pop_item: only a successful get is recorded in the journal here. */
  function Get(q: Queue, now: nat): (r: (Queue, Option<Msg>))
    requires WellFormed(q)
    ensures WellFormed(r.0)
  {
    if q.unread < 1 then (q, None)
    else
      var (q', msg) := GetData(q, now);
      if msg.None? then (q', None) else (WriteItem(q'), msg)
  }

  function SetMaxQueue(q: Queue, maxque: nat): Queue { WriteItem(q.(maxque := maxque)) }

  function SetDelay(q: Queue, delay: nat): Queue { WriteItem(q.(delay := delay)) }

  /** mq_qm_set_wlock: uint32 -1 locks for ever, 0 unlocks, n locks for n seconds. */
  function NewLock(wlock: nat, now: nat): int {
    if wlock == U32 - 1 then -1 else if wlock == 0 then 0 else ToInt32(now + wlock)
  }

  function SetLock(q: Queue, wlock: nat, now: nat): Queue {
    WriteItem(q.(wlock := NewLock(wlock, now)))
  }

  // ----- Creation

  /** mq_sm_creat_db followed by init_queue. The first journal line is written while every field
      of the queue but the defaults is still zero. */
  function Create(max: nat, conf: Defaults): (q: Queue)
    requires SegmentSize(max)
    ensures conf.delay < U32 ==> WellFormed(q)
  {
    var head := Cursor(1, DB_FILE_HEAD_LEN, 0);
    Queue(max, map[1 := FreshSegment(max)], head, head, conf.delay, conf.maxque, 0, 0, 0, 0,
          Line(Record(0, 0, 0, conf.maxque, conf.delay, 0)))
  }
}
