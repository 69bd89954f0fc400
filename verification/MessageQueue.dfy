/** The queue as the server runs it: memory-mapped segment files updated in place, mappings shared
    between reader and writer, a journal appended to. Every method is proved to do to the queue
    exactly what its function in Store does, and to keep the mappings in order. */
module MessageQueues {
  import opened Bytes
  import Crc16
  import opened Message
  import opened Segment
  import opened Journal
  import opened Strings
  import opened Store
  import opened Decimal
  import opened Recovery
  import opened Recount

  /** One mmap of a segment file. */
  class Mapping {
    const bytes: array<byte>

    constructor (bytes: array<byte>)
      ensures this.bytes == bytes
    {
      this.bytes := bytes;
    }
  }

  /** Creating a segment file: ftruncate to full size, then one byte at the very end. */
  method CreateFile(max: nat) returns (file: array<byte>)
    requires SegmentSize(max)
    ensures fresh(file) && file[..] == FreshSegment(max)
  {
    file := new byte[max](_ => 0);
    file[max - 1] := 48;
    assert file[..] == FreshSegment(max);
  }

  /** No other file is the writer's array; the cursors map their own files; they share a mapping
      exactly when they are in the same segment; no other mapping exists. */
  ghost predicate MappingsOk(disk: map<nat, array<byte>>, rIndex: nat, rMap: Mapping, wIndex: nat, wMap: Mapping,
                             live: set<Mapping>) {
    && rIndex in disk && wIndex in disk
    && (forall i :: i in disk && i != wIndex ==> disk[i] != disk[wIndex])
    && rMap.bytes == disk[rIndex] && wMap.bytes == disk[wIndex]
    && (rMap == wMap <==> rIndex == wIndex)
    && live == {rMap, wMap}
  }

  /** Rotation of the writer: its old mapping is dropped exactly when the reader is elsewhere. */
  lemma {:induction false} WriterMoves(disk: map<nat, array<byte>>, rIndex: nat, rMap: Mapping, wIndex: nat,
                                       wMap: Mapping,
                    live: set<Mapping>, next: nat, m: Mapping)
    requires MappingsOk(disk, rIndex, rMap, wIndex, wMap, live)
    requires rIndex <= wIndex < next && next !in disk
    requires m.bytes !in disk.Values && m !in live
    ensures MappingsOk(disk[next := m.bytes], rIndex, rMap, next, m,
                       (if wIndex > rIndex then live - {wMap} else live) + {m})
  {}

  /** Rotation of the reader: its old mapping is dropped, the next one is the writer's or new. */
  lemma {:induction false} ReaderMoves(disk: map<nat, array<byte>>, rIndex: nat, rMap: Mapping, wIndex: nat,
                                       wMap: Mapping,
                    live: set<Mapping>, m: Mapping)
    requires MappingsOk(disk, rIndex, rMap, wIndex, wMap, live)
    requires rIndex < wIndex && rIndex + 1 in disk && m.bytes == disk[rIndex + 1]
    requires if rIndex + 1 == wIndex then m == wMap else m !in live
    ensures MappingsOk(disk - {rIndex}, rIndex + 1, m, wIndex, wMap, live - {rMap} + {m})
  {}

  lemma {:induction false} NextWriteWellFormed(q: Queue)
    requires WellFormed(q)
    ensures SegmentSize(q.max) && q.wr.index + 1 !in q.disk && q.rd.index <= q.wr.index
    ensures WellFormed(q.(disk := q.disk[q.wr.index + 1 := FreshSegment(q.max)],
                          wr := Cursor(q.wr.index + 1, DB_FILE_HEAD_LEN, 0)))
  {
    hide FreshSegment;
  }

  lemma SegmentFull(q: Queue)
    requires WellFormed(q)
    ensures q.wr.index in q.disk && |q.disk[q.wr.index]| == q.max
  {}

  /** After any rotation the frame fits behind the write position. */
  lemma PutFits(q: Queue, m: Msg)
    requires WellFormed(q) && Fits(m, q.max)
    ensures WellFormed(Rotated(q, m)) && Rotated(q, m).max == q.max
    ensures Rotated(q, m).wr.pos + |Frame(m)| <= q.max
    ensures WellFormed(Store.PutData(q, m))
  {
    hide FreshSegment, FileHead, Line, Frame, Overwrite;
  }

  lemma UnreadIsFree(q: Queue, n: nat)
    requires WellFormed(q)
    ensures WellFormed(q.(unread := n))
  {}

  lemma CountersAreFree(q: Queue, g: nat, p: nat, n: nat)
    requires WellFormed(q)
    ensures WellFormed(q.(getNum := g, putNum := p, unread := n))
  {}

  /** What one round may rely on. */
  lemma {:induction false} RoundWellFormed(q: Queue, now: int)
    requires WellFormed(q)
    ensures SegmentSize(q.max) && q.rd.index in q.disk && |q.disk[q.rd.index]| == q.max && q.rd.pos <= q.max
    ensures q.rd.index <= q.wr.index
    ensures WellFormed(GetStep(q, now).q)
  {}

  /** q with the given bytes at offset at of its write segment. */
  ghost function WithBytes(q: Queue, at: nat, src: seq<byte>): Queue
    requires WellFormed(q) && at + |src| <= q.max
  {
    q.(disk := q.disk[q.wr.index := Overwrite(q.disk[q.wr.index], at, src)])
  }

  lemma NothingWritten(q: Queue, at: nat)
    requires WellFormed(q) && at <= q.max
    ensures WithBytes(q, at, []) == q
  {
    assert Overwrite(q.disk[q.wr.index], at, []) == q.disk[q.wr.index];
  }

  lemma NextReadWellFormed(q: Queue)
    requires WellFormed(q)
    ensures q.rd.index <= q.wr.index
    ensures q.rd.index < q.wr.index ==> WellFormed(NextReadFile(q)) && q.rd.index + 1 in q.disk
  {
    hide Line;
  }

  class MessageQueue {
    const max: nat
    var disk: map<nat, array<byte>>
    var rtag: seq<byte>

    var rMap: Mapping
    var rIndex: nat
    var rPos: nat
    var rCount: nat

    var wMap: Mapping
    var wIndex: nat
    var wPos: nat
    var wCount: nat

    var delay: nat
    var maxque: nat
    var wlock: int
    var putNum: nat
    var getNum: nat
    var unread: nat

    /** The mappings that exist: mmap adds one, munmap takes one away and may be given no other. */
    ghost var live: set<Mapping>

    ghost function Files(): map<nat, seq<byte>>
      reads this`disk, disk.Values
    {
      map i | i in disk :: disk[i][..]
    }

    ghost function Abs(): Queue
      reads this, disk.Values
    {
      Queue(max, Files(), Cursor(rIndex, rPos, rCount), Cursor(wIndex, wPos, wCount),
            delay, maxque, wlock, putNum, getNum, unread, rtag)
    }

    ghost predicate Mapped()
      reads this`disk, this`rMap, this`rIndex, this`wMap, this`wIndex, this`live
    {
      MappingsOk(disk, rIndex, rMap, wIndex, wMap, live)
    }

    ghost predicate Valid()
      reads this, disk.Values
    {
      Mapped() && WellFormed(Abs())
    }

    method MapFile(file: array<byte>) returns (m: Mapping)
      modifies this`live
      ensures fresh(m) && m.bytes == file && live == old(live) + {m}
    {
      m := new Mapping(file);
      live := live + {m};
    }

    ghost method Unmap(m: Mapping)
      requires m in live
      modifies this`live
      ensures live == old(live) - {m}
    {
      live := live - {m};
    }

    /** mq_sm_creat_db and init_queue: one segment, mapped once and used by both cursors. */
    constructor (max: nat, conf: Defaults)
      requires SegmentSize(max) && conf.delay < U32
      ensures Valid() && Abs() == Create(max, conf)
      ensures fresh(disk.Values)
    {
      var file := CreateFile(max);
      var map_ := new Mapping(file);
      this.max := max;
      disk := map[1 := file];
      rtag := Line(Record(0, 0, 0, conf.maxque, conf.delay, 0));
      wMap, wIndex, wPos, wCount := map_, 1, DB_FILE_HEAD_LEN, 0;
      rMap, rIndex, rPos, rCount := map_, 1, DB_FILE_HEAD_LEN, 0;
      delay, maxque, wlock := conf.delay, conf.maxque, 0;
      putNum, getNum, unread := 0, 0, 0;
      live := {map_};
      new;
      assert Files() == map[1 := FreshSegment(max)];
    }

    /** Restart: mq_sm_rtag_read_item restores the cursors from the journal, mq_sm_open_db maps the
        newest segment for writing and the oldest for reading, once when they are the same. */
    constructor Open(ghost q: Queue, max: nat, disk: map<nat, array<byte>>, oldest: nat, newest: nat,
                     journal: seq<byte>, conf: Defaults)
      requires q.max == max && q.rd.index == oldest && q.wr.index == newest
      requires q.disk == map i | i in disk :: disk[i][..]
      requires WellFormed(q) && conf.delay < U32
      requires newest in disk && forall i :: i in disk && i != newest ==> disk[i] != disk[newest]
      ensures Valid() && Abs() == Restart(q, journal, conf)
      ensures this.disk == disk
    {
      RestartStaysInside(q, journal, conf);
      var r := RtagReadItem(journal, max, conf);
      this.max, this.disk, rtag := max, disk, journal;
      rIndex, rPos, rCount := oldest, r.rpos, r.rcount;
      wIndex, wPos, wCount := newest, r.wpos, 0;
      delay, maxque, wlock := r.delay, r.maxque, r.wlock;
      putNum, getNum, unread := 0, 0, 0;
      assert newest in q.disk && oldest in q.disk;
      var m := new Mapping(disk[newest]);
      wMap := m;
      if oldest == newest {
        rMap := m;
        live := {m};
      } else {
        var m' := new Mapping(disk[oldest]);
        rMap := m';
        live := {m, m'};
      }
      new;
      assert Files() == q.disk;
      assert Abs() == Restart(q, journal, conf);
    }

    // ----- Journal and file head

    method WriteItem()
      requires Valid()
      modifies this`rtag
      ensures Valid() && Abs() == Store.WriteItem(old(Abs()))
    {
      rtag := rtag + Line(Record(rCount, rPos, wPos, maxque, delay, wlock));
    }

    /** memcpy into the mapping of the writer. */
    method WriteBytes(at: nat, src: seq<byte>)
      requires Valid() && at + |src| <= max
      modifies wMap.bytes
      ensures Valid()
      ensures Abs() == WithBytes(old(Abs()), at, src)
    {
      assert Files()[wIndex] == wMap.bytes[..];
      Copy(wMap.bytes, at, src);
      assert Files() == old(Files())[wIndex := Overwrite(old(Files())[wIndex], at, src)];
    }

    method WriteFileHead()
      requires Valid()
      modifies wMap.bytes
      ensures Valid() && Abs() == Store.WriteFileHead(old(Abs()))
    {
      WriteBytes(0, FileHead(wCount));
    }

    // ----- Rotation

    lemma WriterIsLive()
      requires Mapped()
      ensures wMap in live && wIndex in disk && wMap.bytes == disk[wIndex]
    {}

    lemma ReaderIsLive()
      requires Mapped()
      ensures rMap in live && wMap in live && wIndex in disk && wMap.bytes == disk[wIndex]
      ensures rIndex < wIndex ==> rMap != wMap
    {}

    /** The part of get_next_write_file that changes files and mappings: the old mapping goes
        unless the reader still uses it. */
    method OpenNextWriteFile()
      requires Mapped() && SegmentSize(max) && rIndex <= wIndex && wIndex + 1 !in disk
      modifies this`disk, this`wMap, this`wIndex, this`wPos, this`wCount, this`live
      ensures Mapped()
      ensures Files() == old(Files())[wIndex := FreshSegment(max)]
      ensures wIndex == old(wIndex) + 1 && wPos == DB_FILE_HEAD_LEN && wCount == 0
      ensures fresh(wMap.bytes)
    {
      hide FreshSegment, WellFormed, MappingsOk;
      WriterIsLive();
      var next := wIndex + 1;
      if wIndex > rIndex {
        Unmap(wMap);
      }
      var file := CreateFile(max);
      var m := MapFile(file);
      WriterMoves(disk, rIndex, rMap, wIndex, wMap, old(live), next, m);
      disk, wMap, wCount, wPos, wIndex := disk[next := file], m, 0, DB_FILE_HEAD_LEN, next;
      assert Files() == old(Files())[next := FreshSegment(max)];
    }

    method GetNextWriteFile()
      requires Valid()
      modifies this`disk, this`wMap, this`wIndex, this`wPos, this`wCount, this`rtag, this`live
      ensures Valid() && Abs() == NextWriteFile(old(Abs()))
      ensures fresh(wMap.bytes)
    {
      hide FreshSegment, FileHead, Line, Overwrite, WellFormed, MappingsOk;
      NextWriteWellFormed(Abs());
      assert wIndex + 1 !in Files();
      OpenNextWriteFile();
      WriteFileHead();
      WriteItem();
    }

    /** The part of get_next_read_file that changes files and mappings: the old segment is unmapped
        and unlinked; the next one is mapped unless the writer already has it mapped. */
    method OpenNextReadFile()
      requires Mapped() && rIndex < wIndex && rIndex + 1 in disk
      modifies this`disk, this`rMap, this`rIndex, this`rPos, this`rCount, this`live
      ensures Mapped()
      ensures Files() == old(Files()) - {old(rIndex)}
      ensures rIndex == old(rIndex) + 1 && rPos == DB_FILE_HEAD_LEN && rCount == 0
    {
      hide MappingsOk;
      ReaderIsLive();
      var next := rIndex + 1;
      Unmap(rMap);
      var m := wMap;
      if next != wIndex {
        m := MapFile(disk[next]);
      }
      assert live == old(live) - {rMap} + {m};
      ReaderMoves(disk, rIndex, rMap, wIndex, wMap, old(live), m);
      disk, rMap, rIndex, rCount, rPos := disk - {rIndex}, m, next, 0, DB_FILE_HEAD_LEN;
      assert Files() == old(Files()) - {old(rIndex)};
    }

    /** get_next_read_file: a new journal for the next segment, unless the queue ends here. */
    method GetNextReadFile() returns (ok: bool)
      requires Valid()
      modifies this`disk, this`rMap, this`rIndex, this`rPos, this`rCount, this`rtag, this`live
      ensures Valid() && ok == (old(rIndex) < wIndex)
      ensures Abs() == if ok then NextReadFile(old(Abs())) else old(Abs())
    {
      hide WellFormed, Line, MappingsOk;
      NextReadWellFormed(Abs());
      var next := rIndex + 1;
      if next > wIndex {
        rIndex := wIndex;
        return false;
      }
      assert next in Files();
      OpenNextReadFile();
      rtag := [];
      rtag := rtag + Line(Record(rCount, rPos, wPos, maxque, delay, wlock));
      assert Abs() == NextReadFile(old(Abs()));
      return true;
    }

    // ----- Put

    /** One memcpy of mq_sm_db_write_msg, behind the bytes done that the earlier ones wrote. */
    method WriteBehind(ghost q: Queue, ghost done: seq<byte>, at: nat, src: seq<byte>)
      requires Valid() && WellFormed(q) && at == wPos + |done| && at + |src| <= max
      requires q.max == max && q.wr.index == wIndex && Abs() == WithBytes(q, wPos, done)
      modifies wMap.bytes
      ensures Valid() && Abs() == WithBytes(q, wPos, done + src)
    {
      hide WellFormed, Overwrite;
      SegmentFull(q);
      OverwriteTwice(q.disk[wIndex], wPos, done, src);
      WriteBytes(at, src);
    }

    /** The six memcpy of mq_sm_db_write_msg. */
    method WriteFrame(m: Msg)
      requires Valid() && wPos + |Frame(m)| <= max
      modifies wMap.bytes
      ensures Valid() && Abs() == WithBytes(old(Abs()), wPos, Frame(m))
    {
      hide WellFormed, Le32, Le16, Crc16.Crc, WithBytes, Overwrite;
      ghost var q := Abs();
      var a, b, c := [MAGIC1], [MAGIC2], Le32(m.time);
      var d, e := Le16(Crc16.Crc(m.body)), Le32(|m.body|);
      assert Frame(m) == a + b + c + d + e + m.body;
      NothingWritten(q, wPos);
      WriteBehind(q, [], wPos, a);
      assert [] + a == a;
      WriteBehind(q, a, wPos + 1, b);
      WriteBehind(q, a + b, wPos + 2, c);
      WriteBehind(q, a + b + c, wPos + 6, d);
      WriteBehind(q, a + b + c + d, wPos + 8, e);
      WriteBehind(q, a + b + c + d + e, wPos + 12, m.body);
    }

    /** Seals the segment and opens the next one when the frame does not fit. */
    method MakeRoom(m: Msg)
      requires Valid() && Fits(m, max)
      modifies this`disk, this`wMap, this`wIndex, this`wPos, this`wCount, this`rtag, this`live
      modifies wMap.bytes
      ensures Valid() && Abs() == Rotated(old(Abs()), m)
      ensures wMap == old(wMap) || fresh(wMap.bytes)
    {
      hide WellFormed, Frame, Line, FileHead, FreshSegment, Overwrite, Files;
      if (wPos + |m.body| + MSG_HEAD_LEN) % U32 > max {
        WriteFileHead();
        GetNextWriteFile();
      }
    }

    /** mq_sm_put_data */
    method PutData(m: Msg)
      requires Valid() && Fits(m, max)
      modifies this`disk, this`wMap, this`wIndex, this`wPos, this`wCount, this`rtag, this`live, this`putNum
      modifies wMap.bytes
      ensures Valid() && Abs() == Store.PutData(old(Abs()), m)
    {
      hide WellFormed, Frame, Overwrite, Rotated, Files, MappingsOk;
      PutFits(Abs(), m);
      MakeRoom(m);
      WriteFrame(m);
      ghost var q := Abs();
      wPos, wCount, putNum := wPos + |m.body| + MSG_HEAD_LEN, wCount + 1, putNum + 1;
      assert Abs() == q.(wr := Cursor(wIndex, wPos, wCount), putNum := putNum);
    }

    // ----- Get

    /** What the reader sees through its mapping is its file. */
    lemma ReadSide()
      requires Valid()
      ensures rIndex in Files() && Files()[rIndex] == rMap.bytes[..] && rMap.bytes.Length == max
    {
      assert Files()[rIndex] == rMap.bytes[..];
    }

    /** One round of the loop of mq_sm_get_data: the end test, then one attempt to parse. */
    method ReadRound(now: int) returns (done: bool, msg: Option<Msg>)
      requires Valid()
      modifies this`disk, this`rMap, this`rIndex, this`rPos, this`rCount, this`rtag, this`live, this`getNum, this`unread
      ensures Valid()
      ensures GetStep(old(Abs()), now) == if done then Return(Abs(), msg) else Continue(Abs())
      ensures !done ==> msg == None
    {
      hide ParseMsg, NextReadFile, WellFormed, MappingsOk, Files;
      RoundWellFormed(Abs(), now);
      ReadSide();
      msg := None;
      if rIndex == wIndex && rPos + MSG_HEAD_LEN >= wPos {
        rPos := wPos;
        unread := 0;
        assert GetStep(old(Abs()), now) == Return(Abs(), None);
        return true, None;
      }
      var ret := ParseMsgAt(rMap.bytes, rPos);
      match ret
      case Ok(m) =>
        if TooYoung(m.time, delay, now) {
          return true, None;
        }
        rPos := rPos + |m.body| + MSG_HEAD_LEN;
        rCount := rCount + 1;
        getNum := getNum + 1;
        unread := Decremented(unread);
        assert GetStep(old(Abs()), now) == Return(Abs(), Some(m));
        return true, Some(m);
      case MagicErr =>
        rPos := rPos + 1;
        assert GetStep(old(Abs()), now) == Continue(Abs());
        return false, None;
      case CrcErr =>
        rPos := rPos + 2;
        assert GetStep(old(Abs()), now) == Continue(Abs());
        return false, None;
      case LenBeyond =>
        var ok := GetNextReadFile();
        return !ok, None;
    }

    /** The loop of mq_sm_get_data. It ends whatever the segments contain: every round moves the
        reader forward, in its segment or to the next one. */
    method GetData(now: int) returns (msg: Option<Msg>)
      requires Valid()
      modifies this`disk, this`rMap, this`rIndex, this`rPos, this`rCount, this`rtag, this`live, this`getNum, this`unread
      ensures Valid() && (Abs(), msg) == Store.GetData(old(Abs()), now)
    {
      hide GetStep, Mapped, Files;
      while true
        invariant Valid() && wIndex == old(wIndex)
        invariant Store.GetData(Abs(), now) == Store.GetData(old(Abs()), now)
        decreases wIndex - rIndex, max - rPos
      {
        var done;
        done, msg := ReadRound(now);
        if done {
          return;
        }
      }
    }

    // ----- Requests

    method Put(body: seq<byte>, now: nat) returns (r: PutResult)
      requires Valid() && now < 0x8000_0000
      modifies this`disk, this`wMap, this`wIndex, this`wPos, this`wCount, this`rtag, this`live, this`putNum, this`unread
      modifies wMap.bytes
      ensures Valid() && (Abs(), r) == Store.Put(old(Abs()), body, now)
    {
      hide WellFormed, Store.PutData, Line, MappingsOk, Files;
      if |body| == 0 || |body| > max - DB_FILE_HEAD_LEN - MSG_HEAD_LEN {
        return BadRequest;
      }
      if maxque != 0 && unread + 1 > maxque {
        return Full;
      }
      if IsLocked(wlock, now) {
        return Locked;
      }
      PutData(Msg(now, body));
      WriteItem();
      ghost var q := Abs();
      UnreadIsFree(q, unread + 1);
      unread := unread + 1;
      assert Abs() == q.(unread := q.unread + 1);
      return PutOk;
    }

    method Get(now: nat) returns (msg: Option<Msg>)
      requires Valid()
      modifies this`disk, this`rMap, this`rIndex, this`rPos, this`rCount, this`rtag, this`live, this`getNum, this`unread
      ensures Valid() && (Abs(), msg) == Store.Get(old(Abs()), now)
    {
      hide WellFormed, Line, MappingsOk, Files;
      if unread < 1 {
        return None;
      }
      msg := GetData(now);
      if msg.Some? {
        WriteItem();
      }
    }

    /** mq_sm_close_db: after it no mapping exists; each one made was unmapped once. */
    method CloseDb()
      requires Valid()
      modifies this`live
      ensures live == {} && Abs() == old(Abs())
    {
      if rIndex != wIndex {
        Unmap(rMap);
      }
      Unmap(wMap);
    }

    method SetMaxQueue(n: nat)
      requires Valid()
      modifies this`maxque, this`rtag
      ensures Valid() && Abs() == Store.SetMaxQueue(old(Abs()), n)
    {
      maxque := n;
      rtag := rtag + Line(Record(rCount, rPos, wPos, maxque, delay, wlock));
    }

    method SetDelay(n: nat)
      requires Valid() && n < U32
      modifies this`delay, this`rtag
      ensures Valid() && Abs() == Store.SetDelay(old(Abs()), n)
    {
      delay := n;
      rtag := rtag + Line(Record(rCount, rPos, wPos, maxque, delay, wlock));
    }

    method SetLock(n: nat, now: nat)
      requires Valid() && n < U32
      modifies this`wlock, this`rtag
      ensures Valid() && Abs() == Store.SetLock(old(Abs()), n, now)
    {
      if n == U32 - 1 {
        wlock := -1;
      } else if n == 0 {
        wlock := 0;
      } else {
        wlock := ToInt32(now + n);
      }
      rtag := rtag + Line(Record(rCount, rPos, wPos, maxque, delay, wlock));
    }

    /** mq_sm_get_msg_count: head by head, scanning where a head says nothing. */
    method GetMsgCount(files: seq<nat>)
      requires Valid() && Lists(Abs(), files)
      modifies this`putNum, this`getNum, this`unread
      ensures Valid() && Abs() == Recounted(old(Abs()), files)
    {
      hide FileCount, MappingsOk, WellFormed, TotalCount, Lists;
      if unread != 0 {
        return;
      }
      var total := SumFiles(files);
      CountersAreFree(Abs(), rCount, total, if total >= rCount then total - rCount else 0);
      ghost var q := Abs();
      getNum := rCount;
      putNum := total;
      unread := if total >= rCount then total - rCount else 0;
      assert Abs() == q.(getNum := getNum, putNum := putNum, unread := unread);
    }

    /** The directory loop. */
    method SumFiles(files: seq<nat>) returns (total: nat)
      requires Valid() && Lists(Abs(), files)
      ensures total == TotalCount(Abs(), files)
    {
      hide FileCount, MappingsOk, WellFormed;
      total := 0;
      for i := 0 to |files|
        invariant total == TotalCount(Abs(), files[..i])
      {
        assert files[..i + 1][..i] == files[..i];
        assert files[i] in files && files[i] in Files();
        var n := CountFile(files[i]);
        total := total + n;
      }
      assert files[..|files|] == files;
    }

    method CountFile(f: nat) returns (n: nat)
      requires Valid() && f in disk
      ensures WellFormed(Abs()) && f in Abs().disk && n == FileCount(Abs().disk[f], ScanEnd(Abs()))
    {
      hide MappingsOk, ScanCount, Atoi;
      var file := disk[f];
      assert Files()[f] == file[..];
      var tmp := Atoi(CString(file[1..13]));
      assert file[..][1..13] == file[1..13];
      if tmp != 0 && tmp < max / MSG_HEAD_LEN {
        return tmp;
      }
      n := CalMsgCount(file, if wIndex == rIndex then wPos else max);
    }
  }
}
