/** The segmented log is a FIFO: from any state in which the files hold messages, put appends one
    at the back and get takes one from the front, over any number of rotations. */
module Fifo {
  import opened Bytes
  import opened Crc16
  import opened Decimal
  import opened Message
  import opened Segment
  import opened Journal
  import opened Strings
  import opened Store

  /** The read position stands before chunk k: at its start, at the very start of the file (the
      restart fallback), or anywhere in the tail when all chunks are behind it. */
  ghost predicate ReadAt(cs: seq<Chunk>, k: nat, pos: nat) {
    k <= |cs| && (pos == Boundary(cs, k) || (k == 0 && pos == 0) || (k == |cs| && pos >= End(cs)))
  }

  /** The files of q hold the chunks lay, one sequence per segment, and the reader is at chunk k
      of the first. After a restart from a torn journal the writer is at the end of its segment. */
  ghost predicate Stores(q: Queue, lay: seq<seq<Chunk>>, k: nat) {
    && WellFormed(q)
    && |lay| == q.wr.index - q.rd.index + 1
    && (forall i :: 0 <= i < |lay| ==> Holds(q.disk[q.rd.index + i], lay[i]))
    && ReadAt(lay[0], k, q.rd.pos)
    && (q.wr.pos == End(lay[|lay| - 1]) || q.wr.pos == q.max)
    && (q.rd.index == q.wr.index ==> q.rd.pos <= q.wr.pos)
    && MSG_HEAD_LEN * q.rd.count <= q.rd.pos
  }

  ghost predicate HeadCounts(seg: seq<byte>, n: nat) {
    |seg| >= DB_FILE_HEAD_LEN && seg[..DB_FILE_HEAD_LEN] == FileHead(n)
  }

  /** The head of the segment being written has no count yet: zeros, or the number zero. */
  ghost predicate HeadEmpty(seg: seq<byte>) {
    |seg| >= DB_FILE_HEAD_LEN &&
    (seg[..DB_FILE_HEAD_LEN] == FileHead(0) || seg[..DB_FILE_HEAD_LEN] == seq(DB_FILE_HEAD_LEN, i => 0))
  }

  /** The head announces n messages, or nothing. */
  ghost predicate HeadRight(seg: seq<byte>, n: nat) {
    HeadCounts(seg, n) || HeadEmpty(seg)
  }

  /** The head announces at most n messages, or nothing. */
  ghost predicate HeadUnder(seg: seq<byte>, n: nat) {
    HeadEmpty(seg) || exists c :: 0 <= c <= n && HeadCounts(seg, c)
  }

  /** No damage: the read cursor counts messages, and nothing counts too many. */
  ghost predicate Exact(q: Queue, lay: seq<seq<Chunk>>, k: nat) {
    && |lay| == q.wr.index - q.rd.index + 1 > 0
    && (forall i :: i in q.disk <==> q.rd.index <= i <= q.wr.index)
    && (forall cs :: cs in lay ==> AllGood(cs))
    && q.rd.count == k
    && q.wr.count <= |lay[|lay| - 1]|
    && (forall i :: 0 <= i < |lay| - 1 ==> HeadUnder(q.disk[q.rd.index + i], |lay[i]|))
    && HeadEmpty(q.disk[q.wr.index])
  }

  /** No head of a sealed segment announces too few. */
  ghost predicate Right(q: Queue, lay: seq<seq<Chunk>>) {
    RightFrom(q.disk, q.rd.index, lay)
  }

  ghost predicate RightFrom(disk: map<nat, seq<byte>>, lo: nat, lay: seq<seq<Chunk>>) {
    forall i :: 0 <= i < |lay| - 1 ==> lo + i in disk && HeadRight(disk[lo + i], |lay[i]|)
  }

  /** The write cursor has counted every message of its segment, as it does within one process. */
  ghost predicate Whole(q: Queue, lay: seq<seq<Chunk>>) {
    |lay| > 0 && q.wr.count == |lay[|lay| - 1]|
  }

  /** Sealing the segment now would give it the right count, or none. */
  ghost predicate Sealable(q: Queue, lay: seq<seq<Chunk>>) {
    Whole(q, lay) || q.wr.count == 0
  }

  ghost predicate AllGood(cs: seq<Chunk>) {
    forall c :: c in cs ==> c.Good?
  }

  lemma {:induction false} AllGoodCount(cs: seq<Chunk>)
    requires AllGood(cs)
    ensures |Goods(cs)| == |cs|
  {
    if cs != [] {
      assert cs[0] in cs;
      assert forall c :: c in cs[1..] ==> c in cs;
      AllGoodCount(cs[1..]);
    }
  }

  function AllGoods(lay: seq<seq<Chunk>>): seq<Msg> {
    if lay == [] then [] else Goods(lay[0]) + AllGoods(lay[1..])
  }

  /** The messages still ahead of the reader, in order. */
  function Pending(lay: seq<seq<Chunk>>, k: nat): seq<Msg>
    requires |lay| > 0 && k <= |lay[0]|
  {
    Goods(lay[0][k..]) + AllGoods(lay[1..])
  }

  // ----- The reader passes over everything that is no message

  function NextGood(cs: seq<Chunk>, k: nat): (j: nat)
    requires k <= |cs|
    ensures k <= j <= |cs| && (j < |cs| ==> cs[j].Good?)
    ensures Goods(cs[k..]) == Goods(cs[j..])
    decreases |cs| - k
  {
    if k == |cs| || cs[k].Good? then k else GoodsCons(cs, k); NextGood(cs, k + 1)
  }

  lemma {:induction false} QuietUpTo(seg: seq<byte>, cs: seq<Chunk>, k: nat)
    requires Holds(seg, cs) && k <= |cs|
    ensures Boundary(cs, k) <= Boundary(cs, NextGood(cs, k)) <= End(cs) <= |seg|
    ensures Quiet(seg, Boundary(cs, k), Boundary(cs, NextGood(cs, k)))
    decreases |cs| - k
  {
    hide Goods, ParseMsg;
    NoPairAcross(seg, cs, k);
    if k < |cs| {
      ChunkInPlace(seg, cs, k);
      if cs[k].Damaged? {
        DamagedIsQuiet(seg, cs, k);
        QuietUpTo(seg, cs, k + 1);
        QuietJoin(seg, Boundary(cs, k), Boundary(cs, k + 1), Boundary(cs, NextGood(cs, k)));
      }
    }
  }

  lemma QuietHead(seg: seq<byte>, cs: seq<Chunk>)
    requires Holds(seg, cs)
    ensures Quiet(seg, 0, Boundary(cs, 0))
  {
    assert cs[..0] == [];
    BlankIsQuiet(seg, 0, DB_FILE_HEAD_LEN);
  }

  lemma QuietTailOf(seg: seq<byte>, cs: seq<Chunk>, from: nat)
    requires Holds(seg, cs) && End(cs) <= from <= |seg|
    ensures Quiet(seg, from, |seg|)
  {
    TailIsQuiet(seg, from, |seg|);
  }

  /** From the read position to the next message, or to the end of the segment when there is none. */
  lemma QuietAhead(seg: seq<byte>, cs: seq<Chunk>, k: nat, pos: nat)
    requires Holds(seg, cs) && ReadAt(cs, k, pos) && pos <= |seg|
    ensures var j := NextGood(cs, k);
      if j < |cs| then pos <= Boundary(cs, j) && Quiet(seg, pos, Boundary(cs, j)) else Quiet(seg, pos, |seg|)
  {
    var j := NextGood(cs, k);
    var b := Boundary(cs, j);
    QuietUpTo(seg, cs, k);
    QuietHead(seg, cs);
    hide Goods, ParseMsg;
    if pos == 0 && k == 0 {
      assert cs[..0] == [];
      QuietJoin(seg, 0, Boundary(cs, 0), b);
    }
    if j == |cs| {
      if pos <= b {
        QuietTailOf(seg, cs, b);
        QuietJoin(seg, pos, b, |seg|);
      } else {
        QuietTailOf(seg, cs, pos);
      }
    }
  }

  // ----- Rounds of the read loop

  function At(q: Queue, pos: nat): Queue { q.(rd := q.rd.(pos := pos)) }

  lemma CrcErrIsMagic(seg: seq<byte>, pos: nat)
    requires SegmentSize(|seg|) && pos <= |seg| && ParseMsg(seg, pos).CrcErr?
    ensures MagicAt(seg, pos)
  {
    hide Crc, FromLe16, FromLe32;
  }

  /** A quiet byte is skipped, or a quiet pair. */
  lemma SkipOne(q: Queue, now: int)
    requires WellFormed(q) && q.rd.pos + MSG_HEAD_LEN < (if q.rd.index == q.wr.index then q.wr.pos else q.max)
    requires ParseMsg(q.disk[q.rd.index], q.rd.pos).MagicErr? || ParseMsg(q.disk[q.rd.index], q.rd.pos).CrcErr?
    ensures var n := if ParseMsg(q.disk[q.rd.index], q.rd.pos).MagicErr? then 1 else 2;
      WellFormed(At(q, q.rd.pos + n)) && GetData(q, now) == GetData(At(q, q.rd.pos + n), now)
  {
    hide ParseMsg, NextReadFile;
  }

  lemma {:induction false} SkipTo(q: Queue, pos: nat, now: int)
    requires WellFormed(q) && q.rd.pos <= pos && pos + MSG_HEAD_LEN <= q.max
    requires q.rd.index == q.wr.index ==> pos + MSG_HEAD_LEN <= q.wr.pos
    requires Quiet(q.disk[q.rd.index], q.rd.pos, pos) && pos > 0 && !MagicAt(q.disk[q.rd.index], pos - 1)
    ensures WellFormed(At(q, pos)) && GetData(q, now) == GetData(At(q, pos), now)
    decreases pos - q.rd.pos
  {
    hide ParseMsg, MagicAt, NextReadFile, GetData;
    var p := q.rd.pos;
    if p < pos {
      SkipOne(q, now);
      if ParseMsg(q.disk[q.rd.index], p).MagicErr? {
        SkipTo(At(q, p + 1), pos, now);
      } else {
        CrcErrIsMagic(q.disk[q.rd.index], p);
        SkipTo(At(q, p + 2), pos, now);
      }
    } else {
      assert At(q, pos) == q;
    }
  }

  /** In the writer's segment, with nothing but quiet bytes ahead: the end of the queue. */
  lemma {:induction false} EndOfQueue(q: Queue, now: int)
    requires WellFormed(q) && q.rd.index == q.wr.index
    requires Quiet(q.disk[q.rd.index], q.rd.pos, q.wr.pos)
    ensures GetData(q, now) == (At(q, q.wr.pos).(unread := 0), None)
    decreases q.max - q.rd.pos
  {
    hide ParseMsg, NextReadFile, GetData;
    var p := q.rd.pos;
    if p + MSG_HEAD_LEN < q.wr.pos {
      SkipOne(q, now);
      if ParseMsg(q.disk[q.rd.index], p).MagicErr? {
        EndOfQueue(At(q, p + 1), now);
      } else {
        EndOfQueue(At(q, p + 2), now);
      }
    } else {
      LastRound(q, now);
    }
  }

  lemma LastRound(q: Queue, now: int)
    requires WellFormed(q) && q.rd.index == q.wr.index && q.rd.pos + MSG_HEAD_LEN >= q.wr.pos
    ensures GetData(q, now) == (At(q, q.wr.pos).(unread := 0), None)
  {
    hide ParseMsg;
  }

  lemma ParseBeyond(seg: seq<byte>, pos: nat)
    requires SegmentSize(|seg|) && pos <= |seg| && pos + MSG_HEAD_LEN >= |seg|
    ensures ParseMsg(seg, pos) == LenBeyond
  {}

  /** In an older segment, with nothing but quiet bytes ahead: on to the next segment. */
  lemma {:induction false} EndOfSegment(q: Queue, now: int)
    requires WellFormed(q) && q.rd.index < q.wr.index
    requires Quiet(q.disk[q.rd.index], q.rd.pos, q.max)
    ensures WellFormed(NextReadFile(q)) && GetData(q, now) == GetData(NextReadFile(q), now)
    decreases q.max - q.rd.pos
  {
    hide ParseMsg, NextReadFile, GetData;
    var p := q.rd.pos;
    if p + MSG_HEAD_LEN >= q.max {
      ParseBeyond(q.disk[q.rd.index], p);
      NextRound(q, now);
    } else {
      SkipOne(q, now);
      var p' := if ParseMsg(q.disk[q.rd.index], p).MagicErr? then p + 1 else p + 2;
      EndOfSegment(At(q, p'), now);
      NextFromAnywhere(q, p');
    }
  }

  lemma NextRound(q: Queue, now: int)
    requires WellFormed(q) && q.rd.index < q.wr.index && ParseMsg(q.disk[q.rd.index], q.rd.pos) == LenBeyond
    ensures WellFormed(NextReadFile(q)) && GetData(q, now) == GetData(NextReadFile(q), now)
  {
    hide ParseMsg, Line;
  }

  /** One round of the reader over the integers. At the end of the written part it stops for good, and forgets what
      the counter promised. A message whose length and checksum fit is handed out, or held back in its place. A
      pair that is no message costs two bytes, unless its length leads out of the segment: then, as at the end of
      the file, the next segment is read, if there is one. */
  lemma {:induction false} ReaderDecides(q: Queue, now: nat)
    requires WellFormed(q) && now < 0x8000_0000
    ensures var seg, pos := q.disk[q.rd.index], q.rd.pos;
      var next := if q.rd.index == q.wr.index then (q, None) else GetData(NextReadFile(q), now);
      var r := GetData(q, now);
      if q.rd.index == q.wr.index && pos + 12 >= q.wr.pos then r == (At(q, q.wr.pos).(unread := 0), None)
      else if pos + 12 >= |seg| then r == next
      else if seg[pos..pos + 2] != [MAGIC1, MAGIC2] then r == GetData(At(q, pos + 1), now)
      else
        var len, time := Number(seg[pos + 8..pos + 12]), Number(seg[pos + 2..pos + 6]);
        if pos + 12 + len > |seg| then r == if pos + 12 + len < U32 then next else GetData(At(q, pos + 2), now)
        else if Crc(seg[pos + 12..pos + 12 + len]) != Number(seg[pos + 6..pos + 8]) then
          r == GetData(At(q, pos + 2), now)
        else if (if time <= now then now - time else U32 - (time - now)) < q.delay then r == (q, None)
        else
          && r.1 == Some(Msg(time, seg[pos + 12..pos + 12 + len]))
          && r.0 == q.(rd := Cursor(q.rd.index, pos + 12 + len, q.rd.count + 1), getNum := q.getNum + 1,
                       unread := if q.unread == 0 then U64 - 1 else q.unread - 1)
  {
    hide ParseMsg, Crc, Number, NextReadFile, Line, GetData, GetStep, WellFormed, TooYoung;
    ReadSegment(q);
    var seg, pos := q.disk[q.rd.index], q.rd.pos;
    ParseDecides(seg, pos);
    ReturnRound(q, now);
    if !(q.rd.index == q.wr.index && pos + 12 >= q.wr.pos) {
      var r := ParseMsg(seg, pos);
      if r.LenBeyond? && q.rd.index < q.wr.index {
        NextRound(q, now);
      } else if r.MagicErr? || r.CrcErr? {
        SkipOne(q, now);
      } else if r.Ok? {
        AgeInIntegers(r.msg.time, q.delay, now);
      }
    }
  }

  lemma ReadSegment(q: Queue)
    requires WellFormed(q)
    ensures q.rd.index in q.disk && |q.disk[q.rd.index]| == q.max && SegmentSize(q.max) && q.rd.pos <= q.max
    ensures q.rd.index <= q.wr.index && q.delay < U32
  {}

  lemma AgeInIntegers(time: nat, delay: nat, now: nat)
    requires time < U32 && now < 0x8000_0000
    ensures TooYoung(time, delay, now) <==> (if time <= now then now - time else U32 - (time - now)) < delay
  {}

  /** The rounds with which the reader returns. */
  lemma ReturnRound(q: Queue, now: int)
    requires WellFormed(q)
    ensures var r := ParseMsg(q.disk[q.rd.index], q.rd.pos);
      if q.rd.index == q.wr.index && q.rd.pos + MSG_HEAD_LEN >= q.wr.pos then
        GetData(q, now) == (At(q, q.wr.pos).(unread := 0), None)
      else if r.Ok? then
        GetData(q, now) ==
        if TooYoung(r.msg.time, q.delay, now) then (q, None)
        else (q.(rd := Cursor(q.rd.index, q.rd.pos + |r.msg.body| + MSG_HEAD_LEN, q.rd.count + 1),
                 getNum := q.getNum + 1, unread := if q.unread == 0 then U64 - 1 else q.unread - 1), Some(r.msg))
      else if r.LenBeyond? && q.rd.index == q.wr.index then GetData(q, now) == (q, None)
      else true
  {
    hide ParseMsg, NextReadFile, TooYoung;
  }

  lemma NextFromAnywhere(q: Queue, pos: nat)
    ensures NextReadFile(At(q, pos)) == NextReadFile(q)
  {
    hide Line;
  }

  /** The segment that is left behind holds no message any more, so nothing is lost with it. */
  lemma {:induction false} EnterNextSegment(q: Queue, lay: seq<seq<Chunk>>, k: nat)
    requires Stores(q, lay, k) && |lay| > 1
    ensures Stores(NextReadFile(q), lay[1..], 0)
  {
    hide Holds, Line;
    var q' := NextReadFile(q);
    var lay' := lay[1..];
    assert lay'[|lay'| - 1] == lay[|lay| - 1];
    forall i | 0 <= i < |lay'|
      ensures Holds(q'.disk[q'.rd.index + i], lay'[i])
    {
      assert Holds(q.disk[q.rd.index + (i + 1)], lay[i + 1]);
    }
    assert lay'[0][..0] == [];
    assert Boundary(lay'[0], 0) == DB_FILE_HEAD_LEN <= End(lay'[|lay'| - 1]);
  }

  lemma EnterNextExact(q: Queue, lay: seq<seq<Chunk>>, k: nat)
    requires Exact(q, lay, k) && |lay| > 1
    ensures Exact(NextReadFile(q), lay[1..], 0)
  {
    hide HeadUnder, HeadEmpty, AllGood, Line;
    var q', lay' := NextReadFile(q), lay[1..];
    forall i | 0 <= i < |lay'| - 1
      ensures HeadUnder(q'.disk[q'.rd.index + i], |lay'[i]|)
    {
      assert HeadUnder(q.disk[q.rd.index + (i + 1)], |lay[i + 1]|);
    }
  }

  // ----- Get

  /** The segments from the n-th on. */
  function From(lay: seq<seq<Chunk>>, n: int): seq<seq<Chunk>> {
    if 0 <= n <= |lay| then lay[n..] else []
  }

  /** The reader stands before chunk k of the segment it reads, which holds the chunks cs. */
  ghost predicate Reads(q: Queue, cs: seq<Chunk>, k: nat) {
    && WellFormed(q) && Holds(q.disk[q.rd.index], cs) && ReadAt(cs, k, q.rd.pos)
    && (q.rd.index == q.wr.index ==> End(cs) <= q.wr.pos)
  }

  lemma ReaderSegment(q: Queue, lay: seq<seq<Chunk>>, k: nat)
    requires Stores(q, lay, k)
    ensures Holds(q.disk[q.rd.index], lay[0]) && |q.disk[q.rd.index]| == q.max
    ensures |lay| == 1 <==> q.rd.index == q.wr.index
    ensures |lay| == 1 ==> End(lay[0]) <= q.wr.pos
    ensures Reads(q, lay[0], k)
  {
    assert Holds(q.disk[q.rd.index + 0], lay[0]);
    hide Holds;
    HoldsLayout(q.disk[q.rd.index], lay[0]);
  }

  lemma GoodFits(seg: seq<byte>, cs: seq<Chunk>, k: nat)
    requires Holds(seg, cs) && k < |cs| && cs[k].Good?
    ensures SegmentSize(|seg|) && Fits(cs[k].msg, |seg|)
  {
    assert ChunkOk(cs[k], |seg|);
  }

  /** The next message of a segment: only quiet bytes before it, and the parser accepts it. */
  lemma MessageAhead(seg: seq<byte>, cs: seq<Chunk>, k: nat, pos: nat)
    requires Holds(seg, cs) && ReadAt(cs, k, pos) && pos <= |seg| && NextGood(cs, k) < |cs|
    ensures var j := NextGood(cs, k);
      var b, m := Boundary(cs, j), cs[j].msg;
      && pos <= b && Quiet(seg, pos, b) && !MagicAt(seg, b - 1)
      && Boundary(cs, j + 1) == b + MSG_HEAD_LEN + |m.body| <= End(cs) <= |seg|
      && Fits(m, |seg|)
      && ParseMsg(seg, b) == Ok(m)
  {
    hide Holds, ParseMsg, Frame, Quiet, Boundary, ReadAt, NextGood, MagicAt;
    var j := NextGood(cs, k);
    ChunkInPlace(seg, cs, j);
    NoPairAcross(seg, cs, j);
    GoodFits(seg, cs, j);
    QuietAhead(seg, cs, k, pos);
    ParseFrame(seg, Boundary(cs, j), cs[j].msg);
  }

  lemma ReaderMoved(q: Queue, lay: seq<seq<Chunk>>, k: nat, rd: Cursor, k': nat, unread: nat, getNum: nat)
    requires Stores(q, lay, k) && rd.index == q.rd.index && ReadAt(lay[0], k', rd.pos)
    requires MSG_HEAD_LEN * rd.count <= rd.pos <= if rd.index == q.wr.index then q.wr.pos else q.max
    ensures Stores(q.(rd := rd, unread := unread, getNum := getNum), lay, k')
  {
    hide Holds, ReadAt;
  }

  /** What one call of mq_sm_get_data does: nothing pending gives the end of the queue, a message
      that is too young stays, any other is delivered, and everything behind it is kept. */
  ghost predicate GetSpec(q: Queue, p: seq<Msg>, now: int, q': Queue, msg: Option<Msg>, p': seq<Msg>) {
    && q' == q'.(max := q.max, wr := q.wr, delay := q.delay, maxque := q.maxque, wlock := q.wlock,
                 putNum := q.putNum)
    && if p == [] then
         msg == None && p' == [] && q'.unread == 0 && q'.getNum == q.getNum
       else if TooYoung(p[0].time, q.delay, now) then
         msg == None && p' == p && q'.unread == q.unread && q'.getNum == q.getNum
       else
         msg == Some(p[0]) && p' == p[1..] && q'.unread == Decremented(q.unread)
         && q'.getNum == q.getNum + 1
  }

  lemma PendingAt(lay: seq<seq<Chunk>>, k: nat)
    requires |lay| > 0 && k <= |lay[0]|
    ensures var j := NextGood(lay[0], k);
      if j < |lay[0]| then
        Pending(lay, k) == Pending(lay, j) == [lay[0][j].msg] + Pending(lay, j + 1)
      else
        Pending(lay, k) == AllGoods(lay[1..])
  {
    var cs, j := lay[0], NextGood(lay[0], k);
    if j < |cs| {
      GoodsCons(cs, j);
      assert [cs[j].msg] + Goods(cs[j + 1..]) + AllGoods(lay[1..]) == [cs[j].msg] + Pending(lay, j + 1);
    } else {
      assert cs[j..] == [];
    }
  }

  /** In a segment with a message ahead, the loop skips to it and makes its last round there. */
  lemma MessageRound(q: Queue, cs: seq<Chunk>, k: nat, now: int)
    requires Reads(q, cs, k) && NextGood(cs, k) < |cs|
    ensures var j := NextGood(cs, k);
      var m := cs[j].msg;
      && q.rd.pos <= Boundary(cs, j)
      && Boundary(cs, j + 1) == Boundary(cs, j) + MSG_HEAD_LEN + |m.body|
      && Boundary(cs, j + 1) <= (if q.rd.index == q.wr.index then q.wr.pos else q.max)
      && GetData(q, now) ==
        if TooYoung(m.time, q.delay, now) then (At(q, Boundary(cs, j)), None)
        else (q.(rd := Cursor(q.rd.index, Boundary(cs, j + 1), q.rd.count + 1),
                 getNum := q.getNum + 1, unread := Decremented(q.unread)), Some(m))
  {
    hide ParseMsg, Boundary, Quiet, NextGood, MagicAt, Holds, GetData, NextReadFile;
    var j := NextGood(cs, k);
    var b, m := Boundary(cs, j), cs[j].msg;
    MessageAhead(q.disk[q.rd.index], cs, k, q.rd.pos);
    SkipTo(q, b, now);
    OneRound(At(q, b), m, now);
  }

  lemma AllGoodNext(cs: seq<Chunk>, k: nat)
    requires AllGood(cs) && k <= |cs|
    ensures NextGood(cs, k) == k
  {
    if k < |cs| {
      assert cs[k] in cs;
    }
  }

  lemma ExactMoved(q: Queue, lay: seq<seq<Chunk>>, k: nat, q': Queue, k': nat)
    requires Exact(q, lay, k)
    requires q'.disk == q.disk && q'.wr.index == q.wr.index && q'.wr.count <= q.wr.count
    requires q'.rd.index == q.rd.index && q'.rd.count == k'
    ensures Exact(q', lay, k')
  {
    hide HeadUnder, HeadEmpty, AllGood;
  }

  lemma GetAtMessage(q: Queue, lay: seq<seq<Chunk>>, k: nat, now: int) returns (k': nat)
    requires Stores(q, lay, k) && NextGood(lay[0], k) < |lay[0]|
    ensures k' <= |lay[0]| && Stores(GetData(q, now).0, lay, k')
    ensures GetData(q, now).0.rd.index == q.rd.index
    ensures Exact(q, lay, k) ==> Exact(GetData(q, now).0, lay, k')
    ensures GetSpec(q, Pending(lay, k), now, GetData(q, now).0, GetData(q, now).1, Pending(lay, k'))
  {
    hide Boundary, Pending, Holds, GetData, Exact;
    var j := NextGood(lay[0], k);
    var b, b' := Boundary(lay[0], j), Boundary(lay[0], j + 1);
    var m := lay[0][j].msg;
    ReaderSegment(q, lay, k);
    MessageRound(q, lay[0], k, now);
    PendingAt(lay, k);
    k' := if TooYoung(m.time, q.delay, now) then j else j + 1;
    ReaderMoved(q, lay, k, Cursor(q.rd.index, b, q.rd.count), j, q.unread, q.getNum);
    ReaderMoved(q, lay, k, Cursor(q.rd.index, b', q.rd.count + 1), j + 1, Decremented(q.unread), q.getNum + 1);
    if Exact(q, lay, k) {
      ExactNext(q, lay, k);
      ExactMoved(q, lay, k, GetData(q, now).0, k');
    }
  }

  lemma ExactNext(q: Queue, lay: seq<seq<Chunk>>, k: nat)
    requires Exact(q, lay, k) && k <= |lay[0]|
    ensures NextGood(lay[0], k) == k == q.rd.count
  {
    assert lay[0] in lay;
    AllGoodNext(lay[0], k);
  }

  /** The last round: a message right at the read position. */
  lemma OneRound(q: Queue, m: Msg, now: int)
    requires WellFormed(q) && ParseMsg(q.disk[q.rd.index], q.rd.pos) == Ok(m)
    requires q.rd.index == q.wr.index ==> q.rd.pos + MSG_HEAD_LEN < q.wr.pos
    ensures GetData(q, now) ==
      if TooYoung(m.time, q.delay, now) then (q, None)
      else (q.(rd := Cursor(q.rd.index, q.rd.pos + MSG_HEAD_LEN + |m.body|, q.rd.count + 1),
               getNum := q.getNum + 1, unread := Decremented(q.unread)), Some(m))
  {
    hide ParseMsg, NextReadFile;
  }

  lemma QuietBefore(seg: seq<byte>, from: nat, to: nat)
    requires SegmentSize(|seg|) && Quiet(seg, from, |seg|) && to <= |seg|
    ensures Quiet(seg, from, to)
  {
    hide ParseMsg;
  }

  lemma GetAtEnd(q: Queue, lay: seq<seq<Chunk>>, k: nat, now: int)
    requires Stores(q, lay, k) && NextGood(lay[0], k) == |lay[0]| && |lay| == 1
    ensures Stores(GetData(q, now).0, lay, |lay[0]|)
    ensures GetData(q, now).0.rd.index == q.rd.index
    ensures Exact(q, lay, k) ==> Exact(GetData(q, now).0, lay, |lay[0]|)
    ensures GetSpec(q, Pending(lay, k), now, GetData(q, now).0, GetData(q, now).1, Pending(lay, |lay[0]|))
  {
    hide ParseMsg, Boundary, Quiet, Holds, GetData, Exact, Pending;
    ReaderSegment(q, lay, k);
    QuietAhead(q.disk[q.rd.index], lay[0], k, q.rd.pos);
    QuietBefore(q.disk[q.rd.index], q.rd.pos, q.wr.pos);
    ReaderMoved(q, lay, k, q.rd.(pos := q.wr.pos), |lay[0]|, 0, q.getNum);
    EndOfQueue(q, now);
    PendingAt(lay, k);
    PendingAt(lay, |lay[0]|);
    if Exact(q, lay, k) {
      ExactNext(q, lay, k);
      ExactMoved(q, lay, k, GetData(q, now).0, k);
    }
  }

  /** With no message left in the oldest segment, what is pending is what the others hold. */
  lemma PendingAcross(lay: seq<seq<Chunk>>, k: nat)
    requires |lay| > 1 && k <= |lay[0]| && NextGood(lay[0], k) == |lay[0]|
    ensures Pending(lay, k) == Pending(lay[1..], 0)
  {
    hide Goods, NextGood;
    PendingAt(lay, k);
    assert lay[1..][0][0..] == lay[1];
  }

  lemma SpecAcross(q: Queue, p: seq<Msg>, now: int, q': Queue, msg: Option<Msg>, p': seq<Msg>)
    requires GetSpec(NextReadFile(q), p, now, q', msg, p')
    ensures GetSpec(q, p, now, q', msg, p') && NextReadFile(q).rd.index == q.rd.index + 1
  {
    hide Line;
  }

  lemma {:induction false} GetDelivers(q: Queue, lay: seq<seq<Chunk>>, k: nat, now: int)
      returns (lay': seq<seq<Chunk>>, k': nat)
    requires Stores(q, lay, k)
    ensures |lay'| > 0 && k' <= |lay'[0]| && Stores(GetData(q, now).0, lay', k')
    ensures Exact(q, lay, k) ==> Exact(GetData(q, now).0, lay', k')
    ensures GetSpec(q, Pending(lay, k), now, GetData(q, now).0, GetData(q, now).1, Pending(lay', k'))
    ensures GetData(q, now).0.rd.index == q.rd.index ==> lay' == lay
    ensures GetData(q, now).0.rd.index > q.rd.index ==> Pending(lay', 0) == Pending(lay, k)
    ensures GetData(q, now).0.rd.index >= q.rd.index
    ensures lay' == From(lay, GetData(q, now).0.rd.index - q.rd.index)
    decreases |lay|
  {
    hide ParseMsg, GetData, Quiet, Exact, Holds, Boundary, Pending, NextReadFile, GetSpec;
    var cs := lay[0];
    ReaderSegment(q, lay, k);
    if NextGood(cs, k) < |cs| {
      lay' := lay;
      k' := GetAtMessage(q, lay, k, now);
    } else if |lay| == 1 {
      lay', k' := lay, |cs|;
      GetAtEnd(q, lay, k, now);
    } else {
      QuietAhead(q.disk[q.rd.index], cs, k, q.rd.pos);
      EndOfSegment(q, now);
      EnterNextSegment(q, lay, k);
      if Exact(q, lay, k) {
        EnterNextExact(q, lay, k);
      }
      lay', k' := GetDelivers(NextReadFile(q), lay[1..], 0, now);
      PendingAcross(lay, k);
      SpecAcross(q, Pending(lay, k), now, GetData(q, now).0, GetData(q, now).1, Pending(lay', k'));
    }
  }

  // ----- Put

  function AppendTo(lay: seq<seq<Chunk>>, c: Chunk): seq<seq<Chunk>>
    requires |lay| > 0
  {
    lay[|lay| - 1 := lay[|lay| - 1] + [c]]
  }

  /** The head is the version digit, twelve digits of the count, and zeros. */
  lemma {:induction false} HeadShows(count: nat)
    requires count < 1_000_000_000_000
    ensures var h := FileHead(count);
      && h[0] == 49 && AllDigits(h[1..13]) && Value(h[1..13]) == count
      && forall i :: 13 <= i < DB_FILE_HEAD_LEN ==> h[i] == 0
  {
    hide Padded, Value, Pow10;
    TenDigits();
    PaddedValue(count, 12);
    assert FileHead(count)[1..13] == Padded(count, 12);
  }

  /** A frame that still fits goes behind the last one, and no other byte changes. */
  lemma {:induction false} PutFits(q: Queue, m: Msg)
    requires WellFormed(q) && Fits(m, q.max) && q.wr.pos + 12 + |m.body| <= q.max
    ensures var f, w := Frame(m), q.wr.index;
      PutData(q, m)
      == q.(wr := Cursor(w, q.wr.pos + |f|, q.wr.count + 1), putNum := q.putNum + 1,
            disk := q.disk[w := q.disk[w][..q.wr.pos] + f + q.disk[w][q.wr.pos + |f|..]])
  {
    hide Frame;
  }

  /** Otherwise the head of the segment gets the count, a new segment of zeros with a head of its own gets the
      frame, and the journal a line. */
  lemma {:induction false} PutTurns(q: Queue, m: Msg)
    requires WellFormed(q) && Fits(m, q.max) && q.wr.pos + 12 + |m.body| > q.max
    ensures var q', f, w := PutData(q, m), Frame(m), q.wr.index;
      && q' == q.(wr := Cursor(w + 1, 128 + |f|, 1), putNum := q.putNum + 1, disk := q'.disk, rtag := q'.rtag)
      && q'.rtag == q.rtag + Line(Record(q.rd.count, q.rd.pos, 128, q.maxque, q.delay, q.wlock))
      && q'.disk.Keys == q.disk.Keys + {w + 1}
      && (forall i :: i in q.disk && i != w ==> q'.disk[i] == q.disk[i])
      && q'.disk[w] == FileHead(q.wr.count) + q.disk[w][128..]
      && var seg := q'.disk[w + 1];
        && |seg| == q.max && seg[..128 + |f|] == FileHead(0) + f
        && forall i :: 128 + |f| <= i < |seg| ==> seg[i] == if i == q.max - 1 then 48 else 0
  {
    hide Frame, FileHead, Line, WellFormed;
    TurnShape(q, m);
    var empty := Overwrite(FreshSegment(q.max), 0, FileHead(0));
    assert empty[..128] == FileHead(0);
    var s := Overwrite(empty, 128, Frame(m));
    assert s[..128 + |Frame(m)|] == FileHead(0) + Frame(m);
  }

  lemma TurnShape(q: Queue, m: Msg)
    requires WellFormed(q) && Fits(m, q.max) && q.wr.pos + 12 + |m.body| > q.max
    ensures var w := q.wr.index;
      && w in q.disk && w + 1 !in q.disk && |q.disk[w]| == q.max && SegmentSize(q.max)
      && 128 + |Frame(m)| <= q.max
      && PutData(q, m)
         == q.(wr := Cursor(w + 1, 128 + |Frame(m)|, 1), putNum := q.putNum + 1,
               rtag := q.rtag + Line(Record(q.rd.count, q.rd.pos, 128, q.maxque, q.delay, q.wlock)),
               disk := q.disk[w := Overwrite(q.disk[w], 0, FileHead(q.wr.count))]
                             [w + 1 := Overwrite(Overwrite(FreshSegment(q.max), 0, FileHead(0)), 128, Frame(m))])
  {
    hide Frame, FileHead, Line, Overwrite, FreshSegment;
  }

  lemma HeadIsBlank(count: nat)
    ensures Blank(FileHead(count), 0, DB_FILE_HEAD_LEN)
  {
    hide Padded;
    var h := FileHead(count);
    forall p | 0 <= p < DB_FILE_HEAD_LEN
      ensures h[p] <= 57
    {
      if 1 <= p < 13 {
        assert h[p] == Padded(count, 12)[p - 1] && IsDigit(Padded(count, 12)[p - 1]);
      }
    }
  }

  /** Sealing a segment rewrites its head only. */
  lemma HeadWritten(q: Queue, lay: seq<seq<Chunk>>, k: nat)
    requires Stores(q, lay, k)
    ensures Stores(WriteFileHead(q), lay, k)
  {
    hide Holds, Boundary, ReadAt, FileHead;
    var w := q.wr.index;
    var n := |lay| - 1;
    assert Holds(q.disk[q.rd.index + n], lay[n]);
    HeadIsBlank(q.wr.count);
    RewriteHead(q.disk[w], lay[n], FileHead(q.wr.count));
    forall i | 0 <= i < |lay|
      ensures Holds(WriteFileHead(q).disk[q.rd.index + i], lay[i])
    {
      assert Holds(q.disk[q.rd.index + i], lay[i]);
    }
  }

  /** Rotation adds an empty segment. */
  lemma SegmentAdded(q: Queue, lay: seq<seq<Chunk>>, k: nat)
    requires Stores(q, lay, k)
    ensures Stores(NextWriteFile(q), lay + [[]], k)
  {
    hide Holds, Line, FileHead, ReadAt, FreshSegment;
    var q1 := q.(disk := q.disk[q.wr.index + 1 := FreshSegment(q.max)],
                 wr := Cursor(q.wr.index + 1, DB_FILE_HEAD_LEN, 0));
    var lay1 := lay + [[]];
    FreshHoldsNothing(q.max);
    assert lay1[0] == lay[0];
    forall i | 0 <= i < |lay1|
      ensures Holds(q1.disk[q1.rd.index + i], lay1[i])
    {
      if i < |lay| {
        assert Holds(q.disk[q.rd.index + i], lay[i]);
      }
    }
    HeadWritten(q1, lay1, k);
  }

  lemma MessageAppended(q: Queue, lay: seq<seq<Chunk>>, k: nat, m: Msg)
    requires Stores(q, lay, k) && Fits(m, q.max)
    requires q.wr.pos == End(lay[|lay| - 1]) && q.wr.pos + |Frame(m)| <= q.max
    ensures Stores(AppendMsg(q, m), AppendTo(lay, Good(m)), k)
  {
    hide Holds, Frame, Boundary, End;
    var n := |lay| - 1;
    var lay' := AppendTo(lay, Good(m));
    assert Holds(q.disk[q.rd.index + n], lay[n]);
    AppendFrame(q.disk[q.wr.index], lay[n], m);
    forall i | 0 <= i < |lay'|
      ensures Holds(AppendMsg(q, m).disk[q.rd.index + i], lay'[i])
    {
      assert Holds(q.disk[q.rd.index + i], lay[i]);
    }
    EndIsLast(lay[n]);
    EndIsLast(lay'[n]);
    assert k <= |lay[0]|;
    if n == 0 {
      assert Boundary(lay'[0], k) == Boundary(lay[0], k);
    }
  }

  lemma EndIsLast(cs: seq<Chunk>)
    ensures End(cs) == Boundary(cs, |cs|)
  {}

  lemma {:induction false} AllGoodsAppend(lay: seq<seq<Chunk>>, c: Chunk)
    requires |lay| > 0
    ensures AllGoods(AppendTo(lay, c)) == AllGoods(lay) + Goods([c])
  {
    var lay' := AppendTo(lay, c);
    if |lay| == 1 {
      GoodsSplit(lay[0], [c]);
      assert lay'[1..] == [] && lay[1..] == [];
    } else {
      AllGoodsAppend(lay[1..], c);
      assert lay'[1..] == AppendTo(lay[1..], c);
    }
  }

  lemma PendingAppend(lay: seq<seq<Chunk>>, k: nat, m: Msg)
    requires |lay| > 0 && k <= |lay[0]|
    ensures Pending(AppendTo(lay, Good(m)), k) == Pending(lay, k) + [m]
  {
    var lay' := AppendTo(lay, Good(m));
    assert Goods([Good(m)]) == [m];
    if |lay| == 1 {
      assert lay'[0][k..] == lay[0][k..] + [Good(m)];
      GoodsSplit(lay[0][k..], [Good(m)]);
      assert lay'[1..] == [] && lay[1..] == [];
    } else {
      AllGoodsAppend(lay[1..], Good(m));
      assert lay'[1..] == AppendTo(lay[1..], Good(m));
    }
  }

  lemma PendingEmptySegment(lay: seq<seq<Chunk>>, k: nat)
    requires |lay| > 0 && k <= |lay[0]|
    ensures Pending(lay + [[]], k) == Pending(lay, k)
  {
    assert (lay + [[]])[1..] == lay[1..] + [[]];
    AllGoodsEmptyLast(lay[1..]);
  }

  lemma {:induction false} AllGoodsEmptyLast(lay: seq<seq<Chunk>>)
    ensures AllGoods(lay + [[]]) == AllGoods(lay)
  {
    if lay == [] {
      assert (lay + [[]])[1..] == [];
    } else {
      assert (lay + [[]])[1..] == lay[1..] + [[]];
      AllGoodsEmptyLast(lay[1..]);
    }
  }

  /** The chunks after a put: in the current segment, or alone in a new one. */
  function AfterPut(q: Queue, lay: seq<seq<Chunk>>, m: Msg): seq<seq<Chunk>>
    requires |lay| > 0
  {
    AppendTo(if NeedsRotation(q, m) then lay + [[]] else lay, Good(m))
  }

  ghost predicate SameButFiles(q: Queue, q': Queue) {
    q' == q.(disk := q'.disk, wr := q'.wr, rtag := q'.rtag)
  }

  lemma RotationStores(q: Queue, lay: seq<seq<Chunk>>, k: nat, m: Msg)
    requires Stores(q, lay, k) && Fits(m, q.max)
    ensures var lay' := if NeedsRotation(q, m) then lay + [[]] else lay;
      && Stores(Rotated(q, m), lay', k)
      && Rotated(q, m).wr.pos == End(lay'[|lay'| - 1])
      && Rotated(q, m).wr.pos + |Frame(m)| <= q.max
      && SameButFiles(q, Rotated(q, m))
      && Pending(lay', k) == Pending(lay, k)
  {
    hide Holds, FileHead, FreshSegment, Line, Frame, Goods, AllGoods;
    if NeedsRotation(q, m) {
      HeadWritten(q, lay, k);
      SegmentAdded(WriteFileHead(q), lay, k);
      PendingEmptySegment(lay, k);
    }
  }

  /** mq_sm_put_data puts the message behind everything pending, rotation or not. */
  lemma {:induction false} PutAppends(q: Queue, lay: seq<seq<Chunk>>, k: nat, m: Msg)
    requires Stores(q, lay, k) && Fits(m, q.max)
    ensures var lay' := AfterPut(q, lay, m);
      && Stores(PutData(q, m), lay', k)
      && Pending(lay', k) == Pending(lay, k) + [m]
      && SameButFiles(q.(putNum := q.putNum + 1), PutData(q, m))
  {
    hide Holds, Rotated, NeedsRotation, Goods, AllGoods, Frame, AppendTo, Pending, Overwrite;
    RotationStores(q, lay, k, m);
    var lay1 := if NeedsRotation(q, m) then lay + [[]] else lay;
    MessageAppended(Rotated(q, m), lay1, k, m);
    PendingAppend(lay1, k, m);
  }

  // ----- Put keeps the counts exact

  /** What a scan of the segment that is being written finds. */
  lemma ScanOfLast(q: Queue, lay: seq<seq<Chunk>>, k: nat)
    requires Stores(q, lay, k) && Exact(q, lay, k)
    ensures ScanCount(q.disk[q.wr.index], 0, q.max) == |lay[|lay| - 1]|
  {
    hide HeadRight, HeadEmpty, AllGood, ScanCount, Holds;
    var n := |lay| - 1;
    assert Holds(q.disk[q.rd.index + n], lay[n]);
    assert lay[n] in lay;
    AllGoodCount(lay[n]);
    HoldsLayout(q.disk[q.wr.index], lay[n]);
    ScanIsExact(q.disk[q.wr.index], lay[n], q.max);
  }

  lemma HeadOf(seg: seq<byte>, head: seq<byte>)
    requires |head| == DB_FILE_HEAD_LEN <= |seg|
    ensures Overwrite(seg, 0, head)[..DB_FILE_HEAD_LEN] == head
  {}

  lemma FreshHeadEmpty(max: nat)
    requires SegmentSize(max)
    ensures HeadEmpty(FreshSegment(max))
  {}

  lemma RotationExact(q: Queue, lay: seq<seq<Chunk>>, k: nat)
    requires Stores(q, lay, k) && Exact(q, lay, k)
    ensures Exact(NextWriteFile(WriteFileHead(q)), lay + [[]], k)
  {
    hide Holds, FileHead, FreshSegment, Line, Overwrite, AllGood, ReadAt, HeadUnder, HeadEmpty;
    var q', lay', n := NextWriteFile(WriteFileHead(q)), lay + [[]], |lay|;
    SealedUnder(q.disk[q.wr.index], q.wr.count, |lay[n - 1]|);
    FreshSealed(q.max);
    EmptyIsGood();
    forall i | 0 <= i < |lay'| - 1
      ensures HeadUnder(q'.disk[q'.rd.index + i], |lay'[i]|)
    {
      if i < n - 1 {
        assert HeadUnder(q.disk[q.rd.index + i], |lay[i]|);
      }
    }
  }

  lemma SealedUnder(seg: seq<byte>, count: nat, n: nat)
    requires count <= n && |seg| >= DB_FILE_HEAD_LEN
    ensures HeadUnder(Overwrite(seg, 0, FileHead(count)), n)
  {
    hide FileHead;
    HeadOf(seg, FileHead(count));
    assert HeadCounts(Overwrite(seg, 0, FileHead(count)), count);
  }

  lemma FreshSealed(max: nat)
    requires SegmentSize(max)
    ensures HeadEmpty(Overwrite(FreshSegment(max), 0, FileHead(0)))
  {
    hide FileHead;
    HeadOf(FreshSegment(max), FileHead(0));
  }

  lemma EmptyIsGood()
    ensures AllGood([])
  {}

  lemma GoodAppended(cs: seq<Chunk>, m: Msg)
    requires AllGood(cs)
    ensures AllGood(cs + [Good(m)])
  {}

  lemma AppendExact(q: Queue, lay: seq<seq<Chunk>>, k: nat, m: Msg)
    requires Stores(q, lay, k) && Exact(q, lay, k)
    requires q.wr.pos == End(lay[|lay| - 1]) && q.wr.pos + |Frame(m)| <= q.max
    ensures Exact(AppendMsg(q, m), AppendTo(lay, Good(m)), k)
  {
    hide Holds, Frame, Overwrite, AllGood, End, ReadAt;
    var q', lay', n := AppendMsg(q, m), AppendTo(lay, Good(m)), |lay| - 1;
    assert lay[n] in lay;
    GoodAppended(lay[n], m);
    EndIsLast(lay[n]);
    OverwriteHead(q.disk[q.wr.index], q.wr.pos, Frame(m));
    forall i | 0 <= i < |lay'| - 1
      ensures HeadUnder(q'.disk[q'.rd.index + i], |lay'[i]|)
    {
      assert HeadUnder(q.disk[q.rd.index + i], |lay[i]|);
    }
    forall cs | cs in lay'
      ensures AllGood(cs)
    {
      assert cs in lay || cs == lay'[n];
    }
  }

  lemma OverwriteHead(seg: seq<byte>, at: nat, src: seq<byte>)
    requires DB_FILE_HEAD_LEN <= at && at + |src| <= |seg|
    ensures Overwrite(seg, at, src)[..DB_FILE_HEAD_LEN] == seg[..DB_FILE_HEAD_LEN]
  {}

  lemma PutWhole(q: Queue, lay: seq<seq<Chunk>>, m: Msg)
    requires WellFormed(q) && Fits(m, q.max) && (Whole(q, lay) || (NeedsRotation(q, m) && |lay| > 0))
    ensures Whole(PutData(q, m), AfterPut(q, lay, m))
  {
    hide Frame, FreshSegment, FileHead, Line, Overwrite;
  }

  lemma {:induction false} PutExact(q: Queue, lay: seq<seq<Chunk>>, k: nat, m: Msg)
    requires Stores(q, lay, k) && Exact(q, lay, k) && Fits(m, q.max)
    ensures Exact(PutData(q, m), AfterPut(q, lay, m), k)
  {
    hide Holds, Frame, AppendMsg, NextWriteFile, WriteFileHead, Exact, NeedsRotation, Pending, AppendTo;
    RotationStores(q, lay, k, m);
    if NeedsRotation(q, m) {
      RotationExact(q, lay, k);
      AppendExact(Rotated(q, m), lay + [[]], k, m);
    } else {
      AppendExact(q, lay, k, m);
    }
  }

  /** Put keeps every head right, unless it seals a segment with the count of some of its messages only. */
  lemma {:induction false} PutRight(q: Queue, lay: seq<seq<Chunk>>, k: nat, m: Msg)
    requires Stores(q, lay, k) && Right(q, lay) && Fits(m, q.max)
    requires NeedsRotation(q, m) ==> Sealable(q, lay)
    ensures Right(PutData(q, m), AfterPut(q, lay, m))
  {
    hide Holds, Frame, Line, Overwrite, FileHead, FreshSegment;
    var q', lay', n := PutData(q, m), AfterPut(q, lay, m), |lay| - 1;
    if NeedsRotation(q, m) {
      HeadOf(q.disk[q.wr.index], FileHead(q.wr.count));
    }
    forall i | 0 <= i < |lay'| - 1
      ensures q'.rd.index + i in q'.disk && HeadRight(q'.disk[q'.rd.index + i], |lay'[i]|)
    {
      if i < n {
        assert HeadRight(q.disk[q.rd.index + i], |lay[i]|);
      }
    }
  }

  /** Get changes no file, it only removes the oldest ones. */
  lemma {:induction false} DiskOfGet(q: Queue, now: int)
    requires WellFormed(q)
    ensures var q' := GetData(q, now).0;
      && q'.rd.index >= q.rd.index && q'.wr == q.wr
      && forall i :: q'.rd.index <= i <= q.wr.index ==> i in q.disk && i in q'.disk && q'.disk[i] == q.disk[i]
    decreases q.wr.index - q.rd.index, q.max - q.rd.pos
  {
    hide ParseMsg, Line;
    match GetStep(q, now)
    case Continue(q') => DiskOfGet(q', now);
    case Return(_, _) =>
  }

  lemma GetRight(q: Queue, lay: seq<seq<Chunk>>, k: nat, now: int)
    requires Stores(q, lay, k)
    ensures var q' := GetData(q, now).0;
      var lay' := From(lay, q'.rd.index - q.rd.index);
      |lay'| > 0 && (Right(q, lay) ==> Right(q', lay')) && (Whole(q, lay) ==> Whole(q', lay'))
  {
    hide Holds, ReadAt, GetData, HeadRight;
    DiskOfGet(q, now);
    var q' := GetData(q, now).0;
    var gone := q'.rd.index - q.rd.index;
    if Right(q, lay) {
      forall i | 0 <= i < |lay| - gone - 1
        ensures q'.rd.index + i in q'.disk && HeadRight(q'.disk[q'.rd.index + i], |lay[gone..][i]|)
      {
        assert HeadRight(q.disk[q.rd.index + (gone + i)], |lay[gone + i]|);
      }
    }
  }
}
