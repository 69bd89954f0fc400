/** Whole runs of one queue: every sequence of requests answered by the segmented log is answered
    the same way by a bounded FIFO in memory. */
module Runs {
  import opened Bytes
  import opened Message
  import opened Segment
  import opened Journal
  import opened Strings
  import opened Store
  import F = Fifo

  datatype Request =
    | PutReq(body: seq<byte>, now: nat)
    | GetReq(now: nat)
    | MaxQueueReq(maxque: nat)
    | DelayReq(delay: nat)
    | LockReq(wlock: nat, now: nat)

  datatype Reply = PutReply(r: PutResult) | GetReply(msg: Option<Msg>) | Done

  /** Times are non-negative C ints; the settings are uint32 parameters. */
  predicate Sensible(req: Request) {
    match req
    case PutReq(_, now) => now < 0x8000_0000
    case GetReq(now) => now < 0x8000_0000
    case MaxQueueReq(n) => n < U32
    case DelayReq(n) => n < U32
    case LockReq(n, now) => n < U32 && now < 0x8000_0000
  }

  predicate AllSensible(reqs: seq<Request>) {
    forall req :: req in reqs ==> Sensible(req)
  }

  // ----- The reference: a FIFO in memory

  /** The items in order, the counters the status page shows, and the settings. The unread counter
      may exceed the number of items: messages lost to damage stay counted until the queue is
      found empty. It may also be smaller, after a restart that counted too few. */
  datatype Memory = Memory(items: seq<Msg>, puts: nat, gets: nat, unread: nat,
                           delay: nat, maxque: nat, wlock: int)

  /** A new queue with the settings conf. */
  function Empty(conf: Defaults): Memory { Memory([], 0, 0, 0, conf.delay, conf.maxque, 0) }

  /** Get looks at the counter before it looks at the items. */
  function Answer(f: Memory, max: nat, req: Request): (Memory, Reply) {
    match req
    case PutReq(body, now) =>
      if |body| == 0 || |body| + DB_FILE_HEAD_LEN + MSG_HEAD_LEN > max then (f, PutReply(BadRequest))
      else if f.maxque != 0 && f.unread >= f.maxque then (f, PutReply(Full))
      else if IsLocked(f.wlock, now) then (f, PutReply(Locked))
      else (f.(items := f.items + [Msg(now, body)], puts := f.puts + 1, unread := f.unread + 1), PutReply(PutOk))
    case GetReq(now) =>
      if f.unread < 1 then (f, GetReply(None))
      else if f.items == [] then (f.(unread := 0), GetReply(None))
      else if TooYoung(f.items[0].time, f.delay, now) then (f, GetReply(None))
      else (f.(items := f.items[1..], gets := f.gets + 1, unread := f.unread - 1), GetReply(Some(f.items[0])))
    case MaxQueueReq(n) => (f.(maxque := n), Done)
    case DelayReq(n) => (f.(delay := n), Done)
    case LockReq(n, now) => (f.(wlock := NewLock(n, now)), Done)
  }

  function AnswerAll(f: Memory, max: nat, reqs: seq<Request>): (r: (Memory, seq<Reply>))
    ensures |r.1| == |reqs|
    decreases |reqs|
  {
    if reqs == [] then (f, [])
    else
      var (f1, reply) := Answer(f, max, reqs[0]);
      var (f2, replies) := AnswerAll(f1, max, reqs[1..]);
      (f2, [reply] + replies)
  }

  /** The request was one that the log records in its journal. */
  predicate Logs(reply: Reply) {
    match reply
    case PutReply(r) => r == PutOk
    case GetReply(msg) => msg.Some?
    case Done => true
  }

  // ----- The log

  function Serve(q: Queue, req: Request): (r: (Queue, Reply))
    requires WellFormed(q) && Sensible(req)
    ensures WellFormed(r.0)
  {
    match req
    case PutReq(body, now) => var (q', r) := Put(q, body, now); (q', PutReply(r))
    case GetReq(now) => var (q', msg) := Get(q, now); (q', GetReply(msg))
    case MaxQueueReq(n) => (SetMaxQueue(q, n), Done)
    case DelayReq(n) => (SetDelay(q, n), Done)
    case LockReq(n, now) => (SetLock(q, n, now), Done)
  }

  /** What the log is in memory terms. */
  function View(q: Queue, lay: seq<seq<Chunk>>, k: nat): Memory
    requires |lay| > 0 && k <= |lay[0]|
  {
    Memory(F.Pending(lay, k), q.putNum, q.getNum, q.unread, q.delay, q.maxque, q.wlock)
  }

  lemma Recorded(q: Queue, lay: seq<seq<Chunk>>, k: nat, q': Queue)
    requires F.Stores(q, lay, k) && q' == q.(delay := q'.delay, maxque := q'.maxque, wlock := q'.wlock,
      unread := q'.unread, rtag := q'.rtag) && q'.delay < U32
    ensures F.Stores(q', lay, k)
    ensures F.Exact(q, lay, k) ==> F.Exact(q', lay, k)
    ensures F.Whole(q, lay) ==> F.Whole(q', lay)
    ensures F.Right(q, lay) ==> F.Right(q', lay)
  {
    hide Holds, F.ReadAt, F.HeadRight, F.HeadUnder, F.HeadEmpty, F.AllGood;
  }

  /** The request is a put that seals a segment. */
  predicate Seals(q: Queue, req: Request)
    requires WellFormed(q) && Sensible(req)
  {
    req.PutReq? && Put(q, req.body, req.now).1 == PutOk && NeedsRotation(q, Msg(req.now, req.body))
  }

  /** It seals the segment with the count that a scan of it would find, or with none. */
  predicate SealsWell(q: Queue, req: Request)
    requires WellFormed(q) && Sensible(req)
  {
    Seals(q, req) ==> q.wr.count == 0 || q.wr.count == ScanCount(q.disk[q.wr.index], 0, q.max)
  }

  lemma PutServed(q: Queue, lay: seq<seq<Chunk>>, k: nat, body: seq<byte>, now: nat) returns (lay': seq<seq<Chunk>>)
    requires F.Stores(q, lay, k) && now < 0x8000_0000
    ensures var req := PutReq(body, now);
      && |lay'| > 0 && k <= |lay'[0]|
      && F.Stores(Serve(q, req).0, lay', k)
      && (F.Exact(q, lay, k) ==> F.Exact(Serve(q, req).0, lay', k))
      && (F.Exact(q, lay, k) && F.Right(q, lay) && (F.Whole(q, lay) || SealsWell(q, req)) ==>
            F.Right(Serve(q, req).0, lay'))
      && (F.Whole(q, lay) ==> F.Whole(Serve(q, req).0, lay'))
      && (View(Serve(q, req).0, lay', k), Serve(q, req).1) == Answer(View(q, lay, k), q.max, req)
      && Serve(q, req).0.max == q.max
      && lay' == (if Serve(q, req).1 == PutReply(PutOk) then F.AfterPut(q, lay, Msg(now, body)) else lay)
  {
    hide F.Stores, F.Exact, F.Right, PutData, F.Pending, F.AfterPut, Line, ScanCount, NeedsRotation;
    StoresShape(q, lay, k);
    lay' := lay;
    var (q', r) := Put(q, body, now);
    if r == PutOk {
      var m := Msg(now, body);
      lay' := F.AfterPut(q, lay, m);
      F.PutAppends(q, lay, k, m);
      StoresShape(PutData(q, m), lay', k);
      Recorded(PutData(q, m), lay', k, q');
      if F.Whole(q, lay) {
        F.PutWhole(q, lay, m);
      }
      if F.Exact(q, lay, k) {
        F.PutExact(q, lay, k, m);
        if F.Right(q, lay) && (F.Whole(q, lay) || SealsWell(q, PutReq(body, now))) {
          F.ScanOfLast(q, lay, k);
          F.PutRight(q, lay, k, m);
        }
      }
    }
  }

  lemma StoresShape(q: Queue, lay: seq<seq<Chunk>>, k: nat)
    requires F.Stores(q, lay, k)
    ensures |lay| > 0 && k <= |lay[0]| && WellFormed(q)
  {}

  lemma GetAnswered(q: Queue, lay: seq<seq<Chunk>>, k: nat, now: nat, lay': seq<seq<Chunk>>, k': nat)
    requires F.Stores(q, lay, k) && k <= |lay[0]| && now < 0x8000_0000 && q.unread >= 1
    requires |lay'| > 0 && k' <= |lay'[0]| && F.Stores(GetData(q, now).0, lay', k')
    requires F.GetSpec(q, F.Pending(lay, k), now, GetData(q, now).0, GetData(q, now).1, F.Pending(lay', k'))
    ensures var req := GetReq(now);
      && F.Stores(Serve(q, req).0, lay', k')
      && (F.Exact(GetData(q, now).0, lay', k') ==> F.Exact(Serve(q, req).0, lay', k'))
      && (F.Right(GetData(q, now).0, lay') ==> F.Right(Serve(q, req).0, lay'))
      && (F.Whole(GetData(q, now).0, lay') ==> F.Whole(Serve(q, req).0, lay'))
      && (View(Serve(q, req).0, lay', k'), Serve(q, req).1) == Answer(View(q, lay, k), q.max, req)
      && Serve(q, req).0.max == q.max
  {
    hide F.Stores, F.Exact, F.Right, F.Whole, GetData, F.Pending, Line;
    StoresShape(q, lay, k);
    var q1 := GetData(q, now).0;
    StoresShape(q1, lay', k');
    Recorded(q1, lay', k', WriteItem(q1));
  }

  lemma GetServed(q: Queue, lay: seq<seq<Chunk>>, k: nat, now: nat) returns (lay': seq<seq<Chunk>>, k': nat)
    requires F.Stores(q, lay, k) && now < 0x8000_0000
    ensures var req := GetReq(now);
      && |lay'| > 0 && k' <= |lay'[0]|
      && F.Stores(Serve(q, req).0, lay', k')
      && (F.Exact(q, lay, k) ==> F.Exact(Serve(q, req).0, lay', k'))
      && (F.Right(q, lay) ==> F.Right(Serve(q, req).0, lay'))
      && (F.Whole(q, lay) ==> F.Whole(Serve(q, req).0, lay'))
      && (View(Serve(q, req).0, lay', k'), Serve(q, req).1) == Answer(View(q, lay, k), q.max, req)
      && Serve(q, req).0.max == q.max
  {
    hide F.Stores, F.Exact, F.Right, F.Whole, GetData, F.Pending, Line;
    StoresShape(q, lay, k);
    lay', k' := lay, k;
    if q.unread >= 1 {
      lay', k' := F.GetDelivers(q, lay, k, now);
      F.GetRight(q, lay, k, now);
      GetAnswered(q, lay, k, now, lay', k');
    }
  }

  /** One request, any kind: the log answers as the FIFO does and stays in step with it. */
  lemma {:induction false} OneServed(q: Queue, lay: seq<seq<Chunk>>, k: nat, req: Request)
      returns (lay': seq<seq<Chunk>>, k': nat)
    requires F.Stores(q, lay, k) && Sensible(req)
    ensures |lay'| > 0 && k' <= |lay'[0]| && F.Stores(Serve(q, req).0, lay', k')
    ensures F.Exact(q, lay, k) ==> F.Exact(Serve(q, req).0, lay', k')
    ensures F.Exact(q, lay, k) && F.Right(q, lay) && (F.Whole(q, lay) || SealsWell(q, req)) ==>
      F.Right(Serve(q, req).0, lay')
    ensures F.Whole(q, lay) ==> F.Whole(Serve(q, req).0, lay')
    ensures (View(Serve(q, req).0, lay', k'), Serve(q, req).1) == Answer(View(q, lay, k), q.max, req)
    ensures Serve(q, req).0.max == q.max
  {
    hide F.Stores, F.Exact, F.Right, F.Whole, F.Pending, Line, Put, Get, SealsWell;
    StoresShape(q, lay, k);
    lay', k' := lay, k;
    match req
    case PutReq(body, now) =>
      lay' := PutServed(q, lay, k, body, now);
    case GetReq(now) =>
      lay', k' := GetServed(q, lay, k, now);
    case _ =>
      Recorded(q, lay, k, Serve(q, req).0);
  }

  // ----- Runs

  function ServeAll(q: Queue, reqs: seq<Request>): (r: (Queue, seq<Reply>))
    requires WellFormed(q) && AllSensible(reqs)
    ensures WellFormed(r.0) && |r.1| == |reqs|
    decreases |reqs|
  {
    if reqs == [] then (q, [])
    else
      var (q1, reply) := Serve(q, reqs[0]);
      var (q2, replies) := ServeAll(q1, reqs[1..]);
      (q2, [reply] + replies)
  }

  lemma {:induction false} ServesContinue(q: Queue, reqs: seq<Request>, later: seq<Request>)
    requires WellFormed(q) && AllSensible(reqs) && AllSensible(later)
    ensures var (q1, replies) := ServeAll(q, reqs);
      && AllSensible(reqs + later)
      && ServeAll(q, reqs + later) == (ServeAll(q1, later).0, replies + ServeAll(q1, later).1)
    decreases |reqs|
  {
    hide Serve, WellFormed;
    if reqs == [] {
      assert reqs + later == later && [] + ServeAll(q, later).1 == ServeAll(q, later).1;
    } else {
      assert (reqs + later)[1..] == reqs[1..] + later && (reqs + later)[0] == reqs[0];
      var (q1, reply) := Serve(q, reqs[0]);
      ServesContinue(q1, reqs[1..], later);
      var (q2, replies) := ServeAll(q1, reqs[1..]);
      var more := ServeAll(q2, later).1;
      assert [reply] + (replies + more) == [reply] + replies + more;
    }
  }

  /** Over the run, every segment is sealed with its true count, or with none. */
  predicate SealsRight(q: Queue, reqs: seq<Request>)
    requires WellFormed(q) && AllSensible(reqs)
    decreases |reqs|
  {
    reqs == [] || (SealsWell(q, reqs[0]) && SealsRight(Serve(q, reqs[0]).0, reqs[1..]))
  }

  lemma {:induction false} GetKeepsMax(q: Queue, now: int)
    requires WellFormed(q)
    ensures GetData(q, now).0.max == q.max
    decreases q.wr.index - q.rd.index, q.max - q.rd.pos
  {
    hide ParseMsg, NextReadFile, GetStep;
    StepKeepsMax(q, now);
    if GetStep(q, now).Continue? {
      GetKeepsMax(GetStep(q, now).q, now);
    }
  }

  lemma StepKeepsMax(q: Queue, now: int)
    requires WellFormed(q)
    ensures GetStep(q, now).q.max == q.max
  {
    hide WellFormed, ParseMsg;
  }

  lemma ServeKeepsMax(q: Queue, req: Request)
    requires WellFormed(q) && Sensible(req)
    ensures Serve(q, req).0.max == q.max
  {
    hide WellFormed, GetData, Line, FileHead, FreshSegment, Frame;
    if req.GetReq? {
      GetKeepsMax(q, req.now);
    }
  }

  /** No request changes the segment size. */
  lemma {:induction false} MaxStays(q: Queue, reqs: seq<Request>)
    requires WellFormed(q) && AllSensible(reqs)
    ensures ServeAll(q, reqs).0.max == q.max
    decreases |reqs|
  {
    hide WellFormed, Serve;
    if reqs != [] {
      ServeKeepsMax(q, reqs[0]);
      MaxStays(Serve(q, reqs[0]).0, reqs[1..]);
    }
  }

  /** The FIFO theorem: from any state whose files hold messages, over any run of requests and any
      number of rotations, the log and the FIFO in memory give the same replies. */
  lemma {:induction false} RunRefinesFifo(q: Queue, lay: seq<seq<Chunk>>, k: nat, reqs: seq<Request>)
      returns (lay': seq<seq<Chunk>>, k': nat)
    requires F.Stores(q, lay, k)
    requires AllSensible(reqs)
    ensures |lay'| > 0 && k' <= |lay'[0]| && F.Stores(ServeAll(q, reqs).0, lay', k')
    ensures F.Exact(q, lay, k) ==> F.Exact(ServeAll(q, reqs).0, lay', k')
    ensures F.Exact(q, lay, k) && F.Right(q, lay) && (F.Whole(q, lay) || SealsRight(q, reqs)) ==>
      F.Right(ServeAll(q, reqs).0, lay')
    ensures F.Whole(q, lay) ==> F.Whole(ServeAll(q, reqs).0, lay')
    ensures (View(ServeAll(q, reqs).0, lay', k'), ServeAll(q, reqs).1) == AnswerAll(View(q, lay, k), q.max, reqs)
    decreases |reqs|
  {
    hide F.Stores, F.Exact, F.Right, F.Whole, F.Pending, Serve, Answer, SealsWell;
    lay', k' := lay, k;
    StoresShape(q, lay, k);
    if reqs != [] {
      var lay1, k1 := OneServed(q, lay, k, reqs[0]);
      lay', k' := RunRefinesFifo(Serve(q, reqs[0]).0, lay1, k1, reqs[1..]);
    }
  }

  lemma CreatedStoresNothing(max: nat, conf: Defaults)
    requires SegmentSize(max) && conf.delay < U32
    ensures F.Stores(Create(max, conf), [[]], 0) && F.Exact(Create(max, conf), [[]], 0)
    ensures F.Whole(Create(max, conf), [[]]) && F.Right(Create(max, conf), [[]])
    ensures View(Create(max, conf), [[]], 0) == Empty(conf)
    ensures Create(max, conf).max == max
  {
    hide Holds, FreshSegment, F.HeadEmpty, Line;
    FreshHoldsNothing(max);
    F.FreshHeadEmpty(max);
    F.EmptyIsGood();
  }

  // ----- What the FIFO promises

  function AcceptedOne(req: Request, reply: Reply): seq<Msg> {
    if req.PutReq? && reply == PutReply(PutOk) then [Msg(req.now, req.body)] else []
  }

  function DeliveredOne(reply: Reply): seq<Msg> {
    if reply.GetReply? && reply.msg.Some? then [reply.msg.value] else []
  }

  /** The bodies accepted by put, in order, and those handed out by get. */
  function Accepted(reqs: seq<Request>, replies: seq<Reply>): seq<Msg>
    requires |reqs| == |replies|
  {
    if reqs == [] then [] else AcceptedOne(reqs[0], replies[0]) + Accepted(reqs[1..], replies[1..])
  }

  function Delivered(replies: seq<Reply>): seq<Msg> {
    if replies == [] then [] else DeliveredOne(replies[0]) + Delivered(replies[1..])
  }

  lemma AnswerConserves(f: Memory, max: nat, req: Request)
    ensures var (f', reply) := Answer(f, max, req);
      f.items + AcceptedOne(req, reply) == DeliveredOne(reply) + f'.items
  {
    hide IsLocked, TooYoung, NewLock;
    if req.GetReq? && f.items != [] {
      assert f.items == [f.items[0]] + f.items[1..];
    }
  }

  lemma Regroup<T>(a: seq<T>, b: seq<T>, c: seq<T>, d: seq<T>, e: seq<T>, g: seq<T>)
    requires a + b == c + d && d + e == g
    ensures a + (b + e) == c + g
  {
    assert a + (b + e) == (a + b) + e;
    assert (c + d) + e == c + (d + e);
  }

  /** In memory nothing is lost, repeated or reordered. */
  lemma {:induction false} MemoryConserves(f: Memory, max: nat, reqs: seq<Request>)
    ensures var (f', replies) := AnswerAll(f, max, reqs);
      f.items + Accepted(reqs, replies) == Delivered(replies) + f'.items
    decreases |reqs|
  {
    hide Answer, AcceptedOne, DeliveredOne;
    if reqs == [] {
      assert f.items + [] == [] + f.items;
    } else {
      var (f1, reply) := Answer(f, max, reqs[0]);
      var (f', replies) := AnswerAll(f1, max, reqs[1..]);
      AnswerConserves(f, max, reqs[0]);
      MemoryConserves(f1, max, reqs[1..]);
      assert ([reply] + replies)[1..] == replies;
      assert Delivered([reply] + replies) == DeliveredOne(reply) + Delivered(replies);
      Regroup(f.items, AcceptedOne(reqs[0], reply), DeliveredOne(reply), f1.items,
              Accepted(reqs[1..], replies), Delivered(replies) + f'.items);
      assert DeliveredOne(reply) + (Delivered(replies) + f'.items)
          == (DeliveredOne(reply) + Delivered(replies)) + f'.items;
    }
  }

  /** A run may be cut in two. */
  lemma {:induction false} AnswersContinue(f: Memory, max: nat, reqs: seq<Request>, later: seq<Request>)
    ensures var (f1, replies) := AnswerAll(f, max, reqs);
      AnswerAll(f, max, reqs + later) == (AnswerAll(f1, max, later).0, replies + AnswerAll(f1, max, later).1)
    decreases |reqs|
  {
    hide Answer;
    if reqs == [] {
      assert reqs + later == later && [] + AnswerAll(f, max, later).1 == AnswerAll(f, max, later).1;
    } else {
      assert (reqs + later)[1..] == reqs[1..] + later && (reqs + later)[0] == reqs[0];
      var (f1, reply) := Answer(f, max, reqs[0]);
      AnswersContinue(f1, max, reqs[1..], later);
      var (f2, replies) := AnswerAll(f1, max, reqs[1..]);
      var more := AnswerAll(f2, max, later).1;
      assert [reply] + (replies + more) == [reply] + replies + more;
    }
  }

  /** f and g differ in their totals only. */
  predicate Alike(f: Memory, g: Memory) { g == f.(puts := g.puts, gets := g.gets) }

  lemma AnswersAlike(f: Memory, g: Memory, max: nat, req: Request)
    requires Alike(f, g)
    ensures Answer(g, max, req).1 == Answer(f, max, req).1 && Alike(Answer(f, max, req).0, Answer(g, max, req).0)
  {
    hide TooYoung, IsLocked, NewLock;
  }

  /** The numbers of puts and gets do not show in the replies. */
  lemma {:induction false} TotalsDoNotShow(f: Memory, g: Memory, max: nat, reqs: seq<Request>)
    requires Alike(f, g)
    ensures AnswerAll(g, max, reqs).1 == AnswerAll(f, max, reqs).1
    ensures Alike(AnswerAll(f, max, reqs).0, AnswerAll(g, max, reqs).0)
    decreases |reqs|
  {
    hide Answer;
    if reqs != [] {
      AnswersAlike(f, g, max, reqs[0]);
      TotalsDoNotShow(Answer(f, max, reqs[0]).0, Answer(g, max, reqs[0]).0, max, reqs[1..]);
    }
  }

  /** The counter is right, too small by n, or not too small. */
  predicate Withholds(f: Memory, n: nat) { f.unread + n == |f.items| }

  predicate Covers(f: Memory) { f.unread >= |f.items| }

  lemma AnswerCounts(f: Memory, max: nat, req: Request, n: nat)
    ensures var f' := Answer(f, max, req).0;
      && (Withholds(f, n) ==> Withholds(f', n)) && (Covers(f) ==> Covers(f'))
      && (f.puts == f.gets + |f.items| ==> f'.puts == f'.gets + |f'.items|)
  {
    hide TooYoung, IsLocked, NewLock;
  }

  /** A counter that is too small stays too small by the same number: that many of the newest messages
      are delivered late. A counter that is right stays right, and one that is too large never becomes
      too small. */
  lemma {:induction false} MemoryCounts(f: Memory, max: nat, reqs: seq<Request>, n: nat)
    ensures var f' := AnswerAll(f, max, reqs).0;
      && (Withholds(f, n) ==> Withholds(f', n)) && (Covers(f) ==> Covers(f'))
      && (f.puts == f.gets + |f.items| ==> f'.puts == f'.gets + |f'.items|)
    decreases |reqs|
  {
    hide Answer, Withholds, Covers;
    if reqs != [] {
      AnswerCounts(f, max, reqs[0], n);
      MemoryCounts(Answer(f, max, reqs[0]).0, max, reqs[1..], n);
    }
  }

  // ----- What the counter shows

  /** n gets. */
  function Gets(n: nat): (reqs: seq<Request>)
    ensures |reqs| == n && AllSensible(reqs)
  {
    if n == 0 then [] else [GetReq(0)] + Gets(n - 1)
  }

  /** The first items, as many as the counter announces, and then the end. */
  ghost predicate HandsOut(replies: seq<Reply>, f: Memory) {
    forall i :: 0 <= i < |replies| ==>
      replies[i] == GetReply(if i < f.unread && i < |f.items| then Some(f.items[i]) else None)
  }

  /** One get: the first item, and every later one moves a place to the front. */
  lemma FirstGone(f: Memory, max: nat)
    requires f.delay == 0
    ensures var (f1, reply) := Answer(f, max, GetReq(0));
      && f1.delay == 0
      && reply == GetReply(if 0 < f.unread && 0 < |f.items| then Some(f.items[0]) else None)
      && (0 < f.unread && 0 < |f.items| ==>
            f1 == f.(items := f.items[1..], gets := f.gets + 1, unread := f.unread - 1))
      && (f.unread == 0 || f.items == [] ==> f1.unread == 0 || f1.items == [])
  {}

  /** With no delay, gets hand out as many items as the counter announces and as there are, in order,
      and nothing after that. */
  lemma {:induction false} GetsGive(f: Memory, max: nat, n: nat)
    requires f.delay == 0
    ensures var (f', replies) := AnswerAll(f, max, Gets(n));
      && |replies| == n && HandsOut(replies, f)
      && (n <= f.unread && n <= |f.items| ==>
            f' == f.(items := f.items[n..], gets := f.gets + n, unread := f.unread - n))
    decreases n
  {
    hide Answer;
    if n > 0 {
      var (f1, reply) := Answer(f, max, GetReq(0));
      FirstGone(f, max);
      assert Gets(n)[1..] == Gets(n - 1);
      GetsGive(f1, max, n - 1);
      var replies := AnswerAll(f1, max, Gets(n - 1)).1;
      assert AnswerAll(f, max, Gets(n)).1 == [reply] + replies;
      forall i | 0 < i < n
        ensures ([reply] + replies)[i]
             == GetReply(if i < f.unread && i < |f.items| then Some(f.items[i]) else None)
      {
        assert ([reply] + replies)[i] == replies[i - 1];
      }
    }
  }

  /** No limit, no delay, no lock. */
  const OPENING: seq<Request> := [MaxQueueReq(0), DelayReq(0), LockReq(0, 0)]

  lemma AnswerFirst(f: Memory, max: nat, req: Request, rest: seq<Request>)
    ensures var (f1, reply) := Answer(f, max, req);
      AnswerAll(f, max, [req] + rest) == (AnswerAll(f1, max, rest).0, [reply] + AnswerAll(f1, max, rest).1)
  {
    hide Answer;
    assert ([req] + rest)[1..] == rest;
  }

  lemma {:induction false} Opening(f: Memory, max: nat, reqs: seq<Request>)
    ensures var (f', replies) := AnswerAll(f.(maxque := 0, delay := 0, wlock := 0), max, reqs);
      AnswerAll(f, max, OPENING + reqs) == (f', [Done, Done, Done] + replies)
  {
    hide AnswerAll;
    var f1 := f.(maxque := 0);
    var f2 := f1.(delay := 0);
    var a, b, c := MaxQueueReq(0), DelayReq(0), LockReq(0, 0);
    AnswerFirst(f, max, a, [b, c] + reqs);
    AnswerFirst(f1, max, b, [c] + reqs);
    AnswerFirst(f2, max, c, reqs);
    assert OPENING + reqs == [a] + ([b, c] + reqs) && [b, c] + reqs == [b] + ([c] + reqs);
    var replies := AnswerAll(f2.(wlock := 0), max, reqs).1;
    assert [Done] + ([Done] + ([Done] + replies)) == [Done, Done, Done] + replies;
  }

  lemma OpeningSensible()
    ensures AllSensible(OPENING) && AllSensible([MaxQueueReq(1), PutReq([0], 0)])
  {}

  lemma DiffersAt(x: seq<Reply>, y: seq<Reply>, i: nat)
    requires i < |x| && i < |y| && x[i] != y[i]
    ensures x != y
  {}

  lemma SameFront(front: seq<Reply>, x: seq<Reply>, y: seq<Reply>)
    requires x != y
    ensures front + x != front + y
  {
    assert (front + x)[|front|..] == x && (front + y)[|front|..] == y;
  }

  /** After n gets, one put to a queue limited to one message. */
  function Probe(n: nat): (reqs: seq<Request>)
    ensures AllSensible(reqs)
  {
    OPENING + (Gets(n) + [MaxQueueReq(1), PutReq([0], 0)])
  }

  /** When all items have been handed out, a counter that is too large leaves no room for it. */
  lemma {:induction false} ProbeGives(f: Memory, max: nat)
    requires f.unread >= |f.items| && SegmentSize(max)
    ensures var n, replies := |f.items|, AnswerAll(f, max, Probe(|f.items|)).1;
      && |replies| == n + 5 && replies[n + 4] == PutReply(if f.unread > n then Full else PutOk)
      && (f.unread > n ==> PutReply(PutOk) !in replies)
  {
    hide AnswerAll, Answer, Gets, OPENING;
    var n, last := |f.items|, [MaxQueueReq(1), PutReq([0], 0)];
    var f1 := f.(maxque := 0, delay := 0, wlock := 0);
    GetsGive(f1, max, n);
    AnswersContinue(f1, max, Gets(n), last);
    LimitOfOne(AnswerAll(f1, max, Gets(n)).0, max);
    Opening(f, max, Gets(n) + last);
    var replies := AnswerAll(f1, max, Gets(n) + last).1;
    assert replies == AnswerAll(f1, max, Gets(n)).1 + [Done, PutReply(if f.unread > n then Full else PutOk)];
    assert forall i :: 3 <= i < n + 5 ==> ([Done, Done, Done] + replies)[i] == replies[i - 3];
  }

  /** Every wrong value of the counter shows in the replies of some run. */
  lemma {:induction false} UnreadShows(f: Memory, u: nat, max: nat) returns (reqs: seq<Request>)
    requires f.unread == |f.items| != u && SegmentSize(max)
    ensures AllSensible(reqs) && AnswerAll(f, max, reqs).1 != AnswerAll(f.(unread := u), max, reqs).1
    ensures PutReply(PutOk) !in AnswerAll(f.(unread := u), max, reqs).1
  {
    hide AnswerAll, Answer, Gets, OPENING;
    OpeningSensible();
    var g, n := f.(unread := u), |f.items|;
    if u < n {
      var f1, g1 := f.(maxque := 0, delay := 0, wlock := 0), g.(maxque := 0, delay := 0, wlock := 0);
      var rest := Gets(u + 1);
      reqs := OPENING + rest;
      GetsGive(f1, max, u + 1);
      GetsGive(g1, max, u + 1);
      DiffersAt(AnswerAll(f1, max, rest).1, AnswerAll(g1, max, rest).1, u);
      Opening(f, max, rest);
      Opening(g, max, rest);
      SameFront([Done, Done, Done], AnswerAll(f1, max, rest).1, AnswerAll(g1, max, rest).1);
    } else {
      reqs := Probe(n);
      ProbeGives(f, max);
      ProbeGives(g, max);
      DiffersAt(AnswerAll(f, max, reqs).1, AnswerAll(g, max, reqs).1, n + 4);
    }
  }

  lemma LimitOfOne(f: Memory, max: nat)
    requires f.wlock == 0 && SegmentSize(max)
    ensures AnswerAll(f, max, [MaxQueueReq(1), PutReq([0], 0)]).1
         == [Done, PutReply(if f.unread >= 1 then Full else PutOk)]
  {
    hide AnswerAll;
    var a, b := MaxQueueReq(1), PutReq([0], 0);
    AnswerFirst(f, max, a, [b]);
    AnswerFirst(f.(maxque := 1), max, b, []);
    NoRequests(Answer(f.(maxque := 1), max, b).0, max);
    assert [a] + [b] == [a, b] && [b] + [] == [b];
  }

  lemma NoRequests(f: Memory, max: nat)
    ensures AnswerAll(f, max, []) == (f, [])
  {}

  // ----- Delay, limit and lock, in seconds

  /** A message put at second t is held back for delay seconds. When the clock has been set back behind t it
      is handed out at once, unless the delay is longer than what is left to 2^32. */
  lemma {:induction false} DelayHolds(f: Memory, max: nat, now: nat)
    requires f.items != [] && f.unread >= 1 && f.items[0].time < U32 && now < 0x8000_0000
    ensures var (f', reply) := Answer(f, max, GetReq(now));
      var t := f.items[0].time;
      var held := if t <= now then now - t < f.delay else U32 - (t - now) < f.delay;
      if held then f' == f && reply == GetReply(None)
      else f'.items == f.items[1..] && f'.unread == f.unread - 1 && reply == GetReply(Some(f.items[0]))
  {}

  /** Only a lock request moves the lock. */
  lemma {:induction false} LockStays(f: Memory, max: nat, reqs: seq<Request>)
    requires forall req :: req in reqs ==> !req.LockReq?
    ensures AnswerAll(f, max, reqs).0.wlock == f.wlock
    decreases |reqs|
  {
    hide IsLocked, TooYoung, NewLock;
    if reqs != [] {
      assert forall req :: req in reqs[1..] ==> req in reqs;
      LockStays(Answer(f, max, reqs[0]).0, max, reqs[1..]);
    }
  }

  /** The answer to a put at second now, any number of other requests after a lock for n seconds was asked for
      at second t: the body, the limit and the lock decide, in this order. The lock lasts until t + n. For
      n = 2^32 - 1 it lasts for ever, for n = 0 there is none; a sum that reaches 2^31 but not 2^32 lasts longer
      than the clock counts, and one beyond starts over at 0. */
  lemma {:induction false} PutIsAnswered(f0: Memory, max: nat, n: nat, t: nat, between: seq<Request>,
                                         body: seq<byte>, now: nat)
    requires n < U32 && t < 0x8000_0000 && now < 0x8000_0000
    requires forall req :: req in between ==> !req.LockReq?
    ensures var f := AnswerAll(Answer(f0, max, LockReq(n, t)).0, max, between).0;
      var (f', reply) := Answer(f, max, PutReq(body, now));
      var locked := n != 0 && (n == U32 - 1 || now < if t + n < U32 then t + n else t + n - U32);
      && (n < U32 - 1 && 0x8000_0000 <= t + n < U32 ==> locked)
      && (t + n >= U32 && n < U32 - 1 && t <= now ==> !locked)
      && reply == PutReply(
           if |body| == 0 || |body| > max - DB_FILE_HEAD_LEN - MSG_HEAD_LEN then BadRequest
           else if 0 < f.maxque <= f.unread then Full
           else if locked then Locked
           else PutOk)
      && (if reply == PutReply(PutOk) then f'.items == f.items + [Msg(now, body)] && f'.unread == f.unread + 1
          else f' == f)
  {
    hide AnswerAll;
    LockStays(Answer(f0, max, LockReq(n, t)).0, max, between);
  }

  /** The log gives these answers too. */
  lemma {:induction false} LogHoldsAndLocks(q: Queue, lay: seq<seq<Chunk>>, k: nat, n: nat, t: nat,
                                            between: seq<Request>, body: seq<byte>, now: nat)
    requires F.Stores(q, lay, k) && |lay| > 0 && k <= |lay[0]| && AllSensible(between)
    requires n < U32 && t < 0x8000_0000 && now < 0x8000_0000
    requires forall req :: req in between ==> !req.LockReq?
    ensures WellFormed(q)
    ensures F.Pending(lay, k) != [] && q.unread >= 1 && F.Pending(lay, k)[0].time <= now ==>
      Serve(q, GetReq(now)).1
      == GetReply(if now - F.Pending(lay, k)[0].time < q.delay then None else Some(F.Pending(lay, k)[0]))
    ensures var q1 := ServeAll(Serve(q, LockReq(n, t)).0, between).0;
      0 < |body| <= q.max - DB_FILE_HEAD_LEN - MSG_HEAD_LEN && !(0 < q1.maxque <= q1.unread) && 0 < n < U32 - 1
      && t + n < 0x8000_0000 ==>
        Serve(q1, PutReq(body, now)).1 == PutReply(if now < t + n then Locked else PutOk)
  {
    hide F.Stores, F.Exact, F.Right, F.Whole, F.Pending, Serve, Answer, AnswerAll, ServeAll, WellFormed, SealsWell;
    hide SealsRight;
    StoresShape(q, lay, k);
    var f := View(q, lay, k);
    var lay1, k1 := OneServed(q, lay, k, GetReq(now));
    if F.Pending(lay, k) != [] && q.unread >= 1 && F.Pending(lay, k)[0].time <= now {
      DelayHolds(f, q.max, now);
    }
    var lay2, k2 := OneServed(q, lay, k, LockReq(n, t));
    var q0 := Serve(q, LockReq(n, t)).0;
    var lay3, k3 := RunRefinesFifo(q0, lay2, k2, between);
    MaxStays(q0, between);
    var q1 := ServeAll(q0, between).0;
    var lay4, k4 := OneServed(q1, lay3, k3, PutReq(body, now));
    PutIsAnswered(f, q.max, n, t, between, body, now);
  }

  /** Seen from outside: a new queue gives, over every run, the replies of an empty FIFO. */
  lemma {:induction false} NewQueueAnswersAsFifo(max: nat, conf: Defaults, reqs: seq<Request>)
    requires SegmentSize(max) && conf.delay < U32
    requires AllSensible(reqs)
    ensures ServeAll(Create(max, conf), reqs).1
         == AnswerAll(Empty(conf), max, reqs).1
  {
    hide F.Stores, F.Exact, F.Pending, Create, Serve, Answer;
    CreatedStoresNothing(max, conf);
    StoresShape(Create(max, conf), [[]], 0);
    var lay, k := RunRefinesFifo(Create(max, conf), [[]], 0, reqs);
  }

  /** Every run of a new queue: what get returned, followed by what is still stored, is what put
      accepted, byte for byte and in order; the counters agree with it; a get that finds the queue
      at its end means that everything accepted has been delivered. */
  lemma {:induction false} NewQueueIsFifo(max: nat, conf: Defaults, reqs: seq<Request>)
      returns (lay: seq<seq<Chunk>>, k: nat)
    requires SegmentSize(max) && conf.delay < U32
    requires AllSensible(reqs)
    ensures var (q, replies) := ServeAll(Create(max, conf), reqs);
      && |replies| == |reqs|
      && F.Stores(q, lay, k) && F.Exact(q, lay, k) && F.Right(q, lay) && F.Whole(q, lay)
      && Accepted(reqs, replies) == Delivered(replies) + F.Pending(lay, k)
      && q.unread == |F.Pending(lay, k)| == q.putNum - q.getNum
  {
    hide F.Stores, F.Exact, F.Right, F.Whole, F.Pending, Create, Serve;
    CreatedStoresNothing(max, conf);
    var q0 := Create(max, conf);
    StoresShape(q0, [[]], 0);
    lay, k := RunRefinesFifo(q0, [[]], 0, reqs);
    StoresShape(ServeAll(q0, reqs).0, lay, k);
    var f := View(q0, [[]], 0);
    MemoryConserves(f, q0.max, reqs);
    MemoryCounts(f, q0.max, reqs, 0);
    assert f.items + Accepted(reqs, ServeAll(q0, reqs).1) == Accepted(reqs, ServeAll(q0, reqs).1);
  }
}
