/** Damage to stored frames, and the reader's resynchronisation: one message is lost, and it is
    the damaged one. */
module DamageTolerance {
  import opened Bytes
  import opened Crc16
  import opened Message
  import opened Segment
  import opened Store
  import F = Fifo
  import R = Runs

  /** The queue after the c-th frame of its i-th segment was overwritten by raw on disk. */
  function DamagedQueue(q: Queue, lay: seq<seq<Chunk>>, i: nat, c: nat, raw: seq<byte>): Queue
    requires i < |lay| && c < |lay[i]| && q.rd.index + i in q.disk
    requires |raw| == |lay[i][c].Image()| && Boundary(lay[i], c) + |raw| <= |q.disk[q.rd.index + i]|
  {
    q.(disk := q.disk[q.rd.index + i := Damage(q.disk[q.rd.index + i], lay[i], c, raw)])
  }

  function DamagedLayout(lay: seq<seq<Chunk>>, i: nat, c: nat, raw: seq<byte>): seq<seq<Chunk>>
    requires i < |lay| && c < |lay[i]|
  {
    lay[i := lay[i][c := Damaged(raw)]]
  }

  lemma {:induction false} BoundariesStay(cs: seq<Chunk>, c: nat, raw: seq<byte>, k: nat)
    requires c < |cs| && |raw| == |cs[c].Image()| && k <= |cs|
    ensures Boundary(cs[c := Damaged(raw)], k) == Boundary(cs, k)
    decreases k
  {
    hide Segment.Chunk.Image;
    var ds := cs[c := Damaged(raw)];
    if k > 0 {
      BoundariesStay(cs, c, raw, k - 1);
      assert cs[..k][..k - 1] == cs[..k - 1] && ds[..k][..k - 1] == ds[..k - 1];
      assert |ds[k - 1].Image()| == |cs[k - 1].Image()| by { SameLength(cs, c, raw); }
    }
  }

  lemma SameLength(cs: seq<Chunk>, c: nat, raw: seq<byte>)
    requires c < |cs| && |raw| == |cs[c].Image()|
    ensures forall i :: 0 <= i < |cs| ==> |cs[c := Damaged(raw)][i].Image()| == |cs[i].Image()|
  {}

  lemma DamageFits(q: Queue, lay: seq<seq<Chunk>>, k: nat, i: nat, c: nat)
    requires F.Stores(q, lay, k) && i < |lay| && c < |lay[i]|
    ensures q.rd.index + i in q.disk && |q.disk[q.rd.index + i]| == q.max
    ensures Holds(q.disk[q.rd.index + i], lay[i])
    ensures Boundary(lay[i], c) + |lay[i][c].Image()| <= q.max
  {
    hide Holds, F.ReadAt;
    assert Holds(q.disk[q.rd.index + i], lay[i]);
    ChunkInPlace(q.disk[q.rd.index + i], lay[i], c);
  }

  lemma DamageKeepsStore(q: Queue, lay: seq<seq<Chunk>>, k: nat, i: nat, c: nat, raw: seq<byte>)
    requires F.Stores(q, lay, k) && i < |lay| && c < |lay[i]|
    requires |raw| == |lay[i][c].Image()| && Dead(raw)
    ensures q.rd.index + i in q.disk && Boundary(lay[i], c) + |raw| <= |q.disk[q.rd.index + i]|
    ensures F.Stores(DamagedQueue(q, lay, i, c, raw), DamagedLayout(lay, i, c, raw), k)
  {
    hide Holds, Dead, Boundary, End, Damage, Segment.Chunk.Image;
    DamageFits(q, lay, k, i, c);
    var q', lay', seg := DamagedQueue(q, lay, i, c, raw), DamagedLayout(lay, i, c, raw), q.disk[q.rd.index + i];
    DamageKillsOne(seg, lay[i], c, raw);
    F.EndIsLast(lay[i]);
    forall j | 0 <= j < |lay'|
      ensures Holds(q'.disk[q'.rd.index + j], lay'[j])
    {
      assert Holds(q.disk[q.rd.index + j], lay[j]);
    }
    if i == 0 {
      BoundariesStay(lay[0], c, raw, k);
    }
    DamageSize(seg, lay[i], c, raw);
  }

  lemma DamageSize(seg: seq<byte>, cs: seq<Chunk>, c: nat, raw: seq<byte>)
    requires c < |cs| && |raw| == |cs[c].Image()| && Boundary(cs, c) + |raw| <= |seg|
    ensures |Damage(seg, cs, c, raw)| == |seg|
  {}

  lemma GoodsWithout(cs: seq<Chunk>, c: nat, raw: seq<byte>)
    requires c < |cs| && cs[c].Good?
    ensures Goods(cs) == Goods(cs[..c]) + [cs[c].msg] + Goods(cs[c + 1..])
    ensures Goods(cs[c := Damaged(raw)]) == Goods(cs[..c]) + Goods(cs[c + 1..])
  {
    var ds := cs[c := Damaged(raw)];
    assert cs == cs[..c] + cs[c..] && ds == cs[..c] + ds[c..];
    GoodsSplit(cs[..c], cs[c..]);
    GoodsSplit(cs[..c], ds[c..]);
    GoodsCons(cs, c);
    GoodsCons(ds, c);
    assert ds[c + 1..] == cs[c + 1..];
  }

  lemma {:induction false} AllGoodsWithout(lay: seq<seq<Chunk>>, i: nat, c: nat, raw: seq<byte>)
      returns (before: seq<Msg>, after: seq<Msg>)
    requires i < |lay| && c < |lay[i]| && lay[i][c].Good?
    ensures F.AllGoods(lay) == before + [lay[i][c].msg] + after
    ensures F.AllGoods(DamagedLayout(lay, i, c, raw)) == before + after
  {
    hide Goods;
    var lay' := DamagedLayout(lay, i, c, raw);
    if i == 0 {
      GoodsWithout(lay[0], c, raw);
      before := Goods(lay[0][..c]);
      after := Goods(lay[0][c + 1..]) + F.AllGoods(lay[1..]);
      assert lay'[1..] == lay[1..];
    } else {
      var b, a := AllGoodsWithout(lay[1..], i - 1, c, raw);
      before, after := Goods(lay[0]) + b, a;
      assert lay'[1..] == DamagedLayout(lay[1..], i - 1, c, raw);
    }
  }

  /** Resynchronisation: an unread frame whose bytes went dead is the only message lost. Every
      other pending message is delivered, in the old order, by every later run. */
  lemma {:induction false} DamageLosesOne(q: Queue, lay: seq<seq<Chunk>>, k: nat, i: nat, c: nat, raw: seq<byte>)
      returns (before: seq<Msg>, after: seq<Msg>)
    requires F.Stores(q, lay, k) && i < |lay| && c < |lay[i]| && (i == 0 ==> k <= c)
    requires lay[i][c].Good? && |raw| == |lay[i][c].Image()| && Dead(raw)
    ensures q.rd.index + i in q.disk && Boundary(lay[i], c) + |raw| <= |q.disk[q.rd.index + i]|
    ensures var q', lay' := DamagedQueue(q, lay, i, c, raw), DamagedLayout(lay, i, c, raw);
      && F.Stores(q', lay', k)
      && F.Pending(lay, k) == before + [lay[i][c].msg] + after
      && F.Pending(lay', k) == before + after
      && (R.Covers(R.View(q, lay, k)) ==> R.Covers(R.View(q', lay', k)))
  {
    hide F.Stores, Dead, Boundary, Damage, Goods, Segment.Chunk.Image;
    DamageKeepsStore(q, lay, k, i, c, raw);
    KWithin(q, lay, k);
    var lay' := DamagedLayout(lay, i, c, raw);
    var cs, ds := lay[0][k..], lay'[0][k..];
    if i == 0 {
      assert ds == cs[c - k := Damaged(raw)];
      GoodsWithout(cs, c - k, raw);
      before := Goods(cs[..c - k]);
      after := Goods(cs[c - k + 1..]) + F.AllGoods(lay[1..]);
      assert lay'[1..] == lay[1..];
    } else {
      var b, a := AllGoodsWithout(lay[1..], i - 1, c, raw);
      before, after := Goods(cs) + b, a;
      assert lay'[1..] == DamagedLayout(lay[1..], i - 1, c, raw);
    }
  }

  lemma KWithin(q: Queue, lay: seq<seq<Chunk>>, k: nat)
    requires F.Stores(q, lay, k)
    ensures |lay| > 0 && k <= |lay[0]|
  {}

  /** The damage that is always noticed: one or two adjacent body bytes changed, everything else
      intact, and no magic pair left in the frame after its first two bytes. */
  lemma {:induction false} AdjacentBytesDamage(m: Msg, h: seq<byte>, x: byte, y: byte, x': byte, y': byte, t: seq<byte>,
                            raw: seq<byte>, max: nat)
    requires SegmentSize(max) && Fits(m, max) && m.body == h + [x, y] + t && (x != x' || y != y')
    requires raw == Frame(m)[..MSG_HEAD_LEN] + (h + [x', y'] + t)
    requires forall j :: 2 <= j < |raw| ==> !MagicAt(raw, j)
    ensures |raw| == |Frame(m)| && Dead(raw)
  {
    hide Frame, Crc, Dead, MagicAt;
    AdjacentDamageDetected(h, x, y, x', y', t);
    assert raw[MSG_HEAD_LEN..] == h + [x', y'] + t;
    assert raw[..MSG_HEAD_LEN] == Frame(m)[..MSG_HEAD_LEN];
    BodyDamageIsDead(m, raw, max);
  }
}
