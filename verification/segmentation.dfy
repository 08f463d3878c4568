/** How a channel is cut into frames. */
module Segmentation {
  import opened Bytes
  import opened TxDatas
  import opened BuilderSpec

  function Payloads(fs: seq<Frame>): seq<byte> {
    if fs == [] then [] else Payloads(fs[..|fs| - 1]) + fs[|fs| - 1].payload
  }

  /** The channel has been closed and its last frame created. */
  predicate Complete(b: BuilderValue) {
    b.co.closed && b.made != [] && b.made[|b.made| - 1].isLast
  }

  /** The frames made so far carry the stream in order without gap or overlap, are numbered
      consecutively from 0 (modulo 2^16), and are exactly full unless they end the channel. */
  ghost predicate Segmented(b: BuilderValue) {
    && b.cfg.Valid() && b.co.taken <= |b.co.stream|
    && b.numFrames == b.co.frame == |b.made|
    && Payloads(b.made) == b.co.stream[..b.co.taken]
    && (forall i :: 0 <= i < |b.made| ==> b.made[i].id == FrameID(b.co.id, i % (MAX_UINT16 + 1)))
    && (forall i :: 0 <= i < |b.made| ==> b.made[i].isLast ==> i == |b.made| - 1 && b.co.closed && b.co.taken == |b.co.stream|)
    && (forall i :: 0 <= i < |b.made| ==> |b.made[i].payload| <= Room(b) && (b.made[i].isLast || |b.made[i].payload| == Room(b)))
    && (b.co.closed ==> b.IsFull())
  }

  lemma OutputFrameSegmented(b: BuilderValue)
    requires Segmented(b) && !Complete(b)
    requires b.co.closed || b.co.ReadyBytes() >= Room(b)
    ensures Segmented(OutputFrame(b))
    ensures OutputFrame(b).co.stream == b.co.stream && OutputFrame(b).co.closed == b.co.closed
    ensures NextIsLast(b) ==>
      var b' := OutputFrame(b);
      && Complete(b') && b'.co.taken == |b'.co.stream|
      && (b'.made[|b'.made| - 1].payload == [] <==> b.co.ReadyBytes() == 0)
    ensures !NextIsLast(b) ==>
      var b' := OutputFrame(b);
      !Complete(b') && b'.co.ReadyBytes() < b.co.ReadyBytes() && (b.co.closed ==> 0 < b'.co.ReadyBytes())
  {
    hide Payloads;
    PayloadsStep(b);
    assert forall i :: 0 <= i < |b.made| ==> !b.made[i].isLast;
  }

  lemma PayloadsStep(b: BuilderValue)
    requires b.cfg.Valid() && b.co.taken <= |b.co.stream| && Payloads(b.made) == b.co.stream[..b.co.taken]
    ensures Payloads(OutputFrame(b).made) == b.co.stream[..OutputFrame(b).co.taken]
  {
    hide Payloads;
    PayloadsAppend(b.made, NextFrameMade(b));
    assert b.co.stream[..b.co.taken] + NextFrameMade(b).payload == b.co.stream[..OutputFrame(b).co.taken];
  }

  lemma PayloadsAppend(fs: seq<Frame>, f: Frame)
    ensures Payloads(fs + [f]) == Payloads(fs) + f.payload
  {
    assert (fs + [f])[..|fs|] == fs;
  }

  /** Pulling ready frames leaves the channel open with less than one frame of bytes ready. */
  lemma {:induction false} ReadyFramesSegmented(b: BuilderValue)
    requires Segmented(b) && !b.co.closed
    ensures var b' := OutputReadyFrames(b);
            && Segmented(b') && !b'.co.closed && b'.co.stream == b.co.stream
            && b'.co.ReadyBytes() < Room(b')
    decreases b.co.ReadyBytes()
  {
    if b.co.ReadyBytes() >= Room(b) {
      OutputFrameSegmented(b);
      hide Segmented;
      hide OutputFrame;
      ReadyFramesSegmented(OutputFrame(b));
    }
  }

  /** Closing outputs everything: the channel is complete, and its last frame is empty only if
      there was no byte left to send. */
  lemma {:induction false} OutputToEndSegmented(b: BuilderValue)
    requires Segmented(b) && b.co.closed && !Complete(b)
    ensures var b' := OutputToEnd(b);
            && Segmented(b') && Complete(b') && b'.co.stream == b.co.stream && b'.co.taken == |b'.co.stream|
            && (b'.made[|b'.made| - 1].payload == [] <==> b.co.ReadyBytes() == 0)
    decreases b.co.ReadyBytes()
  {
    hide Segmented;
    SegmentedShape(b);
    OutputFrameSegmented(b);
    hide OutputFrame;
    if !NextIsLast(b) {
      OutputToEndSegmented(OutputFrame(b));
    }
  }

  lemma SegmentedShape(b: BuilderValue)
    requires Segmented(b)
    ensures b.cfg.Valid() && b.co.taken <= |b.co.stream| && (b.co.closed ==> b.IsFull())
  {
  }

  /** OutputFrames on an open channel, or on one that just became full. */
  lemma OutputFramesSegmented(b: BuilderValue, close: CloseOutcome)
    requires Segmented(b)
    ensures var (b', ok) := OutputFrames(b, close);
            && Segmented(b')
            && (ok <==> !b.IsFull() || (!b.co.closed && close.Flushed?))
            && (ok && b.IsFull() ==>
                 && Complete(b') && b'.co.stream == b.co.stream + close.ready
                 && (b'.made[|b'.made| - 1].payload == [] <==> b.co.ReadyBytes() + |close.ready| == 0))
            && (!b.IsFull() ==> !b'.co.closed)
  {
    if !b.IsFull() {
      ReadyFramesSegmented(b);
      hide OutputReadyFrames;
    } else if !b.co.closed && close.Flushed? {
      var c := b.(co := MakeReady(b.co, close.ready).(closed := true));
      assert c.co.stream[..c.co.taken] == b.co.stream[..b.co.taken];
      OutputToEndSegmented(c);
      hide OutputToEnd;
    } else {
      hide Payloads;
    }
  }

  lemma AddBlockSegmented(b: BuilderValue, block: Block, outcome: AddOutcome)
    requires Segmented(b)
    ensures Segmented(AddBlock(b, block, outcome).0)
    ensures AddBlock(b, block, outcome).0.co.closed == b.co.closed
    ensures b.co.closed ==> AddBlock(b, block, outcome).0 == b
  {
    hide Payloads;
    if outcome.BatchRejected? || outcome.BatchAccepted? {
      assert (b.co.stream + outcome.ready)[..b.co.taken] == b.co.stream[..b.co.taken];
    }
  }

  lemma {:induction false} FullPayloads(fs: seq<Frame>, room: nat)
    requires forall i :: 0 <= i < |fs| ==> |fs[i].payload| == room
    ensures |Payloads(fs)| == |fs| * room
  {
    if fs != [] {
      FullPayloads(fs[..|fs| - 1], room);
      assert (|fs| - 1) * room + room == |fs| * room;
    }
  }

  /** A complete channel has the least number of frames its stream needs: all frames but the last
      are full, and the last one is not empty unless nothing was left for it. */
  lemma FrameCount(b: BuilderValue)
    requires Segmented(b) && Complete(b)
    ensures Payloads(b.made) == b.co.stream
    ensures var k, last := b.numFrames, b.made[b.numFrames - 1].payload;
            && (k - 1) * Room(b) + |last| == |b.co.stream| <= k * Room(b)
            && (last != [] ==> (k - 1) * Room(b) < |b.co.stream|)
  {
    hide Payloads;
    AllButLastFull(b);
    SegmentedLast(b);
    hide Segmented;
    hide Complete;
    var k := |b.made|;
    FullPayloads(b.made[..k - 1], Room(b));
    PayloadsAppend(b.made[..k - 1], b.made[k - 1]);
    assert b.made[..k - 1] + [b.made[k - 1]] == b.made;
    assert (k - 1) * Room(b) + Room(b) == k * Room(b);
  }

  lemma AllButLastFull(b: BuilderValue)
    requires Segmented(b) && Complete(b)
    ensures forall i :: 0 <= i < |b.made| - 1 ==> |b.made[i].payload| == Room(b)
  {
    hide Payloads;
  }

  lemma SegmentedLast(b: BuilderValue)
    requires Segmented(b) && Complete(b)
    ensures b.numFrames == |b.made| > 0 && Room(b) > 0 && |b.made[|b.made| - 1].payload| <= Room(b)
    ensures Payloads(b.made) == b.co.stream
  {
    hide Payloads;
    assert b.co.stream[..|b.co.stream|] == b.co.stream;
  }

  function CeilDiv(a: nat, b: nat): nat
    requires b > 0
  {
    (a + b - 1) / b
  }

  lemma CeilDivUnique(a: nat, b: nat, k: int)
    requires b > 0 && (k - 1) * b < a <= k * b
    ensures k == CeilDiv(a, b)
  {
    var r := a - (k - 1) * b;
    assert a + b - 1 == k * b + (r - 1) by { assert k * b == (k - 1) * b + b; }
    Quotient(k, b, r - 1);
  }

  lemma CeilDivZero(b: nat)
    requires b > 0
    ensures CeilDiv(0, b) == 0
  {
    Quotient(0, b, b - 1);
    assert 0 * b + (b - 1) == 0 + b - 1;
  }

  lemma {:induction false} MulOrder(x: int, y: int, b: nat)
    requires x < y
    ensures x * b + b <= y * b
    decreases y - x
  {
    if x + 1 == y {
      assert y * b == x * b + b;
    } else {
      MulOrder(x, y - 1, b);
      assert (y - 1) * b == y * b - b;
    }
  }

  lemma Quotient(k: int, b: nat, r: int)
    requires 0 <= r < b
    ensures (k * b + r) / b == k
  {
    var x := k * b + r;
    var q := x / b;
    assert q * b <= x < q * b + b;
    if q < k {
      MulOrder(q, k, b);
    } else if k < q {
      MulOrder(k, q, b);
    }
  }

  /** What closing a full channel comes to: with a byte left to send, the number of frames is the length
      of the stream divided by the room of a frame, rounded up; with none, one empty frame more. */
  lemma ClosingRoundsUp(b: BuilderValue, close: CloseOutcome)
    requires Segmented(b) && b.IsFull() && OutputFrames(b, close).1
    ensures close.Flushed? && Room(b) > 0
    ensures var b' := OutputFrames(b, close).0;
            && b'.co.stream == b.co.stream + close.ready
            && b'.numFrames == CeilDiv(|b'.co.stream|, Room(b)) + if b.co.ReadyBytes() + |close.ready| > 0 then 0 else 1
  {
    hide CeilDiv;
    OutputFramesSegmented(b, close);
    SegmentedShape(b);
    var b' := OutputFrames(b, close).0;
    assert Room(b') == Room(b) by { OutputFramesFrame(b, close); }
    FrameCount(b');
    hide OutputFrames;
    CountOfFrames(b');
  }

  lemma CountOfFrames(b: BuilderValue)
    requires Segmented(b) && Complete(b)
    ensures Room(b) > 0 && b.numFrames == |b.made|
    ensures b.numFrames == CeilDiv(|b.co.stream|, Room(b)) + if b.made[|b.made| - 1].payload != [] then 0 else 1
  {
    hide CeilDiv;
    hide Payloads;
    FrameCount(b);
    var k, room, l := b.numFrames, Room(b), |b.co.stream|;
    assert room > 0 && k == |b.made|;
    var last := |b.made[k - 1].payload|;
    assert (k - 1) * room + last == l <= k * room;
    hide Segmented;
    hide Complete;
    if last > 0 {
      CeilDivUnique(l, room, k);
    } else if k > 1 {
      assert (k - 2) * room + room == (k - 1) * room;
      CeilDivUnique(l, room, k - 1);
    } else {
      CeilDivZero(room);
    }
  }

  /** Output data that fits into this many frames. */
  function MaxDataSize(numFrames: nat, maxFrameSize: nat): nat
    requires maxFrameSize >= FRAME_OVERHEAD
  {
    numFrames * (maxFrameSize - FRAME_OVERHEAD)
  }

  /** Whose last frame is not empty, a channel takes at most n frames if and only if its stream is within
      the size that MaxDataSize gives for n. */
  lemma FitsIffWithinMaxDataSize(b: BuilderValue, n: nat)
    requires Segmented(b) && Complete(b) && b.made[|b.made| - 1].payload != []
    requires b.cfg.maxFrameSize >= FRAME_OVERHEAD && b.numFrames == |b.made|
    ensures b.numFrames <= n <==> |b.co.stream| <= MaxDataSize(n, b.cfg.maxFrameSize)
  {
    hide Payloads;
    hide Segmented;
    FrameCount(b);
    SegmentedShape(b);
    hide Complete;
    FewestPieces(b.numFrames, n, Room(b), |b.co.stream|);
  }

  lemma FewestPieces(k: int, n: nat, room: int, size: nat)
    requires 0 < room && (k - 1) * room < size <= k * room
    ensures k <= n <==> size <= n * room
  {
    if k <= n {
      assert k * room <= n * room;
    } else {
      assert n * room <= (k - 1) * room;
    }
  }

  /** The latest L1 origin is that of some block of the channel, and no block has a later one. */
  ghost predicate LatestOrigin(b: BuilderValue) {
    && (forall k :: 0 <= k < |b.blocks| ==> b.blocks[k].l1Origin.number <= b.latestL1Origin.number)
    && (b.latestL1Origin == BlockID(0, 0) || exists k :: 0 <= k < |b.blocks| && b.blocks[k].l1Origin == b.latestL1Origin)
  }

  lemma AddBlockLatestOrigin(b: BuilderValue, block: Block, outcome: AddOutcome)
    requires LatestOrigin(b) && b.cfg.Valid()
    ensures LatestOrigin(AddBlock(b, block, outcome).0)
  {
    var b' := AddBlock(b, block, outcome).0;
    if b'.blocks != b.blocks {
      assert b'.blocks[|b.blocks|] == block;
      if k :| 0 <= k < |b.blocks| && b.blocks[k].l1Origin == b.latestL1Origin {
        assert b'.blocks[k] == b.blocks[k];
      }
    }
  }

  /** With room for nothing but the overhead, which Check still allows, the loop that pulls ready
      frames never ends: its guard holds, and an empty frame changes nothing it depends on. */
  lemma OverheadSizedFramesNeverEnd(b: BuilderValue)
    requires b.cfg.maxFrameSize == FRAME_OVERHEAD && b.co.taken <= |b.co.stream| && !b.co.closed
    ensures b.co.ReadyBytes() + FRAME_OVERHEAD >= b.cfg.maxFrameSize && !NextIsLast(b)
    ensures var b' := OutputFrame(b);
            && b'.co.ReadyBytes() == b.co.ReadyBytes() && !b'.co.closed && b'.cfg == b.cfg
            && NextFrameMade(b).payload == []
  {
  }

  /** The state after `k` rounds of either output loop. */
  function Rounds(b: BuilderValue, k: nat): (r: BuilderValue)
    requires b.cfg.maxFrameSize >= FRAME_OVERHEAD && b.co.taken <= |b.co.stream|
    ensures r.cfg == b.cfg && r.co.taken <= |r.co.stream| && r.co.closed == b.co.closed
  {
    if k == 0 then b else OutputFrame(Rounds(b, k - 1))
  }

  lemma OneFrameUsesBytes(b: BuilderValue)
    requires b.cfg.maxFrameSize >= FRAME_OVERHEAD && b.co.taken <= |b.co.stream|
    ensures var room := b.cfg.maxFrameSize - FRAME_OVERHEAD;
            OutputFrame(b).co.ReadyBytes() == if b.co.ReadyBytes() <= room then 0 else b.co.ReadyBytes() - room
  {
  }

  lemma {:induction false} RoundsUseUpBytes(b: BuilderValue, k: nat)
    requires b.cfg.maxFrameSize >= FRAME_OVERHEAD && b.co.taken <= |b.co.stream|
    ensures b.cfg.maxFrameSize == FRAME_OVERHEAD ==> Rounds(b, k).co.ReadyBytes() == b.co.ReadyBytes()
    ensures b.cfg.maxFrameSize > FRAME_OVERHEAD && k >= b.co.ReadyBytes() ==> Rounds(b, k).co.ReadyBytes() == 0
    ensures b.cfg.maxFrameSize > FRAME_OVERHEAD ==> Rounds(b, k).co.ReadyBytes() <= b.co.ReadyBytes() - k || Rounds(b, k).co.ReadyBytes() == 0
  {
    hide OutputFrame;
    if k > 0 {
      RoundsUseUpBytes(b, k - 1);
      OneFrameUsesBytes(Rounds(b, k - 1));
    }
  }

  /** For every frame size that Check allows: pulling ready frames from an open channel comes to an end
      if and only if a frame has room for a byte. */
  lemma ReadyLoopEndsIff(b: BuilderValue)
    requires b.cfg.maxFrameSize >= FRAME_OVERHEAD && b.co.taken <= |b.co.stream| && !b.co.closed
    ensures (exists k: nat :: Rounds(b, k).co.ReadyBytes() + FRAME_OVERHEAD < b.cfg.maxFrameSize)
        <==> b.cfg.maxFrameSize > FRAME_OVERHEAD
    ensures forall k: nat :: !NextIsLast(Rounds(b, k))
  {
    forall k: nat
      ensures b.cfg.maxFrameSize == FRAME_OVERHEAD ==> Rounds(b, k).co.ReadyBytes() == b.co.ReadyBytes()
    {
      RoundsUseUpBytes(b, k);
    }
    var n := b.co.ReadyBytes();
    RoundsUseUpBytes(b, n);
    hide Rounds;
    hide OutputFrame;
    assert b.cfg.maxFrameSize > FRAME_OVERHEAD ==> Rounds(b, n).co.ReadyBytes() + FRAME_OVERHEAD < b.cfg.maxFrameSize;
  }

  /** Creating the rest of a closed channel comes to its last frame if and only if a frame has room for a
      byte or none is left. */
  lemma CloseLoopEndsIff(b: BuilderValue)
    requires b.cfg.maxFrameSize >= FRAME_OVERHEAD && b.co.taken <= |b.co.stream| && b.co.closed
    ensures (exists k: nat :: NextIsLast(Rounds(b, k))) <==> b.cfg.maxFrameSize > FRAME_OVERHEAD || b.co.ReadyBytes() == 0
  {
    forall k: nat
      ensures b.cfg.maxFrameSize == FRAME_OVERHEAD ==> Rounds(b, k).co.ReadyBytes() == b.co.ReadyBytes()
    {
      RoundsUseUpBytes(b, k);
    }
    var n := b.co.ReadyBytes();
    RoundsUseUpBytes(b, n);
    hide Rounds;
    hide OutputFrame;
    if b.cfg.maxFrameSize > FRAME_OVERHEAD || n == 0 {
      assert NextIsLast(Rounds(b, n));
    }
  }
}
