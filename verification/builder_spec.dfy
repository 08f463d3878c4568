/** op-batcher/batcher/channel_builder.go as functions on values.  The compression pipeline is
    abstract: each call says which bytes it made ready. */
module BuilderSpec {
  import opened Bytes
  import opened TxDatas

  datatype BlockID = BlockID(hash: nat, number: nat)

  /** An L2 block with the L1 origin recorded in its first transaction. */
  datatype Block = Block(hash: nat, parentHash: nat, number: nat, l1Origin: BlockID)

  datatype ChannelConfig = ChannelConfig(
    seqWindowSize: nat, channelTimeout: nat, maxChannelDuration: nat, subSafetyMargin: nat,
    maxFrameSize: nat, targetNumFrames: nat, useBlobs: bool)
  {
    /** Check, with room for at least one byte beside the frame overhead, and a sequencing window
        that does not underflow. */
    predicate Valid() {
      && channelTimeout >= subSafetyMargin && seqWindowSize >= subSafetyMargin
      && maxFrameSize > FRAME_OVERHEAD && targetNumFrames >= 1
    }

    function MaxFramesPerTx(): nat {
      if useBlobs then targetNumFrames else 1
    }
  }

  datatype Reason = MaxDurationReached | ChannelTimeoutClose | SeqWindowClose

  datatype FullReason = TooManyRLPBytes | CompressorFull | MaxFrameIndex | TimedOutBecause(reason: Reason) | Terminated

  datatype Deadline = Deadline(block: nat, reason: Reason)

  /** The channel out: all compressed bytes made ready so far, how many of them went into frames,
      whether it was closed, and the number of the next frame. */
  datatype ChannelOut = ChannelOut(id: ChannelID, stream: seq<byte>, taken: nat, closed: bool, frame: nat) {
    function ReadyBytes(): int {
      |stream| - taken
    }
  }

  /** What the pipeline answers when a block is added. */
  datatype AddOutcome =
    | ConversionFailed
    | BatchRejected(reason: FullReason, ready: seq<byte>)
    | BatchFailed
    | BatchAccepted(ready: seq<byte>, nowFull: bool)

  datatype AddResult = Added | ChannelFull | AddError

  /** What the pipeline answers when it is closed: the bytes that flushes, or an error. */
  datatype CloseOutcome = Flushed(ready: seq<byte>) | CloseFailed

  /** `made` and `deadlines` record every frame created and every deadline contributed so far. */
  datatype BuilderValue = BuilderValue(
    cfg: ChannelConfig, timeout: nat, timeoutReason: Option<Reason>, full: Option<FullReason>,
    co: ChannelOut, blocks: seq<Block>, latestL1Origin: BlockID,
    frames: seq<Frame>, numFrames: nat, outputBytes: nat,
    made: seq<Frame>, deadlines: seq<Deadline>)
  {
    predicate IsFull() {
      full.Some?
    }
  }

  function UpdateTimeout(b: BuilderValue, block: nat, reason: Reason): BuilderValue {
    var b' := b.(deadlines := b.deadlines + [Deadline(block, reason)]);
    if b.timeout == 0 || b.timeout > block then b'.(timeout := block, timeoutReason := Some(reason)) else b'
  }

  function NewBuilder(cfg: ChannelConfig, id: ChannelID, latestL1Origin: nat): BuilderValue {
    var b := BuilderValue(cfg, 0, None, None, ChannelOut(id, [], 0, false, 0), [], BlockID(0, 0), [], 0, 0, [], []);
    if cfg.maxChannelDuration == 0 then b
    else UpdateTimeout(b, latestL1Origin + cfg.maxChannelDuration, MaxDurationReached)
  }

  function FramePublished(b: BuilderValue, l1BlockNum: nat): BuilderValue
    requires b.cfg.channelTimeout >= b.cfg.subSafetyMargin
  {
    UpdateTimeout(b, l1BlockNum + b.cfg.channelTimeout - b.cfg.subSafetyMargin, ChannelTimeoutClose)
  }

  function CheckTimeout(b: BuilderValue, l1BlockNum: nat): BuilderValue {
    if !b.IsFull() && b.timeout != 0 && l1BlockNum >= b.timeout && b.timeoutReason.Some?
    then b.(full := Some(TimedOutBecause(b.timeoutReason.value))) else b
  }

  function MakeReady(co: ChannelOut, ready: seq<byte>): ChannelOut {
    co.(stream := co.stream + ready)
  }

  function AddBlock(b: BuilderValue, block: Block, outcome: AddOutcome): (BuilderValue, AddResult)
    requires b.cfg.seqWindowSize >= b.cfg.subSafetyMargin
  {
    if b.IsFull() then (b, ChannelFull)
    else if outcome.ConversionFailed? || b.co.closed then (b, AddError)
    else match outcome
      case BatchFailed => (b, AddError)
      case BatchRejected(reason, ready) =>
        (b.(full := Some(reason), co := MakeReady(b.co, ready)), ChannelFull)
      case BatchAccepted(ready, nowFull) =>
        var b1 := UpdateTimeout(b.(co := MakeReady(b.co, ready), blocks := b.blocks + [block]),
                                block.l1Origin.number + b.cfg.seqWindowSize - b.cfg.subSafetyMargin, SeqWindowClose);
        var b2 := if block.l1Origin.number > b1.latestL1Origin.number then b1.(latestL1Origin := block.l1Origin) else b1;
        (if nowFull then b2.(full := Some(CompressorFull)) else b2, Added)
  }

  lemma AddBlockFrame(b: BuilderValue, block: Block, outcome: AddOutcome)
    requires b.cfg.Valid()
    ensures var b' := AddBlock(b, block, outcome).0;
            && b'.cfg == b.cfg && b'.made == b.made && b'.frames == b.frames && b'.co.id == b.co.id
            && (b.co.taken <= |b.co.stream| ==> b'.co.taken <= |b'.co.stream|)
            && forall d :: d in b.deadlines ==> d in b'.deadlines
  {
  }

  function Close(b: BuilderValue): BuilderValue {
    if b.IsFull() then b else b.(full := Some(Terminated))
  }

  /** Payload room of a frame. */
  function Room(b: BuilderValue): int {
    b.cfg.maxFrameSize - FRAME_OVERHEAD
  }

  function NextPayload(b: BuilderValue): nat
    requires b.cfg.maxFrameSize >= FRAME_OVERHEAD && b.co.taken <= |b.co.stream|
  {
    if Room(b) >= b.co.ReadyBytes() then b.co.ReadyBytes() else Room(b)
  }

  /** The end of the channel: it is closed and everything ready fits into the next frame. */
  predicate NextIsLast(b: BuilderValue) {
    b.co.closed && Room(b) >= b.co.ReadyBytes()
  }

  function NextFrameMade(b: BuilderValue): Frame
    requires b.cfg.maxFrameSize >= FRAME_OVERHEAD && b.co.taken <= |b.co.stream|
  {
    Frame(FrameID(b.co.id, b.co.frame % (MAX_UINT16 + 1)),
          b.co.stream[b.co.taken..b.co.taken + NextPayload(b)], NextIsLast(b))
  }

  function OutputFrame(b: BuilderValue): (b': BuilderValue)
    requires b.cfg.maxFrameSize >= FRAME_OVERHEAD && b.co.taken <= |b.co.stream|
    ensures b'.cfg == b.cfg && b'.co.taken <= |b'.co.stream|
  {
    var f := NextFrameMade(b);
    b.(co := b.co.(taken := b.co.taken + NextPayload(b), frame := b.co.frame + 1),
       full := if f.id.frameNumber == MAX_UINT16 then Some(MaxFrameIndex) else b.full,
       frames := b.frames + [f], numFrames := b.numFrames + 1,
       outputBytes := b.outputBytes + |f.payload| + FRAME_OVERHEAD, made := b.made + [f])
  }

  /** Full frames as long as enough bytes are ready for one. */
  function OutputReadyFrames(b: BuilderValue): BuilderValue
    requires b.cfg.Valid() && b.co.taken <= |b.co.stream|
    decreases b.co.ReadyBytes()
  {
    if b.co.ReadyBytes() + FRAME_OVERHEAD < b.cfg.maxFrameSize then b
    else if NextIsLast(b) then OutputFrame(b)
    else OutputReadyFrames(OutputFrame(b))
  }

  /** Frames up to and including the last one. */
  function OutputToEnd(b: BuilderValue): BuilderValue
    requires b.cfg.Valid() && b.co.taken <= |b.co.stream| && b.co.closed
    decreases b.co.ReadyBytes()
  {
    if NextIsLast(b) then OutputFrame(b) else OutputToEnd(OutputFrame(b))
  }

  /** None is the error of a channel out that cannot be closed (again). */
  function OutputFrames(b: BuilderValue, close: CloseOutcome): (BuilderValue, bool)
    requires b.cfg.Valid() && b.co.taken <= |b.co.stream|
  {
    if !b.IsFull() then (OutputReadyFrames(b), true)
    else if b.co.closed then (b, false)
    else match close
      case CloseFailed => (b.(co := b.co.(closed := true)), false)
      case Flushed(ready) => (OutputToEnd(b.(co := MakeReady(b.co, ready).(closed := true))), true)
  }

  lemma ReadyFramesFrame(b: BuilderValue)
    requires b.cfg.Valid() && b.co.taken <= |b.co.stream|
    ensures var b' := OutputReadyFrames(b);
            b'.cfg == b.cfg && b'.co.id == b.co.id && b'.timeout == b.timeout && b'.timeoutReason == b.timeoutReason
            && b'.deadlines == b.deadlines && b'.blocks == b.blocks
    decreases b.co.ReadyBytes()
  {
  }

  lemma ToEndFrame(b: BuilderValue)
    requires b.cfg.Valid() && b.co.taken <= |b.co.stream| && b.co.closed
    ensures var b' := OutputToEnd(b);
            b'.cfg == b.cfg && b'.co.id == b.co.id && b'.timeout == b.timeout && b'.timeoutReason == b.timeoutReason
            && b'.deadlines == b.deadlines && b'.blocks == b.blocks
    decreases b.co.ReadyBytes()
  {
  }

  lemma OutputFramesFrame(b: BuilderValue, close: CloseOutcome)
    requires b.cfg.Valid() && b.co.taken <= |b.co.stream|
    ensures var b' := OutputFrames(b, close).0;
            b'.cfg == b.cfg && b'.co.id == b.co.id && b'.timeout == b.timeout && b'.timeoutReason == b.timeoutReason
            && b'.deadlines == b.deadlines && b'.blocks == b.blocks
  {
    hide OutputReadyFrames;
    hide OutputToEnd;
    if !b.IsFull() {
      ReadyFramesFrame(b);
    } else if !b.co.closed && close.Flushed? {
      ToEndFrame(b.(co := MakeReady(b.co, close.ready).(closed := true)));
    }
  }

  function NextFrames(b: BuilderValue, k: nat): BuilderValue
    requires k <= |b.frames|
  {
    b.(frames := b.frames[k..])
  }

  function PushFrames(b: BuilderValue, fs: seq<Frame>): BuilderValue {
    b.(frames := b.frames + fs)
  }
}
