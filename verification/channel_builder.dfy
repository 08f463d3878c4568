/** op-batcher/batcher/channel_builder.go: the `ChannelBuilder` object.  Each method is proved equal
    to the function of the same name in `BuilderSpec` on the value of the object. */
module Builder {
  import opened Bytes
  import opened TxDatas
  import opened BuilderSpec

  class ChannelBuilder {
    const cfg: ChannelConfig
    var timeout: nat
    var timeoutReason: Option<Reason>
    var fullErr: Option<FullReason>
    var co: ChannelOut
    var blocks: seq<Block>
    var latestL1Origin: BlockID
    var frames: seq<Frame>
    var numFrames: nat
    var outputBytes: nat
    // every frame created and every deadline contributed so far
    ghost var made: seq<Frame>
    ghost var deadlines: seq<Deadline>
    ghost const position: nat  // creation order of the channel since the last Clear

    ghost function Value(): BuilderValue
      reads this
    {
      BuilderValue(cfg, timeout, timeoutReason, fullErr, co, blocks, latestL1Origin, frames, numFrames, outputBytes,
                   made, deadlines)
    }

    // the queue holds frames of this channel only
    ghost predicate Valid()
      reads this
    {
      && cfg.Valid() && co.taken <= |co.stream|
      && forall i :: 0 <= i < |frames| ==> frames[i].id.chID == co.id
    }

    constructor (cfg: ChannelConfig, id: ChannelID, latestL1OriginBlockNum: nat, ghost position: nat)
      requires cfg.Valid()
      ensures Valid() && this.cfg == cfg && this.position == position
      ensures Value() == NewBuilder(cfg, id, latestL1OriginBlockNum)
    {
      this.cfg, this.position := cfg, position;
      timeout, timeoutReason, fullErr := 0, None, None;
      co := ChannelOut(id, [], 0, false, 0);
      blocks, latestL1Origin := [], BlockID(0, 0);
      frames, numFrames, outputBytes := [], 0, 0;
      made, deadlines := [], [];
      new;
      UpdateDurationTimeout(latestL1OriginBlockNum);
    }

    predicate IsFull()
      reads `fullErr
    {
      fullErr.Some?
    }

    method UpdateTimeout(timeoutBlockNum: nat, reason: Reason)
      modifies `timeout, `timeoutReason, `deadlines
      ensures Value() == BuilderSpec.UpdateTimeout(old(Value()), timeoutBlockNum, reason)
    {
      deadlines := deadlines + [Deadline(timeoutBlockNum, reason)];
      if timeout == 0 || timeout > timeoutBlockNum {
        timeout := timeoutBlockNum;
        timeoutReason := Some(reason);
      }
    }

    method UpdateDurationTimeout(l1BlockNum: nat)
      modifies `timeout, `timeoutReason, `deadlines
      ensures Value() == if cfg.maxChannelDuration == 0 then old(Value())
                         else BuilderSpec.UpdateTimeout(old(Value()), l1BlockNum + cfg.maxChannelDuration, MaxDurationReached)
    {
      if cfg.maxChannelDuration == 0 {
        return;
      }
      UpdateTimeout(l1BlockNum + cfg.maxChannelDuration, MaxDurationReached);
    }

    method UpdateSwTimeout(epoch: nat)
      requires cfg.Valid()
      modifies `timeout, `timeoutReason, `deadlines
      ensures Value() == BuilderSpec.UpdateTimeout(old(Value()), epoch + cfg.seqWindowSize - cfg.subSafetyMargin, SeqWindowClose)
    {
      UpdateTimeout(epoch + cfg.seqWindowSize - cfg.subSafetyMargin, SeqWindowClose);
    }

    method FramePublished(l1BlockNum: nat)
      requires cfg.Valid()
      modifies `timeout, `timeoutReason, `deadlines
      ensures Value() == BuilderSpec.FramePublished(old(Value()), l1BlockNum)
    {
      UpdateTimeout(l1BlockNum + cfg.channelTimeout - cfg.subSafetyMargin, ChannelTimeoutClose);
    }

    method CheckTimeout(l1BlockNum: nat)
      requires Valid()
      modifies `fullErr
      ensures Valid()
      ensures Value() == BuilderSpec.CheckTimeout(old(Value()), l1BlockNum)
    {
      if !IsFull() && timeout != 0 && l1BlockNum >= timeout && timeoutReason.Some? {
        fullErr := Some(TimedOutBecause(timeoutReason.value));
      }
    }

    method AddBlock(block: Block, outcome: AddOutcome) returns (result: AddResult)
      requires Valid()
      modifies this
      ensures Valid()
      ensures (Value(), result) == BuilderSpec.AddBlock(old(Value()), block, outcome)
    {
      if IsFull() {
        return ChannelFull;
      }
      if outcome.ConversionFailed? || co.closed {
        return AddError;
      }
      match outcome {
        case BatchFailed =>
          return AddError;
        case BatchRejected(reason, ready) =>
          co := MakeReady(co, ready);
          fullErr := Some(reason);
          return ChannelFull;
        case BatchAccepted(ready, nowFull) =>
          co := MakeReady(co, ready);
          blocks := blocks + [block];
          UpdateSwTimeout(block.l1Origin.number);
          if block.l1Origin.number > latestL1Origin.number {
            latestL1Origin := block.l1Origin;
          }
          if nowFull {
            fullErr := Some(CompressorFull);
          }
          return Added;
      }
    }

    method Close()
      requires Valid()
      modifies `fullErr
      ensures Valid()
      ensures Value() == BuilderSpec.Close(old(Value()))
    {
      if !IsFull() {
        fullErr := Some(Terminated);
      }
    }

    // io.EOF comes with the last frame of a closed channel
    method OutputFrame() returns (eof: bool)
      requires Valid()
      modifies this
      ensures Valid()
      ensures Value() == BuilderSpec.OutputFrame(old(Value()))
      ensures eof == NextIsLast(old(Value()))
    {
      var room := cfg.maxFrameSize - FRAME_OVERHEAD;
      var size := if room >= co.ReadyBytes() then co.ReadyBytes() else room;
      eof := co.closed && room >= co.ReadyBytes();
      var fn := co.frame % (MAX_UINT16 + 1);
      var frame := Frame(FrameID(co.id, fn), co.stream[co.taken..co.taken + size], eof);
      assert frame == NextFrameMade(Value()) && size == NextPayload(Value()) && eof == NextIsLast(Value());
      hide NextFrameMade;
      hide NextPayload;
      hide NextIsLast;
      co := co.(taken := co.taken + size, frame := co.frame + 1);
      if fn == MAX_UINT16 {
        fullErr := Some(MaxFrameIndex);
      }
      Enqueue(frame);
    }

    // adds a new frame to the queue and to the counters
    method Enqueue(frame: Frame)
      requires Valid() && frame.id.chID == co.id
      modifies `frames, `numFrames, `outputBytes, `made
      ensures Valid()
      ensures Value() == old(Value()).(
                frames := old(frames) + [frame], numFrames := old(numFrames) + 1,
                outputBytes := old(outputBytes) + |frame.payload| + FRAME_OVERHEAD, made := old(made) + [frame])
    {
      frames := frames + [frame];
      numFrames := numFrames + 1;
      outputBytes := outputBytes + |frame.payload| + FRAME_OVERHEAD;
      made := made + [frame];
    }

    method OutputReadyFrames()
      requires Valid()
      modifies this
      ensures Valid()
      ensures Value() == BuilderSpec.OutputReadyFrames(old(Value()))
    {
      hide BuilderSpec.OutputFrame;
      var eof := false;
      while !eof && co.ReadyBytes() + FRAME_OVERHEAD >= cfg.maxFrameSize
        invariant Valid()
        invariant if eof then Value() == BuilderSpec.OutputReadyFrames(old(Value()))
                  else BuilderSpec.OutputReadyFrames(Value()) == BuilderSpec.OutputReadyFrames(old(Value()))
        decreases !eof, co.ReadyBytes()
      {
        Progress(Value());
        eof := OutputFrame();
      }
    }

    method CloseAndOutputAllFrames(outcome: CloseOutcome) returns (ok: bool)
      requires Valid() && IsFull()
      modifies this
      ensures Valid()
      ensures (Value(), ok) == BuilderSpec.OutputFrames(old(Value()), outcome)
    {
      hide BuilderSpec.OutputFrame;
      if co.closed {
        return false;
      }
      co := co.(closed := true);
      if outcome.CloseFailed? {
        return false;
      }
      co := MakeReady(co, outcome.ready);
      ghost var closed := Value();
      var eof := false;
      while !eof
        invariant Valid() && (!eof ==> co.closed)
        invariant if eof then Value() == OutputToEnd(closed) else OutputToEnd(Value()) == OutputToEnd(closed)
        decreases !eof, co.ReadyBytes()
      {
        Progress(Value());
        eof := OutputFrame();
      }
      ok := true;
    }

    // an open channel out with a frame's worth of bytes, or a closed one with more, gets shorter
    static lemma Progress(b: BuilderValue)
      requires b.cfg.Valid() && b.co.taken <= |b.co.stream|
      requires b.co.closed || b.co.ReadyBytes() >= Room(b)
      ensures !NextIsLast(b) ==> BuilderSpec.OutputFrame(b).co.ReadyBytes() < b.co.ReadyBytes()
      ensures BuilderSpec.OutputFrame(b).co.closed == b.co.closed
    {
    }

    method OutputFrames(outcome: CloseOutcome) returns (ok: bool)
      requires Valid()
      modifies this
      ensures Valid()
      ensures (Value(), ok) == BuilderSpec.OutputFrames(old(Value()), outcome)
    {
      hide BuilderSpec.OutputReadyFrames;
      hide OutputToEnd;
      if IsFull() {
        ok := CloseAndOutputAllFrames(outcome);
      } else {
        OutputReadyFrames();
        ok := true;
      }
    }

    // panics without a frame
    method NextFrame() returns (f: Frame)
      requires Valid() && frames != []
      modifies `frames
      ensures Valid()
      ensures f == old(frames)[0] && frames == old(frames)[1..]
    {
      f := frames[0];
      frames := frames[1..];
    }

    // panics on a frame of another channel
    method PushFrames(fs: seq<Frame>)
      requires Valid()
      requires forall i :: 0 <= i < |fs| ==> fs[i].id.chID == co.id
      modifies `frames
      ensures Valid()
      ensures Value() == BuilderSpec.PushFrames(old(Value()), fs)
    {
      for i := 0 to |fs|
        invariant frames == old(frames) + fs[..i]
        invariant Valid()
      {
        frames := frames + [fs[i]];
      }
      assert fs[..|fs|] == fs;
    }
  }
}
