/** The bytes of a channel over its whole run: its frames carry exactly what the compression pipeline made
    ready, the bytes counted are those on the wire, and the highest frame number closes it. */
module ChannelBytes {
  import opened Bytes
  import opened TxDatas
  import opened BuilderSpec
  import opened Segmentation
  import opened Deadlines
  import opened ChannelSpec
  import opened FrameConservation
  import opened ChannelRuns

  /** The size of these frames on the wire. */
  function WireSize(fs: seq<Frame>): nat {
    if fs == [] then 0 else WireSize(fs[..|fs| - 1]) + |fs[|fs| - 1].Marshal()|
  }

  /** The bytes counted are those of all frames made, and a channel with all frame numbers in use is full. */
  ghost predicate Sized(b: BuilderValue) {
    && b.outputBytes == WireSize(b.made)
    && b.co.frame == |b.made|
    && (|b.made| > MAX_UINT16 ==> b.IsFull())
  }

  /** What the pipeline makes ready in one step: a block accepted or refused for want of space, or the closing. */
  function MadeReady(c: ChannelValue, step: ChannelRuns.Step): seq<byte> {
    match step
    case Add(_, BatchAccepted(ready, _)) => if c.builder.IsFull() || c.builder.co.closed then [] else ready
    case Add(_, BatchRejected(_, ready)) => if c.builder.IsFull() || c.builder.co.closed then [] else ready
    case Output(Flushed(ready)) => if c.builder.IsFull() && !c.builder.co.closed then ready else []
    case _ => []
  }

  lemma FrameSized(b: BuilderValue)
    requires b.cfg.maxFrameSize >= FRAME_OVERHEAD && b.co.taken <= |b.co.stream| && Sized(b) && |b.made| <= MAX_UINT16
    ensures Sized(OutputFrame(b)) && OutputFrame(b).co.stream == b.co.stream
  {
    var b', f := OutputFrame(b), NextFrameMade(b);
    assert b'.made[..|b.made|] == b.made && b'.made[|b.made|] == f;
    MarshalParts(f);
    hide Frame.Marshal;
  }

  lemma {:induction false} ReadySized(b: BuilderValue)
    requires b.cfg.Valid() && b.co.taken <= |b.co.stream| && Sized(b) && |OutputReadyFrames(b).made| <= MAX_UINT16 + 1
    ensures Sized(OutputReadyFrames(b)) && OutputReadyFrames(b).co.stream == b.co.stream
    decreases b.co.ReadyBytes()
  {
    if b.co.ReadyBytes() + FRAME_OVERHEAD >= b.cfg.maxFrameSize {
      ReadyMakesMore(OutputFrame(b));
      assert OutputFrame(b).made == b.made + [NextFrameMade(b)];
      FrameSized(b);
      hide Sized;
      if !NextIsLast(b) {
        ReadySized(OutputFrame(b));
      }
    }
  }

  lemma {:induction false} ReadyMakesMore(b: BuilderValue)
    requires b.cfg.Valid() && b.co.taken <= |b.co.stream|
    ensures |OutputReadyFrames(b).made| >= |b.made|
    decreases b.co.ReadyBytes()
  {
    if b.co.ReadyBytes() + FRAME_OVERHEAD >= b.cfg.maxFrameSize && !NextIsLast(b) {
      ReadyMakesMore(OutputFrame(b));
    }
  }

  lemma {:induction false} EndSized(b: BuilderValue)
    requires b.cfg.Valid() && b.co.taken <= |b.co.stream| && b.co.closed && Sized(b) && |OutputToEnd(b).made| <= MAX_UINT16 + 1
    ensures Sized(OutputToEnd(b)) && OutputToEnd(b).co.stream == b.co.stream && |OutputToEnd(b).made| > |b.made|
    decreases b.co.ReadyBytes()
  {
    if NextIsLast(b) {
      FrameSized(b);
    } else {
      EndMakesMore(OutputFrame(b));
      assert OutputFrame(b).made == b.made + [NextFrameMade(b)];
      FrameSized(b);
      hide Sized;
      EndSized(OutputFrame(b));
    }
  }

  lemma {:induction false} EndMakesMore(b: BuilderValue)
    requires b.cfg.Valid() && b.co.taken <= |b.co.stream| && b.co.closed
    ensures |OutputToEnd(b).made| > |b.made|
    decreases b.co.ReadyBytes()
  {
    if !NextIsLast(b) {
      EndMakesMore(OutputFrame(b));
    }
  }

  lemma NextBytes(c: ChannelValue, step: ChannelRuns.Step)
    requires c.builder.cfg.Valid() && c.builder.co.taken <= |c.builder.co.stream| && Sized(c.builder)
    requires |ChannelRuns.Next(c, step).builder.made| <= MAX_UINT16 + 1
    ensures Sized(ChannelRuns.Next(c, step).builder)
    ensures ChannelRuns.Next(c, step).builder.co.stream == c.builder.co.stream + MadeReady(c, step)
  {
    match step
    case Add(block, outcome) => AddBytes(c.builder, block, outcome);
    case Output(close) => OutputBytes(c.builder, close);
    case _ => OtherBytes(c, step);
  }

  lemma AddBytes(b: BuilderValue, block: Block, outcome: AddOutcome)
    requires b.cfg.Valid() && Sized(b)
    ensures var b' := AddBlock(b, block, outcome).0;
            && Sized(b')
            && b'.co.stream == b.co.stream +
                 match outcome
                 case BatchAccepted(ready, _) => if b.IsFull() || b.co.closed then [] else ready
                 case BatchRejected(_, ready) => if b.IsFull() || b.co.closed then [] else ready
                 case _ => []
  {
    hide WireSize;
  }

  lemma OtherBytes(c: ChannelValue, step: ChannelRuns.Step)
    requires c.builder.cfg.Valid() && c.builder.co.taken <= |c.builder.co.stream| && Sized(c.builder) && !step.Add? && !step.Output?
    ensures Sized(ChannelRuns.Next(c, step).builder) && ChannelRuns.Next(c, step).builder.co.stream == c.builder.co.stream + []
  {
    hide WireSize;
    hide Render;
    hide ChannelValue.TimedOut;
    hide ChannelValue.FullySubmitted;
    hide ChannelValue.NextTx;
  }

  lemma OutputBytes(b: BuilderValue, close: CloseOutcome)
    requires b.cfg.Valid() && b.co.taken <= |b.co.stream| && Sized(b) && |BuilderSpec.OutputFrames(b, close).0.made| <= MAX_UINT16 + 1
    ensures var b' := BuilderSpec.OutputFrames(b, close).0;
            Sized(b') && b'.co.stream == b.co.stream + if b.IsFull() && !b.co.closed && close.Flushed? then close.ready else []
  {
    hide OutputReadyFrames;
    hide OutputToEnd;
    if !b.IsFull() {
      ReadySized(b);
    } else if !b.co.closed && close.Flushed? {
      EndSized(b.(co := MakeReady(b.co, close.ready).(closed := true)));
    }
  }

  ghost predicate CanRunChannel(c: ChannelValue, steps: seq<ChannelRuns.Step>)
    decreases |steps|
  {
    && c.builder.cfg.Valid() && c.builder.co.taken <= |c.builder.co.stream|
    && (steps == [] || (|ChannelRuns.Next(c, steps[0]).builder.made| <= MAX_UINT16 + 1 && CanRunChannel(ChannelRuns.Next(c, steps[0]), steps[1..])))
  }

  ghost function RunChannel(c: ChannelValue, steps: seq<ChannelRuns.Step>): ChannelValue
    requires CanRunChannel(c, steps)
    decreases |steps|
  {
    if steps == [] then c else RunChannel(ChannelRuns.Next(c, steps[0]), steps[1..])
  }

  /** Everything that the pipeline makes ready during the run, in order. */
  ghost function AllReady(c: ChannelValue, steps: seq<ChannelRuns.Step>): seq<byte>
    requires CanRunChannel(c, steps)
    decreases |steps|
  {
    if steps == [] then [] else MadeReady(c, steps[0]) + AllReady(ChannelRuns.Next(c, steps[0]), steps[1..])
  }

  lemma {:induction false} RunBytes(c: ChannelValue, steps: seq<ChannelRuns.Step>)
    requires CanRunChannel(c, steps) && Sized(c.builder) && ChannelInv(c)
    ensures var v := RunChannel(c, steps);
            Sized(v.builder) && ChannelInv(v) && v.builder.co.stream == c.builder.co.stream + AllReady(c, steps)
    decreases |steps|
  {
    hide Sized;
    hide ChannelInv;
    hide MadeReady;
    if steps != [] {
      NextBytes(c, steps[0]);
      ChannelRuns.NextKeeps(c, steps[0]);
      hide ChannelRuns.Next;
      RunBytes(ChannelRuns.Next(c, steps[0]), steps[1..]);
      var more := AllReady(ChannelRuns.Next(c, steps[0]), steps[1..]);
      assert c.builder.co.stream + MadeReady(c, steps[0]) + more == c.builder.co.stream + (MadeReady(c, steps[0]) + more);
    }
  }

  /** Over every run of a channel, with sending, failing and confirming anywhere in between: the frames made carry,
      in order, the beginning of all the bytes made ready, and all of them once the channel is complete; the output
      bytes are the size of these frames; and a channel that has used the highest frame number is full. */
  lemma FramesCarryWhatWasReady(cfg: ChannelConfig, id: ChannelID, l1Origin: nat, steps: seq<ChannelRuns.Step>)
    requires cfg.Valid() && id != ZeroChannelID && CanRunChannel(NewChannel(cfg, id, l1Origin), steps)
    ensures var b, bytes := RunChannel(NewChannel(cfg, id, l1Origin), steps).builder, AllReady(NewChannel(cfg, id, l1Origin), steps);
            && Payloads(b.made) <= bytes
            && (Complete(b) ==> Payloads(b.made) == bytes)
            && b.outputBytes == WireSize(b.made)
            && (|b.made| > MAX_UINT16 ==> b.IsFull())
  {
    var c := NewChannel(cfg, id, l1Origin);
    NewChannelInv(cfg, id, l1Origin);
    assert Sized(c.builder) && c.builder.co.stream == [];
    hide NewChannel;
    RunBytes(c, steps);
    assert [] + AllReady(c, steps) == AllReady(c, steps);
    CarriesStream(RunChannel(c, steps));
    hide ChannelInv;
    hide RunChannel;
    hide CanRunChannel;
    hide AllReady;
    hide WireSize;
  }

  lemma CarriesStream(c: ChannelValue)
    requires ChannelInv(c)
    ensures Payloads(c.builder.made) <= c.builder.co.stream
    ensures Complete(c.builder) ==> Payloads(c.builder.made) == c.builder.co.stream
  {
    hide Conserved;
    hide Timed;
    hide Published;
    hide Accounted;
    hide Payloads;
    var b := c.builder;
    assert b.co.stream[..b.co.taken] <= b.co.stream && b.co.stream[..|b.co.stream|] == b.co.stream;
  }
}
