/** Runs of the channel manager: blocks arrive, transaction data is requested, transactions fail and
    are confirmed in any order, the manager is closed and cleared. */
module ManagerRuns {
  import opened Bytes
  import opened TxDatas
  import opened BuilderSpec
  import opened ChannelSpec
  import opened Segmentation
  import opened Deadlines
  import opened FrameConservation
  import opened ChannelRuns
  import opened ManagerSpec
  import opened ManagerClose
  import opened ManagerIndex

  datatype Step =
    | NewBlock(block: Block)
    | Request(l1Head: nat, p: Pipeline)
    | Failure(id: string)
    | Confirmation(id: string, inclusion: BlockID)
    | Shutdown(close: CloseOutcome)
    | Reset(l1Origin: BlockID)

  /** A channel is opened with a valid configuration and an id that no other channel has. */
  ghost predicate Admissible(m: ManagerValue, step: Step) {
    step.Request? && step.p.opening.Opened? ==>
      && step.p.opening.cfg.Valid() && step.p.opening.id != ZeroChannelID
      && forall c :: 0 <= c < |m.chans| ==> m.chans[c].builder.co.id != step.p.opening.id
  }

  ghost function Next(m: ManagerValue, step: Step): ManagerValue
    requires m.Wf() && Admissible(m, step)
  {
    match step
    case NewBlock(block) => AddL2Block(m, block).0
    case Request(l1Head, p) => RequestTx(m, l1Head, p).0
    case Failure(id) => ManagerSpec.TxFailed(m, id)
    case Confirmation(id, inclusion) => ManagerSpec.TxConfirmed(m, id, inclusion)
    case Shutdown(close) => CloseAll(m, close).0
    case Reset(l1Origin) => Cleared(l1Origin)
  }

  lemma EnsureKeeps(m: ManagerValue, opening: Opening)
    requires Core(m) && m.Wf()
    requires opening.Opened? ==> opening.cfg.Valid() && opening.id != ZeroChannelID
    requires opening.Opened? ==> forall c :: 0 <= c < |m.chans| ==> m.chans[c].builder.co.id != opening.id
    ensures EnsureSpace(m, opening).Some? ==>
              var m' := EnsureSpace(m, opening).value;
              Core(m') && !m'.chans[m'.current.value].builder.IsFull() && m'.Wf()
  {
    hide ChannelInv;
    if EnsureSpace(m, opening).Some? && EnsureSpace(m, opening) != Some(m) {
      OpenKeeps(m, opening.cfg, opening.id);
      CoreWf(EnsureSpace(m, opening).value);
    }
    hide ManagerValue.Wf;
    hide IndexAgrees;
    hide IdsDistinct;
    hide ChansOk;
  }

  lemma OpenKeeps(m: ManagerValue, cfg: ChannelConfig, id: ChannelID)
    requires Core(m) && cfg.Valid() && id != ZeroChannelID
    requires forall c :: 0 <= c < |m.chans| ==> m.chans[c].builder.co.id != id
    requires m.current.Some? ==> m.current.value < |m.chans| && m.chans[m.current.value].builder.IsFull()
    ensures var n := |m.chans|;
            Core(m.(current := Some(n), queue := m.queue + [n],
                    chans := m.chans + [NewChannel(cfg, id, m.l1OriginLastClosed.number)]))
  {
    hide ChannelInv;
    hide ChansOk;
    hide IdsDistinct;
    hide IndexAgrees;
    hide QueueOk;
    var v := NewChannel(cfg, id, m.l1OriginLastClosed.number);
    NewChannelInv(cfg, id, m.l1OriginLastClosed.number);
    assert v.pending == map[] && v.builder.co.id == id && !v.builder.IsFull();
    hide NewChannel;
    AppendKeepsChans(m, Appended(m, v), v);
    AppendKeepsQueue(m, Appended(m, v), v);
  }

  function Appended(m: ManagerValue, v: ChannelValue): ManagerValue {
    m.(current := Some(|m.chans|), queue := m.queue + [|m.chans|], chans := m.chans + [v])
  }

  lemma AppendKeepsChans(m: ManagerValue, m': ManagerValue, v: ChannelValue)
    requires ChansOk(m) && IdsDistinct(m) && IndexAgrees(m) && ChannelInv(v) && v.pending == map[]
    requires forall c :: 0 <= c < |m.chans| ==> m.chans[c].builder.co.id != v.builder.co.id
    requires m'.chans == m.chans + [v] && m'.txChannels == m.txChannels
    ensures ChansOk(m') && IdsDistinct(m') && IndexAgrees(m')
  {
    hide ChannelInv;
  }

  lemma AppendKeepsQueue(m: ManagerValue, m': ManagerValue, v: ChannelValue)
    requires QueueOk(m) && (m.current.Some? ==> m.current.value < |m.chans| && m.chans[m.current.value].builder.IsFull())
    requires m' == Appended(m, v)
    ensures QueueOk(m')
  {
  }

  lemma {:induction false} AddBlocksKeeps(c: ChannelValue, blocks: seq<Block>, adds: nat -> AddOutcome, i: nat)
    requires ChannelInv(c) && c.builder.cfg.Valid() && i <= |blocks|
    ensures var b' := AddBlocks(c.builder, blocks, adds, i).0;
            && ChannelInv(c.(builder := b')) && b'.co.id == c.builder.co.id && b'.cfg == c.builder.cfg
            && b'.co.closed == c.builder.co.closed && b'.made == c.builder.made
    decreases |blocks| - i
  {
    hide ChannelInv;
    hide AddBlock;
    if i < |blocks| {
      AddKeeps(c, blocks[i], adds(i));
      AddBlockFrame(c.builder, blocks[i], adds(i));
      ClosedSame(c, blocks[i], adds(i));
      var c' := c.(builder := AddBlock(c.builder, blocks[i], adds(i)).0);
      AddBlocksKeeps(c', blocks, adds, i + 1);
      assert c'.(builder := AddBlocks(c'.builder, blocks, adds, i + 1).0) == c.(builder := AddBlocks(c'.builder, blocks, adds, i + 1).0);
    } else {
      assert c.(builder := c.builder) == c;
    }
  }

  lemma ClosedSame(c: ChannelValue, block: Block, outcome: AddOutcome)
    requires ChannelInv(c) && c.builder.cfg.Valid()
    ensures AddBlock(c.builder, block, outcome).0.co.closed == c.builder.co.closed
  {
  }

  /** Each channel out is closed at most once: frames are only created for a channel that is open, or
      that has become full since frames were last created for it. */
  lemma BuildKeeps(m: ManagerValue, c: nat, l1Head: nat, p: Pipeline)
    requires Core(m) && m.Wf() && c < |m.chans| && !m.chans[c].builder.IsFull()
    requires Small(Build(m, c, l1Head, p).0)
    ensures Core(Build(m, c, l1Head, p).0)
    ensures !AddBlocks(m.chans[c].builder, m.blocks, p.adds, 0).0.co.closed
  {
    hide ChannelInv;
    hide Core;
    hide AddBlocks;
    hide BuilderSpec.OutputFrames;
    hide CheckTimeout;
    hide ManagerValue.Wf;
    var v := m.chans[c];
    assert ChannelInv(v) && !v.builder.co.closed && v.builder.cfg.Valid() by { OpenNotClosed(m, c); }
    AddBlocksKeeps(v, m.blocks, p.adds, 0);
    var b1 := AddBlocks(v.builder, m.blocks, p.adds, 0).0;
    FullGrows(v.builder, m.blocks, p.adds, 0);
    WithBuilderKeeps(m, c, b1);
    var m1 := ProcessBlocks(m, c, p.adds).0;
    CoreSame(WithBuilder(m, c, b1), m1);
    if ProcessBlocks(m, c, p.adds).1 {
      InvShape(v.(builder := b1));
      CheckTimeoutFrame(b1, l1Head);
      RegisterKeeps(m1, c, l1Head);
      OutputKeepsCore(WithBuilder(m1, c, CheckTimeout(b1, l1Head)), c, p.close);
    }
  }

  lemma BuildSize(m: ManagerValue, c: nat, l1Head: nat, p: Pipeline)
    requires c < |m.chans| && m.chans[c].builder.cfg.Valid() && m.chans[c].builder.co.taken <= |m.chans[c].builder.co.stream|
    ensures |Build(m, c, l1Head, p).0.chans| == |m.chans|
  {
    hide AddBlocks;
    hide BuilderSpec.OutputFrames;
    hide CheckTimeout;
    if ProcessBlocks(m, c, p.adds).1 {
      AddBlocksShape(m.chans[c].builder, m.blocks, p.adds, 0);
      CheckTimeoutFrame(ProcessBlocks(m, c, p.adds).0.chans[c].builder, l1Head);
    }
  }

  lemma OpenNotClosed(m: ManagerValue, c: nat)
    requires Core(m) && c < |m.chans| && !m.chans[c].builder.IsFull()
    ensures ChannelInv(m.chans[c]) && !m.chans[c].builder.co.closed && m.chans[c].builder.cfg.Valid()
  {
    hide ChannelInv;
    assert ChannelInv(m.chans[c]);
    SegmentedOf(m.chans[c]);
  }

  lemma SegmentedOf(c: ChannelValue)
    requires ChannelInv(c)
    ensures Segmented(c.builder)
    ensures c.builder.cfg.Valid() && c.builder.co.taken <= |c.builder.co.stream|
    ensures c.builder.co.closed ==> c.builder.IsFull()
  {
    hide Conserved;
    hide Timed;
    hide Payloads;
  }

  lemma FullGrows(b: BuilderValue, blocks: seq<Block>, adds: nat -> AddOutcome, i: nat)
    requires b.cfg.Valid() && i <= |blocks|
    ensures b.IsFull() ==> AddBlocks(b, blocks, adds, i).0.IsFull()
    decreases |blocks| - i
  {
  }

  lemma CheckTimeoutFrame(b: BuilderValue, l1Head: nat)
    ensures var b' := CheckTimeout(b, l1Head); b' == b.(full := b'.full) && (b.IsFull() ==> b'.full == b.full)
  {
  }

  lemma RegisterKeeps(m: ManagerValue, c: nat, l1Head: nat)
    requires Core(m) && c < |m.chans|
    ensures Core(WithBuilder(m, c, CheckTimeout(m.chans[c].builder, l1Head)))
  {
    hide ChannelInv;
    hide Core;
    var b := m.chans[c].builder;
    assert ChannelInv(m.chans[c]) by { CoreChan(m, c); }
    MarkedKeeps(m.chans[c], CheckTimeout(b, l1Head).full);
    assert b.(full := CheckTimeout(b, l1Head).full) == CheckTimeout(b, l1Head);
    WithBuilderKeeps(m, c, CheckTimeout(b, l1Head));
  }

  lemma CoreChan(m: ManagerValue, c: nat)
    requires Core(m) && c < |m.chans|
    ensures ChannelInv(m.chans[c])
  {
    hide ChannelInv;
  }

  lemma OutputKeepsCore(m: ManagerValue, c: nat, close: CloseOutcome)
    requires Core(m) && c < |m.chans| && m.chans[c].builder.cfg.Valid()
    requires m.chans[c].builder.co.taken <= |m.chans[c].builder.co.stream|
    requires Small(ManagerSpec.OutputFrames(m, c, close).0)
    ensures Core(ManagerSpec.OutputFrames(m, c, close).0)
  {
    hide ChannelInv;
    hide Core;
    hide BuilderSpec.OutputFrames;
    var b := m.chans[c].builder;
    var b' := BuilderSpec.OutputFrames(b, close).0;
    var m' := ManagerSpec.OutputFrames(m, c, close).0;
    assert m'.chans[c].builder == b';
    assert ChannelInv(m.chans[c]) by { CoreChan(m, c); }
    OutputKeeps(m.chans[c], close);
    OutputFramesFrame(b, close);
    OutputFull(b, close);
    WithBuilderKeeps(m, c, b');
    CoreSame(WithBuilder(m, c, b'), m');
  }

  lemma OutputFull(b: BuilderValue, close: CloseOutcome)
    requires b.cfg.Valid() && b.co.taken <= |b.co.stream|
    ensures b.IsFull() ==> BuilderSpec.OutputFrames(b, close).0.IsFull()
  {
    hide OutputReadyFrames;
    if b.IsFull() && !b.co.closed && close.Flushed? {
      ToEndFull(b.(co := MakeReady(b.co, close.ready).(closed := true)));
    }
  }

  lemma ToEndFull(b: BuilderValue)
    requires b.cfg.Valid() && b.co.taken <= |b.co.stream| && b.co.closed && b.IsFull()
    ensures OutputToEnd(b).IsFull()
    decreases b.co.ReadyBytes()
  {
  }

  lemma PopSmall(m: ManagerValue, from: Option<nat>)
    requires from.Some? ==> from.value < |m.chans|
    requires Small(PopTx(m, from).0)
    ensures Small(m)
  {
    var m' := PopTx(m, from).0;
    assert forall c :: 0 <= c < |m.chans| ==> m'.chans[c].builder.made == m.chans[c].builder.made;
  }

  lemma RequestKeeps(m: ManagerValue, l1Head: nat, p: Pipeline)
    requires Core(m) && m.Wf() && Admissible(m, Request(l1Head, p)) && Small(RequestTx(m, l1Head, p).0)
    ensures Core(RequestTx(m, l1Head, p).0)
  {
    hide Core;
    hide Build;
    hide Small;
    hide EnsureSpace;
    hide PopTx;
    var first := FirstWithData(m.chans, m.queue);
    if first.Some? || m.closed {
      PopKeepsAny(m, first);
    } else if m.blocks != [] {
      EnsureKeeps(m, p.opening);
      var space := EnsureSpace(m, p.opening);
      if space.Some? {
        var c := space.value.current.value;
        var (m', ok) := Build(space.value, c, l1Head, p);
        BuildSize(space.value, c, l1Head, p);
        if ok {
          PopSmall(m', Some(c));
        }
        BuildKeeps(space.value, c, l1Head, p);
        if ok {
          PopKeepsAny(m', Some(c));
        }
      }
    }
  }

  lemma PopKeepsAny(m: ManagerValue, from: Option<nat>)
    requires Core(m) && (from.Some? ==> from.value < |m.chans|)
    ensures Core(PopTx(m, from).0)
  {
    hide Core;
    if from.Some? && m.chans[from.value].HasTxData() {
      PopKeeps(m, from.value);
    }
  }

  lemma DropIdleKeeps(m: ManagerValue)
    requires Core(m) && m.Wf()
    ensures Core(DropIdle(m))
  {
    hide Core;
    hide ManagerValue.Wf;
    SweepKeeps(m, Idle(m), m.queue, 0);
    var s := Sweep(Swept(m.current, m.queue), Idle(m), m.queue, 0);
    CoreSame(m.(current := s.current, queue := s.queue), DropIdle(m));
  }

  lemma {:induction false} SweepKeeps(m: ManagerValue, idle: set<nat>, arr: seq<nat>, i: nat)
    requires Core(m) && m.queue <= arr && i <= |arr|
    ensures var s := Sweep(Swept(m.current, m.queue), idle, arr, i);
            Core(m.(current := s.current, queue := s.queue))
    decreases |arr| - i
  {
    hide Core;
    if i == |arr| {
      assert m.(current := m.current, queue := m.queue) == m;
    } else if arr[i] !in idle {
      SweepKeeps(m, idle, arr, i + 1);
    } else {
      var m' := RemovePending(m, arr[i]);
      RemoveKeeps(m, arr[i]);
      SweepKeeps(m', idle, Shift(m.queue, arr, arr[i]), i + 1);
      var s := Sweep(Swept(m'.current, m'.queue), idle, Shift(m.queue, arr, arr[i]), i + 1);
      assert m'.(current := s.current, queue := s.queue) == m.(current := s.current, queue := s.queue);
    }
  }

  lemma ShutdownKeeps(m: ManagerValue, close: CloseOutcome)
    requires Core(m) && m.Wf() && Small(CloseAll(m, close).0)
    ensures Core(CloseAll(m, close).0)
  {
    hide Core;
    hide Idle;
    if !m.closed {
      DropIdleKeeps(m);
      var m1 := DropIdle(m);
      SweepShape(Swept(m.current, m.queue), Idle(m), m.queue, 0);
      if m1.current.Some? && !m1.chans[m1.current.value].builder.IsFull() {
        var c := m1.current.value;
        var b := m1.chans[c].builder;
        assert ChannelInv(m1.chans[c]) && b.co.taken <= |b.co.stream| && b.cfg.Valid() by {
          CoreChan(m1, c);
          InvShape(m1.chans[c]);
        }
        hide ChannelInv;
        MarkedKeeps(m1.chans[c], BuilderSpec.Close(b).full);
        WithBuilderKeeps(m1, c, BuilderSpec.Close(b));
        OutputKeepsCore(WithBuilder(m1, c, BuilderSpec.Close(b)), c, close);
      }
    }
  }

  /** Every step keeps the manager consistent. */
  lemma NextKeeps(m: ManagerValue, step: Step)
    requires Core(m) && m.Wf() && Admissible(m, step) && Small(Next(m, step))
    ensures Core(Next(m, step))
  {
    hide Core;
    hide ManagerValue.Wf;
    hide Small;
    hide Admissible;
    match step
    case NewBlock(block) => CoreSame(m, AddL2Block(m, block).0);
    case Request(l1Head, p) => RequestKeeps(m, l1Head, p);
    case Failure(id) => TxFailedKeeps(m, id);
    case Confirmation(id, inclusion) => TxConfirmedKeeps(m, id, inclusion);
    case Shutdown(close) => ShutdownKeeps(m, close);
    case Reset(l1Origin) => ClearedCore(l1Origin);
  }

  lemma ClearedCore(l1Origin: BlockID)
    ensures Core(Cleared(l1Origin))
  {
  }
}
