/** From which L1 block the maximal duration of a channel counts: from the highest L1 origin of the channels
    that were full when it was opened, or the one the manager was cleared with. */
module ManagerDuration {
  import opened Bytes
  import opened TxDatas
  import opened BuilderSpec
  import opened ChannelSpec
  import opened Segmentation
  import opened Deadlines
  import opened FrameConservation
  import opened ChannelRuns
  import opened ChannelClosing
  import opened ManagerSpec
  import opened ManagerIndex
  import opened ManagerRuns
  import opened ManagerBlocks
  import opened ManagerDone
  import opened ManagerResults

  /** The highest L1 origin of the full channels, and at least `start`. */
  function LastOrigin(start: nat, chans: seq<ChannelValue>): nat {
    if chans == [] then start
    else
      var before, b := LastOrigin(start, chans[..|chans| - 1]), chans[|chans| - 1].builder;
      if b.IsFull() && b.latestL1Origin.number > before then b.latestL1Origin.number else before
  }

  /** Every channel counts from the channels before it. */
  ghost predicate Counted(m: ManagerValue, start: nat) {
    !m.outputFailed ==>
      && m.l1OriginLastClosed.number == LastOrigin(start, m.chans)
      && forall c :: 0 <= c < |m.chans| ==>
           Sourced(m.chans[c].builder, m.chans[c].confirmed, LastOrigin(start, m.chans[..c]))
  }

  /** What matters of a channel for this. */
  ghost predicate Alike(v: ChannelValue, v': ChannelValue) {
    var b, b' := v.builder, v'.builder;
    && b'.cfg == b.cfg && b'.deadlines == b.deadlines && b'.blocks == b.blocks && b'.latestL1Origin == b.latestL1Origin
    && (b'.IsFull() <==> b.IsFull()) && v'.confirmed == v.confirmed
  }

  lemma {:induction false} OriginAlike(start: nat, a: seq<ChannelValue>, b: seq<ChannelValue>)
    requires |a| == |b|
    requires forall c :: 0 <= c < |a| ==> b[c].builder.latestL1Origin == a[c].builder.latestL1Origin && (b[c].builder.IsFull() <==> a[c].builder.IsFull())
    ensures LastOrigin(start, a) == LastOrigin(start, b)
    decreases |a|
  {
    if a != [] {
      OriginAlike(start, a[..|a| - 1], b[..|b| - 1]);
    }
  }

  lemma PrefixesAlike(start: nat, a: seq<ChannelValue>, b: seq<ChannelValue>, c: nat)
    requires c <= |a| == |b|
    requires forall d :: 0 <= d < |a| ==> b[d].builder.latestL1Origin == a[d].builder.latestL1Origin && (b[d].builder.IsFull() <==> a[d].builder.IsFull())
    ensures LastOrigin(start, a[..c]) == LastOrigin(start, b[..c])
  {
    OriginAlike(start, a[..c], b[..c]);
  }

  lemma AlikeCounted(m: ManagerValue, m': ManagerValue, start: nat)
    requires Counted(m, start) && |m'.chans| == |m.chans| && forall c :: 0 <= c < |m.chans| ==> Alike(m.chans[c], m'.chans[c])
    requires m'.l1OriginLastClosed == m.l1OriginLastClosed && (m.outputFailed ==> m'.outputFailed)
    ensures Counted(m', start)
  {
    OriginAlike(start, m.chans, m'.chans);
    forall c | 0 <= c < |m.chans| && !m'.outputFailed
      ensures Sourced(m'.chans[c].builder, m'.chans[c].confirmed, LastOrigin(start, m'.chans[..c]))
    {
      PrefixesAlike(start, m.chans, m'.chans, c);
      SameSourced(m.chans[c].builder, m'.chans[c].builder, m.chans[c].confirmed, LastOrigin(start, m.chans[..c]));
    }
    hide Sourced;
    hide LastOrigin;
  }

  lemma FailureCounted(m: ManagerValue, k: string, start: nat)
    requires Counted(m, start) && m.Wf()
    ensures Counted(ManagerSpec.TxFailed(m, k), start)
  {
    hide Counted;
    hide Without;
    if k in m.txChannels {
      var c := m.txChannels[k];
      assert Alike(m.chans[c], ChannelSpec.TxFailed(m.chans[c], k));
      assert forall v :: Alike(v, v);
      hide Alike;
      hide ChannelSpec.TxFailed;
      hide ChannelValue.NoneSubmitted;
      AlikeCounted(m, ManagerSpec.TxFailed(m, k), start);
    }
  }

  /** One channel changes, neither its origin nor whether it is full. */
  lemma ChangedCounted(m: ManagerValue, m': ManagerValue, c: nat, v: ChannelValue, start: nat)
    requires Counted(m, start) && c < |m.chans| && m'.chans == m.chans[c := v]
    requires m'.l1OriginLastClosed == m.l1OriginLastClosed && m'.outputFailed == m.outputFailed
    requires v.builder.latestL1Origin == m.chans[c].builder.latestL1Origin && (v.builder.IsFull() <==> m.chans[c].builder.IsFull())
    requires !m.outputFailed ==> Sourced(v.builder, v.confirmed, LastOrigin(start, m.chans[..c]))
    ensures Counted(m', start)
  {
    hide Sourced;
    OriginAlike(start, m.chans, m'.chans);
    forall d | 0 <= d < |m.chans| && !m.outputFailed
      ensures Sourced(m'.chans[d].builder, m'.chans[d].confirmed, LastOrigin(start, m'.chans[..d]))
    {
      PrefixesAlike(start, m.chans, m'.chans, d);
    }
    hide LastOrigin;
  }

  lemma CountedAt(m: ManagerValue, start: nat, c: nat)
    requires Counted(m, start) && c < |m.chans| && !m.outputFailed
    ensures Sourced(m.chans[c].builder, m.chans[c].confirmed, LastOrigin(start, m.chans[..c]))
  {
  }

  lemma ConfirmationCounted(m: ManagerValue, k: string, inclusion: BlockID, start: nat)
    requires Counted(m, start) && m.Wf() && Core(m)
    ensures Counted(ManagerSpec.TxConfirmed(m, k, inclusion), start)
  {
    hide Counted;
    hide Core;
    if k in m.txChannels {
      KnownTx(m, k);
      var c := m.txChannels[k];
      NotYetConfirmed(m.chans[c], k);
      hide ChannelInv;
      ConfirmedChans(m, k, inclusion);
      hide ManagerSpec.TxConfirmed;
      var v := Confirm(m.chans[c], k, inclusion);
      assert v.builder.latestL1Origin == m.chans[c].builder.latestL1Origin && v.builder.full == m.chans[c].builder.full;
      hide ManagerValue.Wf;
      if !m.outputFailed {
        CountedAt(m, start, c);
        ConfirmSourced(m.chans[c], k, inclusion, LastOrigin(start, m.chans[..c]));
      }
      hide Confirm;
      hide Sourced;
      ChangedCounted(m, ManagerSpec.TxConfirmed(m, k, inclusion), c, v, start);
    }
  }

  lemma NotYetConfirmed(v: ChannelValue, k: string)
    requires ChannelInv(v) && k in v.pending
    ensures k !in v.confirmed
  {
    hide Conserved;
    hide Segmented;
    hide Timed;
    hide Published;
  }

  lemma ConfirmedChans(m: ManagerValue, k: string, inclusion: BlockID)
    requires m.Wf() && k in m.txChannels && m.txChannels[k] < |m.chans| && k in m.chans[m.txChannels[k]].pending
    ensures var c, m' := m.txChannels[k], ManagerSpec.TxConfirmed(m, k, inclusion);
            && m'.chans == m.chans[c := Confirm(m.chans[c], k, inclusion)]
            && m'.l1OriginLastClosed == m.l1OriginLastClosed && m'.outputFailed == m.outputFailed
  {
    hide ChannelValue.TimedOut;
    hide ChannelValue.FullySubmitted;
    hide Confirm;
    hide Without;
  }

  lemma PopCounted(m: ManagerValue, from: Option<nat>, start: nat)
    requires Counted(m, start) && (from.Some? ==> from.value < |m.chans|)
    ensures Counted(PopTx(m, from).0, start)
  {
    hide Counted;
    hide Render;
    hide ChannelValue.NextTx;
    AlikeCounted(m, PopTx(m, from).0, start);
  }

  lemma EnsureCounted(m: ManagerValue, opening: Opening, start: nat)
    requires Counted(m, start) && m.Wf() && (opening.Opened? ==> opening.cfg.Valid())
    ensures EnsureSpace(m, opening).Some? ==> Counted(EnsureSpace(m, opening).value, start)
  {
    if EnsureSpace(m, opening).Some? && EnsureSpace(m, opening) != Some(m) {
      var m' := EnsureSpace(m, opening).value;
      var n, v := |m.chans|, NewChannel(opening.cfg, opening.id, m.l1OriginLastClosed.number);
      assert m'.chans == m.chans + [v] && m'.chans[..n] == m.chans && m'.l1OriginLastClosed == m.l1OriginLastClosed;
      assert m'.outputFailed == m.outputFailed && !v.builder.IsFull() && v.confirmed == map[];
      NewSourced(opening.cfg, opening.id, m.l1OriginLastClosed.number);
      assert LastOrigin(start, m'.chans) == LastOrigin(start, m.chans);
      assert v.builder == NewBuilder(opening.cfg, opening.id, m.l1OriginLastClosed.number);
      hide EnsureSpace;
      hide NewChannel;
      hide NewBuilder;
      hide LastOrigin;
      hide Sourced;
      forall c | 0 <= c <= n && !m.outputFailed
        ensures Sourced(m'.chans[c].builder, m'.chans[c].confirmed, LastOrigin(start, m'.chans[..c]))
      {
        assert m'.chans[..c] == m.chans[..c];
      }
    }
  }

  lemma {:induction false} AddsSourced(b: BuilderValue, blocks: seq<Block>, adds: nat -> AddOutcome, i: nat,
                                       confirmed: map<string, BlockID>, since: nat)
    requires Sourced(b, confirmed, since) && b.cfg.Valid() && i <= |blocks|
    ensures var (b', taken) := AddBlocks(b, blocks, adds, i);
            Sourced(b', confirmed, since) && (taken.None? && !b.IsFull() ==> !b'.IsFull())
    decreases |blocks| - i
  {
    hide Sourced;
    if i < |blocks| {
      AddSourced(b, blocks[i], adds(i), confirmed, since);
      AddBlockFrame(b, blocks[i], adds(i));
      ErrorKeepsOpen(b, blocks[i], adds(i));
      hide AddBlock;
      var b' := AddBlock(b, blocks[i], adds(i)).0;
      if !b'.IsFull() {
        AddsSourced(b', blocks, adds, i + 1, confirmed, since);
      }
    }
  }

  lemma ErrorKeepsOpen(b: BuilderValue, block: Block, outcome: AddOutcome)
    requires b.cfg.Valid()
    ensures AddBlock(b, block, outcome).1 == AddError ==> AddBlock(b, block, outcome).0 == b
  {
  }

  /** The last channel, open so far, changes: it stays open, or it is full and its origin is taken over. */
  lemma LastCounted(m: ManagerValue, m': ManagerValue, v: ChannelValue, start: nat)
    requires Counted(m, start) && m.chans != [] && m'.chans == m.chans[|m.chans| - 1 := v] && !m.chans[|m.chans| - 1].builder.IsFull()
    requires !m'.outputFailed ==>
      && !m.outputFailed && Sourced(v.builder, v.confirmed, LastOrigin(start, m.chans[..|m.chans| - 1]))
      && m'.l1OriginLastClosed.number ==
         if v.builder.IsFull() && v.builder.latestL1Origin.number > m.l1OriginLastClosed.number
         then v.builder.latestL1Origin.number else m.l1OriginLastClosed.number
    ensures Counted(m', start)
  {
    var n := |m.chans| - 1;
    hide Sourced;
    assert m'.chans[..n] == m.chans[..n];
    assert LastOrigin(start, m.chans) == LastOrigin(start, m.chans[..n]);
    forall c | 0 <= c < |m.chans| && !m'.outputFailed
      ensures Sourced(m'.chans[c].builder, m'.chans[c].confirmed, LastOrigin(start, m'.chans[..c]))
    {
      if c < n {
        assert m'.chans[..c] == m.chans[..c] && m'.chans[c] == m.chans[c];
      }
    }
  }

  lemma OutputLatest(b: BuilderValue, close: CloseOutcome)
    requires b.cfg.Valid() && b.co.taken <= |b.co.stream|
    ensures BuilderSpec.OutputFrames(b, close).0.latestL1Origin == b.latestL1Origin
  {
    hide OutputReadyFrames;
    hide OutputToEnd;
    ReadyLatest(b);
    if b.IsFull() && !b.co.closed && close.Flushed? {
      EndLatest(b.(co := MakeReady(b.co, close.ready).(closed := true)));
    }
  }

  lemma ReadyLatest(b: BuilderValue)
    requires b.cfg.Valid() && b.co.taken <= |b.co.stream|
    ensures OutputReadyFrames(b).latestL1Origin == b.latestL1Origin
    decreases b.co.ReadyBytes()
  {
  }

  lemma EndLatest(b: BuilderValue)
    requires b.cfg.Valid() && b.co.taken <= |b.co.stream| && b.co.closed
    ensures OutputToEnd(b).latestL1Origin == b.latestL1Origin
    decreases b.co.ReadyBytes()
  {
  }

  /** What building makes of the channel that it fills. */
  lemma BuiltCounted(m: ManagerValue, c: nat, l1Head: nat, p: Pipeline, start: nat)
    requires Counted(m, start) && c == |m.chans| - 1 && !m.chans[c].builder.IsFull()
    requires m.chans[c].builder.cfg.Valid() && m.chans[c].builder.co.taken <= |m.chans[c].builder.co.stream|
    ensures Counted(Build(m, c, l1Head, p).0, start)
  {
    hide AddBlocks;
    hide BuilderSpec.OutputFrames;
    hide CheckTimeout;
    hide LastOrigin;
    var v, since := m.chans[c], LastOrigin(start, m.chans[..c]);
    AddBlocksShape(v.builder, m.blocks, p.adds, 0);
    if !m.outputFailed {
      CountedAt(m, start, c);
      AddsSourced(v.builder, m.blocks, p.adds, 0, v.confirmed, since);
    }
    var b1 := AddBlocks(v.builder, m.blocks, p.adds, 0).0;
    var b2 := CheckTimeout(b1, l1Head);
    CheckTimeoutFrame(b1, l1Head);
    OutputFramesFrame(b2, p.close);
    OutputLatest(b2, p.close);
    var b3 := BuilderSpec.OutputFrames(b2, p.close).0;
    if !m.outputFailed {
      SameSourced(b1, b2, v.confirmed, since);
      SameSourced(b2, b3, v.confirmed, since);
    }
    hide Sourced;
    hide Counted;
    var m' := Build(m, c, l1Head, p).0;
    var v' := v.(builder := if ProcessBlocks(m, c, p.adds).1 then b3 else b1);
    assert m'.chans == m.chans[c := v'];
    assert ProcessBlocks(m, c, p.adds).1 ==> b3.latestL1Origin == b2.latestL1Origin;
    LastCounted(m, m', v', start);
  }

  lemma RequestCounted(m: ManagerValue, l1Head: nat, p: Pipeline, start: nat)
    requires Counted(m, start) && Core(m) && m.Wf() && Admissible(m, Request(l1Head, p))
    ensures Counted(RequestTx(m, l1Head, p).0, start)
  {
    hide Counted;
    hide Core;
    hide Build;
    hide PopTx;
    var first := FirstWithData(m.chans, m.queue);
    if first.Some? || m.closed {
      PopCounted(m, first, start);
    } else if m.blocks != [] {
      EnsureCounted(m, p.opening, start);
      EnsureKeeps(m, p.opening);
      var space := EnsureSpace(m, p.opening);
      if space.Some? {
        var c := space.value.current.value;
        assert c == |space.value.chans| - 1 by { CurrentLast(space.value); }
        hide EnsureSpace;
        BuiltCounted(space.value, c, l1Head, p, start);
        BuildSize(space.value, c, l1Head, p);
        var (m', ok) := Build(space.value, c, l1Head, p);
        if ok {
          PopCounted(m', Some(c), start);
        }
      }
    }
  }

  lemma TerminatedCounted(m: ManagerValue, c: nat, close: CloseOutcome, start: nat)
    requires Counted(m, start) && c == |m.chans| - 1 && !m.chans[c].builder.IsFull()
    requires m.chans[c].builder.cfg.Valid() && m.chans[c].builder.co.taken <= |m.chans[c].builder.co.stream|
    ensures Counted(ManagerSpec.OutputFrames(WithBuilder(m, c, BuilderSpec.Close(m.chans[c].builder)), c, close).0, start)
  {
    hide BuilderSpec.OutputFrames;
    hide LastOrigin;
    var v, b1 := m.chans[c], BuilderSpec.Close(m.chans[c].builder);
    OutputFramesFrame(b1, close);
    OutputLatest(b1, close);
    var b2 := BuilderSpec.OutputFrames(b1, close).0;
    if !m.outputFailed {
      CountedAt(m, start, c);
      SameSourced(v.builder, b1, v.confirmed, LastOrigin(start, m.chans[..c]));
      SameSourced(b1, b2, v.confirmed, LastOrigin(start, m.chans[..c]));
    }
    hide Sourced;
    hide Counted;
    var m' := ManagerSpec.OutputFrames(WithBuilder(m, c, b1), c, close).0;
    assert m'.chans == m.chans[c := v.(builder := b2)];
    LastCounted(m, m', v.(builder := b2), start);
  }

  lemma ShutdownCounted(m: ManagerValue, close: CloseOutcome, start: nat)
    requires Counted(m, start) && Core(m) && m.Wf()
    ensures Counted(CloseAll(m, close).0, start)
  {
    hide Counted;
    if !m.closed {
      var m1 := DropIdle(m);
      DropSame(m);
      DropIdleKeeps(m);
      hide Core;
      assert m1.l1OriginLastClosed == m.l1OriginLastClosed && m1.outputFailed == m.outputFailed;
      AlikeCounted(m, m1, start);
      hide DropIdle;
      hide ManagerSpec.OutputFrames;
      if m1.current.Some? && !m1.chans[m1.current.value].builder.IsFull() {
        CurrentLast(m1);
        TerminatedCounted(m1, m1.current.value, close, start);
      }
    }
  }

  /** The L1 origin that the manager was last cleared with. */
  function ClearedWith(start: nat, steps: seq<ManagerRuns.Step>): nat
    decreases |steps|
  {
    if steps == [] then start
    else ClearedWith(if steps[0].Reset? then steps[0].l1Origin.number else start, steps[1..])
  }

  lemma NextCounted(m: ManagerValue, step: ManagerRuns.Step, start: nat)
    requires Counted(m, start) && Core(m) && m.Wf() && Admissible(m, step)
    ensures Counted(ManagerRuns.Next(m, step), if step.Reset? then step.l1Origin.number else start)
  {
    hide Core;
    hide Counted;
    hide ManagerValue.Wf;
    match step
    case NewBlock(block) => NewBlockCounted(m, block, start);
    case Request(l1Head, p) => RequestCounted(m, l1Head, p, start);
    case Failure(id) => FailureCounted(m, id, start);
    case Confirmation(id, inclusion) => ConfirmationCounted(m, id, inclusion, start);
    case Shutdown(close) => ShutdownCounted(m, close, start);
    case Reset(l1Origin) => ClearedCounted(l1Origin);
  }

  lemma NewBlockCounted(m: ManagerValue, block: Block, start: nat)
    requires Counted(m, start)
    ensures Counted(AddL2Block(m, block).0, start)
  {
    hide Counted;
    AlikeCounted(m, AddL2Block(m, block).0, start);
  }

  lemma ClearedCounted(l1Origin: BlockID)
    ensures Counted(Cleared(l1Origin), l1Origin.number)
  {
  }

  lemma {:induction false} RunCounted(m: ManagerValue, steps: seq<ManagerRuns.Step>, start: nat)
    requires CanRun(m, steps) && Counted(m, start) && Core(m)
    ensures Counted(Run(m, steps), ClearedWith(start, steps))
    decreases |steps|
  {
    hide Counted;
    hide Core;
    hide Small;
    hide Admissible;
    hide ManagerValue.Wf;
    if steps != [] {
      NextCounted(m, steps[0], start);
      ManagerRuns.NextKeeps(m, steps[0]);
      hide ManagerRuns.Next;
      RunCounted(ManagerRuns.Next(m, steps[0]), steps[1..], if steps[0].Reset? then steps[0].l1Origin.number else start);
    }
  }

  /** At the end of any run, unless creating frames failed: the manager knows the highest L1 origin of its full
      channels, and every deadline of every channel has its source, the maximal duration of a channel counting from
      the highest origin of the full channels opened before it. */
  lemma DurationOnEveryRun(l1Origin: BlockID, steps: seq<ManagerRuns.Step>, c: nat)
    requires CanRun(Cleared(l1Origin), steps) && !Run(Cleared(l1Origin), steps).outputFailed
    ensures var m, start := Run(Cleared(l1Origin), steps), ClearedWith(l1Origin.number, steps);
            && m.l1OriginLastClosed.number == LastOrigin(start, m.chans)
            && (c < |m.chans| ==> Sourced(m.chans[c].builder, m.chans[c].confirmed, LastOrigin(start, m.chans[..c])))
  {
    ClearedCore(l1Origin);
    assert Counted(Cleared(l1Origin), l1Origin.number);
    RunCounted(Cleared(l1Origin), steps, l1Origin.number);
    hide Core;
    hide Run;
    hide CanRun;
    hide Sourced;
    hide LastOrigin;
  }
}
