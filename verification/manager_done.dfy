/** A channel that the manager drops as fully submitted really is on L1: it is complete, and all of
    its frames are in confirmed transactions whose inclusion blocks lie within one channel timeout. */
module ManagerDone {
  import opened Bytes
  import opened TxDatas
  import opened BuilderSpec
  import opened ChannelSpec
  import opened Segmentation
  import opened Deadlines
  import opened FrameConservation
  import opened ChannelRuns
  import opened ManagerSpec
  import opened ManagerIndex
  import opened ManagerRuns
  import opened ManagerBlocks

  ghost predicate FullyConfirmed(v: ChannelValue) {
    && Complete(v.builder) && v.builder.IsFull()
    && v.pending == map[] && v.builder.frames == []
    && (forall n: nat :: n < v.builder.numFrames ==> InTx(v, v.confirmed.Keys, n))
    && forall a, b :: a in v.confirmed && b in v.confirmed ==>
         v.confirmed[a].number < v.confirmed[b].number + v.builder.cfg.channelTimeout
  }

  /** Unless creating frames failed, full channels are complete and done channels fully confirmed. */
  ghost predicate Sound(m: ManagerValue) {
    !m.outputFailed ==>
      && (forall c :: 0 <= c < |m.chans| && m.chans[c].builder.IsFull() ==> Complete(m.chans[c].builder))
      && forall c :: c in m.done ==> c < |m.chans| && FullyConfirmed(m.chans[c])
  }

  /** Channel `c` changes while it is not done. */
  lemma ChangedSound(m: ManagerValue, m': ManagerValue, c: nat)
    requires Sound(m) && c < |m.chans| == |m'.chans| && (m.outputFailed || c !in m.done) && m'.done == m.done
    requires m.outputFailed ==> m'.outputFailed
    requires forall d :: 0 <= d < |m.chans| && d != c ==> m'.chans[d] == m.chans[d]
    requires m'.outputFailed || (m'.chans[c].builder.IsFull() ==> Complete(m'.chans[c].builder))
    ensures Sound(m')
  {
    hide FullyConfirmed;
    hide Complete;
  }

  lemma SameSound(m: ManagerValue, m': ManagerValue)
    requires Sound(m) && m'.chans == m.chans && m'.done == m.done && (m.outputFailed ==> m'.outputFailed)
    ensures Sound(m')
  {
    hide FullyConfirmed;
    hide Complete;
  }

  /** A channel with a pending transaction, a queued frame or space left is not done. */
  lemma NotDone(m: ManagerValue, c: nat)
    requires Sound(m) && c < |m.chans| && !m.outputFailed
    requires m.chans[c].pending != map[] || m.chans[c].builder.frames != [] || !m.chans[c].builder.IsFull()
    ensures c !in m.done
  {
    hide InTx;
  }

  lemma WasComplete(m: ManagerValue, c: nat)
    requires Sound(m) && c < |m.chans| && !m.outputFailed && m.chans[c].builder.IsFull()
    ensures Complete(m.chans[c].builder)
  {
  }

  lemma FailureSound(m: ManagerValue, k: string)
    requires Sound(m) && m.Wf() && Core(m)
    ensures Sound(ManagerSpec.TxFailed(m, k))
  {
    hide Sound;
    hide Core;
    hide Without;
    hide ChannelInv;
    hide Complete;
    hide ChannelSpec.TxFailed;
    if k in m.txChannels {
      KnownTx(m, k);
      var c := m.txChannels[k];
      PendingNotDone(m, k, c);
      FailedFrame(m.chans[c], k);
      ChangedSound(m, ManagerSpec.TxFailed(m, k), c);
    }
  }

  lemma PendingNotDone(m: ManagerValue, k: string, c: nat)
    requires Sound(m) && c < |m.chans| && k in m.chans[c].pending
    ensures !m.outputFailed ==> c !in m.done && (m.chans[c].builder.IsFull() ==> Complete(m.chans[c].builder))
  {
    hide Sound;
    hide Complete;
    if !m.outputFailed {
      NotDone(m, c);
      if m.chans[c].builder.IsFull() {
        WasComplete(m, c);
      }
    }
  }

  lemma FailedFrame(v: ChannelValue, k: string)
    ensures var b := ChannelSpec.TxFailed(v, k).builder;
            (Complete(b) <==> Complete(v.builder)) && b.full == v.builder.full
  {
  }

  lemma ConfirmationSound(m: ManagerValue, k: string, inclusion: BlockID)
    requires Sound(m) && m.Wf() && Core(m)
    ensures Sound(ManagerSpec.TxConfirmed(m, k, inclusion))
  {
    hide Sound;
    hide Core;
    hide Without;
    hide ChannelInv;
    if k in m.txChannels {
      KnownTx(m, k);
      var c := m.txChannels[k];
      var v := m.chans[c];
      if !m.outputFailed {
        assert k in v.pending;
        NotDone(m, c);
        if v.builder.IsFull() {
          WasComplete(m, c);
        }
      }
      ConfirmFrame(v, k, inclusion);
      ConfirmKeeps(v, k, inclusion);
      var (v', verdict) := ChannelSpec.TxConfirmed(v, k, inclusion);
      var m1 := Set(m, c, v').(txChannels := m.txChannels - {k});
      hide Confirm;
      hide Complete;
      ChangedSound(m, m1, c);
      var m' := ManagerSpec.TxConfirmed(m, k, inclusion);
      if verdict.Done? {
        if !m.outputFailed {
          DoneIsConfirmed(v');
        }
        AddedSound(m1, m', c);
      } else {
        SameSound(m1, m');
      }
    }
  }

  lemma ConfirmFrame(v: ChannelValue, k: string, inclusion: BlockID)
    requires v.builder.cfg.Valid()
    ensures var b := Confirm(v, k, inclusion).builder;
            b.made == v.builder.made && b.co == v.builder.co && b.full == v.builder.full && b.cfg == v.builder.cfg
            && (Complete(b) <==> Complete(v.builder))
  {
  }

  lemma AddedSound(m: ManagerValue, m': ManagerValue, c: nat)
    requires Sound(m) && c < |m.chans| && m'.chans == m.chans && m'.done == m.done + {c} && m'.outputFailed == m.outputFailed
    requires m.outputFailed || FullyConfirmed(m.chans[c])
    ensures Sound(m')
  {
    hide FullyConfirmed;
    hide Complete;
  }

  lemma DoneIsConfirmed(v: ChannelValue)
    requires ChannelInv(v) && v.FullySubmitted() && !v.TimedOut() && Complete(v.builder)
    ensures FullyConfirmed(v)
  {
    FullySubmittedIsSound(v);
    hide ChannelInv;
    hide InTx;
    assert v.pending.Keys == {};
  }

  lemma PopSound(m: ManagerValue, from: Option<nat>)
    requires Sound(m) && (from.Some? ==> from.value < |m.chans|)
    ensures Sound(PopTx(m, from).0)
  {
    hide Sound;
    hide Render;
    if from.Some? && m.chans[from.value].HasTxData() {
      var c := from.value;
      var v := m.chans[c];
      if !m.outputFailed {
        HasDataHasFrames(v);
        NotDone(m, c);
        if v.builder.IsFull() {
          WasComplete(m, c);
        }
      }
      assert Complete(NextTxData(v).builder) <==> Complete(v.builder);
      assert NextTxData(v).builder.full == v.builder.full;
      hide NextTxData;
      hide Complete;
      ChangedSound(m, PopTx(m, from).0, c);
    }
  }

  lemma HasDataHasFrames(v: ChannelValue)
    requires v.HasTxData()
    ensures v.builder.frames != [] || !v.builder.IsFull()
  {
  }

  lemma EnsureSound(m: ManagerValue, opening: Opening)
    requires Sound(m) && m.Wf()
    ensures EnsureSpace(m, opening).Some? ==> Sound(EnsureSpace(m, opening).value)
  {
    hide FullyConfirmed;
    hide Complete;
    if EnsureSpace(m, opening).Some? && EnsureSpace(m, opening) != Some(m) {
      var m' := EnsureSpace(m, opening).value;
      assert !m'.chans[|m.chans|].builder.IsFull();
      hide NewChannel;
      assert forall c :: 0 <= c < |m.chans| ==> m'.chans[c] == m.chans[c];
    }
  }

  lemma AddBlocksErrorOpen(b: BuilderValue, blocks: seq<Block>, adds: nat -> AddOutcome, i: nat)
    requires b.cfg.Valid() && i <= |blocks| && !b.IsFull() && AddBlocks(b, blocks, adds, i).1.None?
    ensures !AddBlocks(b, blocks, adds, i).0.IsFull()
    decreases |blocks| - i
  {
  }

  /** With fewer than 65536 frames an open channel stays open when ready frames are pulled. */
  lemma {:induction false} ReadyFramesOpen(b: BuilderValue)
    requires Segmented(b) && !b.IsFull() && !b.co.closed
    requires |OutputReadyFrames(b).made| <= MAX_UINT16
    ensures !OutputReadyFrames(b).IsFull()
    decreases b.co.ReadyBytes()
  {
    if b.co.ReadyBytes() >= Room(b) {
      OutputFrameSegmented(b);
      ReadyFramesGrow(OutputFrame(b));
      hide Payloads;
      assert |OutputFrame(b).made| == |b.made| + 1;
      assert !OutputFrame(b).IsFull();
      hide Segmented;
      hide OutputFrame;
      ReadyFramesOpen(OutputFrame(b));
    }
  }

  /** After frames were created without an error, the channel is open or complete. */
  lemma OutputsComplete(b: BuilderValue, close: CloseOutcome)
    requires Segmented(b) && b.cfg.Valid() && b.co.taken <= |b.co.stream|
    requires |BuilderSpec.OutputFrames(b, close).0.made| <= MAX_UINT16 && BuilderSpec.OutputFrames(b, close).1
    ensures BuilderSpec.OutputFrames(b, close).0.IsFull() ==> Complete(BuilderSpec.OutputFrames(b, close).0)
  {
    hide Segmented;
    OutputFramesSegmented(b, close);
    if !b.IsFull() {
      SegmentedShape(b);
      ReadyFramesOpen(b);
    }
    hide OutputReadyFrames;
    hide OutputToEnd;
  }

  lemma OutputParts(m: ManagerValue, c: nat, close: CloseOutcome)
    requires c < |m.chans| && m.chans[c].builder.cfg.Valid() && m.chans[c].builder.co.taken <= |m.chans[c].builder.co.stream|
    ensures var (m', ok) := ManagerSpec.OutputFrames(m, c, close);
            && m' == m.(chans := m'.chans, l1OriginLastClosed := m'.l1OriginLastClosed, outputFailed := m'.outputFailed)
            && |m'.chans| == |m.chans| && (forall d :: 0 <= d < |m.chans| && d != c ==> m'.chans[d] == m.chans[d])
            && BuilderSpec.OutputFrames(m.chans[c].builder, close) == (m'.chans[c].builder, ok)
  {
    hide BuilderSpec.OutputFrames;
  }

  lemma OutputShape(m: ManagerValue, c: nat, close: CloseOutcome)
    requires c < |m.chans| && m.chans[c].builder.cfg.Valid() && m.chans[c].builder.co.taken <= |m.chans[c].builder.co.stream|
    ensures var (m', ok) := ManagerSpec.OutputFrames(m, c, close);
            && ok == BuilderSpec.OutputFrames(m.chans[c].builder, close).1 && (!ok ==> m'.outputFailed)
            && |m'.chans| == |m.chans| && (forall d :: 0 <= d < |m.chans| && d != c ==> m'.chans[d] == m.chans[d])
            && (m.outputFailed ==> m'.outputFailed) && m'.done == m.done
            && m'.chans[c].builder == BuilderSpec.OutputFrames(m.chans[c].builder, close).0
  {
    hide BuilderSpec.OutputFrames;
  }

  lemma OutputSound(m: ManagerValue, c: nat, close: CloseOutcome)
    requires Core(m) && c < |m.chans| && m.chans[c].builder.cfg.Valid() && m.chans[c].builder.co.taken <= |m.chans[c].builder.co.stream|
    requires Small(ManagerSpec.OutputFrames(m, c, close).0)
    ensures var (m', ok) := ManagerSpec.OutputFrames(m, c, close);
            |m'.chans| == |m.chans| && (ok ==> m'.chans[c].builder.IsFull() ==> Complete(m'.chans[c].builder))
  {
    hide Core;
    hide Complete;
    hide BuilderSpec.OutputFrames;
    assert Segmented(m.chans[c].builder) by {
      CoreChan(m, c);
      SegmentedOf(m.chans[c]);
    }
    hide Segmented;
    OutputShape(m, c, close);
    hide ManagerSpec.OutputFrames;
    if BuilderSpec.OutputFrames(m.chans[c].builder, close).1 {
      OutputsComplete(m.chans[c].builder, close);
    }
  }

  lemma BuildSound(m: ManagerValue, c: nat, l1Head: nat, p: Pipeline)
    requires Sound(m) && Core(m) && m.Wf() && c < |m.chans| && !m.chans[c].builder.IsFull()
    requires Small(Build(m, c, l1Head, p).0)
    ensures Sound(Build(m, c, l1Head, p).0)
  {
    hide ChannelInv;
    hide Core;
    hide Sound;
    hide AddBlocks;
    hide BuilderSpec.OutputFrames;
    hide ManagerSpec.OutputFrames;
    hide CheckTimeout;
    hide Complete;
    var b := m.chans[c].builder;
    assert ChannelInv(m.chans[c]) by { CoreChan(m, c); }
    AddBlocksShape(b, m.blocks, p.adds, 0);
    AddBlocksKeeps(m.chans[c], m.blocks, p.adds, 0);
    var (m1, added) := ProcessBlocks(m, c, p.adds);
    if !m.outputFailed {
      NotDone(m, c);
    }
    if !added {
      AddBlocksErrorOpen(b, m.blocks, p.adds, 0);
      ChangedSound(m, m1, c);
    } else {
      var b1 := m1.chans[c].builder;
      CheckTimeoutFrame(b1, l1Head);
      var m2 := WithBuilder(m1, c, CheckTimeout(b1, l1Head));
      WithBuilderKeeps(m, c, b1);
      CoreSame(WithBuilder(m, c, b1), m1);
      RegisterKeeps(m1, c, l1Head);
      OutputShape(m2, c, p.close);
      OutputSound(m2, c, p.close);
      ChangedSound(m, Build(m, c, l1Head, p).0, c);
    }
  }

  lemma RequestSound(m: ManagerValue, l1Head: nat, p: Pipeline)
    requires Sound(m) && Core(m) && m.Wf() && Admissible(m, Request(l1Head, p)) && Small(RequestTx(m, l1Head, p).0)
    ensures Sound(RequestTx(m, l1Head, p).0)
  {
    hide Core;
    hide Sound;
    hide Build;
    hide Small;
    hide EnsureSpace;
    hide PopTx;
    var first := FirstWithData(m.chans, m.queue);
    if first.Some? || m.closed {
      PopSound(m, first);
    } else if m.blocks != [] {
      EnsureKeeps(m, p.opening);
      EnsureSound(m, p.opening);
      var space := EnsureSpace(m, p.opening);
      if space.Some? {
        var c := space.value.current.value;
        var (m', ok) := Build(space.value, c, l1Head, p);
        BuildSize(space.value, c, l1Head, p);
        if ok {
          PopSmall(m', Some(c));
        }
        BuildSound(space.value, c, l1Head, p);
        if ok {
          PopSound(m', Some(c));
        }
      }
    }
  }

  lemma ShutdownSound(m: ManagerValue, close: CloseOutcome)
    requires Sound(m) && Core(m) && m.Wf() && Small(CloseAll(m, close).0)
    ensures Sound(CloseAll(m, close).0)
  {
    hide Core;
    hide Sound;
    hide DropIdle;
    hide ManagerSpec.OutputFrames;
    if !m.closed {
      var m1 := DropIdle(m);
      DropSame(m);
      DropIdleKeeps(m);
      assert m1.outputFailed == m.outputFailed by { DropFlag(m); }
      SameSound(m, m1);
      if m1.current.Some? && !m1.chans[m1.current.value].builder.IsFull() {
        TerminateSound(m1, m1.current.value, close);
      }
    }
  }

  lemma DropFlag(m: ManagerValue)
    requires m.Wf()
    ensures DropIdle(m).outputFailed == m.outputFailed
  {
  }

  lemma TerminateSound(m: ManagerValue, c: nat, close: CloseOutcome)
    requires Sound(m) && Core(m) && c < |m.chans| && !m.chans[c].builder.IsFull()
    requires m.chans[c].builder.cfg.Valid() && m.chans[c].builder.co.taken <= |m.chans[c].builder.co.stream|
    requires Small(ManagerSpec.OutputFrames(WithBuilder(m, c, BuilderSpec.Close(m.chans[c].builder)), c, close).0)
    ensures Sound(ManagerSpec.OutputFrames(WithBuilder(m, c, BuilderSpec.Close(m.chans[c].builder)), c, close).0)
  {
    hide ChannelInv;
    hide Core;
    hide Sound;
    hide ManagerSpec.OutputFrames;
    hide Complete;
    var b := m.chans[c].builder;
    assert ChannelInv(m.chans[c]) by { CoreChan(m, c); }
    MarkedKeeps(m.chans[c], BuilderSpec.Close(b).full);
    var m1 := WithBuilder(m, c, BuilderSpec.Close(b));
    WithBuilderKeeps(m, c, BuilderSpec.Close(b));
    OutputShape(m1, c, close);
    OutputSound(m1, c, close);
    if !m.outputFailed {
      NotDone(m, c);
    }
    ChangedSound(m, ManagerSpec.OutputFrames(m1, c, close).0, c);
  }

  /** Every step keeps "done" sound. */
  lemma NextSound(m: ManagerValue, step: ManagerRuns.Step)
    requires Sound(m) && Core(m) && m.Wf() && Admissible(m, step) && Small(ManagerRuns.Next(m, step))
    ensures Sound(ManagerRuns.Next(m, step))
  {
    hide Core;
    hide Sound;
    hide ManagerValue.Wf;
    hide Admissible;
    hide Small;
    match step
    case NewBlock(block) => SameSound(m, AddL2Block(m, block).0);
    case Request(l1Head, p) => RequestSound(m, l1Head, p);
    case Failure(id) => FailureSound(m, id);
    case Confirmation(id, inclusion) => ConfirmationSound(m, id, inclusion);
    case Shutdown(close) => ShutdownSound(m, close);
    case Reset(l1Origin) => ClearedSound(l1Origin);
  }

  lemma ClearedSound(l1Origin: BlockID)
    ensures Sound(Cleared(l1Origin))
  {
  }
}
