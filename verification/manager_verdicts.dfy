/** What becomes of a channel, for every run: it is dropped as timed out exactly when two of its confirmed
    transactions are a channel timeout apart, as done exactly when otherwise nothing of it is left to confirm, and
    stays queued in every other case. */
module ManagerVerdicts {
  import opened Bytes
  import opened TxDatas
  import opened BuilderSpec
  import opened ChannelSpec
  import opened Segmentation
  import opened Deadlines
  import opened FrameConservation
  import opened ChannelRuns
  import opened ManagerSpec
  import opened ManagerIndex
  import opened ManagerRuns
  import opened ManagerBlocks
  import opened ManagerDone
  import opened ManagerDrain
  import opened ManagerResults
  import ManagerOrder

  /** Two confirmed transactions are at least a channel timeout apart on L1. */
  ghost predicate Apart(confirmed: map<string, BlockID>, timeout: nat) {
    exists a, b :: a in confirmed && b in confirmed && confirmed[a].number - confirmed[b].number >= timeout
  }

  ghost predicate IsApart(v: ChannelValue) {
    Apart(v.confirmed, v.builder.cfg.channelTimeout)
  }

  /** The channel takes no more blocks, and no frame of it waits or is on its way. */
  predicate Ended(v: ChannelValue) {
    v.builder.full.Some? && v.builder.frames == [] && v.pending == map[]
  }

  ghost predicate JudgedAt(m: ManagerValue, c: nat)
    requires c < |m.chans|
  {
    && (c in m.timedOut <==> IsApart(m.chans[c]))
    && (!m.outputFailed ==> (c in m.done <==> Ended(m.chans[c]) && !IsApart(m.chans[c])))
    && (!m.closed ==> (c in m.queue <==> c !in m.timedOut && c !in m.done))
  }

  ghost predicate Judged(m: ManagerValue) {
    && (forall c :: 0 <= c < |m.chans| ==> JudgedAt(m, c))
    && (forall c :: c in m.done ==> c < |m.chans|) && (forall c :: c in m.timedOut ==> c < |m.chans|)
  }

  /** What is dropped and queued stays the same, apart from queue removals after Close. */
  ghost predicate SameDrops(m: ManagerValue, m': ManagerValue) {
    && |m'.chans| == |m.chans| && m'.done == m.done && m'.timedOut == m.timedOut
    && (m.outputFailed ==> m'.outputFailed) && (m.closed ==> m'.closed) && (m'.queue == m.queue || m'.closed)
  }

  lemma SameJudged(m: ManagerValue, m': ManagerValue)
    requires Judged(m) && SameDrops(m, m') && m'.chans == m.chans
    ensures Judged(m')
  {
    hide Ended;
    hide IsApart;
    forall c | 0 <= c < |m'.chans|
      ensures JudgedAt(m', c)
    {
      assert JudgedAt(m, c);
    }
  }

  /** Channel `c` changes while it has not ended. */
  lemma ChangedJudged(m: ManagerValue, m': ManagerValue, c: nat)
    requires Judged(m) && SameDrops(m, m') && c < |m.chans|
    requires forall d :: 0 <= d < |m.chans| && d != c ==> m'.chans[d] == m.chans[d]
    requires m'.chans[c].confirmed == m.chans[c].confirmed && m'.chans[c].builder.cfg == m.chans[c].builder.cfg
    requires m'.outputFailed || (!Ended(m.chans[c]) && !Ended(m'.chans[c]))
    ensures Judged(m')
  {
    hide Ended;
    hide Apart;
    forall d | 0 <= d < |m'.chans|
      ensures JudgedAt(m', d)
    {
      assert JudgedAt(m, d);
    }
  }

  lemma PendingHasFrames(v: ChannelValue, k: string)
    requires ChannelInv(v) && k in v.pending
    ensures v.pending[k].frames != [] && k !in v.confirmed
  {
    hide Segmented;
    hide Timed;
    hide Published;
    hide Render;
    hide InQueue;
    hide Carries;
    hide Unrepeated;
    assert k in v.pending.Keys && k in v.sent.Keys;
  }

  /** A failure drops nothing before Close. */
  lemma FailureDrops(m: ManagerValue, k: string)
    requires m.Wf() && k in m.txChannels && m.txChannels[k] < |m.chans|
    ensures var c, m' := m.txChannels[k], ManagerSpec.TxFailed(m, k);
            SameDrops(m, m') && m'.chans == m.chans[c := ChannelSpec.TxFailed(m.chans[c], k)]
  {
    hide Without;
    hide ChannelSpec.TxFailed;
    hide ChannelValue.NoneSubmitted;
  }

  lemma FailedHasFrames(v: ChannelValue, k: string)
    requires k in v.pending && v.pending[k].frames != []
    ensures var v' := ChannelSpec.TxFailed(v, k);
            !Ended(v) && !Ended(v') && v'.confirmed == v.confirmed && v'.builder.cfg == v.builder.cfg
  {
  }

  lemma FailureJudged(m: ManagerValue, k: string)
    requires Judged(m) && m.Wf() && Core(m)
    ensures Judged(ManagerSpec.TxFailed(m, k))
  {
    hide Judged;
    hide Core;
    hide ChannelInv;
    if k in m.txChannels {
      KnownTx(m, k);
      var c := m.txChannels[k];
      PendingHasFrames(m.chans[c], k);
      FailureDrops(m, k);
      FailedHasFrames(m.chans[c], k);
      hide ManagerSpec.TxFailed;
      hide ChannelSpec.TxFailed;
      hide ManagerValue.Wf;
      hide Ended;
      ChangedJudged(m, ManagerSpec.TxFailed(m, k), c);
    }
  }

  /** The verdict of one confirmation. */
  lemma VerdictIs(v: ChannelValue, k: string, inclusion: BlockID)
    requires v.builder.cfg.Valid() && k in v.pending && k !in v.confirmed
    ensures var (v', verdict) := ChannelSpec.TxConfirmed(v, k, inclusion);
            && (verdict.TimedOut? <==> IsApart(v')) && (verdict.Done? <==> Ended(v') && !IsApart(v'))
            && (IsApart(v) ==> IsApart(v')) && !Ended(v)
  {
    var v' := Confirm(v, k, inclusion);
    assert v'.builder.cfg == v.builder.cfg && v'.confirmed == v.confirmed[k := inclusion];
    hide Confirm;
    ApartStays(v, v', k, inclusion);
    TimedOutIsApart(v');
    EndedIs(v');
    assert !Ended(v);
    hide IsApart;
    hide Ended;
    hide ChannelValue.TimedOut;
    hide ChannelValue.FullySubmitted;
  }

  lemma ApartStays(v: ChannelValue, v': ChannelValue, k: string, inclusion: BlockID)
    requires v'.builder.cfg == v.builder.cfg && v'.confirmed == v.confirmed[k := inclusion] && k !in v.confirmed
    ensures IsApart(v) ==> IsApart(v')
  {
    if IsApart(v) {
      var a, b :| a in v.confirmed && b in v.confirmed
                  && v.confirmed[a].number - v.confirmed[b].number >= v.builder.cfg.channelTimeout;
      assert a in v'.confirmed && b in v'.confirmed && v'.confirmed[a] == v.confirmed[a] && v'.confirmed[b] == v.confirmed[b];
    }
  }

  lemma EndedIs(v: ChannelValue)
    ensures v.FullySubmitted() <==> Ended(v)
  {
  }

  lemma TimedOutIsApart(v: ChannelValue)
    ensures v.TimedOut() <==> IsApart(v)
  {
  }

  lemma ConfirmationJudged(m: ManagerValue, k: string, inclusion: BlockID)
    requires Judged(m) && m.Wf() && Core(m)
    ensures Judged(ManagerSpec.TxConfirmed(m, k, inclusion))
  {
    hide Core;
    hide ChannelInv;
    hide Judged;
    if k in m.txChannels {
      KnownTx(m, k);
      var c := m.txChannels[k];
      PendingHasFrames(m.chans[c], k);
      VerdictIs(m.chans[c], k, inclusion);
      assert Ascending(m.queue) by { QueueAscends(m); }
      ConfirmationDrops(m, k, inclusion);
      hide ChannelSpec.TxConfirmed;
      hide ManagerSpec.TxConfirmed;
      hide ManagerValue.Wf;
      var (v, verdict) := ChannelSpec.TxConfirmed(m.chans[c], k, inclusion);
      DropsJudged(m, ManagerSpec.TxConfirmed(m, k, inclusion), c, verdict);
    }
  }

  lemma QueueAscends(m: ManagerValue)
    requires Core(m)
    ensures Ascending(m.queue)
  {
    hide ChansOk;
    hide IdsDistinct;
    hide IndexAgrees;
  }

  /** Channel `c`, which has not ended, is dropped as its verdict says. */
  lemma DropsJudged(m: ManagerValue, m': ManagerValue, c: nat, verdict: Verdict)
    requires Judged(m) && |m'.chans| == |m.chans| && c < |m.chans|
    requires forall d :: 0 <= d < |m.chans| && d != c ==> m'.chans[d] == m.chans[d]
    requires m'.closed == m.closed && m'.outputFailed == m.outputFailed
    requires m'.timedOut == (if verdict.TimedOut? then m.timedOut + {c} else m.timedOut)
    requires m'.done == (if verdict.Done? then m.done + {c} else m.done)
    requires forall d :: d in m'.queue <==> d in m.queue && (d == c ==> verdict.Ongoing?)
    requires verdict.TimedOut? <==> IsApart(m'.chans[c])
    requires verdict.Done? <==> Ended(m'.chans[c]) && !IsApart(m'.chans[c])
    requires (IsApart(m.chans[c]) ==> IsApart(m'.chans[c])) && !Ended(m.chans[c])
    ensures Judged(m')
  {
    hide Ended;
    hide IsApart;
    forall d | 0 <= d < |m'.chans|
      ensures JudgedAt(m', d)
    {
      assert JudgedAt(m, d);
    }
  }

  /** What a confirmation drops. */
  lemma ConfirmationDrops(m: ManagerValue, k: string, inclusion: BlockID)
    requires m.Wf() && k in m.txChannels && Ascending(m.queue)
    ensures var c, m' := m.txChannels[k], ManagerSpec.TxConfirmed(m, k, inclusion);
            && c < |m.chans| && m.chans[c].builder.cfg.Valid()
            && var (v, verdict) := ChannelSpec.TxConfirmed(m.chans[c], k, inclusion);
               && m'.chans == m.chans[c := v] && m'.closed == m.closed && m'.outputFailed == m.outputFailed
               && m'.timedOut == (if verdict.TimedOut? then m.timedOut + {c} else m.timedOut)
               && m'.done == (if verdict.Done? then m.done + {c} else m.done)
               && forall d :: d in m'.queue <==> d in m.queue && (d == c ==> verdict.Ongoing?)
  {
    ManagerOrder.ConfirmationIs(m, k, inclusion);
    hide ManagerSpec.TxConfirmed;
    hide ManagerValue.Wf;
    hide Ascending;
    WithoutOrdered(m.queue, m.txChannels[k]);
    hide Without;
    hide ChannelSpec.TxConfirmed;
  }

  lemma PopJudged(m: ManagerValue, from: Option<nat>)
    requires Judged(m) && (from.Some? ==> from.value < |m.chans| && m.chans[from.value].builder.cfg.Valid())
    ensures Judged(PopTx(m, from).0)
  {
    hide Judged;
    hide Render;
    if from.Some? && m.chans[from.value].HasTxData() {
      var c := from.value;
      var v, tx := m.chans[c], m.chans[c].NextTx();
      assert tx.Key() in NextTxData(v).pending;
      assert !Ended(v) && !Ended(NextTxData(v));
      hide Ended;
      ChangedJudged(m, PopTx(m, from).0, c);
    }
  }

  lemma EnsureJudged(m: ManagerValue, opening: Opening)
    requires Judged(m) && m.Wf() && Core(m)
    ensures EnsureSpace(m, opening).Some? ==> Judged(EnsureSpace(m, opening).value)
  {
    if EnsureSpace(m, opening).Some? && EnsureSpace(m, opening) != Some(m) {
      var m', n := EnsureSpace(m, opening).value, |m.chans|;
      assert !Ended(m'.chans[n]) && m'.chans[n].confirmed == map[];
      assert m'.queue == m.queue + [n] && m'.done == m.done && m'.timedOut == m.timedOut;
      assert m'.closed == m.closed && m'.outputFailed == m.outputFailed && |m'.chans| == n + 1;
      assert forall c :: 0 <= c < n ==> m'.chans[c] == m.chans[c];
      hide EnsureSpace;
      hide Ended;
      assert !IsApart(m'.chans[n]);
      hide IsApart;
      forall c | 0 <= c < |m'.chans|
        ensures JudgedAt(m', c)
      {
        if c < n {
          assert JudgedAt(m, c);
        }
      }
    }
  }

  /** Creating frames without an error leaves a channel open, or with a frame to send. */
  lemma OutputsNotEnded(b: BuilderValue, close: CloseOutcome)
    requires Segmented(b) && b.cfg.Valid() && b.co.taken <= |b.co.stream| && !b.co.closed
    requires |BuilderSpec.OutputFrames(b, close).0.made| <= MAX_UINT16
    ensures var (b', ok) := BuilderSpec.OutputFrames(b, close);
            ok ==> b'.full.None? || b'.frames != []
  {
    if !b.IsFull() {
      ReadyFramesOpen(b);
    } else if close.Flushed? {
      hide Segmented;
      ToEndHasFrames(b.(co := MakeReady(b.co, close.ready).(closed := true)));
    }
    hide OutputReadyFrames;
    hide OutputToEnd;
  }

  lemma OutputJudged(m: ManagerValue, c: nat, close: CloseOutcome)
    requires Core(m) && c < |m.chans| && m.chans[c].builder.cfg.Valid() && !m.chans[c].builder.co.closed
    requires m.chans[c].builder.co.taken <= |m.chans[c].builder.co.stream|
    requires Small(ManagerSpec.OutputFrames(m, c, close).0)
    ensures var m' := ManagerSpec.OutputFrames(m, c, close).0;
            && SameDrops(m, m') && (forall d :: 0 <= d < |m.chans| && d != c ==> m'.chans[d] == m.chans[d])
            && m'.closed == m.closed && m'.queue == m.queue
            && m'.chans[c].confirmed == m.chans[c].confirmed && m'.chans[c].builder.cfg == m.chans[c].builder.cfg
            && (m'.outputFailed || !Ended(m'.chans[c]))
  {
    assert Segmented(m.chans[c].builder) by {
      CoreChan(m, c);
      SegmentedOf(m.chans[c]);
      hide *;
    }
    hide Segmented;
    hide Core;
    OutputShape(m, c, close);
    OutputDrops(m, c, close);
    hide ManagerSpec.OutputFrames;
    hide BuilderSpec.OutputFrames;
    var m' := ManagerSpec.OutputFrames(m, c, close).0;
    assert |m'.chans[c].builder.made| <= MAX_UINT16;
    hide Small;
    OutputsNotEnded(m.chans[c].builder, close);
  }

  lemma OutputDrops(m: ManagerValue, c: nat, close: CloseOutcome)
    requires c < |m.chans| && m.chans[c].builder.cfg.Valid()
    requires m.chans[c].builder.co.taken <= |m.chans[c].builder.co.stream|
    ensures var m' := ManagerSpec.OutputFrames(m, c, close).0;
            && SameDrops(m, m') && m'.closed == m.closed && m'.queue == m.queue
            && m'.chans[c].confirmed == m.chans[c].confirmed && m'.chans[c].builder.cfg == m.chans[c].builder.cfg
  {
    hide BuilderSpec.OutputFrames;
    OutputFramesFrame(m.chans[c].builder, close);
  }

  lemma BuildJudged(m: ManagerValue, c: nat, l1Head: nat, p: Pipeline)
    requires Judged(m) && Core(m) && m.Wf() && c < |m.chans| && !m.chans[c].builder.IsFull()
    requires Small(Build(m, c, l1Head, p).0)
    ensures Judged(Build(m, c, l1Head, p).0)
  {
    hide ChannelInv;
    hide Core;
    hide Judged;
    hide AddBlocks;
    hide BuilderSpec.OutputFrames;
    hide ManagerSpec.OutputFrames;
    hide CheckTimeout;
    var b := m.chans[c].builder;
    assert ChannelInv(m.chans[c]) && !b.co.closed by { OpenNotClosed(m, c); }
    AddBlocksShape(b, m.blocks, p.adds, 0);
    AddBlocksKeeps(m.chans[c], m.blocks, p.adds, 0);
    var (m1, added) := ProcessBlocks(m, c, p.adds);
    if !added {
      AddBlocksErrorOpen(b, m.blocks, p.adds, 0);
      ChangedJudged(m, m1, c);
    } else {
      var b1 := m1.chans[c].builder;
      CheckTimeoutFrame(b1, l1Head);
      var m2 := WithBuilder(m1, c, CheckTimeout(b1, l1Head));
      WithBuilderKeeps(m, c, b1);
      CoreSame(WithBuilder(m, c, b1), m1);
      RegisterKeeps(m1, c, l1Head);
      OutputJudged(m2, c, p.close);
      assert !Ended(m.chans[c]);
      hide Ended;
      ChangedJudged(m, Build(m, c, l1Head, p).0, c);
    }
  }

  lemma RequestJudged(m: ManagerValue, l1Head: nat, p: Pipeline)
    requires Judged(m) && Core(m) && m.Wf() && Admissible(m, Request(l1Head, p)) && Small(RequestTx(m, l1Head, p).0)
    ensures Judged(RequestTx(m, l1Head, p).0)
  {
    hide Core;
    hide Judged;
    hide Build;
    hide Small;
    hide EnsureSpace;
    hide PopTx;
    var first := FirstWithData(m.chans, m.queue);
    if first.Some? || m.closed {
      PopJudged(m, first);
    } else if m.blocks != [] {
      EnsureKeeps(m, p.opening);
      EnsureJudged(m, p.opening);
      var space := EnsureSpace(m, p.opening);
      if space.Some? {
        var c := space.value.current.value;
        var (m', ok) := Build(space.value, c, l1Head, p);
        BuildSize(space.value, c, l1Head, p);
        if ok {
          PopSmall(m', Some(c));
        }
        BuildJudged(space.value, c, l1Head, p);
        BuildKeeps(space.value, c, l1Head, p);
        if ok {
          CoreChan(m', c);
          InvShape(m'.chans[c]);
          PopJudged(m', Some(c));
        }
      }
    }
  }

  lemma ShutdownJudged(m: ManagerValue, close: CloseOutcome)
    requires Judged(m) && Core(m) && m.Wf() && Small(CloseAll(m, close).0)
    ensures Judged(CloseAll(m, close).0)
  {
    hide Core;
    hide Judged;
    hide DropIdle;
    hide ManagerSpec.OutputFrames;
    if !m.closed {
      var m1 := DropIdle(m);
      DropSame(m);
      DropIdleKeeps(m);
      assert m1.outputFailed == m.outputFailed by { DropFlag(m); }
      SameJudged(m, m1);
      if m1.current.Some? && !m1.chans[m1.current.value].builder.IsFull() {
        TerminateJudged(m1, m1.current.value, close);
      }
    }
  }

  lemma TerminateJudged(m: ManagerValue, c: nat, close: CloseOutcome)
    requires Judged(m) && Core(m) && c < |m.chans| && !m.chans[c].builder.IsFull()
    requires m.chans[c].builder.cfg.Valid() && m.chans[c].builder.co.taken <= |m.chans[c].builder.co.stream|
    requires Small(ManagerSpec.OutputFrames(WithBuilder(m, c, BuilderSpec.Close(m.chans[c].builder)), c, close).0)
    ensures Judged(ManagerSpec.OutputFrames(WithBuilder(m, c, BuilderSpec.Close(m.chans[c].builder)), c, close).0)
  {
    hide ChannelInv;
    hide Core;
    hide Judged;
    hide ManagerSpec.OutputFrames;
    var b := m.chans[c].builder;
    assert ChannelInv(m.chans[c]) && !b.co.closed by { OpenNotClosed(m, c); }
    MarkedKeeps(m.chans[c], BuilderSpec.Close(b).full);
    var m1 := WithBuilder(m, c, BuilderSpec.Close(b));
    WithBuilderKeeps(m, c, BuilderSpec.Close(b));
    OutputJudged(m1, c, close);
    assert !Ended(m.chans[c]);
    hide Ended;
    ChangedJudged(m, ManagerSpec.OutputFrames(m1, c, close).0, c);
  }

  /** Every step keeps the verdicts. */
  lemma NextJudged(m: ManagerValue, step: ManagerRuns.Step)
    requires Judged(m) && Core(m) && m.Wf() && Admissible(m, step) && Small(ManagerRuns.Next(m, step))
    ensures Judged(ManagerRuns.Next(m, step))
  {
    hide Core;
    hide Judged;
    hide ManagerValue.Wf;
    hide Admissible;
    hide Small;
    match step
    case NewBlock(block) => SameJudged(m, AddL2Block(m, block).0);
    case Request(l1Head, p) => RequestJudged(m, l1Head, p);
    case Failure(id) => FailureJudged(m, id);
    case Confirmation(id, inclusion) => ConfirmationJudged(m, id, inclusion);
    case Shutdown(close) => ShutdownJudged(m, close);
    case Reset(l1Origin) => ClearedJudged(l1Origin);
  }

  lemma ClearedJudged(l1Origin: BlockID)
    ensures Judged(Cleared(l1Origin))
  {
  }

  lemma {:induction false} RunJudged(m: ManagerValue, steps: seq<ManagerRuns.Step>)
    requires CanRun(m, steps) && Core(m) && Judged(m)
    ensures Judged(Run(m, steps))
    decreases |steps|
  {
    hide Core;
    hide Judged;
    hide Small;
    hide Admissible;
    hide ManagerValue.Wf;
    if steps != [] {
      ManagerRuns.NextKeeps(m, steps[0]);
      NextJudged(m, steps[0]);
      hide ManagerRuns.Next;
      RunJudged(ManagerRuns.Next(m, steps[0]), steps[1..]);
    }
  }

  /** The fate of every channel of every run, in terms of its own frames and confirmations. */
  lemma ChannelsAreJudged(l1Origin: BlockID, steps: seq<ManagerRuns.Step>, c: nat)
    requires CanRun(Cleared(l1Origin), steps) && c < |Run(Cleared(l1Origin), steps).chans|
    ensures var m := Run(Cleared(l1Origin), steps);
            var v := m.chans[c];
            && (c in m.timedOut <==> IsApart(v))
            && (!m.outputFailed ==> (c in m.done <==> Ended(v) && !IsApart(v)))
            && (!m.outputFailed && !m.closed ==> (c in m.queue <==> !Ended(v) && !IsApart(v)))
            && (!m.closed ==> (c in m.queue <==> c !in m.timedOut && c !in m.done))
  {
    ClearedCore(l1Origin);
    ClearedJudged(l1Origin);
    RunJudged(Cleared(l1Origin), steps);
    hide Run;
    hide CanRun;
    hide Core;
    hide Ended;
    hide IsApart;
    assert JudgedAt(Run(Cleared(l1Origin), steps), c);
  }
}
