/** What a closed manager gives up: only channels of which nothing is in flight or confirmed, and once Close has
    dropped every such channel, none is queued again. */
module ManagerDropped {
  import opened Bytes
  import opened TxDatas
  import opened BuilderSpec
  import opened ChannelSpec
  import opened FrameConservation
  import opened ChannelRuns
  import opened ManagerSpec
  import opened ManagerClose
  import opened ManagerIndex
  import opened ManagerRuns
  import opened ManagerBlocks
  import opened ManagerDone
  import opened ManagerIdle
  import opened ManagerResults
  import ManagerOrder
  import ManagerVerdicts

  /** Nothing of a channel that is neither queued nor dropped by a verdict is on its way to L1. */
  ghost predicate UnsentAt(m: ManagerValue, c: nat)
    requires c < |m.chans|
  {
    c in m.queue || c in m.done || c in m.timedOut || !OnItsWay(m.chans[c])
  }

  ghost predicate Unsent(m: ManagerValue) {
    forall c :: 0 <= c < |m.chans| ==> UnsentAt(m, c)
  }

  /** Something of every queued channel of a closed manager is on its way. */
  ghost predicate Busy(m: ManagerValue) {
    m.closed ==> forall c :: c in m.queue && c < |m.chans| ==> OnItsWay(m.chans[c])
  }

  /** The channels keep their transactions, and the queue and the verdicts do not change. */
  ghost predicate SameWay(m: ManagerValue, m': ManagerValue) {
    && |m'.chans| == |m.chans| && m'.queue == m.queue && m'.done == m.done && m'.timedOut == m.timedOut && m'.closed == m.closed
    && forall c :: 0 <= c < |m.chans| ==> (OnItsWay(m'.chans[c]) <==> OnItsWay(m.chans[c]))
  }

  lemma SameUnsent(m: ManagerValue, m': ManagerValue)
    requires SameWay(m, m')
    ensures Unsent(m) ==> Unsent(m')
    ensures Busy(m) ==> Busy(m')
  {
    hide OnItsWay;
    if Unsent(m) {
      forall c | 0 <= c < |m'.chans|
        ensures UnsentAt(m', c)
      {
        assert UnsentAt(m, c);
      }
    }
  }

  lemma PendingIsOnItsWay(v: ChannelValue, k: string)
    requires k in v.pending || k in v.confirmed
    ensures OnItsWay(v)
  {
  }

  /** The queue and the one channel that a failure changes. */
  lemma FailureRemoves(m: ManagerValue, k: string)
    requires m.Wf() && k in m.txChannels && Ascending(m.queue)
    ensures var c, m' := m.txChannels[k], ManagerSpec.TxFailed(m, k);
            && c < |m.chans| && m'.chans == m.chans[c := ChannelSpec.TxFailed(m.chans[c], k)]
            && m'.done == m.done && m'.timedOut == m.timedOut && m'.closed == m.closed
            && forall d :: d in m'.queue <==> d in m.queue && (d == c && m.closed ==> OnItsWay(m'.chans[c]))
  {
    WithoutOrdered(m.queue, m.txChannels[k]);
    hide Ascending;
    hide Without;
    hide ChannelSpec.TxFailed;
    var c := m.txChannels[k];
    var v := ChannelSpec.TxFailed(m.chans[c], k);
    assert v.NoneSubmitted() <==> !OnItsWay(v);
    hide ChannelValue.NoneSubmitted;
    hide OnItsWay;
    hide ManagerValue.Wf;
  }

  lemma FailureUnsent(m: ManagerValue, k: string)
    requires m.Wf() && Core(m)
    ensures var m' := ManagerSpec.TxFailed(m, k);
            m'.closed == m.closed && (Unsent(m) ==> Unsent(m')) && (Busy(m) ==> Busy(m'))
  {
    hide Core;
    hide ChannelInv;
    if k in m.txChannels {
      KnownTx(m, k);
      var c := m.txChannels[k];
      PendingIsOnItsWay(m.chans[c], k);
      assert Ascending(m.queue) by { ManagerVerdicts.QueueAscends(m); }
      FailureRemoves(m, k);
      hide OnItsWay;
      hide ManagerSpec.TxFailed;
      hide ChannelSpec.TxFailed;
      hide ManagerValue.Wf;
      var m' := ManagerSpec.TxFailed(m, k);
      if Unsent(m) {
        forall d | 0 <= d < |m'.chans|
          ensures UnsentAt(m', d)
        {
          assert UnsentAt(m, d);
        }
      }
    }
  }

  lemma ConfirmationUnsent(m: ManagerValue, k: string, inclusion: BlockID)
    requires m.Wf() && Core(m)
    ensures var m' := ManagerSpec.TxConfirmed(m, k, inclusion);
            m'.closed == m.closed && (Unsent(m) ==> Unsent(m')) && (Busy(m) ==> Busy(m'))
  {
    hide Core;
    hide ChannelInv;
    if k in m.txChannels {
      KnownTx(m, k);
      var c := m.txChannels[k];
      assert Ascending(m.queue) by { ManagerVerdicts.QueueAscends(m); }
      ManagerVerdicts.ConfirmationDrops(m, k, inclusion);
      var v := ChannelSpec.TxConfirmed(m.chans[c], k, inclusion).0;
      PendingIsOnItsWay(m.chans[c], k);
      assert OnItsWay(v) by {
        assert k in v.confirmed;
        PendingIsOnItsWay(v, k);
        hide ChannelValue.TimedOut;
        hide ChannelValue.FullySubmitted;
      }
      hide OnItsWay;
      hide ManagerSpec.TxConfirmed;
      hide ChannelSpec.TxConfirmed;
      hide ManagerValue.Wf;
      var m' := ManagerSpec.TxConfirmed(m, k, inclusion);
      if Unsent(m) {
        forall d | 0 <= d < |m'.chans|
          ensures UnsentAt(m', d)
        {
          assert UnsentAt(m, d);
        }
      }
    }
  }

  /** A transaction is handed out from a queued channel. */
  lemma PopUnsent(m: ManagerValue, from: Option<nat>)
    requires from.Some? ==> from.value < |m.chans| && from.value in m.queue
    ensures var m' := PopTx(m, from).0;
            m'.closed == m.closed && (Unsent(m) ==> Unsent(m')) && (Busy(m) ==> Busy(m'))
  {
    hide Render;
    if from.Some? && m.chans[from.value].HasTxData() {
      var c, m' := from.value, PopTx(m, from).0;
      var v := m.chans[c];
      PendingIsOnItsWay(NextTxData(v), v.NextTx().Key());
      assert m'.chans == m.chans[c := NextTxData(v)] && m'.queue == m.queue && m'.done == m.done && m'.timedOut == m.timedOut;
      hide OnItsWay;
      hide NextTxData;
      hide PopTx;
      hide ChannelValue.HasTxData;
      if Unsent(m) {
        forall d | 0 <= d < |m'.chans|
          ensures UnsentAt(m', d)
        {
          assert UnsentAt(m, d);
        }
      }
    }
  }

  lemma EnsureUnsent(m: ManagerValue, opening: Opening)
    requires m.Wf()
    ensures EnsureSpace(m, opening).Some? ==>
              var m' := EnsureSpace(m, opening).value;
              m'.closed == m.closed && (Unsent(m) ==> Unsent(m'))
  {
    hide OnItsWay;
    hide NewChannel;
    if EnsureSpace(m, opening).Some? && Unsent(m) {
      var m' := EnsureSpace(m, opening).value;
      forall c | 0 <= c < |m'.chans|
        ensures UnsentAt(m', c)
      {
        if c < |m.chans| {
          assert UnsentAt(m, c);
        }
      }
    }
  }

  lemma OutputSameWay(m: ManagerValue, c: nat, close: CloseOutcome)
    requires c < |m.chans| && m.chans[c].builder.cfg.Valid() && m.chans[c].builder.co.taken <= |m.chans[c].builder.co.stream|
    ensures SameWay(m, ManagerSpec.OutputFrames(m, c, close).0)
  {
    hide BuilderSpec.OutputFrames;
  }

  lemma WithBuilderSameWay(m: ManagerValue, c: nat, b: BuilderValue)
    requires c < |m.chans|
    ensures SameWay(m, WithBuilder(m, c, b))
  {
  }

  lemma StaysSameWay(m: ManagerValue)
    ensures SameWay(m, m)
  {
  }

  lemma WayOn(m: ManagerValue, m1: ManagerValue, m2: ManagerValue)
    requires SameWay(m, m1) && SameWay(m1, m2)
    ensures SameWay(m, m2)
  {
    hide OnItsWay;
  }

  lemma ProcessSameWay(m: ManagerValue, c: nat, adds: nat -> AddOutcome)
    requires c < |m.chans| && m.chans[c].builder.cfg.Valid()
    ensures SameWay(m, ProcessBlocks(m, c, adds).0)
  {
    hide AddBlocks;
  }

  lemma BuildSameWay(m: ManagerValue, c: nat, l1Head: nat, p: Pipeline)
    requires c < |m.chans| && m.chans[c].builder.cfg.Valid() && m.chans[c].builder.co.taken <= |m.chans[c].builder.co.stream|
    ensures SameWay(m, Build(m, c, l1Head, p).0)
  {
    hide AddBlocks;
    hide CheckTimeout;
    hide ManagerSpec.OutputFrames;
    hide SameWay;
    ProcessSameWay(m, c, p.adds);
    var m1 := ProcessBlocks(m, c, p.adds).0;
    if ProcessBlocks(m, c, p.adds).1 {
      AddBlocksShape(m.chans[c].builder, m.blocks, p.adds, 0);
      var b := CheckTimeout(m1.chans[c].builder, l1Head);
      CheckTimeoutFrame(m1.chans[c].builder, l1Head);
      WithBuilderSameWay(m1, c, b);
      OutputSameWay(WithBuilder(m1, c, b), c, p.close);
      WayOn(m, m1, WithBuilder(m1, c, b));
      WayOn(m, WithBuilder(m1, c, b), Build(m, c, l1Head, p).0);
    }
  }

  lemma FirstIsQueued(chans: seq<ChannelValue>, queue: seq<nat>)
    requires forall i :: 0 <= i < |queue| ==> queue[i] < |chans|
    ensures var r := FirstWithData(chans, queue); r.Some? ==> r.value in queue
  {
    hide ChannelValue.HasTxData;
  }

  lemma RequestUnsent(m: ManagerValue, l1Head: nat, p: Pipeline)
    requires m.Wf() && Core(m) && Admissible(m, Request(l1Head, p))
    ensures var m' := RequestTx(m, l1Head, p).0;
            m'.closed == m.closed && (Unsent(m) ==> Unsent(m')) && (Busy(m) ==> Busy(m'))
  {
    FirstIsQueued(m.chans, m.queue);
    hide Core;
    hide Busy;
    hide Unsent;
    hide Build;
    hide PopTx;
    hide EnsureSpace;
    var first := FirstWithData(m.chans, m.queue);
    if first.Some? || m.closed {
      PopUnsent(m, first);
    } else if m.blocks != [] {
      EnsureUnsent(m, p.opening);
      EnsureKeeps(m, p.opening);
      var space := EnsureSpace(m, p.opening);
      if space.Some? {
        var c := space.value.current.value;
        BuildSameWay(space.value, c, l1Head, p);
        assert c in space.value.queue by { CurrentQueued(space.value); }
        var (m', ok) := Build(space.value, c, l1Head, p);
        SameUnsent(space.value, m');
        if ok {
          PopUnsent(m', Some(c));
        }
      }
    }
    assert !m.closed && !RequestTx(m, l1Head, p).0.closed ==> Busy(RequestTx(m, l1Head, p).0) by { OpenIsBusy(RequestTx(m, l1Head, p).0); }
  }

  lemma OpenIsBusy(m: ManagerValue)
    ensures !m.closed ==> Busy(m)
  {
  }

  lemma CurrentQueued(m: ManagerValue)
    requires Core(m) && m.current.Some?
    ensures m.current.value in m.queue
  {
    hide ChansOk;
    hide IdsDistinct;
    hide IndexAgrees;
  }

  lemma DropIdleUnsent(m: ManagerValue)
    requires m.Wf() && Core(m) && Unsent(m)
    ensures Unsent(DropIdle(m))
  {
    assert Distinct(m.queue) by {
      ManagerVerdicts.QueueAscends(m);
      AscendingDistinct(m.queue);
    }
    hide Core;
    CloseDropsIdle(m);
    DropSame(m);
    hide DropIdle;
    hide Idle;
    hide Survivors;
    hide IdlePair;
    hide Distinct;
    hide OnItsWay;
    hide ManagerValue.Wf;
    var m' := DropIdle(m);
    forall c | 0 <= c < |m'.chans|
      ensures UnsentAt(m', c)
    {
      assert UnsentAt(m, c);
    }
  }

  lemma TerminateSameWay(m: ManagerValue, close: CloseOutcome)
    requires m.Wf() && !m.closed && DropIdle(m).Wf()
    ensures SameWay(DropIdle(m), CloseAll(m, close).0)
  {
    hide DropIdle;
    hide ManagerSpec.OutputFrames;
    hide SameWay;
    var m1 := DropIdle(m);
    if m1.current.Some? && !m1.chans[m1.current.value].builder.IsFull() {
      var c := m1.current.value;
      var b := BuilderSpec.Close(m1.chans[c].builder);
      WithBuilderSameWay(m1, c, b);
      OutputSameWay(WithBuilder(m1, c, b), c, close);
      WayOn(m1, WithBuilder(m1, c, b), CloseAll(m, close).0);
    } else {
      assert CloseAll(m, close).0 == m1;
      StaysSameWay(m1);
    }
  }

  lemma ShutdownUnsent(m: ManagerValue, close: CloseOutcome)
    requires m.Wf() && Core(m)
    ensures Unsent(m) ==> Unsent(CloseAll(m, close).0)
    ensures CloseAll(m, close).0.closed && (m.closed ==> CloseAll(m, close).0 == m)
  {
    if !m.closed {
      DropSame(m);
      if Unsent(m) {
        DropIdleUnsent(m);
      }
      TerminateSameWay(m, close);
      hide Core;
      hide DropIdle;
      hide CloseAll;
      hide Unsent;
      SameUnsent(DropIdle(m), CloseAll(m, close).0);
    }
  }

  /** Every step. */
  lemma NextUnsent(m: ManagerValue, step: ManagerRuns.Step)
    requires m.Wf() && Core(m) && Admissible(m, step)
    ensures Unsent(m) ==> Unsent(ManagerRuns.Next(m, step))
    ensures m.closed && Busy(m) && !step.Reset? ==> ManagerRuns.Next(m, step).closed && Busy(ManagerRuns.Next(m, step))
  {
    match step
    case NewBlock(block) => SameUnsent(m, AddL2Block(m, block).0);
    case Request(l1Head, p) => RequestUnsent(m, l1Head, p); hide *;
    case Failure(id) => FailureUnsent(m, id); hide *;
    case Confirmation(id, inclusion) => ConfirmationUnsent(m, id, inclusion); hide *;
    case Shutdown(close) => ShutdownUnsent(m, close); hide *;
    case Reset(l1Origin) =>
  }

  ghost predicate NoReset(steps: seq<ManagerRuns.Step>) {
    forall i :: 0 <= i < |steps| ==> !steps[i].Reset?
  }

  lemma {:induction false} RunUnsent(m: ManagerValue, steps: seq<ManagerRuns.Step>)
    requires CanRun(m, steps) && Core(m)
    ensures Unsent(m) ==> Unsent(Run(m, steps))
    ensures m.closed && Busy(m) && NoReset(steps) ==> Run(m, steps).closed && Busy(Run(m, steps))
    decreases |steps|
  {
    hide Core;
    hide Unsent;
    hide Busy;
    hide Small;
    hide Admissible;
    hide ManagerValue.Wf;
    if steps != [] {
      ManagerRuns.NextKeeps(m, steps[0]);
      NextUnsent(m, steps[0]);
      hide ManagerRuns.Next;
      RunUnsent(ManagerRuns.Next(m, steps[0]), steps[1..]);
    }
  }

  /** On every run, a channel that is given up without a verdict has nothing in flight and nothing on L1. */
  lemma OnlyUnsentGivenUp(l1Origin: BlockID, steps: seq<ManagerRuns.Step>, c: nat)
    requires CanRun(Cleared(l1Origin), steps) && c < |Run(Cleared(l1Origin), steps).chans|
    ensures var m := Run(Cleared(l1Origin), steps);
            c in m.queue || c in m.done || c in m.timedOut || (m.chans[c].pending == map[] && m.chans[c].confirmed == map[])
  {
    ClearedCore(l1Origin);
    RunUnsent(Cleared(l1Origin), steps);
    hide Run;
    hide CanRun;
    hide Core;
    assert UnsentAt(Run(Cleared(l1Origin), steps), c);
  }

  /** Once a manager closed on any run has no idle channel queued, it never has: a channel whose last transaction in
      flight fails is dropped. */
  lemma ClosedStaysBusy(l1Origin: BlockID, steps: seq<ManagerRuns.Step>, more: seq<ManagerRuns.Step>)
    requires CanRun(Cleared(l1Origin), steps) && CanRun(Run(Cleared(l1Origin), steps), more) && NoReset(more)
    requires Run(Cleared(l1Origin), steps).closed && Busy(Run(Cleared(l1Origin), steps))
    ensures var m := Run(Run(Cleared(l1Origin), steps), more);
            m.closed && forall c :: c in m.queue && c < |m.chans| ==> OnItsWay(m.chans[c])
  {
    Reachable(l1Origin, steps);
    hide Core;
    hide CanRun;
    hide Kept;
    hide Sound;
    RunUnsent(Run(Cleared(l1Origin), steps), more);
    hide Run;
    hide OnItsWay;
  }
}
