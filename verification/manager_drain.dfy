/** After Close, TxData only hands out what is queued: every queued frame, channel by channel in queue
    order, in as many transactions as the channels' sizes need, and nothing afterwards. */
module ManagerDrain {
  import opened Bytes
  import opened TxDatas
  import opened BuilderSpec
  import opened ChannelSpec
  import opened Segmentation
  import opened FrameConservation
  import opened ChannelRuns
  import opened ManagerSpec
  import opened ManagerClose
  import opened ManagerIndex
  import opened ManagerRuns
  import opened ManagerBlocks
  import opened ManagerDone
  import opened ManagerResults
  import opened ManagerIdle

  /** A closed manager has no channel left that takes blocks. */
  ghost predicate ClosedIsFull(m: ManagerValue) {
    m.closed && m.current.Some? ==> m.current.value < |m.chans| && m.chans[m.current.value].builder.IsFull()
  }

  lemma PopFrame(m: ManagerValue, from: Option<nat>)
    requires from.Some? ==> from.value < |m.chans|
    ensures var m' := PopTx(m, from).0;
            && m'.closed == m.closed && m'.current == m.current && m'.queue == m.queue && |m'.chans| == |m.chans|
            && forall c :: 0 <= c < |m.chans| ==> m'.chans[c].builder.IsFull() == m.chans[c].builder.IsFull()
  {
    hide Render;
    hide ChannelValue.NextTx;
  }

  lemma BuildFrame(m: ManagerValue, c: nat, l1Head: nat, p: Pipeline)
    requires c < |m.chans| && m.chans[c].builder.cfg.Valid() && m.chans[c].builder.co.taken <= |m.chans[c].builder.co.stream|
    ensures Build(m, c, l1Head, p).0.closed == m.closed && |Build(m, c, l1Head, p).0.chans| == |m.chans|
  {
    hide AddBlocks;
    hide BuilderSpec.OutputFrames;
    hide CheckTimeout;
    BuildSize(m, c, l1Head, p);
    if ProcessBlocks(m, c, p.adds).1 {
      AddBlocksShape(m.chans[c].builder, m.blocks, p.adds, 0);
      CheckTimeoutFrame(ProcessBlocks(m, c, p.adds).0.chans[c].builder, l1Head);
    }
  }

  /** Requests do not close the manager, and a closed one only hands out. */
  lemma RequestClosedIsFull(m: ManagerValue, l1Head: nat, p: Pipeline)
    requires m.Wf() && ClosedIsFull(m) && Admissible(m, Request(l1Head, p))
    ensures ClosedIsFull(RequestTx(m, l1Head, p).0)
  {
    var first := FirstWithData(m.chans, m.queue);
    hide Build;
    hide PopTx;
    if first.Some? || m.closed {
      PopFrame(m, first);
    } else if m.blocks != [] {
      var space := EnsureSpace(m, p.opening);
      if space.Some? {
        assert !space.value.closed;
        var c := space.value.current.value;
        assert space.value.chans[c].builder.cfg.Valid();
        BuildFrame(space.value, c, l1Head, p);
        PopFrame(Build(space.value, c, l1Head, p).0, Some(c));
      }
    }
  }

  /** One channel changes and stays full if it was, and perhaps it is removed. */
  lemma ChangedClosedIsFull(m: ManagerValue, m': ManagerValue, c: nat)
    requires ClosedIsFull(m) && c < |m.chans| == |m'.chans|
    requires m'.closed == m.closed && (m'.current == m.current || m'.current == None)
    requires forall d :: 0 <= d < |m.chans| && d != c ==> m'.chans[d] == m.chans[d]
    requires m.chans[c].builder.IsFull() ==> m'.chans[c].builder.IsFull()
    ensures ClosedIsFull(m')
  {
  }

  lemma FailureClosedIsFull(m: ManagerValue, id: string)
    requires m.Wf() && ClosedIsFull(m)
    ensures ClosedIsFull(ManagerSpec.TxFailed(m, id))
  {
    hide Without;
    if id in m.txChannels {
      hide ClosedIsFull;
      var c := m.txChannels[id];
      assert ChannelSpec.TxFailed(m.chans[c], id).builder.full == m.chans[c].builder.full;
      hide ChannelSpec.TxFailed;
      ChangedClosedIsFull(m, ManagerSpec.TxFailed(m, id), c);
    }
  }

  lemma ConfirmationFull(v: ChannelValue, id: string, inclusion: BlockID)
    requires v.builder.cfg.Valid()
    ensures ChannelSpec.TxConfirmed(v, id, inclusion).0.builder.full == v.builder.full
  {
    hide ChannelValue.TimedOut;
    hide ChannelValue.FullySubmitted;
  }

  lemma RemoveFrame(m: ManagerValue, c: nat)
    ensures var m' := RemovePending(m, c);
            m'.closed == m.closed && m'.chans == m.chans && (m'.current == m.current || m'.current == None)
  {
  }

  lemma ConfirmationClosedIsFull(m: ManagerValue, id: string, inclusion: BlockID)
    requires m.Wf() && ClosedIsFull(m)
    ensures ClosedIsFull(ManagerSpec.TxConfirmed(m, id, inclusion))
  {
    hide Without;
    if id in m.txChannels {
      hide ClosedIsFull;
      var c := m.txChannels[id];
      ConfirmationFull(m.chans[c], id, inclusion);
      hide ChannelSpec.TxConfirmed;
      var v := ChannelSpec.TxConfirmed(m.chans[c], id, inclusion).0;
      var m' := Set(m, c, v).(txChannels := m.txChannels - {id});
      RemoveFrame(m'.(blocks := v.builder.blocks + m'.blocks, timedOut := m'.timedOut + {c}), c);
      RemoveFrame(m'.(done := m'.done + {c}), c);
      hide RemovePending;
      ChangedClosedIsFull(m, ManagerSpec.TxConfirmed(m, id, inclusion), c);
    }
  }

  lemma ShutdownClosedIsFull(m: ManagerValue, close: CloseOutcome)
    requires m.Wf() && ClosedIsFull(m)
    ensures ClosedIsFull(CloseAll(m, close).0)
  {
    hide Sweep;
    hide BuilderSpec.OutputFrames;
    if !m.closed {
      var m1 := DropIdle(m);
      SweepShape(Swept(m.current, m.queue), Idle(m), m.queue, 0);
      hide DropIdle;
      hide Idle;
      hide ManagerValue.Wf;
      if m1.current.Some? {
        OutputFull(BuilderSpec.Close(m1.chans[m1.current.value].builder), close);
      }
    }
  }

  lemma NextClosedIsFull(m: ManagerValue, step: ManagerRuns.Step)
    requires m.Wf() && ClosedIsFull(m) && Admissible(m, step)
    ensures ClosedIsFull(ManagerRuns.Next(m, step))
  {
    hide RequestTx;
    hide CloseAll;
    hide ManagerSpec.TxFailed;
    hide ManagerSpec.TxConfirmed;
    match step
    case NewBlock(block) =>
    case Request(l1Head, p) => RequestClosedIsFull(m, l1Head, p);
    case Failure(id) => FailureClosedIsFull(m, id);
    case Confirmation(id, inclusion) => ConfirmationClosedIsFull(m, id, inclusion);
    case Shutdown(close) => ShutdownClosedIsFull(m, close);
    case Reset(l1Origin) =>
  }

  lemma {:induction false} RunClosedIsFull(m: ManagerValue, steps: seq<ManagerRuns.Step>)
    requires CanRun(m, steps) && ClosedIsFull(m)
    ensures ClosedIsFull(Run(m, steps))
    decreases |steps|
  {
    hide ClosedIsFull;
    hide ManagerRuns.Next;
    hide Admissible;
    if steps != [] {
      NextClosedIsFull(m, steps[0]);
      RunClosedIsFull(ManagerRuns.Next(m, steps[0]), steps[1..]);
    }
  }

  /** The frames waiting in the queued channels, in the order of the queue. */
  function Waiting(chans: seq<ChannelValue>, queue: seq<nat>): seq<Frame>
    requires forall i :: 0 <= i < |queue| ==> queue[i] < |chans|
  {
    if queue == [] then [] else chans[queue[0]].builder.frames + Waiting(chans, queue[1..])
  }

  /** The transactions it takes to hand out the frames of one channel. */
  function TxsFor(v: ChannelValue): nat
    requires v.builder.cfg.Valid()
  {
    CeilDiv(|v.builder.frames|, v.builder.cfg.MaxFramesPerTx())
  }

  function TxsNeeded(chans: seq<ChannelValue>, queue: seq<nat>): nat
    requires forall i :: 0 <= i < |queue| ==> queue[i] < |chans| && chans[queue[i]].builder.cfg.Valid()
  {
    if queue == [] then 0 else TxsFor(chans[queue[0]]) + TxsNeeded(chans, queue[1..])
  }

  /** The queued channels are valid, full and different. */
  ghost predicate Draining(chans: seq<ChannelValue>, queue: seq<nat>) {
    && (forall i :: 0 <= i < |queue| ==>
         queue[i] < |chans| && chans[queue[i]].builder.cfg.Valid() && chans[queue[i]].builder.IsFull())
    && Distinct(queue)
  }

  lemma TailDrains(chans: seq<ChannelValue>, queue: seq<nat>)
    requires queue != [] && Draining(chans, queue)
    ensures Draining(chans, queue[1..]) && queue[0] !in queue[1..]
  {
  }

  /** Changing a channel that is not queued changes nothing. */
  lemma {:induction false} OtherChannel(chans: seq<ChannelValue>, queue: seq<nat>, c: nat, v: ChannelValue)
    requires Draining(chans, queue) && c < |chans| && c !in queue
    ensures Draining(chans[c := v], queue)
    ensures Waiting(chans[c := v], queue) == Waiting(chans, queue) && TxsNeeded(chans[c := v], queue) == TxsNeeded(chans, queue)
  {
    hide TxsFor;
    if queue != [] {
      TailDrains(chans, queue);
      assert queue[0] in queue;
      OtherChannel(chans, queue[1..], c, v);
    }
  }

  lemma CeilDivStep(n: nat, k: nat)
    requires k > 0
    ensures n > 0 ==> CeilDiv(n, k) == 1 + CeilDiv(if n <= k then 0 else n - k, k)
    ensures CeilDiv(n, k) == 0 <==> n == 0
  {
    CeilDivZero(k);
    if n > k {
      var q, r := (n - 1) / k, (n - 1) % k;
      assert (q + 1) * k + r == n - 1 + k by { assert n - 1 == q * k + r; }
      Quotient(q + 1, k, r);
    } else if n > 0 {
      CeilDivUnique(n, k, 1);
    }
  }

  /** One transaction of one full channel. */
  lemma OneTx(v: ChannelValue)
    requires v.builder.cfg.Valid() && v.builder.IsFull()
    ensures v.HasTxData() <==> v.builder.frames != []
    ensures TxsFor(v) == 0 <==> v.builder.frames == []
    ensures v.HasTxData() ==> var v' := NextTxData(v);
              && v'.builder.cfg == v.builder.cfg && v'.builder.full == v.builder.full
              && v.builder.frames == v.NextTx().frames + v'.builder.frames && v.NextTx().frames != []
              && TxsFor(v) == 1 + TxsFor(v')
  {
    hide Render;
    CeilDivStep(|v.builder.frames|, v.builder.cfg.MaxFramesPerTx());
    hide CeilDiv;
    if v.HasTxData() {
      TxSize(v);
    }
  }

  /** The first channel with data hands out the first waiting frames, in one of the transactions needed; if
      there is none, no frame waits. */
  ghost predicate HandsOut(chans: seq<ChannelValue>, queue: seq<nat>, first: Option<nat>)
    requires Draining(chans, queue)
  {
    match first
    case None => Waiting(chans, queue) == [] && TxsNeeded(chans, queue) == 0
    case Some(c) =>
      && c < |chans| && chans[c].HasTxData()
      && var tx, chans' := chans[c].NextTx(), chans[c := NextTxData(chans[c])];
         && tx.frames != [] && Draining(chans', queue)
         && Waiting(chans, queue) == tx.frames + Waiting(chans', queue)
         && TxsNeeded(chans, queue) == 1 + TxsNeeded(chans', queue)
  }

  lemma HeadHandsOut(chans: seq<ChannelValue>, queue: seq<nat>)
    requires Draining(chans, queue) && queue != [] && chans[queue[0]].HasTxData()
    ensures HandsOut(chans, queue, Some(queue[0]))
  {
    hide TxsFor;
    hide Distinct;
    var c := queue[0];
    OneTx(chans[c]);
    TailDrains(chans, queue);
    OtherChannel(chans, queue[1..], c, NextTxData(chans[c]));
    var tx, v' := chans[c].NextTx(), NextTxData(chans[c]);
    hide NextTxData;
    hide ChannelValue.HasTxData;
    hide ChannelValue.NextTx;
    assert (tx.frames + v'.builder.frames) + Waiting(chans, queue[1..]) == tx.frames + (v'.builder.frames + Waiting(chans, queue[1..]));
  }

  lemma HeadDrains(chans: seq<ChannelValue>, queue: seq<nat>)
    requires queue != [] && Distinct(queue) && Draining(chans, queue[1..])
    requires queue[0] < |chans| && chans[queue[0]].builder.cfg.Valid() && chans[queue[0]].builder.IsFull()
    ensures Draining(chans, queue)
  {
    hide Distinct;
    forall i | 0 <= i < |queue|
      ensures queue[i] < |chans| && chans[queue[i]].builder.cfg.Valid() && chans[queue[i]].builder.IsFull()
    {
      assert i > 0 ==> queue[i] == queue[1..][i - 1];
    }
  }

  /** A channel without frames adds nothing. */
  lemma HeadWaits(chans: seq<ChannelValue>, queue: seq<nat>)
    requires Draining(chans, queue) && queue != [] && !chans[queue[0]].HasTxData()
    ensures Draining(chans, queue[1..])
    ensures Waiting(chans, queue) == Waiting(chans, queue[1..]) && TxsNeeded(chans, queue) == TxsNeeded(chans, queue[1..])
  {
    hide TxsFor;
    TailDrains(chans, queue);
    OneTx(chans[queue[0]]);
  }

  lemma TailHandsOut(chans: seq<ChannelValue>, queue: seq<nat>, first: Option<nat>)
    requires Draining(chans, queue) && queue != [] && !chans[queue[0]].HasTxData()
    requires Draining(chans, queue[1..]) && HandsOut(chans, queue[1..], first)
    ensures HandsOut(chans, queue, first)
  {
    hide Waiting;
    hide TxsNeeded;
    hide NextTxData;
    hide ChannelValue.NextTx;
    hide ChannelValue.HasTxData;
    hide Distinct;
    HeadWaits(chans, queue);
    if first.Some? {
      var chans' := chans[first.value := NextTxData(chans[first.value])];
      assert first.value != queue[0] && chans'[queue[0]] == chans[queue[0]];
      HeadDrains(chans', queue);
      hide Draining;
      HeadWaits(chans', queue);
    }
  }

  lemma {:induction false} OneCall(chans: seq<ChannelValue>, queue: seq<nat>)
    requires Draining(chans, queue)
    ensures HandsOut(chans, queue, FirstWithData(chans, queue))
  {
    hide ChannelValue.HasTxData;
    if queue != [] {
      TailDrains(chans, queue);
      hide Draining;
      hide HandsOut;
      if chans[queue[0]].HasTxData() {
        HeadHandsOut(chans, queue);
      } else {
        OneCall(chans, queue[1..]);
        TailHandsOut(chans, queue, FirstWithData(chans, queue[1..]));
      }
    }
  }

  lemma ClosedDrains(m: ManagerValue)
    requires Core(m) && m.Wf() && m.closed && ClosedIsFull(m)
    ensures Draining(m.chans, m.queue)
  {
    hide ChansOk;
    hide IdsDistinct;
    hide IndexAgrees;
    AscendingDistinct(m.queue);
    hide Distinct;
    hide Ascending;
  }

  /** A request to a closed manager hands out the first waiting frames, or tells that there are none. */
  lemma ClosedRequest(m: ManagerValue, l1Head: nat, p: Pipeline)
    requires Core(m) && m.Wf() && m.closed && ClosedIsFull(m) && Admissible(m, Request(l1Head, p))
    ensures var (m', r) := RequestTx(m, l1Head, p);
            && Draining(m.chans, m.queue) && m'.closed && m'.queue == m.queue && Draining(m'.chans, m'.queue)
            && (r.Tx? <==> TxsNeeded(m.chans, m.queue) > 0) && (!r.Tx? ==> r == NoTx && m' == m)
            && (r.Tx? ==>
                 && r.data.frames != [] && Waiting(m.chans, m.queue) == r.data.frames + Waiting(m'.chans, m'.queue)
                 && TxsNeeded(m.chans, m.queue) == 1 + TxsNeeded(m'.chans, m'.queue))
  {
    ClosedDrains(m);
    hide Core;
    hide Draining;
    hide ManagerValue.Wf;
    OneCall(m.chans, m.queue);
    hide Waiting;
    hide TxsNeeded;
    hide NextTxData;
    hide Render;
    hide ChannelValue.NextTx;
    hide ChannelValue.HasTxData;
  }

  ghost predicate AllRequests(steps: seq<ManagerRuns.Step>) {
    forall i :: 0 <= i < |steps| ==> steps[i].Request?
  }

  /** The frames of all the transactions that these requests return. */
  ghost function HandedOut(m: ManagerValue, requests: seq<ManagerRuns.Step>): seq<Frame>
    requires CanRun(m, requests) && AllRequests(requests)
    decreases |requests|
  {
    if requests == [] then []
    else
      var r := RequestTx(m, requests[0].l1Head, requests[0].p).1;
      (if r.Tx? then r.data.frames else []) + HandedOut(ManagerRuns.Next(m, requests[0]), requests[1..])
  }

  lemma {:induction false} RequestsDrain(m: ManagerValue, requests: seq<ManagerRuns.Step>)
    requires Core(m) && m.closed && ClosedIsFull(m) && CanRun(m, requests) && AllRequests(requests)
    ensures var m' := Run(m, requests);
            && Draining(m.chans, m.queue) && Draining(m'.chans, m'.queue)
            && Waiting(m.chans, m.queue) == HandedOut(m, requests) + Waiting(m'.chans, m'.queue)
            && var n := TxsNeeded(m.chans, m.queue);
               TxsNeeded(m'.chans, m'.queue) == if |requests| >= n then 0 else n - |requests|
    decreases |requests|
  {
    hide Core;
    hide Small;
    hide Draining;
    hide Waiting;
    hide TxsNeeded;
    hide ClosedIsFull;
    hide RequestTx;
    hide Admissible;
    if requests == [] {
      ClosedDrains(m);
    } else {
      var step := requests[0];
      ClosedRequest(m, step.l1Head, step.p);
      ManagerRuns.NextKeeps(m, step);
      NextClosedIsFull(m, step);
      RequestsDrain(ManagerRuns.Next(m, step), requests[1..]);
    }
  }

  /** Such requests are always possible. */
  lemma {:induction false} RequestsPossible(m: ManagerValue, requests: seq<ManagerRuns.Step>)
    requires Core(m) && m.closed && ClosedIsFull(m) && Small(m) && AllRequests(requests)
    requires forall i :: 0 <= i < |requests| ==> requests[i].p.opening.OpenFailed?
    ensures CanRun(m, requests)
    decreases |requests|
  {
    hide Core;
    hide ClosedIsFull;
    CoreWf(m);
    assert forall i :: 0 <= i < |m.queue| ==> m.queue[i] < |m.chans|;
    hide ManagerValue.Wf;
    if requests != [] {
      var step := requests[0];
      hide FirstWithData;
      PopStaysSmall(m, FirstWithData(m.chans, m.queue));
      hide Small;
      assert Admissible(m, step) && RequestTx(m, step.l1Head, step.p) == PopTx(m, FirstWithData(m.chans, m.queue));
      hide PopTx;
      hide RequestTx;
      PopFrame(m, FirstWithData(m.chans, m.queue));
      ManagerRuns.NextKeeps(m, step);
      NextClosedIsFull(m, step);
      RequestsPossible(ManagerRuns.Next(m, step), requests[1..]);
    }
  }

  lemma PopStaysSmall(m: ManagerValue, from: Option<nat>)
    requires Small(m) && (from.Some? ==> from.value < |m.chans|)
    ensures Small(PopTx(m, from).0)
  {
    hide Render;
    hide ChannelValue.NextTx;
  }

  /** At the end of any run that has closed the manager, whatever L1 heads and pipeline answers come with
      them: the requests that follow hand out the waiting frames in order, each once; and none is left
      exactly from the number of requests on that the waiting frames need. */
  lemma RequestsDrainClosed(l1Origin: BlockID, steps: seq<ManagerRuns.Step>, requests: seq<ManagerRuns.Step>)
    requires CanRun(Cleared(l1Origin), steps) && Run(Cleared(l1Origin), steps).closed
    requires CanRun(Run(Cleared(l1Origin), steps), requests) && AllRequests(requests)
    ensures var m := Run(Cleared(l1Origin), steps);
            var m' := Run(m, requests);
            && Draining(m.chans, m.queue) && Draining(m'.chans, m'.queue)
            && Waiting(m.chans, m.queue) == HandedOut(m, requests) + Waiting(m'.chans, m'.queue)
            && (Waiting(m'.chans, m'.queue) == [] <==> |requests| >= TxsNeeded(m.chans, m.queue))
  {
    assert ClosedIsFull(Cleared(l1Origin));
    hide *;
    Reachable(l1Origin, steps);
    RunClosedIsFull(Cleared(l1Origin), steps);
    RequestsDrain(Run(Cleared(l1Origin), steps), requests);
    var m' := Run(Run(Cleared(l1Origin), steps), requests);
    NothingWaitsIff(m'.chans, m'.queue);
  }

  lemma NothingWaitsIff(chans: seq<ChannelValue>, queue: seq<nat>)
    requires Draining(chans, queue)
    ensures Waiting(chans, queue) == [] <==> TxsNeeded(chans, queue) == 0
  {
    OneCall(chans, queue);
    hide Draining;
    hide Waiting;
    hide TxsNeeded;
    hide ChannelValue.HasTxData;
    hide ChannelValue.NextTx;
    hide NextTxData;
  }

  lemma {:induction false} SweepCurrent(s: Swept, idle: set<nat>, arr: seq<nat>, i: nat, c: nat)
    requires s.queue <= arr && i <= |arr| && Ascending(s.queue) && s.current == Some(c)
    ensures c in Sweep(s, idle, arr, i).queue ==> Sweep(s, idle, arr, i).current == Some(c)
    decreases |arr| - i
  {
    if i < |arr| {
      SweepStep(s, idle, arr, i);
      hide Sweep;
      if arr[i] in idle {
        WithoutOrdered(s.queue, arr[i]);
        var next := Swept(if s.current == Some(arr[i]) then None else s.current, Without(s.queue, arr[i]));
        if arr[i] == c {
          SweepShape(next, idle, Shift(s.queue, arr, c), i + 1);
        } else {
          SweepCurrent(next, idle, Shift(s.queue, arr, arr[i]), i + 1, c);
        }
      } else {
        SweepCurrent(s, idle, arr, i + 1, c);
      }
    }
  }

  /** Close leaves the channel that takes blocks in place exactly if it stays in the queue. */
  lemma DropIdleCurrent(m: ManagerValue)
    requires Core(m) && m.Wf()
    ensures DropIdle(m).current == if m.current.Some? && m.current.value in DropIdle(m).queue then m.current else None
  {
    DropIdleKeeps(m);
    hide ChansOk;
    hide IdsDistinct;
    hide IndexAgrees;
    SweepShape(Swept(m.current, m.queue), Idle(m), m.queue, 0);
    if m.current.Some? {
      SweepCurrent(Swept(m.current, m.queue), Idle(m), m.queue, 0, m.current.value);
    }
    hide Sweep;
    hide Idle;
  }

  lemma {:induction false} WaitingIff(chans: seq<ChannelValue>, queue: seq<nat>)
    requires forall i :: 0 <= i < |queue| ==> queue[i] < |chans|
    ensures Waiting(chans, queue) == [] <==> forall i :: 0 <= i < |queue| ==> chans[queue[i]].builder.frames == []
  {
    if queue != [] {
      WaitingIff(chans, queue[1..]);
      assert forall i :: 0 < i < |queue| ==> queue[i] == queue[1..][i - 1];
    }
  }

  /** A channel that Close leaves in the queue has frames, and none of them is in the channel whose state
      Close reports. */
  ghost predicate OthersWait(m: ManagerValue)
    requires m.Wf()
  {
    && (exists c :: c in DropIdle(m).queue && c < |m.chans| && m.current != Some(c) && m.chans[c].builder.frames != [])
    && (m.current.Some? && m.current.value in DropIdle(m).queue ==>
         m.chans[m.current.value].builder.IsFull() && m.chans[m.current.value].builder.frames == [])
  }

  lemma ToEndHasFrames(b: BuilderValue)
    requires b.cfg.Valid() && b.co.taken <= |b.co.stream| && b.co.closed
    ensures OutputToEnd(b).frames != []
    decreases b.co.ReadyBytes()
  {
  }

  /** A channel that Close terminates without error has frames to send. */
  lemma TerminatedHasFrames(b: BuilderValue, close: CloseOutcome)
    requires b.cfg.Valid() && b.co.taken <= |b.co.stream| && !b.IsFull()
    ensures var (b', ok) := BuilderSpec.OutputFrames(BuilderSpec.Close(b), close);
            ok ==> b'.IsFull() && b'.frames != []
  {
    hide OutputReadyFrames;
    hide OutputToEnd;
    OutputFull(BuilderSpec.Close(b), close);
    if !b.co.closed && close.Flushed? {
      ToEndHasFrames(BuilderSpec.Close(b).(co := MakeReady(b.co, close.ready).(closed := true)));
    }
  }

  lemma CloseTerminates(m: ManagerValue, c: nat, close: CloseOutcome)
    requires m.Wf() && c < |m.chans| && !m.chans[c].builder.IsFull()
    ensures var (m', ok) := ManagerSpec.OutputFrames(WithBuilder(m, c, BuilderSpec.Close(m.chans[c].builder)), c, close);
            && m'.queue == m.queue && |m'.chans| == |m.chans|
            && (forall d :: 0 <= d < |m.chans| && d != c ==> m'.chans[d] == m.chans[d])
            && (ok ==> m'.chans[c].HasTxData() && m'.chans[c].builder.frames != [])
  {
    hide BuilderSpec.OutputFrames;
    TerminatedHasFrames(m.chans[c].builder, close);
  }

  /** What Close does beyond dropping idle channels: at most it terminates the current one. */
  ghost predicate Reports(m: ManagerValue, m': ManagerValue, r: CloseResult, q: seq<nat>) {
    && m'.queue == q && |m'.chans| == |m.chans|
    && (forall c :: 0 <= c < |m.chans| && m.current != Some(c) ==> m'.chans[c] == m.chans[c])
    && (if m.current.Some? && m.current.value in q then
          && m.current.value < |m.chans| && (r == CloseError ==> !m.chans[m.current.value].builder.IsFull())
          && (r != CloseError ==>
               var b, b' := m.chans[m.current.value].builder, m'.chans[m.current.value].builder;
               (r == PendingAfterClose <==> b'.frames != []) && if b.IsFull() then b' == b else b'.frames != [])
        else r == Closed && m'.chans == m.chans)
  }

  lemma CloseNone(m: ManagerValue, close: CloseOutcome)
    requires m.Wf() && !m.closed && DropIdle(m).current.None?
    ensures CloseAll(m, close) == (DropIdle(m), Closed)
  {
    hide DropIdle;
  }

  lemma CloseFull(m: ManagerValue, close: CloseOutcome, c: nat)
    requires m.Wf() && !m.closed && DropIdle(m).Wf() && DropIdle(m).current == Some(c) && DropIdle(m).chans[c].builder.IsFull()
    ensures CloseAll(m, close) == (DropIdle(m), if DropIdle(m).chans[c].builder.frames != [] then PendingAfterClose else Closed)
  {
    hide DropIdle;
    hide ManagerSpec.OutputFrames;
  }

  lemma CloseOpen(m: ManagerValue, close: CloseOutcome, c: nat)
    requires m.Wf() && !m.closed && DropIdle(m).Wf() && DropIdle(m).current == Some(c) && !DropIdle(m).chans[c].builder.IsFull()
    ensures Reports(DropIdle(m), CloseAll(m, close).0, CloseAll(m, close).1, DropIdle(m).queue) || c !in DropIdle(m).queue
  {
    CloseTerminates(DropIdle(m), c, close);
    hide DropIdle;
    hide ManagerSpec.OutputFrames;
    hide ChannelValue.HasTxData;
  }

  lemma ReportsUnchanged(m: ManagerValue, m1: ManagerValue, r: CloseResult)
    requires m1.chans == m.chans
    requires if m.current.Some? && m.current.value in m1.queue then
               && m.current.value < |m.chans| && m.chans[m.current.value].builder.IsFull()
               && r == if m.chans[m.current.value].builder.frames != [] then PendingAfterClose else Closed
             else r == Closed
    ensures Reports(m, m1, r, m1.queue)
  {
  }

  lemma ReportsAlike(m: ManagerValue, m1: ManagerValue, m': ManagerValue, r: CloseResult, q: seq<nat>)
    requires m1.chans == m.chans && m1.current == m.current && Reports(m1, m', r, q)
    ensures Reports(m, m', r, q)
  {
  }

  lemma CloseEffect(m: ManagerValue, close: CloseOutcome)
    requires Core(m) && m.Wf() && !m.closed
    ensures Reports(m, CloseAll(m, close).0, CloseAll(m, close).1, DropIdle(m).queue)
  {
    DropIdleCurrent(m);
    var m1 := DropIdle(m);
    DropIdleKeeps(m);
    CoreWf(m1);
    assert m1.chans == m.chans;
    hide *;
    assert m1.Wf();
    var (m', r) := CloseAll(m, close);
    if m1.current.None? {
      CloseNone(m, close);
      ReportsUnchanged(m, m1, r);
    } else {
      var c := m1.current.value;
      CurrentInRange(m1);
      if m1.chans[c].builder.full.Some? {
        FullIff(m1.chans[c].builder);
        CloseFull(m, close, c);
        ReportsUnchanged(m, m1, r);
      } else {
        FullIff(m1.chans[c].builder);
        CloseOpen(m, close, c);
        ReportsAlike(m, m1, m', r, m1.queue);
      }
    }
  }

  lemma CurrentInRange(m: ManagerValue)
    requires m.Wf() && m.current.Some?
    ensures m.current.value < |m.chans|
  {
  }

  lemma FullIff(b: BuilderValue)
    ensures b.IsFull() <==> b.full.Some?
  {
  }

  /** From the effect of Close to what it tells. */
  lemma TellsIff(m: ManagerValue, m': ManagerValue, r: CloseResult)
    requires m.Wf() && r != CloseError && Reports(m, m', r, DropIdle(m).queue)
    requires forall i :: 0 <= i < |m'.queue| ==> m'.queue[i] < |m'.chans|
    ensures (r == PendingAfterClose <==> Waiting(m'.chans, m'.queue) != []) <==> !OthersWait(m)
  {
    hide ManagerValue.Wf;
    WaitingIff(m'.chans, m'.queue);
    hide Waiting;
    var q := DropIdle(m).queue;
    hide DropIdle;
    if i :| 0 <= i < |q| && m'.chans[q[i]].builder.frames != [] {
      assert q[i] in q;
    }
  }

  /** Close at the end of any run, unless it fails: it tells of pending work exactly when frames wait, if
      and only if frames do not wait in other channels than the current one alone. */
  lemma CloseTellsIffOnEveryRun(l1Origin: BlockID, steps: seq<ManagerRuns.Step>, close: CloseOutcome)
    requires CanRun(Cleared(l1Origin), steps) && !Run(Cleared(l1Origin), steps).closed
    ensures var m := Run(Cleared(l1Origin), steps);
            var (m', r) := CloseAll(m, close);
            && (forall i :: 0 <= i < |m'.queue| ==> m'.queue[i] < |m'.chans|)
            && (r != CloseError ==>
                 ((r == PendingAfterClose <==> Waiting(m'.chans, m'.queue) != []) <==> !OthersWait(m)))
  {
    Reachable(l1Origin, steps);
    var m := Run(Cleared(l1Origin), steps);
    DropIdleKeeps(m);
    CoreWf(DropIdle(m));
    CloseEffect(m, close);
    assert DropIdle(m).chans == m.chans;
    hide Run;
    hide CanRun;
    hide Core;
    hide Kept;
    hide Sound;
    hide CloseAll;
    hide DropIdle;
    hide Idle;
    var (m', r) := CloseAll(m, close);
    assert forall i :: 0 <= i < |m'.queue| ==> m'.queue[i] < |m'.chans|;
    hide ManagerValue.Wf;
    hide OthersWait;
    hide Waiting;
    hide Reports;
    if r != CloseError {
      TellsIff(m, m', r);
    }
  }

  lemma SilentEnd(m: ManagerValue, m': ManagerValue, r: CloseResult)
    requires m.current == Some(2) && |m.chans| == 3 && m.chans[1].builder.frames == [OnlyFrame(1)]
    requires m.chans[2].builder.IsFull() && m.chans[2].builder.frames == []
    requires Reports(m, m', r, [1, 2])
    ensures r == Closed && m'.queue == [1, 2] && |m'.chans| == 3 && Waiting(m'.chans, m'.queue) == [OnlyFrame(1)]
  {
    assert 2 in [1, 2];
    assert [1, 2][1..] == [2] && [2][1..] == [];
    assert Waiting(m'.chans, [2]) == m'.chans[2].builder.frames + Waiting(m'.chans, []);
  }

  /** It does come about that Close tells of no pending work while a frame waits. */
  lemma CloseIsSilent(l1Origin: BlockID, close: CloseOutcome) returns (steps: seq<ManagerRuns.Step>)
    ensures CanRun(Cleared(l1Origin), steps) && !Run(Cleared(l1Origin), steps).closed
    ensures var (m', r) := CloseAll(Run(Cleared(l1Origin), steps), close);
            && r == Closed && m'.queue == [1, 2] && |m'.chans| == 3
            && Waiting(m'.chans, m'.queue) == [OnlyFrame(1)]
    ensures steps == NeighboursRun()
  {
    hide *;
    steps := IdleNeighboursReachable(l1Origin);
    var again := CloseKeepsIdleNeighbour(l1Origin, close);
    Reachable(l1Origin, steps);
    var m := Run(Cleared(l1Origin), steps);
    CloseKeepsQueue(m, close);
    CloseEffect(m, close);
    SilentEnd(m, CloseAll(m, close).0, CloseAll(m, close).1);
  }
}
