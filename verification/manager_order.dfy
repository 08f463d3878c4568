/** The order of the blocks across channel timeouts: a channel that times out gives its blocks back in front of
    every block that waits. */
module ManagerOrder {
  import opened Bytes
  import opened TxDatas
  import opened BuilderSpec
  import opened ChannelSpec
  import opened FrameConservation
  import opened ChannelRuns
  import opened ManagerSpec
  import opened ManagerIndex
  import opened ManagerRuns
  import opened ManagerBlocks
  import opened ManagerDone
  import opened ManagerResults

  /** The blocks of the channels that have not timed out, in opening order. */
  function Live(chans: seq<ChannelValue>, out: set<nat>): seq<Block> {
    if chans == [] then []
    else
      var c := |chans| - 1;
      Live(chans[..c], out) + if c in out then [] else chans[c].builder.blocks
  }

  /** The live channels and then the queue hold exactly the accepted blocks, in order. */
  ghost predicate Straight(m: ManagerValue) {
    Live(m.chans, m.timedOut) + m.blocks == m.accepted
  }

  ghost predicate OrderInv(m: ManagerValue) {
    && (!m.addFailed ==> Straight(m))
    && (forall c :: c in m.timedOut ==> c < |m.chans|)
    && (m.current.Some? ==> m.current.value !in m.timedOut)
  }

  /** The confirmation makes its channel time out. */
  ghost predicate TimesOut(m: ManagerValue, id: string, inclusion: BlockID)
    requires m.Wf()
  {
    id in m.txChannels && ChannelSpec.TxConfirmed(m.chans[m.txChannels[id]], id, inclusion).1 == Verdict.TimedOut
  }

  /** A channel that times out is the newest one opened, and has not timed out before. */
  ghost predicate Tidy(m: ManagerValue, step: ManagerRuns.Step)
    requires m.Wf()
  {
    step.Confirmation? && TimesOut(m, step.id, step.inclusion) ==>
      m.txChannels[step.id] == |m.chans| - 1 && m.txChannels[step.id] !in m.timedOut
  }

  ghost predicate TidyRun(m: ManagerValue, steps: seq<ManagerRuns.Step>)
    requires CanRun(m, steps)
    decreases |steps|
  {
    steps == [] || (Tidy(m, steps[0]) && TidyRun(ManagerRuns.Next(m, steps[0]), steps[1..]))
  }

  lemma {:induction false} LiveSame(a: seq<ChannelValue>, b: seq<ChannelValue>, out: set<nat>, out': set<nat>)
    requires |a| == |b| && forall c :: 0 <= c < |a| ==> a[c].builder.blocks == b[c].builder.blocks && (c in out <==> c in out')
    ensures Live(a, out) == Live(b, out')
    decreases |a|
  {
    if a != [] {
      LiveSame(a[..|a| - 1], b[..|b| - 1], out, out');
    }
  }

  /** Nothing about the blocks changes. */
  lemma SameOrder(m: ManagerValue, m': ManagerValue)
    requires OrderInv(m) && |m'.chans| == |m.chans|
    requires forall c :: 0 <= c < |m.chans| ==> m'.chans[c].builder.blocks == m.chans[c].builder.blocks
    requires m'.blocks == m.blocks && m'.accepted == m.accepted && m'.timedOut == m.timedOut && (m.addFailed ==> m'.addFailed)
    requires m'.current == m.current || m'.current == None
    ensures OrderInv(m')
  {
    LiveSame(m.chans, m'.chans, m.timedOut, m'.timedOut);
    hide Live;
  }

  lemma NewBlockOrder(m: ManagerValue, block: Block)
    requires OrderInv(m)
    ensures OrderInv(AddL2Block(m, block).0)
  {
    hide Live;
    assert Live(m.chans, m.timedOut) + (m.blocks + [block]) == (Live(m.chans, m.timedOut) + m.blocks) + [block];
  }

  lemma FailureOrder(m: ManagerValue, k: string)
    requires OrderInv(m) && m.Wf()
    ensures OrderInv(ManagerSpec.TxFailed(m, k))
  {
    hide OrderInv;
    if k in m.txChannels {
      FailureMoves(m, k);
      hide ManagerSpec.TxFailed;
      hide ManagerValue.Wf;
      SameOrder(m, ManagerSpec.TxFailed(m, k));
    }
  }

  /** A failure moves no block. */
  lemma FailureMoves(m: ManagerValue, k: string)
    requires m.Wf() && k in m.txChannels
    ensures var m' := ManagerSpec.TxFailed(m, k);
            && |m'.chans| == |m.chans| && m'.accepted == m.accepted && m'.addFailed == m.addFailed
            && (forall d :: 0 <= d < |m.chans| ==> m'.chans[d].builder.blocks == m.chans[d].builder.blocks)
            && m'.timedOut == m.timedOut && m'.blocks == m.blocks && (m'.current == m.current || m'.current == None)
  {
    hide Without;
    var v := ChannelSpec.TxFailed(m.chans[m.txChannels[k]], k);
    assert v.builder.blocks == m.chans[m.txChannels[k]].builder.blocks;
    hide ChannelSpec.TxFailed;
    hide ChannelValue.NoneSubmitted;
    var c := m.txChannels[k];
    RemovedKeeps(m.(chans := m.chans[c := v], txChannels := m.txChannels - {k}), c);
    hide RemovePending;
  }

  lemma ConfirmedBlocks(v: ChannelValue, k: string, inclusion: BlockID)
    requires v.builder.cfg.Valid()
    ensures ChannelSpec.TxConfirmed(v, k, inclusion).0.builder.blocks == v.builder.blocks
  {
    hide ChannelValue.TimedOut;
    hide ChannelValue.FullySubmitted;
  }

  /** What the manager makes of a confirmation: its channel's blocks stay what they are, and if the channel times
      out they are waiting again, before all others. */
  lemma ConfirmationMoves(m: ManagerValue, k: string, inclusion: BlockID)
    requires m.Wf() && k in m.txChannels
    ensures var c, m' := m.txChannels[k], ManagerSpec.TxConfirmed(m, k, inclusion);
            && |m'.chans| == |m.chans| && m'.accepted == m.accepted && m'.addFailed == m.addFailed
            && (forall d :: 0 <= d < |m.chans| ==> m'.chans[d].builder.blocks == m.chans[d].builder.blocks)
            && (if TimesOut(m, k, inclusion)
                then && m'.timedOut == m.timedOut + {c} && m'.blocks == m.chans[c].builder.blocks + m.blocks
                     && m'.current == (if m.current == Some(c) then None else m.current)
                else m'.timedOut == m.timedOut && m'.blocks == m.blocks && (m'.current == m.current || m'.current == None))
  {
    ConfirmedBlocks(m.chans[m.txChannels[k]], k, inclusion);
    ConfirmationIs(m, k, inclusion);
    var c, v := m.txChannels[k], ChannelSpec.TxConfirmed(m.chans[m.txChannels[k]], k, inclusion).0;
    hide ChannelSpec.TxConfirmed;
    hide ManagerSpec.TxConfirmed;
    hide ManagerValue.Wf;
    var m0 := m.(chans := m.chans[c := v], txChannels := m.txChannels - {k});
    RemovedKeeps(m0.(blocks := v.builder.blocks + m.blocks, timedOut := m.timedOut + {c}), c);
    RemovedKeeps(m0.(done := m.done + {c}), c);
    hide RemovePending;
  }

  lemma ConfirmationIs(m: ManagerValue, k: string, inclusion: BlockID)
    requires m.Wf() && k in m.txChannels
    ensures var c := m.txChannels[k];
            && c < |m.chans| && m.chans[c].builder.cfg.Valid()
            && var (v, verdict) := ChannelSpec.TxConfirmed(m.chans[c], k, inclusion);
               var m0 := m.(chans := m.chans[c := v], txChannels := m.txChannels - {k});
               ManagerSpec.TxConfirmed(m, k, inclusion) ==
                 match verdict
                 case Ongoing => m0
                 case TimedOut => RemovePending(m0.(blocks := v.builder.blocks + m.blocks, timedOut := m.timedOut + {c}), c)
                 case Done => RemovePending(m0.(done := m.done + {c}), c)
  {
    hide ChannelSpec.TxConfirmed;
    hide RemovePending;
  }

  lemma RemovedKeeps(m: ManagerValue, c: nat)
    ensures var m' := RemovePending(m, c);
            && m'.chans == m.chans && m'.accepted == m.accepted && m'.addFailed == m.addFailed && m'.blocks == m.blocks
            && m'.timedOut == m.timedOut && m'.current == if m.current == Some(c) then None else m.current
  {
  }

  lemma TimeoutOrder(chans: seq<ChannelValue>, out: set<nat>, queue: seq<Block>)
    requires chans != [] && |chans| - 1 !in out
    ensures var c := |chans| - 1;
            Live(chans, out + {c}) + (chans[c].builder.blocks + queue) == Live(chans, out) + queue
  {
    var c := |chans| - 1;
    LiveSame(chans[..c], chans[..c], out, out + {c});
    assert Live(chans[..c], out) + [] == Live(chans[..c], out);
    assert Live(chans[..c], out) + (chans[c].builder.blocks + queue) == (Live(chans[..c], out) + chans[c].builder.blocks) + queue;
  }

  lemma ConfirmationOrder(m: ManagerValue, step: ManagerRuns.Step)
    requires OrderInv(m) && m.Wf() && step.Confirmation? && Tidy(m, step)
    ensures OrderInv(ManagerSpec.TxConfirmed(m, step.id, step.inclusion))
  {
    var k, inclusion := step.id, step.inclusion;
    if k in m.txChannels {
      ConfirmationMoves(m, k, inclusion);
      assert m.txChannels[k] < |m.chans|;
      var c, m' := m.txChannels[k], ManagerSpec.TxConfirmed(m, k, inclusion);
      if TimesOut(m, k, inclusion) {
        assert c == |m.chans| - 1 && c !in m.timedOut;
        hide *;
        ReturnedOrder(m, m', c);
      } else {
        hide *;
        SameOrder(m, m');
      }
    }
  }

  lemma ReturnedOrder(m: ManagerValue, m': ManagerValue, c: nat)
    requires OrderInv(m) && c == |m.chans| - 1 && c !in m.timedOut
    requires |m'.chans| == |m.chans| && m'.accepted == m.accepted && m'.addFailed == m.addFailed
    requires forall d :: 0 <= d < |m.chans| ==> m'.chans[d].builder.blocks == m.chans[d].builder.blocks
    requires m'.timedOut == m.timedOut + {c} && m'.blocks == m.chans[c].builder.blocks + m.blocks
    requires m'.current == if m.current == Some(c) then None else m.current
    ensures OrderInv(m')
  {
    LiveSame(m.chans, m'.chans, m'.timedOut, m'.timedOut);
    TimeoutOrder(m.chans, m.timedOut, m.blocks);
    hide Live;
  }

  lemma PopOrder(m: ManagerValue, from: Option<nat>)
    requires OrderInv(m) && (from.Some? ==> from.value < |m.chans|)
    ensures OrderInv(PopTx(m, from).0)
  {
    PopSame(m, from);
    assert PopTx(m, from).0.current == m.current by { hide Render; }
    hide OrderInv;
    hide PopTx;
    SameOrder(m, PopTx(m, from).0);
  }

  lemma EnsureOrder(m: ManagerValue, opening: Opening)
    requires OrderInv(m) && m.Wf()
    ensures EnsureSpace(m, opening).Some? ==> OrderInv(EnsureSpace(m, opening).value)
  {
    if EnsureSpace(m, opening).Some? && EnsureSpace(m, opening) != Some(m) {
      var m' := EnsureSpace(m, opening).value;
      assert m'.chans[..|m.chans|] == m.chans && m'.chans[|m.chans|].builder.blocks == [];
      hide NewChannel;
      assert Live(m'.chans, m.timedOut) == Live(m.chans, m.timedOut) + [];
    }
  }

  lemma LastLiveGrows(chans: seq<ChannelValue>, out: set<nat>, v: ChannelValue, more: seq<Block>)
    requires chans != [] && |chans| - 1 !in out && v.builder.blocks == chans[|chans| - 1].builder.blocks + more
    ensures Live(chans[|chans| - 1 := v], out) == Live(chans, out) + more
  {
    var c := |chans| - 1;
    assert chans[c := v][..c] == chans[..c];
  }

  lemma ProcessOrder(m: ManagerValue, c: nat, adds: nat -> AddOutcome)
    requires OrderInv(m) && c == |m.chans| - 1 && c !in m.timedOut && m.chans[c].builder.cfg.Valid()
    ensures OrderInv(ProcessBlocks(m, c, adds).0) && ProcessBlocks(m, c, adds).0.timedOut == m.timedOut
  {
    hide AddBlocks;
    hide Live;
    AddBlocksTakes(m.chans[c].builder, m.blocks, adds, 0);
    var (b, taken) := AddBlocks(m.chans[c].builder, m.blocks, adds, 0);
    if taken.Some? {
      var t := m.blocks[0..taken.value];
      LastLiveGrows(m.chans, m.timedOut, m.chans[c].(builder := b), t);
      assert t + m.blocks[taken.value..] == m.blocks;
      assert (Live(m.chans, m.timedOut) + t) + m.blocks[taken.value..] == Live(m.chans, m.timedOut) + m.blocks;
    }
  }

  lemma WithBuilderOrder(m: ManagerValue, c: nat, b: BuilderValue)
    requires OrderInv(m) && c < |m.chans| && b.blocks == m.chans[c].builder.blocks
    ensures OrderInv(WithBuilder(m, c, b))
  {
    hide OrderInv;
    SameOrder(m, WithBuilder(m, c, b));
  }

  lemma OutputOrder(m: ManagerValue, c: nat, close: CloseOutcome)
    requires OrderInv(m) && c < |m.chans|
    requires m.chans[c].builder.cfg.Valid() && m.chans[c].builder.co.taken <= |m.chans[c].builder.co.stream|
    ensures OrderInv(ManagerSpec.OutputFrames(m, c, close).0)
  {
    hide OrderInv;
    OutputFramesFrame(m.chans[c].builder, close);
    OutputParts(m, c, close);
    hide BuilderSpec.OutputFrames;
    hide ManagerSpec.OutputFrames;
    SameOrder(m, ManagerSpec.OutputFrames(m, c, close).0);
  }

  lemma BuildOrder(m: ManagerValue, c: nat, l1Head: nat, p: Pipeline)
    requires OrderInv(m) && c == |m.chans| - 1 && c !in m.timedOut
    requires m.chans[c].builder.cfg.Valid() && m.chans[c].builder.co.taken <= |m.chans[c].builder.co.stream|
    ensures OrderInv(Build(m, c, l1Head, p).0)
  {
    hide OrderInv;
    hide AddBlocks;
    hide BuilderSpec.OutputFrames;
    hide CheckTimeout;
    ProcessOrder(m, c, p.adds);
    var (m1, added) := ProcessBlocks(m, c, p.adds);
    if added {
      AddBlocksShape(m.chans[c].builder, m.blocks, p.adds, 0);
      CheckTimeoutFrame(m1.chans[c].builder, l1Head);
      WithBuilderOrder(m1, c, CheckTimeout(m1.chans[c].builder, l1Head));
      OutputOrder(WithBuilder(m1, c, CheckTimeout(m1.chans[c].builder, l1Head)), c, p.close);
    }
  }

  lemma RequestOrder(m: ManagerValue, l1Head: nat, p: Pipeline)
    requires OrderInv(m) && Core(m) && m.Wf() && Admissible(m, Request(l1Head, p))
    ensures OrderInv(RequestTx(m, l1Head, p).0)
  {
    hide Core;
    hide Build;
    hide PopTx;
    hide Straight;
    var first := FirstWithData(m.chans, m.queue);
    if first.Some? || m.closed {
      PopOrder(m, first);
    } else if m.blocks != [] {
      EnsureOrder(m, p.opening);
      EnsureKeeps(m, p.opening);
      var space := EnsureSpace(m, p.opening);
      if space.Some? {
        var c := space.value.current.value;
        assert c == |space.value.chans| - 1 by { CurrentLast(space.value); }
        hide EnsureSpace;
        BuildOrder(space.value, c, l1Head, p);
        BuildSize(space.value, c, l1Head, p);
        var (m', ok) := Build(space.value, c, l1Head, p);
        if ok {
          PopOrder(m', Some(c));
        }
      }
    }
  }

  lemma ShutdownOrder(m: ManagerValue, close: CloseOutcome)
    requires OrderInv(m) && m.Wf()
    ensures OrderInv(CloseAll(m, close).0)
  {
    hide OrderInv;
    hide BuilderSpec.OutputFrames;
    hide ManagerSpec.OutputFrames;
    if !m.closed {
      var m1 := DropIdle(m);
      DropSame(m);
      assert m1.current == m.current || m1.current == None by { SweepShape(Swept(m.current, m.queue), Idle(m), m.queue, 0); }
      hide DropIdle;
      SameOrder(m, m1);
      if m1.current.Some? && !m1.chans[m1.current.value].builder.IsFull() {
        var c := m1.current.value;
        WithBuilderOrder(m1, c, BuilderSpec.Close(m1.chans[c].builder));
        OutputOrder(WithBuilder(m1, c, BuilderSpec.Close(m1.chans[c].builder)), c, close);
      }
    }
  }

  lemma NextOrder(m: ManagerValue, step: ManagerRuns.Step)
    requires OrderInv(m) && Core(m) && m.Wf() && Admissible(m, step) && Tidy(m, step)
    ensures OrderInv(ManagerRuns.Next(m, step))
  {
    match step
    case NewBlock(block) => NewBlockOrder(m, block);
    case Request(l1Head, p) => hide OrderInv; RequestOrder(m, l1Head, p);
    case Failure(id) => hide OrderInv; FailureOrder(m, id);
    case Confirmation(id, inclusion) => hide OrderInv; ConfirmationOrder(m, step);
    case Shutdown(close) => hide OrderInv; ShutdownOrder(m, close);
    case Reset(l1Origin) =>
  }

  lemma {:induction false} RunOrder(m: ManagerValue, steps: seq<ManagerRuns.Step>)
    requires CanRun(m, steps) && TidyRun(m, steps) && OrderInv(m) && Core(m)
    ensures OrderInv(Run(m, steps))
    decreases |steps|
  {
    hide OrderInv;
    hide Core;
    hide Small;
    hide Tidy;
    hide Admissible;
    hide ManagerValue.Wf;
    if steps != [] {
      NextOrder(m, steps[0]);
      ManagerRuns.NextKeeps(m, steps[0]);
      hide ManagerRuns.Next;
      RunOrder(ManagerRuns.Next(m, steps[0]), steps[1..]);
    }
  }

  /** Across any number of timeouts, as long as each is of the newest channel and no block failed to be added: the
      channels that have not timed out, in opening order, and then the queue hold exactly the accepted blocks,
      each once and in the order of the chain. */
  lemma OrderAcrossTimeouts(l1Origin: BlockID, steps: seq<ManagerRuns.Step>)
    requires CanRun(Cleared(l1Origin), steps) && TidyRun(Cleared(l1Origin), steps)
    ensures var m := Run(Cleared(l1Origin), steps);
            && (!m.addFailed ==> Live(m.chans, m.timedOut) + m.blocks == m.accepted)
            && Chained(m)
  {
    ClearedCore(l1Origin);
    Reachable(l1Origin, steps);
    assert OrderInv(Cleared(l1Origin));
    RunOrder(Cleared(l1Origin), steps);
    hide Core;
    hide Sound;
    hide Held;
    hide InOrder;
    hide Chained;
    hide Run;
    hide CanRun;
  }

  // The condition is exact: a timeout out of turn disturbs the order.

  /** The blocks of the channels after `c` that have not timed out. */
  function LiveAfter(chans: seq<ChannelValue>, out: set<nat>, c: nat): seq<Block> {
    if |chans| <= c + 1 then []
    else
      var k := |chans| - 1;
      LiveAfter(chans[..k], out, c) + if k in out then [] else chans[k].builder.blocks
  }

  lemma {:induction false} LiveSplit(chans: seq<ChannelValue>, out: set<nat>, c: nat)
    requires c < |chans|
    ensures Live(chans, out) == Live(chans[..c], out) + (if c in out then [] else chans[c].builder.blocks) + LiveAfter(chans, out, c)
    decreases |chans|
  {
    var k := |chans| - 1;
    if k > c {
      LiveSplit(chans[..k], out, c);
      assert chans[..k][..c] == chans[..c];
    }
  }

  lemma {:induction false} LiveAfterSame(chans: seq<ChannelValue>, out: set<nat>, c: nat)
    ensures LiveAfter(chans, out + {c}, c) == LiveAfter(chans, out, c)
    decreases |chans|
  {
    if |chans| > c + 1 {
      LiveAfterSame(chans[..|chans| - 1], out, c);
    }
  }

  ghost predicate Different(xs: seq<Block>) {
    forall i, j :: 0 <= i < j < |xs| ==> xs[i] != xs[j]
  }

  lemma Swapped(p: seq<Block>, b: seq<Block>, r: seq<Block>, q: seq<Block>)
    requires Different(p + b + r + q) && b != [] && r != []
    ensures p + r + (b + q) != p + b + r + q
  {
    assert (p + b + r + q)[|p|] == b[0] && (p + b + r + q)[|p| + |b|] == r[0];
    assert (p + r + (b + q))[|p|] == r[0];
  }

  /** Channel `c`, queued or not, gives its blocks back to a queue that was in order: the order is kept if and only
      if it has none, or it does so for the first time and no later live channel has any. */
  lemma TimeoutKeepsOrderIff(m: ManagerValue, c: nat)
    requires Straight(m) && c < |m.chans| && Different(m.accepted)
    ensures Straight(m.(blocks := m.chans[c].builder.blocks + m.blocks, timedOut := m.timedOut + {c}))
       <==> m.chans[c].builder.blocks == [] || (c !in m.timedOut && LiveAfter(m.chans, m.timedOut, c) == [])
  {
    var b, r := m.chans[c].builder.blocks, LiveAfter(m.chans, m.timedOut, c);
    var p := Live(m.chans[..c], m.timedOut);
    var out := m.timedOut + {c};
    LiveSplit(m.chans, m.timedOut, c);
    LiveSplit(m.chans, out, c);
    LiveAfterSame(m.chans, m.timedOut, c);
    LiveSame(m.chans[..c], m.chans[..c], m.timedOut, out);
    hide Live;
    hide LiveAfter;
    hide Different;
    assert p + [] == p;
    Regrouped(p, b, r, m.blocks, c in m.timedOut);
  }

  lemma Regrouped(p: seq<Block>, b: seq<Block>, r: seq<Block>, q: seq<Block>, again: bool)
    requires Different(p + (if again then [] else b) + r + q)
    ensures p + r + (b + q) == p + (if again then [] else b) + r + q <==> b == [] || (!again && r == [])
  {
    hide Different;
    if again {
      assert p + [] == p && |p + r + (b + q)| == |p + r + q| + |b|;
      assert b == [] ==> b + q == q;
    } else if b != [] && r != [] {
      Swapped(p, b, r, q);
    } else {
      assert r == [] ==> p + r == p && p + b + r == p + b && p + (b + q) == p + b + q;
      assert b == [] ==> b + q == q && p + b == p;
    }
  }

  /** After a timeout the next call that fills a channel takes the returned blocks before every block that waited. */
  lemma ReturnedAreTakenFirst(m: ManagerValue, k: string, inclusion: BlockID, c: nat, adds: nat -> AddOutcome) returns (taken: seq<Block>)
    requires m.Wf() && k in m.txChannels && TimesOut(m, k, inclusion)
    requires c < |m.chans|
    ensures var m1 := ManagerSpec.TxConfirmed(m, k, inclusion);
            && c < |m1.chans| && m1.chans[c].builder.cfg.Valid()
            && var (m2, ok) := ProcessBlocks(m1, c, adds);
               ok ==> m2.chans[c].builder.blocks == m.chans[c].builder.blocks + taken
                      && taken + m2.blocks == m.chans[m.txChannels[k]].builder.blocks + m.blocks
  {
    ConfirmationMoves(m, k, inclusion);
    ConfirmationConfig(m, k, inclusion, c);
    assert m.txChannels[k] < |m.chans|;
    hide *;
    taken := ProcessTakes(ManagerSpec.TxConfirmed(m, k, inclusion), c, adds);
  }

  lemma ProcessTakes(m: ManagerValue, c: nat, adds: nat -> AddOutcome) returns (taken: seq<Block>)
    requires c < |m.chans| && m.chans[c].builder.cfg.Valid()
    ensures var (m', ok) := ProcessBlocks(m, c, adds);
            && |m'.chans| == |m.chans|
            && (ok ==> m'.chans[c].builder.blocks == m.chans[c].builder.blocks + taken && taken + m'.blocks == m.blocks)
  {
    hide AddBlocks;
    AddBlocksTakes(m.chans[c].builder, m.blocks, adds, 0);
    var n := AddBlocks(m.chans[c].builder, m.blocks, adds, 0).1;
    taken := if n.Some? then m.blocks[0..n.value] else [];
    assert n.Some? ==> m.blocks[0..n.value] + m.blocks[n.value..] == m.blocks;
  }

  lemma ConfirmationConfig(m: ManagerValue, k: string, inclusion: BlockID, c: nat)
    requires m.Wf() && k in m.txChannels && c < |m.chans|
    ensures var m1 := ManagerSpec.TxConfirmed(m, k, inclusion);
            c < |m1.chans| && m1.chans[c].builder.cfg.Valid()
  {
    hide Without;
    hide ChannelValue.TimedOut;
    hide ChannelValue.FullySubmitted;
  }
}
