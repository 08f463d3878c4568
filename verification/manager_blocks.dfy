/** No L2 block is lost on the way from the manager's queue into channels. */
module ManagerBlocks {
  import opened Bytes
  import opened TxDatas
  import opened BuilderSpec
  import opened ChannelSpec
  import opened FrameConservation
  import opened ChannelRuns
  import opened ManagerSpec
  import opened ManagerIndex
  import opened ManagerRuns

  /** A block waits in the queue, or is in a queued or in a fully submitted channel. */
  ghost predicate Has(m: ManagerValue, x: Block) {
    x in m.blocks || exists c :: 0 <= c < |m.chans| && (c in m.queue || c in m.done) && x in m.chans[c].builder.blocks
  }

  /** Until Close, every block accepted since Clear is somewhere. */
  ghost predicate Held(m: ManagerValue) {
    !m.closed ==> forall i :: 0 <= i < |m.accepted| ==> Has(m, m.accepted[i])
  }

  function AllBlocks(chans: seq<ChannelValue>): seq<Block> {
    if chans == [] then [] else AllBlocks(chans[..|chans| - 1]) + chans[|chans| - 1].builder.blocks
  }

  /** Unless a channel timed out or a block could not be added, the channels in opening order and then
      the queue hold exactly the accepted blocks, in order. */
  ghost predicate InOrder(m: ManagerValue) {
    m.timedOut == {} && !m.addFailed ==> AllBlocks(m.chans) + m.blocks == m.accepted
  }

  /** The accepted blocks form a chain of parent hashes that ends at the tip. */
  ghost predicate Chained(m: ManagerValue) {
    && m.tip == (if m.accepted == [] then 0 else m.accepted[|m.accepted| - 1].hash)
    && forall i :: 0 <= i < |m.accepted| - 1 ==>
         m.accepted[i].hash != 0 ==> m.accepted[i + 1].parentHash == m.accepted[i].hash
  }

  ghost predicate Kept(m: ManagerValue) {
    Held(m) && InOrder(m) && Chained(m)
  }

  /** Each channel holds the same blocks as before. */
  ghost predicate SameBlocks(m: ManagerValue, m': ManagerValue) {
    && |m'.chans| == |m.chans|
    && (forall c :: 0 <= c < |m.chans| ==> m'.chans[c].builder.blocks == m.chans[c].builder.blocks)
    && m'.accepted == m.accepted && m'.tip == m.tip && m'.addFailed == m.addFailed
  }

  lemma {:induction false} AllBlocksSame(a: seq<ChannelValue>, b: seq<ChannelValue>)
    requires |a| == |b| && forall c :: 0 <= c < |a| ==> a[c].builder.blocks == b[c].builder.blocks
    ensures AllBlocks(a) == AllBlocks(b)
    decreases |a|
  {
    if a != [] {
      AllBlocksSame(a[..|a| - 1], b[..|b| - 1]);
    }
  }

  /** Nothing about the blocks changes. */
  lemma SameKept(m: ManagerValue, m': ManagerValue)
    requires Kept(m) && SameBlocks(m, m') && m'.blocks == m.blocks && m'.done == m.done
    requires m'.queue == m.queue || m'.closed
    requires m'.closed == m.closed || m'.closed
    requires m.timedOut <= m'.timedOut
    ensures Kept(m')
  {
    AllBlocksSame(m.chans, m'.chans);
    hide AllBlocks;
    forall x | Has(m, x) && m'.queue == m.queue
      ensures Has(m', x)
    {
    }
    hide Has;
    assert m'.timedOut == {} ==> m.timedOut == {};
  }

  lemma NewBlockKept(m: ManagerValue, block: Block)
    requires Kept(m)
    ensures Kept(AddL2Block(m, block).0)
  {
    hide AllBlocks;
    hide Held;
    hide Chained;
    NewBlockHeld(m, block);
    NewBlockChained(m, block);
    assert AllBlocks(m.chans) + (m.blocks + [block]) == (AllBlocks(m.chans) + m.blocks) + [block];
  }

  lemma NewBlockHeld(m: ManagerValue, block: Block)
    requires Held(m)
    ensures Held(AddL2Block(m, block).0)
  {
    var m' := AddL2Block(m, block).0;
    forall x | Has(m, x)
      ensures Has(m', x)
    {
    }
    assert AddL2Block(m, block).1 ==> Has(m', block);
    hide Has;
  }

  lemma NewBlockChained(m: ManagerValue, block: Block)
    requires Chained(m)
    ensures Chained(AddL2Block(m, block).0)
  {
  }

  lemma FailureKept(m: ManagerValue, k: string)
    requires Kept(m) && m.Wf()
    ensures Kept(ManagerSpec.TxFailed(m, k))
  {
    hide Kept;
    hide Without;
    if k in m.txChannels {
      assert ChannelSpec.TxFailed(m.chans[m.txChannels[k]], k).builder.blocks == m.chans[m.txChannels[k]].builder.blocks;
      hide ChannelSpec.TxFailed;
      SameKept(m, ManagerSpec.TxFailed(m, k));
    } else {
      SameKept(m, m);
    }
  }

  /** A timed-out channel gives its blocks back, a fully submitted one is remembered as done. */
  lemma ConfirmationKept(m: ManagerValue, k: string, inclusion: BlockID)
    requires Kept(m) && m.Wf() && Core(m)
    ensures Kept(ManagerSpec.TxConfirmed(m, k, inclusion))
  {
    hide Core;
    hide ChannelInv;
    hide Kept;
    hide Without;
    hide RemovePending;
    if k in m.txChannels {
      var c := m.txChannels[k];
      KnownTx(m, k);
      var (v, verdict) := ChannelSpec.TxConfirmed(m.chans[c], k, inclusion);
      assert v.builder.blocks == m.chans[c].builder.blocks;
      hide Confirm;
      var m' := Set(m, c, v).(txChannels := m.txChannels - {k});
      SameKept(m, m');
      CoreAfterConfirm(m, k, inclusion);
      match verdict
      case Ongoing =>
      case TimedOut => ReturnedKept(m', c);
      case Done => DoneKept(m', c);
    }
  }

  lemma CoreAfterConfirm(m: ManagerValue, k: string, inclusion: BlockID)
    requires Core(m) && m.Wf() && k in m.txChannels
    ensures var c := m.txChannels[k];
            Core(Set(m, c, ChannelSpec.TxConfirmed(m.chans[c], k, inclusion).0).(txChannels := m.txChannels - {k}))
  {
    hide Core;
    hide ChannelInv;
    KnownTx(m, k);
    ConfirmKeeps(m.chans[m.txChannels[k]], k, inclusion);
    UnpendKeeps(m, k, Confirm(m.chans[m.txChannels[k]], k, inclusion));
  }

  lemma ReturnedKept(m: ManagerValue, c: nat)
    requires Kept(m) && Core(m) && c < |m.chans|
    ensures Kept(RemovePending(m.(blocks := m.chans[c].builder.blocks + m.blocks, timedOut := m.timedOut + {c}), c))
  {
    hide Without;
    hide AllBlocks;
    hide ChannelInv;
    WithoutOrdered(m.queue, c);
    var m' := RemovePending(m.(blocks := m.chans[c].builder.blocks + m.blocks, timedOut := m.timedOut + {c}), c);
    forall x | Has(m, x)
      ensures Has(m', x)
    {
    }
    hide Has;
    hide Core;
    assert c in m'.timedOut;
  }

  lemma DoneKept(m: ManagerValue, c: nat)
    requires Kept(m) && Core(m) && c < |m.chans|
    ensures Kept(RemovePending(m.(done := m.done + {c}), c))
  {
    hide Without;
    hide AllBlocks;
    hide ChannelInv;
    WithoutOrdered(m.queue, c);
    var m' := RemovePending(m.(done := m.done + {c}), c);
    forall x | Has(m, x)
      ensures Has(m', x)
    {
    }
    hide Has;
    hide Core;
  }

  lemma PopSame(m: ManagerValue, from: Option<nat>)
    requires from.Some? ==> from.value < |m.chans|
    ensures var m' := PopTx(m, from).0;
            SameBlocks(m, m') && m'.blocks == m.blocks && m'.done == m.done && m'.queue == m.queue
            && m'.closed == m.closed && m'.timedOut == m.timedOut
  {
    hide Render;
  }

  lemma PopKept(m: ManagerValue, from: Option<nat>)
    requires Kept(m) && (from.Some? ==> from.value < |m.chans|)
    ensures Kept(PopTx(m, from).0)
  {
    hide Kept;
    PopSame(m, from);
    hide PopTx;
    SameKept(m, PopTx(m, from).0);
  }

  lemma EnsureKept(m: ManagerValue, opening: Opening)
    requires Kept(m) && m.Wf()
    ensures EnsureSpace(m, opening).Some? ==> Kept(EnsureSpace(m, opening).value)
  {
    if EnsureSpace(m, opening).Some? && EnsureSpace(m, opening) != Some(m) {
      var m' := EnsureSpace(m, opening).value;
      var n := |m.chans|;
      assert m'.chans[..n] == m.chans && m'.chans[n].builder.blocks == [];
      hide NewChannel;
      assert AllBlocks(m'.chans) == AllBlocks(m.chans);
      hide AllBlocks;
      forall x | Has(m, x)
        ensures Has(m', x)
      {
        if c :| 0 <= c < |m.chans| && (c in m.queue || c in m.done) && x in m.chans[c].builder.blocks {
          assert m'.chans[c] == m.chans[c] && (c in m'.queue || c in m'.done);
        }
      }
      hide Has;
    }
  }

  lemma AddBlockTakes(b: BuilderValue, block: Block, outcome: AddOutcome)
    requires b.cfg.Valid()
    ensures var (b', result) := AddBlock(b, block, outcome);
            && b'.blocks == (if result.Added? then b.blocks + [block] else b.blocks) && b'.cfg == b.cfg
            && (result.ChannelFull? ==> b'.IsFull())
  {
  }

  lemma TakenStep(held: seq<Block>, blocks: seq<Block>, i: nat, n: nat)
    requires i < n <= |blocks|
    ensures held + [blocks[i]] + blocks[i + 1..n] == held + blocks[i..n]
  {
  }

  lemma {:induction false} AddBlocksTakes(b: BuilderValue, blocks: seq<Block>, adds: nat -> AddOutcome, i: nat)
    requires b.cfg.Valid() && i <= |blocks|
    ensures var (b', taken) := AddBlocks(b, blocks, adds, i);
            && b.blocks <= b'.blocks
            && (taken.Some? ==> i <= taken.value && b'.blocks == b.blocks + blocks[i..taken.value])
    decreases |blocks| - i
  {
    hide AddBlock;
    hide BuilderValue.IsFull;
    if i < |blocks| {
      AddBlockTakes(b, blocks[i], adds(i));
      var (b1, result) := AddBlock(b, blocks[i], adds(i));
      if result.Added? {
        TakenStep(b.blocks, blocks, i, i + 1);
        if !b1.IsFull() {
          AddBlocksTakes(b1, blocks, adds, i + 1);
          var (b', taken) := AddBlocks(b1, blocks, adds, i + 1);
          assert AddBlocks(b, blocks, adds, i) == (b', taken);
          hide AddBlocks;
          if taken.Some? {
            TakenStep(b.blocks, blocks, i, taken.value);
          }
        }
      }
    }
  }

  /** A full channel takes no block, and that is not an error. */
  lemma FullTakesNone(b: BuilderValue, blocks: seq<Block>, adds: nat -> AddOutcome, i: nat)
    requires b.cfg.Valid() && i <= |blocks| && b.IsFull()
    ensures AddBlocks(b, blocks, adds, i) == (b, Some(i))
  {
    hide AddBlock;
    if i < |blocks| {
      FullRefuses(b, blocks[i], adds(i));
    }
  }

  lemma FullRefuses(b: BuilderValue, block: Block, outcome: AddOutcome)
    requires b.cfg.Valid() && b.IsFull()
    ensures AddBlock(b, block, outcome) == (b, ChannelFull)
  {
  }

  /** No block waits while the channel still has space. */
  lemma {:induction false} OpenTakesAll(b: BuilderValue, blocks: seq<Block>, adds: nat -> AddOutcome, i: nat)
    requires b.cfg.Valid() && i <= |blocks|
    ensures var (b', taken) := AddBlocks(b, blocks, adds, i);
            taken.Some? && !b'.IsFull() ==> taken.value == |blocks|
    decreases |blocks| - i
  {
    if i < |blocks| {
      AddBlockTakes(b, blocks[i], adds(i));
      hide AddBlock;
      OpenTakesAll(AddBlock(b, blocks[i], adds(i)).0, blocks, adds, i + 1);
    }
  }

  /** The current channel is the last one opened, so what it takes from the front of the queue comes
      right after everything taken before. */
  lemma ProcessKept(m: ManagerValue, c: nat, adds: nat -> AddOutcome)
    requires Kept(m) && c == |m.chans| - 1 && c in m.queue && m.chans[c].builder.cfg.Valid()
    ensures Kept(ProcessBlocks(m, c, adds).0)
  {
    hide AddBlocks;
    hide Has;
    hide AllBlocks;
    var m' := ProcessBlocks(m, c, adds).0;
    forall x | Has(m, x)
      ensures Has(m', x)
    {
      ProcessHas(m, c, adds, x);
    }
    ProcessOrder(m, c, adds);
    hide ProcessBlocks;
    assert m'.accepted == m.accepted && m'.closed == m.closed && m'.tip == m.tip && m'.timedOut == m.timedOut by {
      ProcessRest(m, c, adds);
    }
  }

  lemma ProcessRest(m: ManagerValue, c: nat, adds: nat -> AddOutcome)
    requires c < |m.chans| && m.chans[c].builder.cfg.Valid()
    ensures var m' := ProcessBlocks(m, c, adds).0;
            m'.accepted == m.accepted && m'.closed == m.closed && m'.tip == m.tip && m'.timedOut == m.timedOut
            && m'.queue == m.queue && m'.done == m.done && (m.addFailed ==> m'.addFailed)
  {
    hide AddBlocks;
  }

  lemma ProcessOrder(m: ManagerValue, c: nat, adds: nat -> AddOutcome)
    requires c == |m.chans| - 1 && m.chans[c].builder.cfg.Valid()
    ensures var m' := ProcessBlocks(m, c, adds).0;
            m'.addFailed || AllBlocks(m'.chans) + m'.blocks == AllBlocks(m.chans) + m.blocks
    ensures m.addFailed ==> ProcessBlocks(m, c, adds).0.addFailed
  {
    hide AddBlocks;
    hide AllBlocks;
    AddBlocksTakes(m.chans[c].builder, m.blocks, adds, 0);
    var (b, taken) := AddBlocks(m.chans[c].builder, m.blocks, adds, 0);
    if taken.Some? {
      LastTakes(m.chans, m.chans[c].(builder := b), m.blocks, taken.value);
    }
  }

  lemma LastTakes(chans: seq<ChannelValue>, v: ChannelValue, blocks: seq<Block>, n: nat)
    requires chans != [] && n <= |blocks| && v.builder.blocks == chans[|chans| - 1].builder.blocks + blocks[0..n]
    ensures AllBlocks(chans[|chans| - 1 := v]) + blocks[n..] == AllBlocks(chans) + blocks
  {
    hide AllBlocks;
    LastGrows(chans, v, blocks[0..n]);
    assert blocks == blocks[0..n] + blocks[n..];
  }

  lemma LastGrows(chans: seq<ChannelValue>, v: ChannelValue, more: seq<Block>)
    requires chans != [] && v.builder.blocks == chans[|chans| - 1].builder.blocks + more
    ensures AllBlocks(chans[|chans| - 1 := v]) == AllBlocks(chans) + more
  {
    var c := |chans| - 1;
    assert chans[c := v][..c] == chans[..c];
  }

  lemma ProcessHas(m: ManagerValue, c: nat, adds: nat -> AddOutcome, x: Block)
    requires Has(m, x) && c < |m.chans| && c in m.queue && m.chans[c].builder.cfg.Valid()
    ensures Has(ProcessBlocks(m, c, adds).0, x)
  {
    hide AddBlocks;
    AddBlocksTakes(m.chans[c].builder, m.blocks, adds, 0);
    var m' := ProcessBlocks(m, c, adds).0;
    var (b, taken) := AddBlocks(m.chans[c].builder, m.blocks, adds, 0);
    if x in m.blocks {
      if taken.Some? {
        assert m.blocks == m.blocks[..taken.value] + m.blocks[taken.value..];
        if x in m.blocks[..taken.value] {
          assert x in m'.chans[c].builder.blocks;
        }
      }
    } else {
      var d :| 0 <= d < |m.chans| && (d in m.queue || d in m.done) && x in m.chans[d].builder.blocks;
      assert x in m'.chans[d].builder.blocks;
    }
  }

  lemma BuildKept(m: ManagerValue, c: nat, l1Head: nat, p: Pipeline)
    requires Kept(m) && c == |m.chans| - 1 && c in m.queue
    requires m.chans[c].builder.cfg.Valid() && m.chans[c].builder.co.taken <= |m.chans[c].builder.co.stream|
    ensures Kept(Build(m, c, l1Head, p).0)
  {
    hide Kept;
    hide AddBlocks;
    hide BuilderSpec.OutputFrames;
    hide CheckTimeout;
    ProcessKept(m, c, p.adds);
    var (m1, added) := ProcessBlocks(m, c, p.adds);
    if added {
      AddBlocksShape(m.chans[c].builder, m.blocks, p.adds, 0);
      CheckTimeoutFrame(m1.chans[c].builder, l1Head);
      WithBuilderKept(m1, c, CheckTimeout(m1.chans[c].builder, l1Head));
      OutputKept(WithBuilder(m1, c, CheckTimeout(m1.chans[c].builder, l1Head)), c, p.close);
    }
  }

  lemma WithBuilderKept(m: ManagerValue, c: nat, b: BuilderValue)
    requires Kept(m) && c < |m.chans| && b.blocks == m.chans[c].builder.blocks
    ensures Kept(WithBuilder(m, c, b))
  {
    hide Kept;
    SameKept(m, WithBuilder(m, c, b));
  }

  lemma OutputKept(m: ManagerValue, c: nat, close: CloseOutcome)
    requires Kept(m) && c < |m.chans|
    requires m.chans[c].builder.cfg.Valid() && m.chans[c].builder.co.taken <= |m.chans[c].builder.co.stream|
    ensures Kept(ManagerSpec.OutputFrames(m, c, close).0)
  {
    hide Kept;
    hide BuilderSpec.OutputFrames;
    OutputFramesFrame(m.chans[c].builder, close);
    SameKept(m, ManagerSpec.OutputFrames(m, c, close).0);
  }

  lemma RequestKept(m: ManagerValue, l1Head: nat, p: Pipeline)
    requires Kept(m) && Core(m) && m.Wf() && Admissible(m, Request(l1Head, p))
    ensures Kept(RequestTx(m, l1Head, p).0)
  {
    hide Kept;
    hide Core;
    hide Build;
    hide PopTx;
    var first := FirstWithData(m.chans, m.queue);
    if first.Some? || m.closed {
      PopKept(m, first);
    } else if m.blocks != [] {
      EnsureKept(m, p.opening);
      EnsureKeeps(m, p.opening);
      var space := EnsureSpace(m, p.opening);
      if space.Some? {
        var c := space.value.current.value;
        assert c == |space.value.chans| - 1 && c in space.value.queue by { CurrentLast(space.value); }
        hide EnsureSpace;
        BuildKept(space.value, c, l1Head, p);
        BuildSize(space.value, c, l1Head, p);
        var (m', ok) := Build(space.value, c, l1Head, p);
        if ok {
          PopKept(m', Some(c));
        }
      }
    }
  }

  lemma CurrentLast(m: ManagerValue)
    requires Core(m) && m.current.Some?
    ensures m.current.value == |m.chans| - 1 && m.current.value in m.queue
  {
    hide ChansOk;
    hide IdsDistinct;
    hide IndexAgrees;
  }

  lemma ShutdownKept(m: ManagerValue, close: CloseOutcome)
    requires Kept(m) && Core(m) && m.Wf()
    ensures Kept(CloseAll(m, close).0)
  {
    hide Kept;
    hide Core;
    hide DropIdle;
    hide BuilderSpec.OutputFrames;
    hide ManagerSpec.OutputFrames;
    if !m.closed {
      var m1 := DropIdle(m);
      DropSame(m);
      SameKept(m, m1);
      if m1.current.Some? && !m1.chans[m1.current.value].builder.IsFull() {
        TerminateKept(m1, m1.current.value, close);
      }
    }
  }

  lemma DropSame(m: ManagerValue)
    requires m.Wf()
    ensures var m' := DropIdle(m);
            && m'.chans == m.chans && m'.closed && m'.blocks == m.blocks && m'.done == m.done && m'.timedOut == m.timedOut
            && SameBlocks(m, m') && (m'.current.Some? ==> m'.current.value < |m.chans|) && m'.Wf()
  {
    hide Idle;
    hide Sweep;
    SweepShape(Swept(m.current, m.queue), Idle(m), m.queue, 0);
    assert forall i :: 0 <= i < |DropIdle(m).queue| ==> DropIdle(m).queue[i] in m.queue;
  }

  lemma TerminateKept(m: ManagerValue, c: nat, close: CloseOutcome)
    requires Kept(m) && c < |m.chans|
    requires m.chans[c].builder.cfg.Valid() && m.chans[c].builder.co.taken <= |m.chans[c].builder.co.stream|
    ensures Kept(ManagerSpec.OutputFrames(WithBuilder(m, c, BuilderSpec.Close(m.chans[c].builder)), c, close).0)
  {
    hide Kept;
    hide BuilderSpec.OutputFrames;
    hide ManagerSpec.OutputFrames;
    WithBuilderKept(m, c, BuilderSpec.Close(m.chans[c].builder));
    OutputKept(WithBuilder(m, c, BuilderSpec.Close(m.chans[c].builder)), c, close);
  }

  /** Every step keeps the blocks. */
  lemma NextKept(m: ManagerValue, step: ManagerRuns.Step)
    requires Kept(m) && Core(m) && m.Wf() && Admissible(m, step)
    ensures Kept(ManagerRuns.Next(m, step))
  {
    hide Kept;
    hide Core;
    hide ManagerValue.Wf;
    hide Admissible;
    match step
    case NewBlock(block) => NewBlockKept(m, block);
    case Request(l1Head, p) => RequestKept(m, l1Head, p);
    case Failure(id) => FailureKept(m, id);
    case Confirmation(id, inclusion) => ConfirmationKept(m, id, inclusion);
    case Shutdown(close) => ShutdownKept(m, close);
    case Reset(l1Origin) => ClearedKept(l1Origin);
  }

  lemma ClearedKept(l1Origin: BlockID)
    ensures Kept(Cleared(l1Origin))
  {
  }
}
