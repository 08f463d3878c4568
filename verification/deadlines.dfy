/** The timeout of a channel: what it is after any deadlines, and what an open channel can rely on. */
module Deadlines {
  import opened Bytes
  import opened BuilderSpec
  import opened TxDatas
  import opened Segmentation

  /** The first of the earliest deadlines. */
  ghost predicate FirstMin(ds: seq<Deadline>, i: int) {
    && 0 <= i < |ds|
    && (forall j :: 0 <= j < |ds| ==> ds[i].block <= ds[j].block)
    && forall j :: 0 <= j < i ==> ds[i].block < ds[j].block
  }

  ghost predicate Positive(ds: seq<Deadline>) {
    forall i :: 0 <= i < |ds| ==> ds[i].block > 0
  }

  /** The timeout and its reason after these deadlines, from none. */
  function TimeoutOf(ds: seq<Deadline>): (nat, Option<Reason>) {
    if ds == [] then (0, None)
    else
      var (timeout, reason) := TimeoutOf(ds[..|ds| - 1]);
      var d := ds[|ds| - 1];
      if timeout == 0 || timeout > d.block then (d.block, Some(d.reason)) else (timeout, reason)
  }

  /** The timeout is zero, "not set", exactly when the last deadline was zero or there was none. */
  lemma ZeroTimeoutIff(ds: seq<Deadline>)
    ensures TimeoutOf(ds).0 == 0 <==> ds == [] || ds[|ds| - 1].block == 0
    ensures ds != [] && ds[|ds| - 1].block == 0 ==> TimeoutOf(ds).1 == Some(ds[|ds| - 1].reason)
  {
  }

  lemma {:induction false} PositiveTimeout(ds: seq<Deadline>, i: int)
    requires Positive(ds) && FirstMin(ds, i)
    ensures TimeoutOf(ds) == (ds[i].block, Some(ds[i].reason))
  {
    var k := |ds| - 1;
    var init := ds[..k];
    if k > 0 {
      var j := FirstMinOf(init);
      PositiveTimeout(init, j);
      if i < k {
        assert FirstMin(init, i);
        FirstMinUnique(init, i, j);
      }
    }
  }

  lemma FirstMinUnique(ds: seq<Deadline>, i: int, j: int)
    requires FirstMin(ds, i) && FirstMin(ds, j)
    ensures i == j
  {
    assert ds[i].block == ds[j].block;
  }

  lemma {:induction false} FirstMinOf(ds: seq<Deadline>) returns (i: int)
    requires ds != []
    ensures FirstMin(ds, i)
  {
    var k := |ds| - 1;
    if k == 0 {
      i := 0;
    } else {
      i := FirstMinOf(ds[..k]);
      if ds[k].block < ds[i].block {
        i := k;
      }
    }
  }

  /** The timeout is the earliest of the deadlines contributed if and only if none of them is zero, or
      the last one is: a deadline of zero means "no timeout", so that a later one replaces it. */
  lemma TimeoutIsEarliestIff(ds: seq<Deadline>, i: int)
    requires FirstMin(ds, i)
    ensures TimeoutOf(ds).0 == ds[i].block <==> Positive(ds) || ds[|ds| - 1].block == 0
    ensures TimeoutOf(ds) == (ds[i].block, Some(ds[i].reason))
        <==> Positive(ds) || (ds[|ds| - 1].block == 0 && ds[i].reason == ds[|ds| - 1].reason)
  {
    ZeroTimeoutIff(ds);
    if Positive(ds) {
      PositiveTimeout(ds, i);
    } else {
      assert ds[i].block == 0;
    }
    hide TimeoutOf;
  }

  /** Timeout and reason are those of the deadlines contributed so far; every block in the channel has
      contributed its sequencing-window deadline. */
  ghost predicate Timed(b: BuilderValue) {
    && (b.timeout, b.timeoutReason) == TimeoutOf(b.deadlines)
    && b.cfg.Valid()
    && forall k :: 0 <= k < |b.blocks| ==>
         Deadline(b.blocks[k].l1Origin.number + b.cfg.seqWindowSize - b.cfg.subSafetyMargin, SeqWindowClose) in b.deadlines
  }

  lemma UpdateTimeoutTimed(b: BuilderValue, block: nat, reason: Reason)
    requires Timed(b)
    ensures Timed(UpdateTimeout(b, block, reason))
    ensures Deadline(block, reason) in UpdateTimeout(b, block, reason).deadlines
    ensures forall d :: d in b.deadlines ==> d in UpdateTimeout(b, block, reason).deadlines
  {
    assert (b.deadlines + [Deadline(block, reason)])[..|b.deadlines|] == b.deadlines;
  }

  lemma NewBuilderTimed(cfg: ChannelConfig, id: ChannelID, latestL1Origin: nat)
    requires cfg.Valid()
    ensures Timed(NewBuilder(cfg, id, latestL1Origin)) && Segmented(NewBuilder(cfg, id, latestL1Origin))
  {
    var b := BuilderValue(cfg, 0, None, None, ChannelOut(id, [], 0, false, 0), [], BlockID(0, 0), [], 0, 0, [], []);
    if cfg.maxChannelDuration > 0 {
      UpdateTimeoutTimed(b, latestL1Origin + cfg.maxChannelDuration, MaxDurationReached);
    }
  }

  lemma AddBlockTimed(b: BuilderValue, block: Block, outcome: AddOutcome)
    requires Timed(b)
    ensures Timed(AddBlock(b, block, outcome).0)
  {
    hide TimeoutOf;
    hide Positive;
    if outcome.BatchAccepted? {
      var b0 := b.(co := MakeReady(b.co, outcome.ready));
      var window := block.l1Origin.number + b.cfg.seqWindowSize - b.cfg.subSafetyMargin;
      UpdateTimeoutTimed(b0, window, SeqWindowClose);
      var b1 := UpdateTimeout(b0, window, SeqWindowClose);
      WithBlockTimed(b1, block);
      assert UpdateTimeout(b0.(blocks := b.blocks + [block]), window, SeqWindowClose) == b1.(blocks := b.blocks + [block]);
    }
  }

  lemma WithBlockTimed(b: BuilderValue, block: Block)
    requires Timed(b)
    requires Deadline(block.l1Origin.number + b.cfg.seqWindowSize - b.cfg.subSafetyMargin, SeqWindowClose) in b.deadlines
    ensures Timed(b.(blocks := b.blocks + [block]))
  {
    hide TimeoutOf;
    hide Positive;
  }

  /** The timeout of any builder is the earliest of all its deadlines if and only if no deadline was
      zero or the last one was; its reason is that of the first of them if none was. */
  lemma BuilderTimeoutIsEarliestIff(b: BuilderValue, i: int)
    requires Timed(b) && FirstMin(b.deadlines, i)
    ensures b.timeout == b.deadlines[i].block
        <==> Positive(b.deadlines) || b.deadlines[|b.deadlines| - 1].block == 0
    ensures Positive(b.deadlines) ==> b.timeout == b.deadlines[i].block && b.timeoutReason == Some(b.deadlines[i].reason)
  {
    TimeoutIsEarliestIff(b.deadlines, i);
    hide TimeoutOf;
  }

  /** Once an L1 head has been registered, an open channel without a zero deadline has all its deadlines
      still ahead. */
  lemma OpenMeansInTime(b: BuilderValue, l1Head: nat)
    requires Timed(b) && Positive(b.deadlines) && !CheckTimeout(b, l1Head).IsFull()
    ensures forall i :: 0 <= i < |b.deadlines| ==> l1Head < b.deadlines[i].block
    ensures forall k :: 0 <= k < |b.blocks| ==>
              l1Head < b.blocks[k].l1Origin.number + b.cfg.seqWindowSize - b.cfg.subSafetyMargin
  {
    if b.deadlines != [] {
      var m := FirstMinOf(b.deadlines);
      BuilderTimeoutIsEarliestIff(b, m);
    }
    hide TimeoutOf;
    forall k | 0 <= k < |b.blocks|
      ensures l1Head < b.blocks[k].l1Origin.number + b.cfg.seqWindowSize - b.cfg.subSafetyMargin
    {
      var d := Deadline(b.blocks[k].l1Origin.number + b.cfg.seqWindowSize - b.cfg.subSafetyMargin, SeqWindowClose);
      var i :| 0 <= i < |b.deadlines| && b.deadlines[i] == d;
    }
  }

  /** The deadline of no block is zero: its origin is after block 0, or the sequencing window is longer
      than the safety margin. */
  ghost predicate BlocksDated(b: BuilderValue) {
    forall k :: 0 <= k < |b.blocks| ==> b.blocks[k].l1Origin.number + b.cfg.seqWindowSize > b.cfg.subSafetyMargin
  }

  /** A zero deadline comes from a block or from elsewhere, not from adding this block, if it is dated. */
  lemma AddBlockDated(b: BuilderValue, block: Block, outcome: AddOutcome)
    requires b.cfg.Valid()
    ensures var b' := AddBlock(b, block, outcome).0;
            && b'.cfg == b.cfg && (BlocksDated(b') ==> BlocksDated(b))
            && (BlocksDated(b') && Positive(b.deadlines) ==> Positive(b'.deadlines))
            && forall d :: d in b.deadlines ==> d in b'.deadlines
  {
    var b' := AddBlock(b, block, outcome).0;
    var window := block.l1Origin.number + b.cfg.seqWindowSize - b.cfg.subSafetyMargin;
    assert (b'.blocks == b.blocks && b'.deadlines == b.deadlines)
        || (b'.blocks == b.blocks + [block] && b'.deadlines == b.deadlines + [Deadline(window, SeqWindowClose)]);
    hide AddBlock;
    if BlocksDated(b') {
      assert forall k :: 0 <= k < |b.blocks| ==> b'.blocks[k] == b.blocks[k];
      if b'.blocks == b.blocks + [block] {
        assert b'.blocks[|b.blocks|] == block;
      }
    }
  }

  /** A zero deadline does come about: a block at epoch 0 contributes
      one when the sequencing window equals the safety margin.  The builder then has no timeout, and
      the next block's deadline replaces all earlier ones, whatever they were. */
  lemma ZeroDeadlineForgets(b: BuilderValue, first: Block, next: Block, ready: seq<byte>)
    requires b.cfg.Valid() && !b.IsFull() && !b.co.closed
    requires first.l1Origin.number + b.cfg.seqWindowSize == b.cfg.subSafetyMargin
    ensures var b1 := AddBlock(b, first, BatchAccepted(ready, false)).0;
            var b2 := AddBlock(b1, next, BatchAccepted(ready, false)).0;
            && b1.timeout == 0 && b1.deadlines == b.deadlines + [Deadline(0, SeqWindowClose)]
            && b2.timeout == next.l1Origin.number + b.cfg.seqWindowSize - b.cfg.subSafetyMargin
            && b2.deadlines == b1.deadlines + [Deadline(b2.timeout, SeqWindowClose)]
  {
  }
}
