/** Runs of one channel: blocks are added, frames created, transactions sent, failed and confirmed
    in any order. */
module ChannelRuns {
  import opened Bytes
  import opened TxDatas
  import opened BuilderSpec
  import opened Segmentation
  import opened Deadlines
  import opened ChannelSpec
  import opened FrameConservation

  datatype Step =
    | Add(block: Block, outcome: AddOutcome)
    | Output(close: CloseOutcome)
    | Register(l1Head: nat)
    | Terminate
    | Send
    | Fail(id: string)
    | Confirmation(id: string, inclusion: BlockID)

  ghost function Next(c: ChannelValue, step: Step): ChannelValue
    requires c.builder.cfg.Valid() && c.builder.co.taken <= |c.builder.co.stream|
  {
    match step
    case Add(block, outcome) => c.(builder := AddBlock(c.builder, block, outcome).0)
    case Output(close) => c.(builder := OutputFrames(c.builder, close).0)
    case Register(l1Head) => c.(builder := CheckTimeout(c.builder, l1Head))
    case Terminate => c.(builder := Close(c.builder))
    case Send => if c.HasTxData() then NextTxData(c) else c
    case Fail(id) => TxFailed(c, id)
    case Confirmation(id, inclusion) => TxConfirmed(c, id, inclusion).0
  }

  lemma InvShape(c: ChannelValue)
    requires ChannelInv(c)
    ensures c.builder.cfg.Valid() && c.builder.co.taken <= |c.builder.co.stream|
  {
  }

  lemma SegmentedSame(b: BuilderValue, b': BuilderValue)
    requires Segmented(b) && b'.cfg == b.cfg && b'.co == b.co && b'.made == b.made && b'.numFrames == b.numFrames
    requires b.IsFull() ==> b'.IsFull()
    ensures Segmented(b')
  {
    hide Payloads;
  }

  lemma TimedSame(b: BuilderValue, b': BuilderValue)
    requires Timed(b) && b'.cfg == b.cfg && b'.timeout == b.timeout && b'.timeoutReason == b.timeoutReason
    requires b'.deadlines == b.deadlines && b'.blocks == b.blocks
    ensures Timed(b')
  {
    hide TimeoutOf;
    hide Positive;
  }

  lemma PublishedSame(b: BuilderValue, b': BuilderValue, confirmed: map<string, BlockID>)
    requires Published(b, confirmed) && b'.cfg == b.cfg && b'.deadlines == b.deadlines && b'.blocks == b.blocks
    ensures Published(b', confirmed)
  {
  }

  lemma AddPublished(b: BuilderValue, block: Block, outcome: AddOutcome, confirmed: map<string, BlockID>)
    requires Published(b, confirmed)
    ensures Published(AddBlock(b, block, outcome).0, confirmed)
  {
    AddBlockDated(b, block, outcome);
    hide AddBlock;
    hide BlocksDated;
    hide Positive;
  }

  lemma ConfirmPublished(b: BuilderValue, confirmed: map<string, BlockID>, id: string, inclusion: BlockID)
    requires Published(b, confirmed) && id !in confirmed
    ensures Published(BuilderSpec.FramePublished(b, inclusion.number), confirmed[id := inclusion])
  {
    var b', all := BuilderSpec.FramePublished(b, inclusion.number), confirmed[id := inclusion];
    var d := Deadline(inclusion.number + b.cfg.channelTimeout - b.cfg.subSafetyMargin, ChannelTimeoutClose);
    assert b'.deadlines == b.deadlines + [d] && b'.blocks == b.blocks && b'.cfg == b.cfg;
    hide BuilderSpec.FramePublished;
    if InclusionsDated(b', all) {
      assert all[id] == inclusion && forall k :: k in confirmed ==> k in all && all[k] == confirmed[k];
    }
  }

  lemma AddKeeps(c: ChannelValue, block: Block, outcome: AddOutcome)
    requires ChannelInv(c)
    ensures ChannelInv(c.(builder := AddBlock(c.builder, block, outcome).0))
  {
    hide Conserved;
    hide Segmented;
    hide Timed;
    hide Published;
    hide AddBlock;
    InvShape(c);
    AddBlockSegmented(c.builder, block, outcome);
    AddBlockTimed(c.builder, block, outcome);
    AddBlockFrame(c.builder, block, outcome);
    var c' := c.(builder := AddBlock(c.builder, block, outcome).0);
    SameConserved(c, c');
    AddPublished(c.builder, block, outcome, c.confirmed);
  }

  lemma OutputKeeps(c: ChannelValue, close: CloseOutcome)
    requires ChannelInv(c)
    requires c.builder.cfg.Valid() && c.builder.co.taken <= |c.builder.co.stream|
    requires |OutputFrames(c.builder, close).0.made| <= MAX_UINT16 + 1
    ensures ChannelInv(c.(builder := OutputFrames(c.builder, close).0))
  {
    hide Conserved;
    hide Segmented;
    hide Timed;
    hide Published;
    hide OutputFrames;
    OutputFramesSegmented(c.builder, close);
    OutputFramesConserves(c, close);
    OutputFramesFrame(c.builder, close);
    var b' := OutputFrames(c.builder, close).0;
    TimedSame(c.builder, b');
    PublishedSame(c.builder, b', c.confirmed);
  }

  lemma SendKeeps(c: ChannelValue)
    requires ChannelInv(c) && c.HasTxData()
    ensures ChannelInv(NextTxData(c))
  {
    hide Conserved;
    hide Segmented;
    hide Timed;
    hide Published;
    hide Accounted;
    hide Render;
    InvShape(c);
    NextTxDataConserves(c);
    SegmentedSame(c.builder, NextTxData(c).builder);
    TimedSame(c.builder, NextTxData(c).builder);
    PublishedSame(c.builder, NextTxData(c).builder, c.confirmed);
  }

  lemma FailKeeps(c: ChannelValue, id: string)
    requires ChannelInv(c)
    ensures ChannelInv(TxFailed(c, id))
  {
    hide Conserved;
    hide Segmented;
    hide Timed;
    hide Published;
    hide Accounted;
    TxFailedConserves(c, id);
    SegmentedSame(c.builder, TxFailed(c, id).builder);
    TimedSame(c.builder, TxFailed(c, id).builder);
    PublishedSame(c.builder, TxFailed(c, id).builder, c.confirmed);
  }

  lemma ConfirmAccounted(c: ChannelValue, id: string, inclusion: BlockID)
    requires Accounted(c) && c.builder.cfg.Valid() && id in c.pending
    ensures Accounted(Confirm(c, id, inclusion))
  {
    hide FramePublished;
    var c' := Confirm(c, id, inclusion);
    assert c'.pending.Keys == c.pending.Keys - {id};
    assert c'.confirmed.Keys == c.confirmed.Keys + {id};
  }

  lemma ConfirmKeeps(c: ChannelValue, id: string, inclusion: BlockID)
    requires ChannelInv(c) && c.builder.cfg.Valid() && id in c.pending
    ensures ChannelInv(Confirm(c, id, inclusion))
  {
    hide Conserved;
    hide Segmented;
    hide Timed;
    var c' := Confirm(c, id, inclusion);
    UpdateTimeoutTimed(c.builder, inclusion.number + c.builder.cfg.channelTimeout - c.builder.cfg.subSafetyMargin, ChannelTimeoutClose);
    SegmentedSame(c.builder, c'.builder);
    SameConserved(c, c');
    assert id !in c.confirmed;
    ConfirmAccounted(c, id, inclusion);
    hide Accounted;
    ConfirmPublished(c.builder, c.confirmed, id, inclusion);
    hide Published;
  }

  lemma MarkedKeeps(c: ChannelValue, full: Option<FullReason>)
    requires ChannelInv(c) && (c.builder.IsFull() ==> full.Some?)
    ensures ChannelInv(c.(builder := c.builder.(full := full)))
  {
    hide Conserved;
    hide Segmented;
    hide Timed;
    hide Published;
    var b' := c.builder.(full := full);
    SameConserved(c, c.(builder := b'));
    SegmentedSame(c.builder, b');
    TimedSame(c.builder, b');
    PublishedSame(c.builder, b', c.confirmed);
  }

  /** Every step keeps the channel consistent, as long as frame numbers fit 16 bits. */
  lemma NextKeeps(c: ChannelValue, step: Step)
    requires ChannelInv(c)
    requires c.builder.cfg.Valid() && c.builder.co.taken <= |c.builder.co.stream|
    requires |Next(c, step).builder.made| <= MAX_UINT16 + 1
    ensures ChannelInv(Next(c, step))
  {
    match step
    case Add(block, outcome) => AddKeeps(c, block, outcome);
    case Output(close) => OutputKeeps(c, close);
    case Register(l1Head) => MarkedKeeps(c, CheckTimeout(c.builder, l1Head).full);
    case Terminate => MarkedKeeps(c, Close(c.builder).full);
    case Send =>
      if c.HasTxData() {
        SendKeeps(c);
      }
    case Fail(id) => FailKeeps(c, id);
    case Confirmation(id, inclusion) =>
      if id in c.pending {
        ConfirmKeeps(c, id, inclusion);
      }
  }

  lemma NewChannelInv(cfg: ChannelConfig, id: ChannelID, latestL1Origin: nat)
    requires cfg.Valid() && id != ZeroChannelID
    ensures ChannelInv(NewChannel(cfg, id, latestL1Origin))
  {
    NewBuilderTimed(cfg, id, latestL1Origin);
  }

  ghost predicate InTx(c: ChannelValue, txs: set<string>, n: nat) {
    exists k :: k in txs && k in c.sent && Carries(c.sent[k], n)
  }

  /** Every frame created is in the queue, in one pending or in one confirmed transaction, and in
      no two of them. */
  lemma ExactlyOnePlace(c: ChannelValue, n: nat)
    requires ChannelInv(c) && n < c.builder.numFrames
    ensures InQueue(c, n) || InTx(c, c.pending.Keys, n) || InTx(c, c.confirmed.Keys, n)
    ensures !(InQueue(c, n) && InTx(c, c.pending.Keys, n)) && !(InQueue(c, n) && InTx(c, c.confirmed.Keys, n))
    ensures !(InTx(c, c.pending.Keys, n) && InTx(c, c.confirmed.Keys, n))
    ensures forall k, l :: k in c.sent && l in c.sent && Carries(c.sent[k], n) && Carries(c.sent[l], n) ==> k == l
  {
    hide InQueue;
    hide Carries;
    hide Render;
    hide Payloads;
    hide Timed;
    assert c.builder.numFrames == |c.builder.made|;
  }

  function Range(n: nat): (r: set<nat>)
    ensures forall i: nat :: i in r <==> i < n
    ensures |r| == n
  {
    if n == 0 then {} else Range(n - 1) + {n - 1}
  }

  /** The frame numbers created so far that are in the queue, or in one of the transactions. */
  ghost function Queued(c: ChannelValue): set<nat> {
    set n | n in Range(c.builder.numFrames) && InQueue(c, n)
  }

  ghost function Sent(c: ChannelValue, txs: set<string>): set<nat> {
    set n | n in Range(c.builder.numFrames) && InTx(c, txs, n)
  }

  /** The total is the sum over the three places. */
  lemma TotalIsSum(c: ChannelValue)
    requires ChannelInv(c)
    ensures c.builder.numFrames == |Queued(c)| + |Sent(c, c.pending.Keys)| + |Sent(c, c.confirmed.Keys)|
  {
    hide ChannelInv;
    hide InQueue;
    hide InTx;
    hide Range;
    var N, q, p, d := c.builder.numFrames, Queued(c), Sent(c, c.pending.Keys), Sent(c, c.confirmed.Keys);
    forall n | n in Range(N)
      ensures n in q || n in p || n in d
      ensures !(n in q && n in p) && !(n in q && n in d) && !(n in p && n in d)
    {
      ExactlyOnePlace(c, n);
    }
    assert q + p + d == Range(N);
    assert |q + p + d| == |q + p| + |d| && |q + p| == |q| + |p|;
  }

  /** A fully submitted channel has nothing outside its confirmed transactions. */
  lemma FullySubmittedIsSound(c: ChannelValue)
    requires ChannelInv(c) && c.FullySubmitted()
    ensures forall n: nat :: n < c.builder.numFrames ==> InTx(c, c.confirmed.Keys, n)
    ensures forall k, j :: k in c.confirmed && 0 <= j < |c.sent[k].frames| ==> IsMade(c.builder, c.sent[k].frames[j])
  {
    forall n: nat | n < c.builder.numFrames
      ensures InTx(c, c.confirmed.Keys, n)
    {
      ExactlyOnePlace(c, n);
      assert c.pending.Keys == {};
    }
    hide Render;
    hide Payloads;
    hide Timed;
    forall k | k in c.confirmed
      ensures GoodTx(c.builder, k, c.sent[k])
    {
    }
  }

  /** The head is before the deadline of every block in the channel and of every transaction confirmed
      for it. */
  ghost predicate InTime(c: ChannelValue, l1Head: nat) {
    var cfg := c.builder.cfg;
    && cfg.Valid()
    && (forall k :: 0 <= k < |c.builder.blocks| ==>
         l1Head < c.builder.blocks[k].l1Origin.number + cfg.seqWindowSize - cfg.subSafetyMargin)
    && (forall k :: k in c.confirmed ==>
         l1Head < c.confirmed[k].number + cfg.channelTimeout - cfg.subSafetyMargin)
  }

  /** Nothing in the channel has contributed a deadline of zero: with the windows that Check allows, that
      could only be a block of epoch 0 or a transaction included in block 0. */
  ghost predicate Dated(c: ChannelValue) {
    BlocksDated(c.builder) && InclusionsDated(c.builder, c.confirmed)
  }

  /** In every reachable state the channel has a zero deadline exactly if it is not dated. */
  lemma PositiveIffDated(c: ChannelValue)
    requires ChannelInv(c)
    ensures Positive(c.builder.deadlines) <==> Dated(c)
  {
    hide Conserved;
    hide Segmented;
    hide TimeoutOf;
    var b := c.builder;
    if Positive(b.deadlines) {
      forall k | 0 <= k < |b.blocks|
        ensures b.blocks[k].l1Origin.number + b.cfg.seqWindowSize > b.cfg.subSafetyMargin
      {
        var d := Deadline(b.blocks[k].l1Origin.number + b.cfg.seqWindowSize - b.cfg.subSafetyMargin, SeqWindowClose);
        var i :| 0 <= i < |b.deadlines| && b.deadlines[i] == d;
      }
      forall k | k in c.confirmed
        ensures c.confirmed[k].number + b.cfg.channelTimeout > b.cfg.subSafetyMargin
      {
        var d := Deadline(c.confirmed[k].number + b.cfg.channelTimeout - b.cfg.subSafetyMargin, ChannelTimeoutClose);
        var i :| 0 <= i < |b.deadlines| && b.deadlines[i] == d;
      }
    }
  }

  /** An open channel whose L1 head was registered is ahead of its deadlines. */
  lemma OpenChannelInTime(c: ChannelValue, l1Head: nat)
    requires ChannelInv(c) && Dated(c) && !CheckTimeout(c.builder, l1Head).IsFull()
    ensures InTime(c, l1Head)
  {
    hide Conserved;
    hide Segmented;
    hide Timed;
    hide Accounted;
    hide Positive;
    hide CheckTimeout;
    InvShape(c);
    PositiveIffDated(c);
    hide Dated;
    OpenMeansInTime(c.builder, l1Head);
    forall k | k in c.confirmed
      ensures l1Head < c.confirmed[k].number + c.builder.cfg.channelTimeout - c.builder.cfg.subSafetyMargin
    {
      var d := Deadline(c.confirmed[k].number + c.builder.cfg.channelTimeout - c.builder.cfg.subSafetyMargin, ChannelTimeoutClose);
      assert d in c.builder.deadlines;
      var i :| 0 <= i < |c.builder.deadlines| && c.builder.deadlines[i] == d;
    }
  }

  /** How many frames a transaction gets: one as calldata, and as blobs the target number, or fewer at
      the end of a full channel. */
  lemma TxSize(c: ChannelValue)
    requires c.HasTxData() && c.builder.cfg.Valid()
    ensures var n := |c.NextTx().frames|;
            && 1 <= n <= c.builder.cfg.MaxFramesPerTx()
            && (!c.builder.cfg.useBlobs ==> n == 1)
            && (c.builder.cfg.useBlobs && n < c.builder.cfg.targetNumFrames ==> c.builder.IsFull() && n == |c.builder.frames|)
            && (c.NextTx().asBlob <==> c.builder.cfg.useBlobs)
            && c.NextTx().frames + NextTxData(c).builder.frames == c.builder.frames
  {
    hide Render;
  }
}
