/** What the manager answers on every run: which blocks it accepts, which channel a transaction comes from, when a
    channel is opened, and that nothing ready to be sent is held back. */
module ManagerRequests {
  import opened Bytes
  import opened TxDatas
  import opened BuilderSpec
  import opened ChannelSpec
  import opened Segmentation
  import opened Deadlines
  import opened FrameConservation
  import opened ChannelRuns
  import opened ManagerSpec
  import opened ManagerIndex
  import opened ManagerRuns
  import opened ManagerBlocks
  import opened ManagerDone
  import opened ManagerDrain
  import opened ManagerResults

  /** A manager accepts a block exactly if it is the first since the manager was cleared, extends the block
      accepted last, or that block has the zero hash; otherwise nothing changes. */
  lemma AcceptsIffExtends(l1Origin: BlockID, steps: seq<ManagerRuns.Step>, block: Block)
    requires CanRun(Cleared(l1Origin), steps)
    ensures var m := Run(Cleared(l1Origin), steps);
            var (m', ok) := AddL2Block(m, block);
            && (ok <==> m.accepted == [] || m.accepted[|m.accepted| - 1].hash in {0, block.parentHash})
            && m' == if ok then m.(blocks := m.blocks + [block], accepted := m.accepted + [block], tip := m'.tip) else m
  {
    Reachable(l1Origin, steps);
    hide Run;
    hide CanRun;
    hide Core;
    hide Sound;
    hide Held;
    hide InOrder;
  }

  /** The channel has frames for a transaction: any frame of a full or calldata channel, and otherwise enough for
      the target number of blobs. */
  predicate Sendable(v: ChannelValue) {
    && v.builder.frames != []
    && (v.builder.full.Some? || !v.builder.cfg.useBlobs || |v.builder.frames| >= v.builder.cfg.targetNumFrames)
  }

  /** The first queued channel that can send. */
  ghost predicate FirstSendable(m: ManagerValue, c: nat) {
    exists k :: 0 <= k < |m.queue| && m.queue[k] == c && c < |m.chans| && Sendable(m.chans[c])
                && forall i :: 0 <= i < k && m.queue[i] < |m.chans| ==> !Sendable(m.chans[m.queue[i]])
  }

  ghost predicate NoneSendable(m: ManagerValue) {
    forall c :: c in m.queue && c < |m.chans| ==> !Sendable(m.chans[c])
  }

  lemma SendableIs(v: ChannelValue)
    requires v.builder.cfg.Valid()
    ensures Sendable(v) <==> v.HasTxData()
  {
  }

  lemma FirstIs(m: ManagerValue)
    requires m.Wf()
    ensures match FirstWithData(m.chans, m.queue)
            case None => NoneSendable(m)
            case Some(c) => FirstSendable(m, c) && !NoneSendable(m) && c in m.queue
  {
    forall i | 0 <= i < |m.queue|
      ensures Sendable(m.chans[m.queue[i]]) <==> m.chans[m.queue[i]].HasTxData()
    {
      SendableIs(m.chans[m.queue[i]]);
    }
    hide Sendable;
    hide ChannelValue.HasTxData;
    var r := FirstWithData(m.chans, m.queue);
    hide FirstWithData;
  }

  /** One frame as calldata, and as blobs the target number, or fewer if they were all that was left of a full
      channel. */
  ghost predicate RightSize(v: ChannelValue, data: TxData) {
    && data.asBlob == v.builder.cfg.useBlobs && data.frames != []
    && (!data.asBlob ==> |data.frames| == 1)
    && (data.asBlob ==> |data.frames| <= v.builder.cfg.targetNumFrames)
    && (data.asBlob && |data.frames| < v.builder.cfg.targetNumFrames ==> v.builder.full.Some? && v.builder.frames == [])
  }

  /** The transaction takes the first frames of channel `c`, and nothing else changes. */
  ghost predicate SendsFrom(m: ManagerValue, m': ManagerValue, data: TxData, c: nat) {
    && c < |m.chans| == |m'.chans| && m' == m.(chans := m'.chans, txChannels := m.txChannels[data.Key() := c])
    && (forall d :: 0 <= d < |m.chans| && d != c ==> m'.chans[d] == m.chans[d])
    && var v, v' := m.chans[c], m'.chans[c];
       && v.builder.frames == data.frames + v'.builder.frames && RightSize(v', data)
       && v'.pending == v.pending[data.Key() := data] && v'.confirmed == v.confirmed
  }

  lemma PopSends(m: ManagerValue, c: nat)
    requires c < |m.chans| && m.chans[c].builder.cfg.Valid() && Sendable(m.chans[c])
    ensures var (m', r) := PopTx(m, Some(c)); r.Tx? && SendsFrom(m, m', r.data, c)
  {
    SendableIs(m.chans[c]);
    var v := m.chans[c];
    TxSize(v);
    hide Render;
  }

  lemma PopNothing(m: ManagerValue, c: nat)
    requires c < |m.chans| && m.chans[c].builder.cfg.Valid() && !Sendable(m.chans[c])
    ensures PopTx(m, Some(c)) == (m, NoTx)
  {
    SendableIs(m.chans[c]);
  }

  /** On every run: what can be sent is sent, in the order of the queue, before the manager does anything else. */
  lemma SendableGoesFirst(l1Origin: BlockID, steps: seq<ManagerRuns.Step>, l1Head: nat, p: Pipeline)
    requires CanRun(Cleared(l1Origin), steps) && Admissible(Run(Cleared(l1Origin), steps), Request(l1Head, p))
    requires !NoneSendable(Run(Cleared(l1Origin), steps))
    ensures var m := Run(Cleared(l1Origin), steps);
            var (m', r) := RequestTx(m, l1Head, p);
            r.Tx? && exists c: nat :: FirstSendable(m, c) && SendsFrom(m, m', r.data, c)
  {
    var m := Run(Cleared(l1Origin), steps);
    hide Run;
    hide CanRun;
    FirstIs(m);
    var c := FirstWithData(m.chans, m.queue).value;
    PopSends(m, c);
    hide SendsFrom;
    hide FirstSendable;
    hide NoneSendable;
    hide PopTx;
  }

  /** The channel still takes blocks. */
  predicate Open(m: ManagerValue) {
    m.current.Some? && m.current.value < |m.chans| && m.chans[m.current.value].builder.full.None?
  }

  /** The pipeline answers every question without an error. */
  ghost predicate NeverFails(p: Pipeline) {
    && p.opening.Opened? && p.close.Flushed?
    && forall i: nat :: !p.adds(i).ConversionFailed? && !p.adds(i).BatchFailed?
  }

  lemma {:induction false} NothingFails(b: BuilderValue, blocks: seq<Block>, adds: nat -> AddOutcome, i: nat)
    requires b.cfg.Valid() && i <= |blocks| && !b.co.closed
    requires forall n: nat :: !adds(n).ConversionFailed? && !adds(n).BatchFailed?
    ensures AddBlocks(b, blocks, adds, i).1.Some? && !AddBlocks(b, blocks, adds, i).0.co.closed
    decreases |blocks| - i
  {
    if i < |blocks| {
      var (b', r) := AddBlock(b, blocks[i], adds(i));
      assert !b'.co.closed && !r.AddError? && b'.cfg == b.cfg;
      hide AddBlock;
      if r.Added? && !b'.IsFull() {
        NothingFails(b', blocks, adds, i + 1);
      }
    }
  }

  /** Creating frames without an error leaves a full channel something to send, and an open one open. */
  lemma OutputsSendable(b: BuilderValue, close: CloseOutcome)
    requires Segmented(b) && b.cfg.Valid() && b.co.taken <= |b.co.stream| && !b.co.closed
    requires |BuilderSpec.OutputFrames(b, close).0.made| <= MAX_UINT16
    ensures var (b', ok) := BuilderSpec.OutputFrames(b, close);
            && (close.Flushed? ==> ok)
            && (ok ==> if b.IsFull() then b'.full.Some? && b'.frames != [] else b'.full.None?)
  {
    OutputFull(b, close);
    if !b.IsFull() {
      ReadyFramesOpen(b);
    } else if close.Flushed? {
      hide Segmented;
      ToEndHasFrames(b.(co := MakeReady(b.co, close.ready).(closed := true)));
    }
    hide OutputReadyFrames;
    hide OutputToEnd;
  }

  /** What filling a channel makes of it and of the waiting blocks. */
  lemma BuildParts(m: ManagerValue, c: nat, l1Head: nat, p: Pipeline)
    requires c < |m.chans| && m.chans[c].builder.cfg.Valid() && m.chans[c].builder.co.taken <= |m.chans[c].builder.co.stream|
    ensures var (m', ok) := Build(m, c, l1Head, p);
            var (b1, taken) := AddBlocks(m.chans[c].builder, m.blocks, p.adds, 0);
            && |m'.chans| == |m.chans| && m'.queue == m.queue && m'.current == m.current && m'.closed == m.closed
            && (forall d :: 0 <= d < |m.chans| && d != c ==> m'.chans[d] == m.chans[d])
            && var b2 := CheckTimeout(b1, l1Head);
               && b2.cfg.Valid() && b2.co.taken <= |b2.co.stream|
               && (ok <==> taken.Some? && BuilderSpec.OutputFrames(b2, p.close).1)
               && (taken.Some? ==>
                    m'.chans[c].builder == BuilderSpec.OutputFrames(b2, p.close).0 && m'.blocks == m.blocks[taken.value..])
  {
    hide AddBlocks;
    hide CheckTimeout;
    hide BuilderSpec.OutputFrames;
    AddBlocksShape(m.chans[c].builder, m.blocks, p.adds, 0);
    var (b1, taken) := AddBlocks(m.chans[c].builder, m.blocks, p.adds, 0);
    CheckTimeoutFrame(b1, l1Head);
    var m1 := ProcessBlocks(m, c, p.adds).0;
    if taken.Some? {
      OutputParts(WithBuilder(m1, c, CheckTimeout(b1, l1Head)), c, p.close);
    }
    hide ManagerSpec.OutputFrames;
  }

  /** Filling an open channel without an error takes every waiting block, or fills the channel. */
  lemma BuildTakes(m: ManagerValue, c: nat, l1Head: nat, p: Pipeline)
    requires Core(m) && m.Wf() && c < |m.chans| && !m.chans[c].builder.IsFull() && Small(Build(m, c, l1Head, p).0)
    ensures var (m', ok) := Build(m, c, l1Head, p);
            && (NeverFails(p) ==> ok)
            && |m'.chans| == |m.chans| && m'.queue == m.queue && m'.current == m.current && m'.closed == m.closed
            && (forall d :: 0 <= d < |m.chans| && d != c ==> m'.chans[d] == m.chans[d])
            && (ok ==>
                 && m'.chans[c].builder.cfg.Valid()
                 && if m'.chans[c].builder.full.Some? then m'.chans[c].builder.frames != [] else m'.blocks == [])
  {
    var m', b := Build(m, c, l1Head, p).0, m.chans[c].builder;
    assert ChannelInv(m.chans[c]) && !b.co.closed && b.cfg.Valid() && b.co.taken <= |b.co.stream| by {
      OpenNotClosed(m, c);
      InvShape(m.chans[c]);
    }
    BuildParts(m, c, l1Head, p);
    assert |m'.chans[c].builder.made| <= MAX_UINT16 by { SmallChan(m', c); }
    hide Core;
    hide Build;
    hide Small;
    hide ChannelInv;
    hide ManagerValue.Wf;
    FilledTakes(m.chans[c], m.blocks, l1Head, p);
    hide AddBlocks;
    hide BuilderSpec.OutputFrames;
    hide CheckTimeout;
    hide NeverFails;
  }

  lemma FilledTakes(v: ChannelValue, blocks: seq<Block>, l1Head: nat, p: Pipeline)
    requires ChannelInv(v) && !v.builder.co.closed && v.builder.cfg.Valid()
    ensures var (b1, taken) := AddBlocks(v.builder, blocks, p.adds, 0);
            var b2 := CheckTimeout(b1, l1Head);
            && (NeverFails(p) ==> taken.Some?) && !b2.co.closed && b2.cfg.Valid() && b2.co.taken <= |b2.co.stream|
            && var (b', ok) := BuilderSpec.OutputFrames(b2, p.close);
               && b'.cfg.Valid()
               && (|b'.made| <= MAX_UINT16 && p.close.Flushed? ==> ok)
               && (taken.Some? && ok && |b'.made| <= MAX_UINT16 ==>
                    if b'.full.Some? then b'.frames != [] else blocks[taken.value..] == [])
  {
    hide ChannelInv;
    AddBlocksKeeps(v, blocks, p.adds, 0);
    var (b1, taken) := AddBlocks(v.builder, blocks, p.adds, 0);
    if NeverFails(p) {
      NothingFails(v.builder, blocks, p.adds, 0);
    }
    OpenTakesAll(v.builder, blocks, p.adds, 0);
    CheckTimeoutFrame(b1, l1Head);
    var b2 := CheckTimeout(b1, l1Head);
    hide AddBlocks;
    hide NeverFails;
    MarkedKeeps(v.(builder := b1), b2.full);
    hide CheckTimeout;
    assert v.(builder := b1).(builder := b1.(full := b2.full)) == v.(builder := b2);
    SegmentedOf(v.(builder := b2));
    hide Segmented;
    OutputFramesFrame(b2, p.close);
    if |BuilderSpec.OutputFrames(b2, p.close).0.made| <= MAX_UINT16 {
      OutputsSendable(b2, p.close);
    }
    hide BuilderSpec.OutputFrames;
  }

  lemma SmallChan(m: ManagerValue, c: nat)
    requires Small(m) && c < |m.chans|
    ensures |m.chans[c].builder.made| <= MAX_UINT16
  {
  }

  lemma EnsureParts(m: ManagerValue, opening: Opening)
    requires m.Wf()
    ensures match EnsureSpace(m, opening)
            case None => !Open(m) && opening.OpenFailed?
            case Some(s) =>
              && s.blocks == m.blocks && s.closed == m.closed
              && (if Open(m) then s == m else opening.Opened? && s.current == Some(|m.chans|) && |s.chans| == |m.chans| + 1)
              && s.queue == (if Open(m) then m.queue else m.queue + [|m.chans|])
              && forall d :: 0 <= d < |m.chans| ==> s.chans[d] == m.chans[d]
  {
    hide NewChannel;
  }

  /** A channel is opened exactly if the current one takes no more blocks, and at the end of the queue. */
  ghost predicate OpensIfNeeded(m: ManagerValue, m': ManagerValue, canOpen: bool) {
    && (if Open(m) || !canOpen then m'.queue == m.queue && |m'.chans| == |m.chans|
        else m'.queue == m.queue + [|m.chans|] && |m'.chans| == |m.chans| + 1)
    && forall d :: 0 <= d < |m.chans| && !(Open(m) && m.current == Some(d)) ==> d < |m'.chans| && m'.chans[d] == m.chans[d]
  }

  /** Nothing is held back: no block waits for space, and no queued channel can send. */
  ghost predicate NothingHeldBack(m: ManagerValue) {
    m.blocks == [] && NoneSendable(m) && Open(m)
  }

  /** The transaction comes from the current channel. */
  ghost predicate SentFromCurrent(m: ManagerValue, data: TxData) {
    && m.current.Some? && m.current.value < |m.chans|
    && data.Key() in m.txChannels && m.txChannels[data.Key()] == m.current.value
    && var v := m.chans[m.current.value];
       data.Key() in v.pending && v.pending[data.Key()] == data && RightSize(v, data)
  }

  lemma PopAfterBuild(m: ManagerValue, c: nat)
    requires m.current == Some(c) && c < |m.chans| && m.chans[c].builder.cfg.Valid()
    requires if m.chans[c].builder.full.Some? then m.chans[c].builder.frames != [] else m.blocks == []
    requires forall d :: d in m.queue && d < |m.chans| && d != c ==> !Sendable(m.chans[d])
    ensures var (m', r) := PopTx(m, Some(c));
            && m'.queue == m.queue && |m'.chans| == |m.chans|
            && (forall d :: 0 <= d < |m.chans| && d != c ==> m'.chans[d] == m.chans[d])
            && (r.NoTx? ==> NothingHeldBack(m')) && (r.Tx? ==> SentFromCurrent(m', r.data)) && !r.TxError?
  {
    if Sendable(m.chans[c]) {
      PopSends(m, c);
      hide PopTx;
      hide RightSize;
    } else {
      PopNothing(m, c);
      hide PopTx;
    }
  }

  ghost function FillAndPop(m: ManagerValue, c: nat, l1Head: nat, p: Pipeline): (r: (ManagerValue, TxResult))
    requires c < |m.chans| && m.chans[c].builder.cfg.Valid() && m.chans[c].builder.co.taken <= |m.chans[c].builder.co.stream|
  {
    var (m', ok) := Build(m, c, l1Head, p);
    BuildSize(m, c, l1Head, p);
    if ok then PopTx(m', Some(c)) else (m', TxError)
  }

  lemma FillAndPopSends(m: ManagerValue, c: nat, l1Head: nat, p: Pipeline)
    requires Core(m) && m.Wf() && m.current == Some(c) && c < |m.chans| && !m.chans[c].builder.IsFull()
    requires Small(FillAndPop(m, c, l1Head, p).0)
    requires forall d :: d in m.queue && d < |m.chans| && d != c ==> !Sendable(m.chans[d])
    ensures var (m', r) := FillAndPop(m, c, l1Head, p);
            && m'.queue == m.queue && |m'.chans| == |m.chans|
            && (forall d :: 0 <= d < |m.chans| && d != c ==> m'.chans[d] == m.chans[d])
            && (NeverFails(p) ==> !r.TxError?)
            && (r.NoTx? ==> NothingHeldBack(m')) && (r.Tx? ==> SentFromCurrent(m', r.data))
  {
    hide Core;
    hide Small;
    var (m1, ok) := Build(m, c, l1Head, p);
    BuildSize(m, c, l1Head, p);
    hide ManagerValue.Wf;
    if ok {
      PopSmall(m1, Some(c));
    }
    BuildTakes(m, c, l1Head, p);
    hide Build;
    hide NeverFails;
    hide Sendable;
    if ok {
      PopAfterBuild(m1, c);
    }
    hide PopTx;
    hide NothingHeldBack;
    hide SentFromCurrent;
  }

  lemma RequestIs(m: ManagerValue, l1Head: nat, p: Pipeline)
    requires Core(m) && m.Wf() && Admissible(m, Request(l1Head, p))
    requires NoneSendable(m) && !m.closed && m.blocks != []
    ensures match EnsureSpace(m, p.opening)
            case None => RequestTx(m, l1Head, p) == (m, TxError)
            case Some(s) =>
              && Core(s) && s.Wf() && s.current.value < |s.chans| && !s.chans[s.current.value].builder.IsFull()
              && RequestTx(m, l1Head, p) == FillAndPop(s, s.current.value, l1Head, p)
  {
    FirstIs(m);
    hide FirstWithData;
    EnsureKeeps(m, p.opening);
    hide EnsureSpace;
    hide Build;
    hide PopTx;
    hide Core;
  }

  /** Only the current channel changes after space was made. */
  lemma SpaceOthers(m: ManagerValue, s: ManagerValue, opening: Opening)
    requires m.Wf() && s.Wf() && NoneSendable(m) && EnsureSpace(m, opening) == Some(s) && s.current.Some?
    ensures forall d :: d in s.queue && d < |s.chans| && s.current != Some(d) ==> !Sendable(s.chans[d])
  {
    EnsureParts(m, opening);
    hide EnsureSpace;
    hide Sendable;
    forall d | d in s.queue && d < |s.chans| && s.current != Some(d)
      ensures !Sendable(s.chans[d])
    {
      assert d in m.queue && d < |m.chans|;
    }
    hide ManagerValue.Wf;
  }

  lemma SpaceOpens(m: ManagerValue, s: ManagerValue, m': ManagerValue, opening: Opening)
    requires m.Wf() && EnsureSpace(m, opening) == Some(s) && s.current.Some?
    requires m'.queue == s.queue && |m'.chans| == |s.chans|
    requires forall d :: 0 <= d < |s.chans| && s.current != Some(d) ==> m'.chans[d] == s.chans[d]
    ensures OpensIfNeeded(m, m', opening.Opened?)
  {
    EnsureParts(m, opening);
    hide EnsureSpace;
    hide ManagerValue.Wf;
  }

  lemma RequestFills(m: ManagerValue, l1Head: nat, p: Pipeline)
    requires Core(m) && m.Wf() && Admissible(m, Request(l1Head, p)) && Small(RequestTx(m, l1Head, p).0)
    requires NoneSendable(m) && !m.closed && m.blocks != []
    ensures var (m', r) := RequestTx(m, l1Head, p);
            && OpensIfNeeded(m, m', p.opening.Opened?)
            && (NeverFails(p) ==> !r.TxError?)
            && (r.NoTx? ==> NothingHeldBack(m')) && (r.Tx? ==> SentFromCurrent(m', r.data))
  {
    RequestIs(m, l1Head, p);
    var space := EnsureSpace(m, p.opening);
    if space.None? {
      EnsureParts(m, p.opening);
      hide EnsureSpace;
      hide RequestTx;
    } else {
      var s, c := space.value, space.value.current.value;
      hide RequestTx;
      hide Core;
      hide Small;
      hide ManagerValue.Wf;
      hide FillAndPop;
      SpaceOthers(m, s, p.opening);
      FillAndPopSends(s, c, l1Head, p);
      SpaceOpens(m, s, FillAndPop(s, c, l1Head, p).0, p.opening);
      hide *;
    }
  }

  /** On every run, when no queued channel can send: a closed manager, or one with no block waiting, answers that
      there is nothing and stays as it is.  Otherwise the blocks go into the current channel, or into a new one if it
      takes none.  If the pipeline answers without an error, the result is a transaction of that channel, or nothing
      is held back: every block is in a channel, and no channel could send. */
  lemma NothingIsHeldBack(l1Origin: BlockID, steps: seq<ManagerRuns.Step>, l1Head: nat, p: Pipeline)
    requires CanRun(Cleared(l1Origin), steps) && Admissible(Run(Cleared(l1Origin), steps), Request(l1Head, p))
    requires NoneSendable(Run(Cleared(l1Origin), steps)) && Small(RequestTx(Run(Cleared(l1Origin), steps), l1Head, p).0)
    ensures var m := Run(Cleared(l1Origin), steps);
            var (m', r) := RequestTx(m, l1Head, p);
            if m.closed || m.blocks == [] then r == NoTx && m' == m
            else
              && OpensIfNeeded(m, m', p.opening.Opened?)
              && (NeverFails(p) ==> !r.TxError?)
              && (r.NoTx? ==> NothingHeldBack(m')) && (r.Tx? ==> SentFromCurrent(m', r.data))
  {
    Reachable(l1Origin, steps);
    var m := Run(Cleared(l1Origin), steps);
    hide Run;
    hide CanRun;
    hide Core;
    hide Kept;
    hide Sound;
    FirstIs(m);
    if !m.closed && m.blocks != [] {
      RequestFills(m, l1Head, p);
    }
    hide NoneSendable;
    hide OpensIfNeeded;
    hide NothingHeldBack;
    hide SentFromCurrent;
    hide Build;
    hide EnsureSpace;
  }
}
