/** When a channel closes because of time: exactly when a head reaches one of its deadlines, each of which
    comes from the channel's opening, one of its blocks or one of its confirmed transactions. */
module ChannelClosing {
  import opened Bytes
  import opened TxDatas
  import opened BuilderSpec
  import opened Segmentation
  import opened Deadlines
  import opened ChannelSpec
  import opened FrameConservation
  import opened ChannelRuns

  /** The block of the channel, the confirmed transaction, or the opening that the deadline is of. */
  ghost predicate HasSource(b: BuilderValue, confirmed: map<string, BlockID>, since: nat, reason: Reason, n: nat)
    requires b.cfg.Valid()
  {
    match reason
    case MaxDurationReached => b.cfg.maxChannelDuration > 0 && n == since + b.cfg.maxChannelDuration
    case SeqWindowClose =>
      exists k :: 0 <= k < |b.blocks| && n == b.blocks[k].l1Origin.number + b.cfg.seqWindowSize - b.cfg.subSafetyMargin
    case ChannelTimeoutClose =>
      exists k :: k in confirmed && n == confirmed[k].number + b.cfg.channelTimeout - b.cfg.subSafetyMargin
  }

  /** Every deadline has its source, and the maximal duration counts from the opening. */
  ghost predicate Sourced(b: BuilderValue, confirmed: map<string, BlockID>, since: nat) {
    && b.cfg.Valid()
    && (forall d :: d in b.deadlines ==> HasSource(b, confirmed, since, d.reason, d.block))
    && (b.cfg.maxChannelDuration > 0 ==> Deadline(since + b.cfg.maxChannelDuration, MaxDurationReached) in b.deadlines)
  }

  lemma NewSourced(cfg: ChannelConfig, id: ChannelID, l1Origin: nat)
    requires cfg.Valid()
    ensures Sourced(NewBuilder(cfg, id, l1Origin), map[], l1Origin)
  {
  }

  lemma SameSourced(b: BuilderValue, b': BuilderValue, confirmed: map<string, BlockID>, since: nat)
    requires Sourced(b, confirmed, since) && b'.cfg == b.cfg && b'.deadlines == b.deadlines && b'.blocks == b.blocks
    ensures Sourced(b', confirmed, since)
  {
  }

  lemma AddSourced(b: BuilderValue, block: Block, outcome: AddOutcome, confirmed: map<string, BlockID>, since: nat)
    requires Sourced(b, confirmed, since)
    ensures Sourced(AddBlock(b, block, outcome).0, confirmed, since)
  {
    var b' := AddBlock(b, block, outcome).0;
    var window := Deadline(block.l1Origin.number + b.cfg.seqWindowSize - b.cfg.subSafetyMargin, SeqWindowClose);
    assert b'.cfg == b.cfg;
    assert (b'.blocks == b.blocks && b'.deadlines == b.deadlines)
        || (b'.blocks == b.blocks + [block] && b'.deadlines == b.deadlines + [window]);
    hide AddBlock;
    if b'.blocks == b.blocks + [block] {
      assert b'.blocks[|b.blocks|] == block;
      forall reason, n | HasSource(b, confirmed, since, reason, n)
        ensures HasSource(b', confirmed, since, reason, n)
      {
        if reason == SeqWindowClose {
          var k :| 0 <= k < |b.blocks| && n == b.blocks[k].l1Origin.number + b.cfg.seqWindowSize - b.cfg.subSafetyMargin;
          assert b'.blocks[k] == b.blocks[k];
        }
      }
    }
  }

  lemma ConfirmSourced(c: ChannelValue, id: string, inclusion: BlockID, since: nat)
    requires Sourced(c.builder, c.confirmed, since) && id !in c.confirmed
    ensures Sourced(Confirm(c, id, inclusion).builder, Confirm(c, id, inclusion).confirmed, since)
  {
    var b, c' := c.builder, Confirm(c, id, inclusion);
    var d := Deadline(inclusion.number + b.cfg.channelTimeout - b.cfg.subSafetyMargin, ChannelTimeoutClose);
    assert c'.builder.deadlines == b.deadlines + [d] && c'.builder.blocks == b.blocks && c'.builder.cfg == b.cfg;
    assert c'.confirmed == c.confirmed[id := inclusion];
    hide Confirm;
    forall reason, n | HasSource(b, c.confirmed, since, reason, n)
      ensures HasSource(c'.builder, c'.confirmed, since, reason, n)
    {
      if reason == ChannelTimeoutClose {
        var k :| k in c.confirmed && n == c.confirmed[k].number + b.cfg.channelTimeout - b.cfg.subSafetyMargin;
        assert k in c'.confirmed && c'.confirmed[k] == c.confirmed[k];
      }
    }
    assert id in c'.confirmed && c'.confirmed[id] == inclusion;
  }

  /** The head has reached the deadline of some block, of some confirmed transaction, or of the duration. */
  ghost predicate AtDeadline(c: ChannelValue, since: nat, l1Head: nat)
    requires c.builder.cfg.Valid()
  {
    exists reason: Reason, n: nat :: n <= l1Head && HasSource(c.builder, c.confirmed, since, reason, n)
  }

  /** The timeout is one of the deadlines contributed. */
  lemma {:induction false} TimeoutIsContributed(ds: seq<Deadline>)
    ensures TimeoutOf(ds).1.Some? ==> Deadline(TimeoutOf(ds).0, TimeoutOf(ds).1.value) in ds
    ensures ds != [] ==> TimeoutOf(ds).1.Some?
  {
    if ds != [] {
      TimeoutIsContributed(ds[..|ds| - 1]);
    }
  }

  /** Whatever is due is contributed. */
  lemma SourceIsDeadline(c: ChannelValue, since: nat, reason: Reason, n: nat)
    requires ChannelInv(c) && Sourced(c.builder, c.confirmed, since) && HasSource(c.builder, c.confirmed, since, reason, n)
    ensures Deadline(n, reason) in c.builder.deadlines
  {
    hide Conserved;
    hide Segmented;
    hide Timed;
    hide Published;
    hide Accounted;
    hide HasSource;
    hide Sourced;
    SourceIn(c.builder, c.confirmed, since, reason, n);
  }

  lemma BlockIn(b: BuilderValue, n: nat)
    requires Timed(b) && HasSource(b, map[], 0, SeqWindowClose, n)
    ensures Deadline(n, SeqWindowClose) in b.deadlines
  {
    hide TimeoutOf;
    var k :| 0 <= k < |b.blocks| && n == b.blocks[k].l1Origin.number + b.cfg.seqWindowSize - b.cfg.subSafetyMargin;
    assert Deadline(b.blocks[k].l1Origin.number + b.cfg.seqWindowSize - b.cfg.subSafetyMargin, SeqWindowClose) in b.deadlines;
  }

  lemma InclusionIn(b: BuilderValue, confirmed: map<string, BlockID>, n: nat)
    requires Published(b, confirmed) && HasSource(b, confirmed, 0, ChannelTimeoutClose, n)
    ensures Deadline(n, ChannelTimeoutClose) in b.deadlines
  {
    hide Positive;
    hide BlocksDated;
    hide InclusionsDated;
    var k :| k in confirmed && n == confirmed[k].number + b.cfg.channelTimeout - b.cfg.subSafetyMargin;
    assert Deadline(confirmed[k].number + b.cfg.channelTimeout - b.cfg.subSafetyMargin, ChannelTimeoutClose) in b.deadlines;
  }

  lemma SourceIn(b: BuilderValue, confirmed: map<string, BlockID>, since: nat, reason: Reason, n: nat)
    requires Timed(b) && Published(b, confirmed) && Sourced(b, confirmed, since) && HasSource(b, confirmed, since, reason, n)
    ensures Deadline(n, reason) in b.deadlines
  {
    hide Timed;
    hide Published;
    match reason
    case MaxDurationReached =>
    case SeqWindowClose =>
      hide Sourced;
      BlockIn(b, n);
    case ChannelTimeoutClose =>
      hide Sourced;
      InclusionIn(b, confirmed, n);
  }

  /** An open channel closes on a head only for a reason, never early, ... */
  lemma ClosesForAReason(c: ChannelValue, since: nat, l1Head: nat)
    requires ChannelInv(c) && Sourced(c.builder, c.confirmed, since) && !c.builder.IsFull()
    ensures CheckTimeout(c.builder, l1Head).IsFull() ==>
              exists reason: Reason, n: nat ::
                CheckTimeout(c.builder, l1Head).full == Some(TimedOutBecause(reason))
                && n <= l1Head && HasSource(c.builder, c.confirmed, since, reason, n)
  {
    hide Conserved;
    hide Segmented;
    hide Published;
    hide Accounted;
    TimeoutIsContributed(c.builder.deadlines);
    hide TimeoutOf;
    if CheckTimeout(c.builder, l1Head).IsFull() {
      var reason, n := c.builder.timeoutReason.value, c.builder.timeout;
      assert HasSource(c.builder, c.confirmed, since, reason, n);
    }
    hide HasSource;
  }

  /** ... and never late: with no zero deadline it closes exactly when the head has reached a deadline. */
  lemma ClosesExactlyAtDeadline(c: ChannelValue, since: nat, l1Head: nat)
    requires ChannelInv(c) && Sourced(c.builder, c.confirmed, since) && !c.builder.IsFull() && Dated(c)
    ensures CheckTimeout(c.builder, l1Head).IsFull() <==> AtDeadline(c, since, l1Head)
  {
    ClosesForAReason(c, since, l1Head);
    PositiveIffDated(c);
    if AtDeadline(c, since, l1Head) && !CheckTimeout(c.builder, l1Head).IsFull() {
      var reason: Reason, n: nat :| n <= l1Head && HasSource(c.builder, c.confirmed, since, reason, n);
      SourceIsDeadline(c, since, reason, n);
      NotFullMeansAhead(c, l1Head);
      hide *;
    }
    hide HasSource;
    hide ChannelInv;
    hide Dated;
  }

  lemma NotFullMeansAhead(c: ChannelValue, l1Head: nat)
    requires ChannelInv(c) && Positive(c.builder.deadlines) && !CheckTimeout(c.builder, l1Head).IsFull()
    ensures forall d :: d in c.builder.deadlines ==> l1Head < d.block
  {
    hide Conserved;
    hide Segmented;
    hide Timed;
    hide Published;
    hide Accounted;
    OpenMeansInTime(c.builder, l1Head);
  }

  /** The reason why a channel is full stays, except that the highest frame number replaces it. */
  lemma ReasonStays(c: ChannelValue, step: ChannelRuns.Step)
    requires c.builder.cfg.Valid() && c.builder.co.taken <= |c.builder.co.stream| && c.builder.IsFull()
    ensures var full := ChannelRuns.Next(c, step).builder.full;
            full == c.builder.full || full == Some(MaxFrameIndex)
  {
    match step
    case Output(close) => OutputReason(c.builder, close);
    case Confirmation(id, inclusion) =>
      hide ChannelValue.TimedOut;
      hide ChannelValue.FullySubmitted;
    case _ =>
      hide Render;
  }

  lemma OutputReason(b: BuilderValue, close: CloseOutcome)
    requires b.cfg.Valid() && b.co.taken <= |b.co.stream| && b.IsFull()
    ensures var full := BuilderSpec.OutputFrames(b, close).0.full;
            full == b.full || full == Some(MaxFrameIndex)
  {
    hide OutputReadyFrames;
    hide OutputToEnd;
    if !b.co.closed && close.Flushed? {
      EndReason(b.(co := MakeReady(b.co, close.ready).(closed := true)));
    }
  }

  lemma EndReason(b: BuilderValue)
    requires b.cfg.Valid() && b.co.taken <= |b.co.stream| && b.co.closed
    ensures OutputToEnd(b).full == b.full || OutputToEnd(b).full == Some(MaxFrameIndex)
    decreases b.co.ReadyBytes()
  {
  }

  lemma EndClosed(b: BuilderValue)
    requires b.cfg.Valid() && b.co.taken <= |b.co.stream| && b.co.closed
    ensures OutputToEnd(b).co.closed && OutputToEnd(b).cfg == b.cfg && OutputToEnd(b).co.taken <= |OutputToEnd(b).co.stream|
    decreases b.co.ReadyBytes()
  {
  }

  /** The frames of a full channel are created once: after that, whether it succeeded or failed, the next attempt
      is an error and changes nothing. */
  lemma ClosesOnce(b: BuilderValue, first: CloseOutcome, second: CloseOutcome)
    requires b.cfg.Valid() && b.co.taken <= |b.co.stream| && b.IsFull()
    ensures var b' := BuilderSpec.OutputFrames(b, first).0;
            && b'.cfg.Valid() && b'.co.taken <= |b'.co.stream|
            && BuilderSpec.OutputFrames(b', second) == (b', false)
  {
    hide OutputReadyFrames;
    hide OutputToEnd;
    if !b.co.closed && first.Flushed? {
      var b1 := b.(co := MakeReady(b.co, first.ready).(closed := true));
      EndClosed(b1);
      EndReason(b1);
    }
  }
}
