/** No frame is lost, duplicated or altered: in every reachable state of a channel each frame ever
    created is in exactly one place, the builder's queue or one transaction. */
module FrameConservation {
  import opened Bytes
  import opened TxDatas
  import opened BuilderSpec
  import opened Segmentation
  import opened Deadlines
  import opened ChannelSpec

  /** The frame is one the builder made, unaltered. */
  ghost predicate IsMade(b: BuilderValue, f: Frame) {
    f.id.frameNumber < |b.made| && b.made[f.id.frameNumber] == f
  }

  ghost predicate InQueue(c: ChannelValue, n: nat) {
    exists i :: 0 <= i < |c.builder.frames| && c.builder.frames[i].id.frameNumber == n
  }

  ghost predicate Carries(tx: TxData, n: nat) {
    exists j :: 0 <= j < |tx.frames| && tx.frames[j].id.frameNumber == n
  }

  ghost predicate Unrepeated(fs: seq<Frame>) {
    forall i, j :: 0 <= i < j < |fs| ==> fs[i].id.frameNumber != fs[j].id.frameNumber
  }

  /** A transaction is indexed under its own key and carries frames of this channel, each once. */
  ghost predicate GoodTx(b: BuilderValue, k: string, tx: TxData) {
    && tx.frames != [] && k == tx.Key() && Unrepeated(tx.frames)
    && forall j :: 0 <= j < |tx.frames| ==> IsMade(b, tx.frames[j])
  }

  ghost predicate Conserved(c: ChannelValue) {
    && (forall i :: 0 <= i < |c.builder.frames| ==> IsMade(c.builder, c.builder.frames[i]))
    && Unrepeated(c.builder.frames)
    && (forall k :: k in c.sent ==> GoodTx(c.builder, k, c.sent[k]))
    && (forall k, n :: k in c.sent && Carries(c.sent[k], n) ==> !InQueue(c, n))
    && (forall k, l, n :: k in c.sent && l in c.sent && Carries(c.sent[k], n) && Carries(c.sent[l], n) ==> k == l)
    && (forall n :: 0 <= n < |c.builder.made| ==> InQueue(c, n) || exists k :: k in c.sent && Carries(c.sent[k], n))
  }

  /** Pending and confirmed transactions are those sent and not failed. */
  ghost predicate Accounted(c: ChannelValue) {
    && c.sent.Keys == c.pending.Keys + c.confirmed.Keys
    && c.pending.Keys !! c.confirmed.Keys
    && forall k :: k in c.pending ==> c.pending[k] == c.sent[k]
  }

  /** The deadline of no confirmed transaction is zero: it is included after block 0, or the channel
      timeout is longer than the safety margin. */
  ghost predicate InclusionsDated(b: BuilderValue, confirmed: map<string, BlockID>) {
    forall k :: k in confirmed ==> confirmed[k].number + b.cfg.channelTimeout > b.cfg.subSafetyMargin
  }

  /** Every confirmed transaction has contributed the deadline of its inclusion block, and a zero deadline
      only comes from a block or from a confirmed transaction. */
  ghost predicate Published(b: BuilderValue, confirmed: map<string, BlockID>) {
    && b.cfg.Valid()
    && (forall k :: k in confirmed ==>
         Deadline(confirmed[k].number + b.cfg.channelTimeout - b.cfg.subSafetyMargin, ChannelTimeoutClose) in b.deadlines)
    && (BlocksDated(b) && InclusionsDated(b, confirmed) ==> Positive(b.deadlines))
  }

  ghost predicate ChannelInv(c: ChannelValue) {
    && Segmented(c.builder) && Timed(c.builder)
    && |c.builder.made| <= MAX_UINT16 + 1
    && c.builder.co.id != ZeroChannelID
    && Conserved(c) && Accounted(c)
    && Published(c.builder, c.confirmed)
  }

  /** While numbers fit 16 bits, a made frame is determined by its number, and its channel is real. */
  lemma MadeIDs(b: BuilderValue, f: Frame)
    requires Segmented(b) && |b.made| <= MAX_UINT16 + 1 && IsMade(b, f)
    ensures f.id == FrameID(b.co.id, f.id.frameNumber)
  {
    hide Payloads;
  }

  lemma GoodTxIDs(b: BuilderValue, k: string, tx: TxData)
    requires Segmented(b) && |b.made| <= MAX_UINT16 + 1 && b.co.id != ZeroChannelID && GoodTx(b, k, tx)
    ensures NonZero(tx.ID()) && k != ""
    ensures forall j :: 0 <= j < |tx.frames| ==> tx.frames[j].id.chID == b.co.id
  {
    hide Segmented;
    hide Unrepeated;
    hide Render;
    forall j | 0 <= j < |tx.frames|
      ensures tx.frames[j].id.chID == b.co.id
    {
      MadeIDs(b, tx.frames[j]);
    }
    KeyDeterminesFrames(tx, tx);
  }

  /** The next transaction gets a key that no transaction has. */
  lemma NextKeyIsNew(c: ChannelValue)
    requires ChannelInv(c) && c.builder.frames != []
    ensures GoodTx(c.builder, c.NextTx().Key(), c.NextTx())
    ensures c.NextTx().Key() !in c.sent
  {
    hide Segmented;
    hide Timed;
    hide Render;
    SegmentedShape(c.builder);
    var tx := c.NextTx();
    assert GoodTx(c.builder, tx.Key(), tx);
    assert InQueue(c, c.builder.frames[0].id.frameNumber);
    if tx.Key() in c.sent {
      var other := c.sent[tx.Key()];
      GoodTxIDs(c.builder, tx.Key(), tx);
      GoodTxIDs(c.builder, tx.Key(), other);
      KeyDeterminesFrames(tx, other);
      assert false;
    }
  }

  /** Conservation when frames move between the queue and one transaction `k`: the rest is as before. */
  lemma MovedConserves(c: ChannelValue, c': ChannelValue, id: string, tx: TxData, sending: bool)
    requires Conserved(c) && c'.builder.made == c.builder.made
    requires if sending then id !in c.sent && c'.sent == c.sent[id := tx] else id in c.sent && c.sent[id] == tx && c'.sent == c.sent - {id}
    requires GoodTx(c.builder, id, tx)
    requires Unrepeated(c'.builder.frames)
    requires forall i :: 0 <= i < |c'.builder.frames| ==> IsMade(c.builder, c'.builder.frames[i])
    requires forall n: nat {:trigger Carries(tx, n)} {:trigger InQueue(c, n)} {:trigger InQueue(c', n)} ::
      if sending then (InQueue(c, n) <==> InQueue(c', n) || Carries(tx, n)) && !(InQueue(c', n) && Carries(tx, n))
      else InQueue(c', n) <==> InQueue(c, n) || Carries(tx, n)
    ensures Conserved(c')
  {
    hide InQueue;
    hide Carries;
    hide Unrepeated;
    hide Render;
    assert forall f :: IsMade(c.builder, f) ==> IsMade(c'.builder, f);
    forall n: nat | n < |c.builder.made|
      ensures InQueue(c', n) || exists k :: k in c'.sent && Carries(c'.sent[k], n)
    {
      if !InQueue(c, n) {
        var k :| k in c.sent && Carries(c.sent[k], n);
        if k in c'.sent {
          assert Carries(c'.sent[k], n);
        }
      } else if sending && !InQueue(c', n) {
        assert Carries(c'.sent[id], n);
      }
    }
  }

  /** Sending moves the front of the queue into one transaction. */
  lemma NextTxDataConserves(c: ChannelValue)
    requires ChannelInv(c) && c.builder.frames != []
    ensures Conserved(NextTxData(c)) && Accounted(NextTxData(c))
  {
    hide Segmented;
    hide Timed;
    hide Render;
    NextKeyIsNew(c);
    assert Unrepeated(c.builder.frames);
    FrontMoves(c);
    hide InQueue;
    hide Carries;
    hide Unrepeated;
    MovedConserves(c, NextTxData(c), c.NextTx().Key(), c.NextTx(), true);
    hide Conserved;
  }

  /** The frame numbers in the queue are split between the transaction and the rest. */
  lemma FrontMoves(c: ChannelValue)
    requires Unrepeated(c.builder.frames)
    ensures forall n: nat :: InQueue(c, n) <==> InQueue(NextTxData(c), n) || Carries(c.NextTx(), n)
    ensures forall n: nat :: !(InQueue(NextTxData(c), n) && Carries(c.NextTx(), n))
  {
    hide Render;
    var tx, c' := c.NextTx(), NextTxData(c);
    var k, q := c.FramesInNextTx(), c.builder.frames;
    forall n: nat
      ensures InQueue(c, n) <==> InQueue(c', n) || Carries(tx, n)
      ensures !(InQueue(c', n) && Carries(tx, n))
    {
      if i :| 0 <= i < |q| && q[i].id.frameNumber == n {
        if i < k {
          assert tx.frames[i] == q[i];
        } else {
          assert c'.builder.frames[i - k] == q[i];
        }
      }
    }
  }

  lemma QueueAppended(c: ChannelValue, fs: seq<Frame>)
    requires Unrepeated(c.builder.frames) && Unrepeated(fs)
    requires forall j :: 0 <= j < |fs| ==> !InQueue(c, fs[j].id.frameNumber)
    ensures var c', tx := c.(builder := PushFrames(c.builder, fs)), TxData(fs, true);
            && Unrepeated(c'.builder.frames)
            && forall n :: InQueue(c', n) <==> InQueue(c, n) || Carries(tx, n)
  {
    var c', q, tx := c.(builder := PushFrames(c.builder, fs)), c.builder.frames, TxData(fs, true);
    forall n: nat
      ensures InQueue(c', n) <==> InQueue(c, n) || Carries(tx, n)
    {
      if i :| 0 <= i < |q| && q[i].id.frameNumber == n {
        assert (q + fs)[i] == q[i];
      }
      if j :| 0 <= j < |fs| && fs[j].id.frameNumber == n {
        assert (q + fs)[|q| + j] == fs[j];
      }
    }
    forall i, j | 0 <= i < |q| && 0 <= j < |fs|
      ensures q[i].id.frameNumber != fs[j].id.frameNumber
    {
      assert InQueue(c, q[i].id.frameNumber);
    }
  }

  /** A failed transaction gives its frames back. */
  lemma TxFailedConserves(c: ChannelValue, id: string)
    requires ChannelInv(c)
    ensures Conserved(TxFailed(c, id)) && Accounted(TxFailed(c, id))
  {
    hide Segmented;
    hide Timed;
    hide Render;
    hide Published;
    FailedAccounted(c, id);
    hide Accounted;
    if id in c.pending {
      var tx, c' := c.pending[id], TxFailed(c, id);
      assert id in c.sent && c.sent[id] == tx by { PendingIsSent(c, id); }
      FailedQueue(c, id, tx);
      assert GoodTx(c.builder, id, tx) && forall i :: 0 <= i < |c.builder.frames| ==> IsMade(c.builder, c.builder.frames[i]);
      hide InQueue;
      hide Unrepeated;
      hide Carries;
      MovedConserves(c, c', id, tx, false);
      hide Conserved;
    }
  }

  lemma PendingIsSent(c: ChannelValue, id: string)
    requires Accounted(c) && id in c.pending
    ensures id in c.sent && c.sent[id] == c.pending[id]
  {
  }

  lemma FailedAccounted(c: ChannelValue, id: string)
    requires Accounted(c)
    ensures Accounted(TxFailed(c, id))
  {
  }

  lemma FailedQueue(c: ChannelValue, id: string, tx: TxData)
    requires Conserved(c) && id in c.pending && c.pending[id] == tx && id in c.sent && c.sent[id] == tx
    ensures Unrepeated(TxFailed(c, id).builder.frames)
    ensures forall n: nat :: InQueue(TxFailed(c, id), n) <==> InQueue(c, n) || Carries(tx, n)
  {
    hide Render;
    var c' := TxFailed(c, id);
    assert GoodTx(c.builder, id, tx);
    forall j | 0 <= j < |tx.frames|
      ensures !InQueue(c, tx.frames[j].id.frameNumber)
    {
      assert Carries(c.sent[id], tx.frames[j].id.frameNumber);
    }
    hide Conserved;
    QueueAppended(c, tx.frames);
    var moved, copy := c.(builder := PushFrames(c.builder, tx.frames)), TxData(tx.frames, true);
    assert c'.builder.frames == moved.builder.frames;
    forall n: nat
      ensures InQueue(c', n) <==> InQueue(moved, n)
      ensures Carries(tx, n) <==> Carries(copy, n)
    {
    }
    hide InQueue;
    hide Carries;
  }

  ghost predicate Same(c: ChannelValue, c': ChannelValue) {
    && c'.builder.made == c.builder.made && c'.builder.frames == c.builder.frames && c'.sent == c.sent
  }

  lemma SameConserved(c: ChannelValue, c': ChannelValue)
    requires Conserved(c) && Same(c, c')
    ensures Conserved(c')
  {
    hide Render;
    hide Carries;
    hide Unrepeated;
    assert forall n :: InQueue(c', n) <==> InQueue(c, n);
    assert forall f :: IsMade(c'.builder, f) <==> IsMade(c.builder, f);
    hide InQueue;
  }

  /** One new frame goes to the end of the queue. */
  lemma OutputFrameConserves(c: ChannelValue)
    requires Conserved(c) && Segmented(c.builder) && |c.builder.made| < MAX_UINT16 + 1
    ensures Conserved(c.(builder := OutputFrame(c.builder)))
  {
    var f := NextFrameMade(c.builder);
    assert f.id.frameNumber == |c.builder.made| by { hide Payloads; }
    AppendedConserves(c, c.(builder := OutputFrame(c.builder)), f);
    hide Conserved;
    hide Segmented;
  }

  lemma AppendedConserves(c: ChannelValue, c': ChannelValue, f: Frame)
    requires Conserved(c) && f.id.frameNumber == |c.builder.made|
    requires c'.builder.made == c.builder.made + [f] && c'.builder.frames == c.builder.frames + [f] && c'.sent == c.sent
    ensures Conserved(c')
  {
    hide Render;
    var q, q', N := c.builder.frames, c'.builder.frames, |c.builder.made|;
    forall g | IsMade(c.builder, g)
      ensures IsMade(c'.builder, g)
    {
    }
    forall n: nat
      ensures InQueue(c', n) <==> InQueue(c, n) || n == N
    {
      if i :| 0 <= i < |q| && q[i].id.frameNumber == n {
        assert q'[i] == q[i];
      }
      assert q'[|q|] == f;
    }
    forall k, n: nat | k in c.sent && Carries(c.sent[k], n)
      ensures n < N
    {
      var j :| 0 <= j < |c.sent[k].frames| && c.sent[k].frames[j].id.frameNumber == n;
      assert GoodTx(c.builder, k, c.sent[k]);
    }
    assert Unrepeated(q') by {
      forall i | 0 <= i < |q|
        ensures q[i].id.frameNumber < N
      {
        assert IsMade(c.builder, q[i]);
      }
    }
    hide InQueue;
    hide Carries;
    hide Unrepeated;
  }

  lemma {:induction false} ReadyFramesConserve(c: ChannelValue)
    requires Conserved(c) && Segmented(c.builder) && !c.builder.co.closed
    requires |OutputReadyFrames(c.builder).made| <= MAX_UINT16 + 1
    ensures Conserved(c.(builder := OutputReadyFrames(c.builder)))
    decreases c.builder.co.ReadyBytes()
  {
    hide Conserved;
    var b := c.builder;
    if b.co.ReadyBytes() >= Room(b) {
      OutputFrameSegmented(b);
      ReadyFramesGrow(OutputFrame(b));
      OutputFrameConserves(c);
      hide Segmented;
      assert |OutputFrame(b).made| == |b.made| + 1;
      hide OutputFrame;
      ReadyFramesConserve(c.(builder := OutputFrame(b)));
      assert c.(builder := OutputFrame(b)).(builder := OutputReadyFrames(OutputFrame(b))) == c.(builder := OutputReadyFrames(b));
    } else {
      assert c.(builder := b) == c;
    }
  }

  lemma {:induction false} ReadyFramesGrow(b: BuilderValue)
    requires Segmented(b) && !b.co.closed
    ensures |b.made| <= |OutputReadyFrames(b).made|
    decreases b.co.ReadyBytes()
  {
    if b.co.ReadyBytes() >= Room(b) {
      OutputFrameSegmented(b);
      ReadyFramesGrow(OutputFrame(b));
    }
    hide Payloads;
  }

  lemma {:induction false} ToEndConserves(c: ChannelValue)
    requires Conserved(c) && Segmented(c.builder) && c.builder.co.closed && !Complete(c.builder)
    requires |OutputToEnd(c.builder).made| <= MAX_UINT16 + 1
    ensures |c.builder.made| < |OutputToEnd(c.builder).made|
    ensures Conserved(c.(builder := OutputToEnd(c.builder)))
    decreases c.builder.co.ReadyBytes()
  {
    hide Conserved;
    var b := c.builder;
    OutputFrameSegmented(b);
    ToEndGrows(b);
    OutputFrameConserves(c);
    if !NextIsLast(b) {
      hide Segmented;
      hide OutputFrame;
      ToEndConserves(c.(builder := OutputFrame(b)));
      assert c.(builder := OutputFrame(b)).(builder := OutputToEnd(OutputFrame(b))) == c.(builder := OutputToEnd(b));
    }
  }

  lemma {:induction false} ToEndGrows(b: BuilderValue)
    requires Segmented(b) && b.co.closed && !Complete(b)
    ensures |b.made| < |OutputToEnd(b).made|
    decreases b.co.ReadyBytes()
  {
    OutputFrameSegmented(b);
    if !NextIsLast(b) {
      ToEndGrows(OutputFrame(b));
    }
    hide Payloads;
  }

  /** Creating frames conserves, as long as their numbers fit 16 bits. */
  lemma OutputFramesConserves(c: ChannelValue, close: CloseOutcome)
    requires Conserved(c) && Segmented(c.builder)
    requires |OutputFrames(c.builder, close).0.made| <= MAX_UINT16 + 1
    ensures Conserved(c.(builder := OutputFrames(c.builder, close).0))
  {
    var b := c.builder;
    SegmentedShape(b);
    if !b.IsFull() {
      ReadyFramesConserve(c);
      hide OutputReadyFrames;
    } else if !b.co.closed && close.Flushed? {
      var b1 := b.(co := MakeReady(b.co, close.ready).(closed := true));
      assert b1.co.stream[..b1.co.taken] == b.co.stream[..b.co.taken];
      assert Segmented(b1) by { hide Payloads; }
      var c1 := c.(builder := b1);
      SameConserved(c, c1);
      assert !Complete(b1);
      hide Conserved;
      hide Segmented;
      ToEndConserves(c1);
      assert c1.(builder := OutputToEnd(b1)) == c.(builder := OutputToEnd(b1));
      hide OutputToEnd;
    } else {
      SameConserved(c, c.(builder := OutputFrames(b, close).0));
      hide Conserved;
    }
  }
}
