/** The results about whole runs of the channel manager. */
module ManagerResults {
  import opened Bytes
  import opened TxDatas
  import opened BuilderSpec
  import opened ChannelSpec
  import opened Segmentation
  import opened Deadlines
  import opened FrameConservation
  import opened ChannelRuns
  import opened ManagerSpec
  import opened ManagerIndex
  import opened ManagerRuns
  import opened ManagerBlocks
  import opened ManagerDone

  /** Steps the manager can take one after the other, with distinct channel ids and no channel
      reaching 65536 frames. */
  ghost predicate CanRun(m: ManagerValue, steps: seq<ManagerRuns.Step>)
    decreases |steps|
  {
    && m.Wf()
    && (steps == [] ||
        (Admissible(m, steps[0]) && Small(ManagerRuns.Next(m, steps[0])) && CanRun(ManagerRuns.Next(m, steps[0]), steps[1..])))
  }

  ghost function Run(m: ManagerValue, steps: seq<ManagerRuns.Step>): (r: ManagerValue)
    requires CanRun(m, steps)
    ensures r.Wf()
    decreases |steps|
  {
    if steps == [] then m else Run(ManagerRuns.Next(m, steps[0]), steps[1..])
  }

  lemma {:induction false} RunKeeps(m: ManagerValue, steps: seq<ManagerRuns.Step>)
    requires CanRun(m, steps) && Core(m) && Kept(m) && Sound(m)
    ensures Core(Run(m, steps)) && Kept(Run(m, steps)) && Sound(Run(m, steps))
    decreases |steps|
  {
    hide Core;
    hide Kept;
    hide Sound;
    hide Small;
    hide Admissible;
    hide ManagerValue.Wf;
    if steps != [] {
      ManagerRuns.NextKeeps(m, steps[0]);
      NextKept(m, steps[0]);
      NextSound(m, steps[0]);
      hide ManagerRuns.Next;
      RunKeeps(ManagerRuns.Next(m, steps[0]), steps[1..]);
    }
  }

  /** The state a run leads to from a cleared manager. */
  lemma Reachable(l1Origin: BlockID, steps: seq<ManagerRuns.Step>)
    requires CanRun(Cleared(l1Origin), steps)
    ensures var m := Run(Cleared(l1Origin), steps); Core(m) && Kept(m) && Sound(m)
  {
    ClearedCore(l1Origin);
    ClearedKept(l1Origin);
    ClearedSound(l1Origin);
    RunKeeps(Cleared(l1Origin), steps);
  }

  /** Index agreement and the single open channel, for every run. */
  lemma IndexAgreesOnEveryRun(l1Origin: BlockID, steps: seq<ManagerRuns.Step>, id: string, c: nat)
    requires CanRun(Cleared(l1Origin), steps)
    ensures var m := Run(Cleared(l1Origin), steps);
            && ((id in m.txChannels && m.txChannels[id] == c) <==> (c < |m.chans| && id in m.chans[c].pending))
            && (m.current.Some? ==> m.current.value in m.queue)
            && (c in m.queue ==> c < |m.chans| && (m.current == Some(c) || m.chans[c].builder.IsFull()))
  {
    hide Run;
    hide CanRun;
    hide Core;
    hide Kept;
    hide Sound;
    Reachable(l1Origin, steps);
    CoreIndex(Run(Cleared(l1Origin), steps), id, c);
  }

  lemma CoreIndex(m: ManagerValue, id: string, c: nat)
    requires Core(m)
    ensures (id in m.txChannels && m.txChannels[id] == c) <==> (c < |m.chans| && id in m.chans[c].pending)
    ensures m.current.Some? ==> m.current.value in m.queue
    ensures c in m.queue ==> c < |m.chans| && (m.current == Some(c) || m.chans[c].builder.IsFull())
  {
    hide ChansOk;
    hide IdsDistinct;
  }

  /** Frame conservation, for every channel of every run: each frame ever created is in the builder's
      queue, in one pending or in one confirmed transaction, and the total is the sum of the three. */
  lemma FramesConservedOnEveryRun(l1Origin: BlockID, steps: seq<ManagerRuns.Step>, c: nat, n: nat)
    requires CanRun(Cleared(l1Origin), steps) && c < |Run(Cleared(l1Origin), steps).chans|
    requires n < Run(Cleared(l1Origin), steps).chans[c].builder.numFrames
    ensures var v := Run(Cleared(l1Origin), steps).chans[c];
            && v.builder.numFrames == |Queued(v)| + |ChannelRuns.Sent(v, v.pending.Keys)| + |ChannelRuns.Sent(v, v.confirmed.Keys)|
            && (InQueue(v, n) || InTx(v, v.pending.Keys, n) || InTx(v, v.confirmed.Keys, n))
            && !(InQueue(v, n) && InTx(v, v.pending.Keys, n)) && !(InQueue(v, n) && InTx(v, v.confirmed.Keys, n))
            && !(InTx(v, v.pending.Keys, n) && InTx(v, v.confirmed.Keys, n))
            && forall k, l :: k in v.sent && l in v.sent && Carries(v.sent[k], n) && Carries(v.sent[l], n) ==> k == l
  {
    hide Run;
    hide CanRun;
    hide Core;
    hide Kept;
    hide Sound;
    hide ChannelInv;
    Reachable(l1Origin, steps);
    var v := Run(Cleared(l1Origin), steps).chans[c];
    CoreChan(Run(Cleared(l1Origin), steps), c);
    hide InQueue;
    hide InTx;
    hide Carries;
    TotalIsSum(v);
    ExactlyOnePlace(v, n);
  }

  /** Block conservation, for every run. */
  lemma BlocksConservedOnEveryRun(l1Origin: BlockID, steps: seq<ManagerRuns.Step>)
    requires CanRun(Cleared(l1Origin), steps)
    ensures var m := Run(Cleared(l1Origin), steps);
            && (!m.closed ==> forall i :: 0 <= i < |m.accepted| ==> Has(m, m.accepted[i]))
            && (m.timedOut == {} && !m.addFailed ==> AllBlocks(m.chans) + m.blocks == m.accepted)
            && Chained(m)
  {
    Reachable(l1Origin, steps);
    hide Run;
    hide Core;
    hide Sound;
    hide Has;
    hide Chained;
  }

  /** What the confirmed transactions of a channel carry. */
  ghost predicate Confirmed(v: ChannelValue, f: Frame) {
    exists k, j :: k in v.confirmed && k in v.sent && 0 <= j < |v.sent[k].frames| && v.sent[k].frames[j] == f
  }

  /** Without an error in creating frames, a channel dropped as fully submitted has every frame it ever
      made in a confirmed transaction, the frames carry its whole compressed stream, and any two
      inclusion blocks are less than the channel timeout apart. */
  lemma DoneIsOnL1(l1Origin: BlockID, steps: seq<ManagerRuns.Step>, c: nat)
    requires CanRun(Cleared(l1Origin), steps)
    requires var m := Run(Cleared(l1Origin), steps); !m.outputFailed && c in m.done
    ensures var m := Run(Cleared(l1Origin), steps);
            && c < |m.chans|
            && var v := m.chans[c];
               && Complete(v.builder) && Payloads(v.builder.made) == v.builder.co.stream
               && (forall i :: 0 <= i < |v.builder.made| ==> v.builder.made[i].id.frameNumber == i && Confirmed(v, v.builder.made[i]))
               && forall a, b :: a in v.confirmed && b in v.confirmed ==>
                    v.confirmed[a].number < v.confirmed[b].number + v.builder.cfg.channelTimeout
  {
    Reachable(l1Origin, steps);
    var m := Run(Cleared(l1Origin), steps);
    hide Run;
    hide CanRun;
    hide ChannelInv;
    hide Kept;
    hide IdsDistinct;
    hide IndexAgrees;
    hide QueueOk;
    hide FullyConfirmed;
    var v := m.chans[c];
    assert ChannelInv(v) && FullyConfirmed(v);
    ConfirmedFrames(v);
  }

  lemma ConfirmedFrames(v: ChannelValue)
    requires ChannelInv(v) && FullyConfirmed(v)
    ensures Complete(v.builder) && Payloads(v.builder.made) == v.builder.co.stream
    ensures forall i :: 0 <= i < |v.builder.made| ==> v.builder.made[i].id.frameNumber == i && Confirmed(v, v.builder.made[i])
    ensures forall a, b :: a in v.confirmed && b in v.confirmed ==>
              v.confirmed[a].number < v.confirmed[b].number + v.builder.cfg.channelTimeout
  {
    SegmentedOf(v);
    FrameCount(v.builder);
    forall i | 0 <= i < |v.builder.made|
      ensures v.builder.made[i].id.frameNumber == i && Confirmed(v, v.builder.made[i])
    {
      ConfirmedFrame(v, i);
    }
    hide ChannelInv;
    hide Segmented;
    hide Payloads;
    hide Confirmed;
  }

  lemma ConfirmedFrame(v: ChannelValue, i: nat)
    requires ChannelInv(v) && FullyConfirmed(v) && i < |v.builder.made|
    ensures v.builder.made[i].id.frameNumber == i && Confirmed(v, v.builder.made[i])
  {
    hide Timed;
    hide Published;
    hide Render;
    hide InQueue;
    hide Unrepeated;
    assert v.builder.made[i].id.frameNumber == i && v.builder.numFrames == |v.builder.made| by {
      SegmentedOf(v);
      hide Payloads;
    }
    hide Segmented;
    hide Payloads;
    assert InTx(v, v.confirmed.Keys, i);
    var k :| k in v.confirmed.Keys && k in v.sent && Carries(v.sent[k], i);
    var j :| 0 <= j < |v.sent[k].frames| && v.sent[k].frames[j].id.frameNumber == i;
    assert IsMade(v.builder, v.sent[k].frames[j]);
  }

  lemma BuiltChannelInTime(m: ManagerValue, c: nat, l1Head: nat, p: Pipeline)
    requires Core(m) && m.Wf() && c < |m.chans| && !m.chans[c].builder.IsFull() && Build(m, c, l1Head, p).1
    ensures c < |Build(m, c, l1Head, p).0.chans|
    ensures var v := Build(m, c, l1Head, p).0.chans[c];
            !v.builder.IsFull() && Dated(v) ==> InTime(v, l1Head)
  {
    hide ChannelInv;
    hide Core;
    hide AddBlocks;
    hide BuilderSpec.OutputFrames;
    hide CheckTimeout;
    hide InTime;
    var v := m.chans[c];
    assert ChannelInv(v) by { CoreChan(m, c); }
    AddBlocksKeeps(v, m.blocks, p.adds, 0);
    AddBlocksShape(v.builder, m.blocks, p.adds, 0);
    var v1 := v.(builder := AddBlocks(v.builder, m.blocks, p.adds, 0).0);
    var b2 := CheckTimeout(v1.builder, l1Head);
    CheckTimeoutFrame(v1.builder, l1Head);
    OutputFramesFrame(b2, p.close);
    OutputFull(b2, p.close);
    var v' := Build(m, c, l1Head, p).0.chans[c];
    assert v'.builder == BuilderSpec.OutputFrames(b2, p.close).0 && v'.confirmed == v.confirmed;
    hide Build;
    if !v'.builder.IsFull() && Dated(v') {
      OpenChannelInTime(v1, l1Head);
      SameInTime(v1, v', l1Head);
    }
  }

  lemma SameInTime(v: ChannelValue, v': ChannelValue, l1Head: nat)
    requires v'.builder.cfg == v.builder.cfg && v'.builder.blocks == v.builder.blocks && v'.confirmed == v.confirmed
    ensures InTime(v, l1Head) ==> InTime(v', l1Head)
    ensures Dated(v') <==> Dated(v)
  {
  }

  lemma PoppedInTime(m: ManagerValue, c: nat, l1Head: nat)
    requires c < |m.chans|
    ensures var m' := PopTx(m, Some(c)).0;
            && m'.current == m.current && |m'.chans| == |m.chans|
            && m'.chans[c].builder.cfg == m.chans[c].builder.cfg && m'.chans[c].builder.full == m.chans[c].builder.full
            && (InTime(m.chans[c], l1Head) ==> InTime(m'.chans[c], l1Head))
            && (Dated(m'.chans[c]) <==> Dated(m.chans[c]))
  {
    hide InTime;
    hide Dated;
    hide Render;
    var m' := PopTx(m, Some(c)).0;
    SameInTime(m.chans[c], m'.chans[c], l1Head);
  }

  /** A call that neither finds pending data nor fails goes through the current channel. */
  ghost predicate Fills(m: ManagerValue, l1Head: nat, p: Pipeline)
    requires m.Wf() && Admissible(m, Request(l1Head, p))
  {
    FirstWithData(m.chans, m.queue).None? && !m.closed && m.blocks != [] && !RequestTx(m, l1Head, p).1.TxError?
  }

  /** At the end of any run: after a TxData call at an L1 head has filled the current channel, that
      channel, if it is still open and no deadline was zero, is ahead of the deadlines of all its
      blocks and all its confirmed transactions. */
  lemma FilledChannelInTime(l1Origin: BlockID, steps: seq<ManagerRuns.Step>, l1Head: nat, p: Pipeline)
    requires CanRun(Cleared(l1Origin), steps)
    requires Admissible(Run(Cleared(l1Origin), steps), Request(l1Head, p))
    requires Fills(Run(Cleared(l1Origin), steps), l1Head, p)
    ensures var m := RequestTx(Run(Cleared(l1Origin), steps), l1Head, p).0;
            && m.current.Some? && m.current.value < |m.chans|
            && var v := m.chans[m.current.value];
               !v.builder.IsFull() && Dated(v) ==> InTime(v, l1Head)
  {
    Reachable(l1Origin, steps);
    hide Run;
    hide CanRun;
    hide Core;
    hide Kept;
    hide Sound;
    FilledInTime(Run(Cleared(l1Origin), steps), l1Head, p);
  }

  lemma FilledInTime(m: ManagerValue, l1Head: nat, p: Pipeline)
    requires Core(m) && m.Wf() && Admissible(m, Request(l1Head, p)) && Fills(m, l1Head, p)
    ensures var m' := RequestTx(m, l1Head, p).0;
            && m'.current.Some? && m'.current.value < |m'.chans|
            && var v := m'.chans[m'.current.value];
               !v.builder.IsFull() && Dated(v) ==> InTime(v, l1Head)
  {
    hide Core;
    hide Build;
    hide PopTx;
    hide InTime;
    EnsureKeeps(m, p.opening);
    var space := EnsureSpace(m, p.opening).value;
    hide EnsureSpace;
    var c := space.current.value;
    var (m1, ok) := Build(space, c, l1Head, p);
    BuiltChannelInTime(space, c, l1Head, p);
    BuildCurrent(space, c, l1Head, p);
    PoppedInTime(m1, c, l1Head);
  }

  lemma BuildCurrent(m: ManagerValue, c: nat, l1Head: nat, p: Pipeline)
    requires c < |m.chans| && m.chans[c].builder.cfg.Valid() && m.chans[c].builder.co.taken <= |m.chans[c].builder.co.stream|
    ensures Build(m, c, l1Head, p).0.current == m.current
  {
    hide AddBlocks;
    hide BuilderSpec.OutputFrames;
    hide CheckTimeout;
    if ProcessBlocks(m, c, p.adds).1 {
      AddBlocksShape(m.chans[c].builder, m.blocks, p.adds, 0);
      CheckTimeoutFrame(ProcessBlocks(m, c, p.adds).0.chans[c].builder, l1Head);
    }
  }
}
