/** Which idle channels Close drops, at the end of any run of the channel manager, and a run after which
    it does not drop all of them. */
module ManagerIdle {
  import opened Bytes
  import opened TxDatas
  import opened BuilderSpec
  import opened ChannelSpec
  import opened ManagerSpec
  import opened ManagerClose
  import opened ManagerIndex
  import opened ManagerRuns
  import opened ManagerBlocks
  import opened ManagerDone
  import opened ManagerResults

  lemma AscendingDistinct(q: seq<nat>)
    requires Ascending(q)
    ensures Distinct(q)
  {
  }

  lemma CloseKeepsQueue(m: ManagerValue, close: CloseOutcome)
    requires m.Wf() && !m.closed
    ensures CloseAll(m, close).0.queue == DropIdle(m).queue
  {
    hide Sweep;
    hide BuilderSpec.OutputFrames;
  }

  /** Close at the end of any run keeps every channel with a transaction in flight or confirmed, and drops
      all the others if and only if no two of them are neighbours before the last channel of the queue. */
  lemma CloseDropsIdleOnEveryRun(l1Origin: BlockID, steps: seq<ManagerRuns.Step>, close: CloseOutcome)
    requires CanRun(Cleared(l1Origin), steps) && !Run(Cleared(l1Origin), steps).closed
    ensures var m := Run(Cleared(l1Origin), steps);
            var q := CloseAll(m, close).0.queue;
            && q == Survivors(m.queue, Idle(m))
            && (forall c :: c in q ==> c in m.queue)
            && (forall c :: c in m.queue && OnItsWay(m.chans[c]) ==> c in q)
            && ((forall c :: c in q ==> c in m.queue && OnItsWay(m.chans[c])) <==> !IdlePair(m.queue, Idle(m)))
  {
    Reachable(l1Origin, steps);
    var m := Run(Cleared(l1Origin), steps);
    hide Run;
    hide CanRun;
    hide Kept;
    hide Sound;
    hide ChansOk;
    hide IdsDistinct;
    hide IndexAgrees;
    AscendingDistinct(m.queue);
    hide QueueOk;
    hide Ascending;
    hide Distinct;
    hide Survivors;
    hide IdlePair;
    CloseKeepsQueue(m, close);
    hide CloseAll;
    hide DropIdle;
    CloseDropsIdle(m);
  }

  // Three channels with one frame each are opened and sent; then the transactions of the first two fail.

  const Cfg := ChannelConfig(1, 1, 0, 0, FRAME_OVERHEAD + 1, 1, false)

  function Name(i: nat): ChannelID
    requires i < 3
  {
    ZeroChannelID[15 := (i + 1) as byte]
  }

  function NextBlock(i: nat): Block {
    Block(i + 1, i, i, BlockID(0, 0))
  }

  function Pipe(i: nat): Pipeline
    requires i < 3
  {
    Pipeline(Opened(Cfg, Name(i)), n => BatchAccepted([], true), Flushed([]))
  }

  function OnlyFrame(i: nat): Frame
    requires i < 3
  {
    Frame(FrameID(Name(i), 0), [], true)
  }

  function OnlyTx(i: nat): TxData
    requires i < 3
  {
    TxData([OnlyFrame(i)], false)
  }

  /** Channel `i` is full, and its one frame is in flight. */
  ghost predicate InFlight(v: ChannelValue, i: nat)
    requires i < 3
  {
    && v.pending == map[OnlyTx(i).Key() := OnlyTx(i)] && v.confirmed == map[]
    && v.builder.IsFull() && v.builder.frames == [] && v.builder.made == [OnlyFrame(i)] && v.builder.co.id == Name(i)
  }

  function UpTo(n: nat): seq<nat> {
    if n == 0 then [] else UpTo(n - 1) + [n - 1]
  }

  lemma UpToAt(n: nat)
    ensures |UpTo(n)| == n && forall i :: 0 <= i < n ==> UpTo(n)[i] == i
  {
  }

  /** The first `i` channels are in flight, and nothing else is left to do. */
  ghost predicate Stage(m: ManagerValue, i: nat) {
    && i <= 3 && m.Wf() && m.blocks == [] && !m.closed && m.tip == i
    && |m.chans| == i && m.queue == UpTo(i) && m.current == (if i == 0 then None else Some(i - 1))
    && forall c :: 0 <= c < i ==> InFlight(m.chans[c], c)
  }

  /** What adding the block, registering the head and creating frames make of a new channel. */
  lemma Filled(i: nat, l1: nat, b: BuilderValue)
    requires i < 3 && b == AddBlock(NewBuilder(Cfg, Name(i), l1), NextBlock(i), BatchAccepted([], true)).0
    ensures b.IsFull() && !b.co.closed && b.cfg == Cfg && b.co.taken <= |b.co.stream|
    ensures AddBlocks(NewBuilder(Cfg, Name(i), l1), [NextBlock(i)], Pipe(i).adds, 0) == (b, Some(1))
    ensures CheckTimeout(b, 0) == b
    ensures var (b', ok) := BuilderSpec.OutputFrames(b, Flushed([]));
            && ok && b'.IsFull() && b'.cfg == Cfg && b'.co.id == Name(i) && b'.co.taken <= |b'.co.stream|
            && b'.frames == [OnlyFrame(i)] && b'.made == [OnlyFrame(i)] && b'.latestL1Origin.number == 0
  {
  }

  lemma NothingToSend(chans: seq<ChannelValue>, queue: seq<nat>)
    requires forall k :: 0 <= k < |queue| ==> queue[k] < |chans| && !chans[queue[k]].HasTxData()
    ensures FirstWithData(chans, queue) == None
  {
  }

  lemma BlockArrives(m: ManagerValue, i: nat)
    requires Stage(m, i) && i < 3
    ensures var m1 := AddL2Block(m, NextBlock(i)).0;
            m1 == m.(blocks := [NextBlock(i)], tip := i + 1, accepted := m1.accepted) && m1.Wf()
  {
  }

  /** The channel opened for the block. */
  lemma ChannelOpens(m: ManagerValue, i: nat)
    requires Stage(m, i) && i < 3
    ensures Admissible(m, Request(0, Pipe(i)))
    ensures FirstWithData(m.chans, m.queue) == None
    ensures EnsureSpace(m, Pipe(i).opening)
         == Some(m.(current := Some(i), queue := UpTo(i + 1), chans := m.chans + [NewChannel(Cfg, Name(i), m.l1OriginLastClosed.number)]))
  {
    UpToAt(i);
    NothingToSend(m.chans, m.queue);
    assert Name(i)[15] != ZeroChannelID[15];
    forall c | 0 <= c < i
      ensures m.chans[c].builder.co.id != Name(i)
    {
      assert Name(c)[15] != Name(i)[15];
    }
  }

  /** The channel filled, closed and output, and its transaction handed out. */
  lemma ChannelSent(m: ManagerValue, i: nat, l1: nat)
    requires i < 3 && m.blocks == [NextBlock(i)] && |m.chans| == i + 1 && m.chans[i] == NewChannel(Cfg, Name(i), l1)
    requires Cfg.Valid()
    ensures var (m1, ok) := Build(m, i, 0, Pipe(i));
            && ok && |m1.chans| == i + 1
            && var m2 := PopTx(m1, Some(i)).0;
               && m2 == m.(blocks := [], chans := m2.chans, txChannels := m.txChannels[OnlyTx(i).Key() := i])
               && |m2.chans| == i + 1 && m2.chans[..i] == m.chans[..i]
               && InFlight(m2.chans[i], i)
               && m2.chans[i].builder.cfg == Cfg && m2.chans[i].builder.co.taken <= |m2.chans[i].builder.co.stream|
  {
    hide Render;
    var b := AddBlock(NewBuilder(Cfg, Name(i), l1), NextBlock(i), BatchAccepted([], true)).0;
    Filled(i, l1, b);
    hide AddBlock;
    hide NewBuilder;
    hide AddBlocks;
    hide CheckTimeout;
    hide BuilderSpec.OutputFrames;
    var m1 := Build(m, i, 0, Pipe(i)).0;
    var b' := BuilderSpec.OutputFrames(b, Flushed([])).0;
    assert m1 == m.(blocks := [], chans := m.chans[i := m.chans[i].(builder := b')]);
    hide Build;
    assert m1.chans[i].NextTx() == OnlyTx(i);
  }

  lemma StageAgain(m: ManagerValue, m': ManagerValue, i: nat)
    requires Stage(m, i) && i < 3
    requires m'.blocks == [] && !m'.closed && m'.tip == i + 1 && m'.queue == UpTo(i + 1) && m'.current == Some(i)
    requires m'.txChannels == m.txChannels[OnlyTx(i).Key() := i]
    requires |m'.chans| == i + 1 && m'.chans[..i] == m.chans && InFlight(m'.chans[i], i)
    requires m'.chans[i].builder.cfg.Valid() && m'.chans[i].builder.co.taken <= |m'.chans[i].builder.co.stream|
    ensures Stage(m', i + 1) && Small(m')
  {
    hide Render;
    UpToAt(i + 1);
    forall c | 0 <= c < i
      ensures m'.chans[c] == m.chans[c]
    {
      assert m'.chans[..i][c] == m.chans[c];
    }
    hide UpTo;
  }

  /** The request that opens a channel for the block. */
  lemma RequestSends(m: ManagerValue, i: nat, m1: ManagerValue)
    requires Stage(m, i) && i < 3 && m1.Wf()
    requires m1 == m.(blocks := [NextBlock(i)], tip := i + 1, accepted := m1.accepted)
    ensures Admissible(m1, Request(0, Pipe(i)))
    ensures Stage(RequestTx(m1, 0, Pipe(i)).0, i + 1) && Small(RequestTx(m1, 0, Pipe(i)).0)
  {
    hide Render;
    hide InFlight;
    ChannelOpens(m, i);
    var v := NewChannel(Cfg, Name(i), m.l1OriginLastClosed.number);
    var m2 := m1.(current := Some(i), queue := UpTo(i + 1), chans := m.chans + [v]);
    hide NewChannel;
    assert EnsureSpace(m1, Pipe(i).opening) == Some(m2);
    hide EnsureSpace;
    ChannelSent(m2, i, m.l1OriginLastClosed.number);
    hide Build;
    hide PopTx;
    var m3 := PopTx(Build(m2, i, 0, Pipe(i)).0, Some(i)).0;
    assert RequestTx(m1, 0, Pipe(i)).0 == m3;
    assert (m.chans + [v])[..i] == m.chans;
    hide RequestTx;
    StageAgain(m, m3, i);
  }

  /** One block, and one request that opens a channel for it. */
  lemma StageStep(m: ManagerValue, i: nat)
    requires Stage(m, i) && i < 3
    ensures var m1 := ManagerRuns.Next(m, NewBlock(NextBlock(i)));
            && m1.Wf() && Small(m1) && Admissible(m1, Request(0, Pipe(i)))
            && var m2 := ManagerRuns.Next(m1, Request(0, Pipe(i)));
               Stage(m2, i + 1) && Small(m2) && m2.Wf()
  {
    hide Render;
    BlockArrives(m, i);
    RequestSends(m, i, AddL2Block(m, NextBlock(i)).0);
    hide RequestTx;
    hide AddL2Block;
  }

  lemma {:induction false} OneMoreStep(m: ManagerValue, steps: seq<ManagerRuns.Step>, step: ManagerRuns.Step)
    requires CanRun(m, steps) && Admissible(Run(m, steps), step)
    requires var m' := ManagerRuns.Next(Run(m, steps), step); m'.Wf() && Small(m')
    ensures CanRun(m, steps + [step]) && Run(m, steps + [step]) == ManagerRuns.Next(Run(m, steps), step)
    decreases |steps|
  {
    hide ManagerValue.Wf;
    hide Small;
    hide Admissible;
    hide ManagerRuns.Next;
    if steps == [] {
      assert [] + [step] == [step] && [step][1..] == [];
      assert CanRun(ManagerRuns.Next(m, step), []);
    } else {
      assert (steps + [step])[0] == steps[0] && (steps + [step])[1..] == steps[1..] + [step];
      OneMoreStep(ManagerRuns.Next(m, steps[0]), steps[1..], step);
    }
  }

  function SendingRun(i: nat): seq<ManagerRuns.Step>
    requires i <= 3
  {
    if i == 0 then [] else SendingRun(i - 1) + [NewBlock(NextBlock(i - 1))] + [Request(0, Pipe(i - 1))]
  }

  lemma {:induction false} Sending(l1Origin: BlockID, i: nat)
    requires i <= 3
    ensures CanRun(Cleared(l1Origin), SendingRun(i))
    ensures var m := Run(Cleared(l1Origin), SendingRun(i)); Stage(m, i) && Small(m)
  {
    if i > 0 {
      Sending(l1Origin, i - 1);
      var m := Run(Cleared(l1Origin), SendingRun(i - 1));
      hide Stage;
      hide CanRun;
      hide Run;
      StageStep(m, i - 1);
      assert Admissible(m, NewBlock(NextBlock(i - 1)));
      hide Small;
      hide Admissible;
      hide ManagerRuns.Next;
      OneMoreStep(Cleared(l1Origin), SendingRun(i - 1), NewBlock(NextBlock(i - 1)));
      hide ManagerValue.Wf;
      OneMoreStep(Cleared(l1Origin), SendingRun(i - 1) + [NewBlock(NextBlock(i - 1))], Request(0, Pipe(i - 1)));
    }
  }

  /** The frame of channel `i` is back in its queue, and no transaction is in flight or confirmed. */
  ghost predicate Returned(v: ChannelValue, i: nat)
    requires i < 3
  {
    !OnItsWay(v) && v.builder.frames == [OnlyFrame(i)]
  }

  lemma InFlightFails(v: ChannelValue, c: nat)
    requires c < 3 && InFlight(v, c)
    ensures OnlyTx(c).Key() in v.pending
    ensures var v' := ChannelSpec.TxFailed(v, OnlyTx(c).Key());
            && Returned(v', c) && v'.builder.cfg == v.builder.cfg && v'.builder.co == v.builder.co
            && v'.builder.made == v.builder.made
  {
    hide Render;
    var k := OnlyTx(c).Key();
    assert v.pending - {k} == map[];
  }

  /** Channel `c` changes, but not what it has made. */
  lemma ChangedWf(m: ManagerValue, m': ManagerValue, c: nat)
    requires m.Wf() && Small(m) && c < |m.chans| == |m'.chans|
    requires m'.queue == m.queue && m'.current == m.current
    requires forall k :: k in m'.txChannels ==> k in m.txChannels && m'.txChannels[k] == m.txChannels[k]
    requires forall d :: 0 <= d < |m.chans| && d != c ==> m'.chans[d] == m.chans[d]
    requires var b, b' := m.chans[c].builder, m'.chans[c].builder; b'.cfg == b.cfg && b'.co == b.co && b'.made == b.made
    ensures m'.Wf() && Small(m')
  {
  }

  lemma FailedValue(m: ManagerValue, k: string, c: nat)
    requires m.Wf() && !m.closed && k in m.txChannels && m.txChannels[k] == c
    ensures c < |m.chans|
    ensures ManagerSpec.TxFailed(m, k)
         == m.(chans := m.chans[c := ChannelSpec.TxFailed(m.chans[c], k)], txChannels := m.txChannels - {k})
  {
    hide ChannelSpec.TxFailed;
  }

  /** The transaction in flight of channel `c` fails. */
  lemma FailsBack(m: ManagerValue, c: nat)
    requires Core(m) && m.Wf() && Small(m) && !m.closed && c < 3 && c < |m.chans| && InFlight(m.chans[c], c)
    ensures var m' := ManagerSpec.TxFailed(m, OnlyTx(c).Key());
            && m'.Wf() && Small(m') && !m'.closed && m'.queue == m.queue && m'.current == m.current
            && |m'.chans| == |m.chans| && Returned(m'.chans[c], c)
            && forall d :: 0 <= d < |m.chans| && d != c ==> m'.chans[d] == m.chans[d]
  {
    hide OnlyTx;
    hide Render;
    hide InFlight;
    hide Returned;
    hide Core;
    hide ManagerValue.Wf;
    hide Small;
    hide ChannelSpec.TxFailed;
    hide ManagerSpec.TxFailed;
    InFlightFails(m.chans[c], c);
    CoreIndex(m, OnlyTx(c).Key(), c);
    FailedValue(m, OnlyTx(c).Key(), c);
    ChangedWf(m, ManagerSpec.TxFailed(m, OnlyTx(c).Key()), c);
  }

  /** Nothing but the first `i` channels of the three is idle. */
  ghost predicate FailedUpTo(m: ManagerValue, i: nat) {
    && i <= 3 && m.Wf() && Small(m) && !m.closed && m.queue == [0, 1, 2] && m.current == Some(2) && |m.chans| == 3
    && (forall c :: 0 <= c < i ==> Returned(m.chans[c], c))
    && (forall c :: i <= c < 3 ==> InFlight(m.chans[c], c))
  }

  lemma OneMoreFailed(m: ManagerValue, m': ManagerValue, i: nat)
    requires i < 3 && FailedUpTo(m, i)
    requires m'.Wf() && Small(m') && !m'.closed && m'.queue == m.queue && m'.current == m.current && |m'.chans| == |m.chans|
    requires Returned(m'.chans[i], i) && forall d :: 0 <= d < |m.chans| && d != i ==> m'.chans[d] == m.chans[d]
    ensures FailedUpTo(m', i + 1)
  {
    hide InFlight;
    hide Returned;
    hide Small;
    hide ManagerValue.Wf;
  }

  lemma NextFails(l1Origin: BlockID, steps: seq<ManagerRuns.Step>, i: nat)
    requires i < 3 && CanRun(Cleared(l1Origin), steps) && FailedUpTo(Run(Cleared(l1Origin), steps), i)
    ensures var steps' := steps + [Failure(OnlyTx(i).Key())];
            CanRun(Cleared(l1Origin), steps') && FailedUpTo(Run(Cleared(l1Origin), steps'), i + 1)
  {
    var m, step := Run(Cleared(l1Origin), steps), Failure(OnlyTx(i).Key());
    Reachable(l1Origin, steps);
    hide Run;
    hide CanRun;
    hide Core;
    hide Kept;
    hide Sound;
    hide Render;
    hide InFlight;
    hide Returned;
    FailsBack(m, i);
    var m' := ManagerRuns.Next(m, step);
    assert m' == ManagerSpec.TxFailed(m, OnlyTx(i).Key()) && Admissible(m, step);
    OneMoreFailed(m, m', i);
    hide FailedUpTo;
    hide Small;
    hide ManagerValue.Wf;
    hide ManagerSpec.TxFailed;
    hide ManagerRuns.Next;
    OneMoreStep(Cleared(l1Origin), steps, step);
  }

  ghost function NeighboursRun(): seq<ManagerRuns.Step> {
    SendingRun(3) + [Failure(OnlyTx(0).Key())] + [Failure(OnlyTx(1).Key())]
  }

  lemma SentUpToThree(m: ManagerValue)
    requires Stage(m, 3) && Small(m)
    ensures FailedUpTo(m, 0)
  {
    hide InFlight;
    UpToAt(3);
    assert UpTo(3) == [0, 1, 2];
    hide UpTo;
  }

  lemma TwoIdle(m: ManagerValue)
    requires FailedUpTo(m, 2)
    ensures Idle(m) == {0, 1} && !m.closed && m.queue == [0, 1, 2] && m.current == Some(2) && |m.chans| == 3
    ensures m.chans[1].builder.frames == [OnlyFrame(1)] && m.chans[2].builder.IsFull() && m.chans[2].builder.frames == []
  {
    hide Render;
    hide ManagerValue.Wf;
    assert OnlyTx(2).Key() in m.chans[2].pending;
  }

  /** The run ends with two idle channels before the last one. */
  lemma IdleNeighboursReachable(l1Origin: BlockID) returns (steps: seq<ManagerRuns.Step>)
    ensures CanRun(Cleared(l1Origin), steps)
    ensures var m := Run(Cleared(l1Origin), steps);
            && !m.closed && m.queue == [0, 1, 2] && Idle(m) == {0, 1} && m.current == Some(2) && |m.chans| == 3
            && m.chans[1].builder.frames == [OnlyFrame(1)] && m.chans[2].builder.IsFull() && m.chans[2].builder.frames == []
    ensures steps == NeighboursRun()
  {
    steps := NeighboursRun();
    var sent := SendingRun(3);
    assert steps == sent + [Failure(OnlyTx(0).Key())] + [Failure(OnlyTx(1).Key())];
    Sending(l1Origin, 3);
    hide SendingRun;
    hide NeighboursRun;
    hide OnlyTx;
    hide Render;
    hide Run;
    hide CanRun;
    hide Stage;
    SentUpToThree(Run(Cleared(l1Origin), sent));
    hide FailedUpTo;
    NextFails(l1Origin, sent, 0);
    NextFails(l1Origin, sent + [Failure(OnlyTx(0).Key())], 1);
    TwoIdle(Run(Cleared(l1Origin), steps));
  }

  lemma SurvivorsOfThree()
    ensures Survivors([0, 1, 2], {0, 1}) == [1, 2]
  {
    assert [0, 1, 2][2..] == [2] && [2][1..] == [];
    assert Survivors([2], {0, 1}) == [2] + Survivors([], {0, 1});
  }

  /** Close then keeps the second of them, although none of its transactions is in flight or confirmed. */
  lemma CloseKeepsIdleNeighbour(l1Origin: BlockID, close: CloseOutcome) returns (steps: seq<ManagerRuns.Step>)
    ensures CanRun(Cleared(l1Origin), steps)
    ensures var m := Run(Cleared(l1Origin), steps);
            && !m.closed && CloseAll(m, close).0.queue == [1, 2]
            && 1 < |m.chans| && !OnItsWay(m.chans[1])
    ensures steps == NeighboursRun()
  {
    steps := IdleNeighboursReachable(l1Origin);
    hide NeighboursRun;
    CloseDropsIdleOnEveryRun(l1Origin, steps, close);
    hide CanRun;
    hide Run;
    hide CloseAll;
    hide ManagerValue.Wf;
    hide IdlePair;
    var m := Run(Cleared(l1Origin), steps);
    assert 1 in Idle(m) && 1 in m.queue;
    hide Idle;
    SurvivorsOfThree();
    hide Survivors;
  }
}
