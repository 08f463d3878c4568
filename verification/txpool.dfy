/** op-batcher/batcher/driver.go, the recovery from an incompatible transaction in the pool: the main
    loop and the receipt goroutine share the pool state under a mutex, and every transaction handed
    to the queue comes back as one receipt. */
module TxPool {
  import opened Bytes
  import opened TxDatas
  import opened BuilderSpec
  import opened ChannelSpec
  import opened Segmentation
  import opened Deadlines
  import opened FrameConservation
  import opened ManagerSpec
  import opened ManagerIndex
  import opened ManagerRuns

  datatype PoolState = Good | Blocked | CancelPending

  datatype TxRef = TxRef(id: seq<FrameID>, isCancel: bool, isBlob: bool)

  datatype Outcome = AlreadyReserved | OtherError | Reverted | Included(block: BlockID)

  /** A cancellation carries no frames, and is never marked as a blob transaction. */
  const CANCELLATION := TxRef([], true, false)

  /** What the main loop does under the mutex: the new state, and the cancellation to send, which is of
      the type that was not refused. */
  function Check(state: PoolState, blockedBlob: bool): (PoolState, Option<bool>) {
    if state == Blocked then (CancelPending, Some(!blockedBlob)) else (state, None)
  }

  /** What the receipt goroutine does under the mutex. */
  function OnReceipt(state: PoolState, blockedBlob: bool, ref: TxRef, outcome: Outcome): (PoolState, bool) {
    if outcome == AlreadyReserved && state == Good then (Blocked, ref.isBlob)
    else if ref.isCancel && state == CancelPending then (Good, blockedBlob)
    else (state, blockedBlob)
  }

  ghost function HandleReceipt(m: ManagerValue, ref: TxRef, outcome: Outcome): ManagerValue
    requires m.Wf()
  {
    match outcome
    case Included(block) => ManagerSpec.TxConfirmed(m, Render(ref.id, ZeroChannelID), block)
    case _ => ManagerSpec.TxFailed(m, Render(ref.id, ZeroChannelID))
  }

  /** `due` is the cancellation the main loop has decided on and not sent yet (whether it is a blob
      transaction), `flying` the transactions in the queue, and `handling` the receipt that the
      goroutine has taken out of the channel and not yet passed to the manager. */
  datatype Driver = Driver(
    pool: PoolState, blockedBlob: bool, due: Option<bool>, flying: multiset<TxRef>,
    handling: Option<(TxRef, Outcome)>, manager: ManagerValue)

  datatype Action =
    | CheckTxpool
    | SendCancellation
    | SendData(id: seq<FrameID>, isBlob: bool)
    | Receive(ref: TxRef, outcome: Outcome)
    | Handle
    | Work(step: ManagerRuns.Step)

  ghost predicate Enabled(d: Driver, a: Action) {
    match a
    case CheckTxpool => d.due.None?
    case SendCancellation => d.due.Some?
    case SendData(id, isBlob) => id != []
    case Receive(ref, outcome) => ref in d.flying && d.handling.None?
    case Handle => d.handling.Some? && d.manager.Wf()
    case Work(step) => d.manager.Wf() && Admissible(d.manager, step) && Small(ManagerRuns.Next(d.manager, step))
  }

  ghost function Act(d: Driver, a: Action): Driver
    requires Enabled(d, a)
  {
    match a
    case CheckTxpool =>
      var (pool, cancel) := Check(d.pool, d.blockedBlob);
      d.(pool := pool, due := cancel)
    case SendCancellation => d.(due := None, flying := d.flying + multiset{CANCELLATION})
    case SendData(id, isBlob) => d.(flying := d.flying + multiset{TxRef(id, false, isBlob)})
    case Receive(ref, outcome) =>
      var (pool, blob) := OnReceipt(d.pool, d.blockedBlob, ref, outcome);
      d.(pool := pool, blockedBlob := blob, flying := d.flying - multiset{ref}, handling := Some((ref, outcome)))
    case Handle => d.(handling := None, manager := HandleReceipt(d.manager, d.handling.value.0, d.handling.value.1))
    case Work(step) => d.(manager := ManagerRuns.Next(d.manager, step))
  }

  /** The cancellations decided on, or sent and not received back. */
  function Outstanding(d: Driver): nat {
    d.flying[CANCELLATION] + (if d.due.Some? then 1 else 0)
  }

  ghost predicate WellMarked(ref: TxRef) {
    if ref.isCancel then ref == CANCELLATION else ref.id != []
  }

  ghost predicate PoolInv(d: Driver) {
    && Outstanding(d) == (if d.pool == CancelPending then 1 else 0)
    && (forall ref :: ref in d.flying ==> WellMarked(ref))
    && (d.handling.Some? ==> WellMarked(d.handling.value.0))
    && (d.due.Some? ==> d.due.value == !d.blockedBlob)
  }

  function Start(m: ManagerValue): Driver {
    Driver(Good, false, None, multiset{}, None, m)
  }

  /** In every interleaving at most one cancellation is outstanding, and one is if and only if the
      pool waits for it. */
  lemma ActKeepsPool(d: Driver, a: Action)
    requires PoolInv(d) && Enabled(d, a)
    ensures PoolInv(Act(d, a))
  {
    hide ManagerValue.Wf;
    hide Admissible;
    hide Small;
    hide ManagerRuns.Next;
    hide HandleReceipt;
  }

  /** The empty id is never in the index: every transaction of a channel has a frame. */
  lemma NoEmptyId(m: ManagerValue)
    requires Core(m)
    ensures "" !in m.txChannels
  {
    if "" in m.txChannels {
      KnownTx(m, "");
      hide Core;
      NoEmptyKey(m.chans[m.txChannels[""]]);
    }
  }

  lemma NoEmptyKey(c: ChannelValue)
    requires ChannelInv(c)
    ensures "" !in c.pending
  {
    hide Timed;
    hide Published;
    hide InQueue;
    hide Carries;
    hide Render;
    hide Segmented;
    if "" in c.pending {
      assert GoodTx(c.builder, "", c.sent[""]);
      GoodTxIDs(c.builder, "", c.sent[""]);
      assert false;
    }
  }

  /** What the manager hands out has frames, so that it is never taken for a cancellation. */
  lemma RequestedDataHasFrames(m: ManagerValue, l1Head: nat, p: Pipeline)
    requires m.Wf() && Core(m) && Admissible(m, Request(l1Head, p)) && Small(RequestTx(m, l1Head, p).0)
    requires RequestTx(m, l1Head, p).1.Tx?
    ensures RequestTx(m, l1Head, p).1.data.ID() != []
  {
    hide Core;
    hide Small;
    RequestKeeps(m, l1Head, p);
    NoEmptyId(RequestTx(m, l1Head, p).0);
    RequestedIsIndexed(m, l1Head, p);
    hide RequestTx;
    NamedHasFrames(RequestTx(m, l1Head, p).1.data);
  }

  lemma RequestedIsIndexed(m: ManagerValue, l1Head: nat, p: Pipeline)
    requires m.Wf() && (p.opening.Opened? ==> p.opening.cfg.Valid()) && RequestTx(m, l1Head, p).1.Tx?
    ensures RequestTx(m, l1Head, p).1.data.Key() in RequestTx(m, l1Head, p).0.txChannels
  {
    hide Render;
    hide Build;
    hide EnsureSpace;
  }

  lemma NamedHasFrames(tx: TxData)
    requires tx.Key() != ""
    ensures tx.ID() != []
  {
    EmptyRender();
    hide Render;
  }

  /** A cancellation's receipt, whatever its outcome, leaves the channel manager alone. */
  lemma CancellationKeepsManager(m: ManagerValue, outcome: Outcome)
    requires Core(m) && m.Wf()
    ensures HandleReceipt(m, CANCELLATION, outcome) == m
  {
    NoEmptyId(m);
    EmptyRender();
    hide Core;
    hide ManagerValue.Wf;
  }

  /** The manager stays consistent, and receipts that are not for real data do not reach it. */
  lemma ActKeepsManager(d: Driver, a: Action)
    requires PoolInv(d) && Core(d.manager) && Enabled(d, a)
    ensures Core(Act(d, a).manager)
    ensures a.Handle? && d.handling.value.0.isCancel ==> Act(d, a).manager == d.manager
  {
    hide Core;
    hide Admissible;
    hide Small;
    match a
    case Handle =>
      hide ManagerValue.Wf;
      var (ref, outcome) := d.handling.value;
      if ref.isCancel {
        CancellationKeepsManager(d.manager, outcome);
      }
      hide Render;
      var k := Render(ref.id, ZeroChannelID);
      TxFailedKeeps(d.manager, k);
      match outcome {
        case Included(block) => TxConfirmedKeeps(d.manager, k, block);
        case _ =>
      }
    case Work(step) =>
      hide ManagerValue.Wf;
      ManagerRuns.NextKeeps(d.manager, step);
    case _ =>
  }

  ghost predicate CanAct(d: Driver, actions: seq<Action>)
    decreases |actions|
  {
    actions == [] || (Enabled(d, actions[0]) && CanAct(Act(d, actions[0]), actions[1..]))
  }

  ghost function ActAll(d: Driver, actions: seq<Action>): Driver
    requires CanAct(d, actions)
    decreases |actions|
  {
    if actions == [] then d else ActAll(Act(d, actions[0]), actions[1..])
  }

  lemma {:induction false} EveryInterleaving(d: Driver, actions: seq<Action>)
    requires PoolInv(d) && Core(d.manager) && CanAct(d, actions)
    ensures PoolInv(ActAll(d, actions)) && Core(ActAll(d, actions).manager)
    decreases |actions|
  {
    hide PoolInv;
    hide Core;
    hide Enabled;
    if actions != [] {
      ActKeepsPool(d, actions[0]);
      ActKeepsManager(d, actions[0]);
      hide Act;
      EveryInterleaving(Act(d, actions[0]), actions[1..]);
    }
  }

  /** From the start of the loop with a cleared manager. */
  lemma CancellationIsSingle(l1Origin: BlockID, actions: seq<Action>)
    requires CanAct(Start(Cleared(l1Origin)), actions)
    ensures var d := ActAll(Start(Cleared(l1Origin)), actions);
            && (d.pool == CancelPending <==> Outstanding(d) == 1)
            && Outstanding(d) <= 1
            && "" !in d.manager.txChannels
  {
    ClearedCore(l1Origin);
    EveryInterleaving(Start(Cleared(l1Origin)), actions);
    NoEmptyId(ActAll(Start(Cleared(l1Origin)), actions).manager);
    hide ActAll;
    hide CanAct;
    hide Core;
  }

  /** What is left to do before a cancellation in the queue can come back: the goroutine first passes on
      the receipt it is handling. */
  function Received(d: Driver, outcome: Outcome): seq<Action> {
    (if d.handling.Some? then [Handle] else []) + [Receive(CANCELLATION, outcome)]
  }

  function Returned(d: Driver, outcome: Outcome): seq<Action> {
    if d.due.Some? then [SendCancellation] + Received(d, outcome) else Received(d, outcome)
  }

  /** The way out of an unusable pool. */
  function Recovery(d: Driver, outcome: Outcome): seq<Action> {
    if d.pool == Blocked then [CheckTxpool] + ([SendCancellation] + Received(d, outcome)) else Returned(d, outcome)
  }

  lemma FirstOf(d: Driver, a: Action, more: seq<Action>)
    requires Enabled(d, a) && CanAct(Act(d, a), more)
    ensures CanAct(d, [a] + more) && ActAll(d, [a] + more) == ActAll(Act(d, a), more)
  {
    hide Enabled;
    hide Act;
    assert ([a] + more)[0] == a && ([a] + more)[1..] == more;
  }

  lemma CancellationReturns(d: Driver, outcome: Outcome)
    requires d.pool == CancelPending && CANCELLATION in d.flying && d.manager.Wf()
    ensures CanAct(d, Received(d, outcome)) && ActAll(d, Received(d, outcome)).pool == Good
  {
    hide ManagerValue.Wf;
    hide HandleReceipt;
    var receive := Receive(CANCELLATION, outcome);
    var d' := if d.handling.Some? then Act(d, Handle) else d;
    assert Enabled(d', receive) && Act(d', receive).pool == Good;
    FirstOf(d', receive, []);
    assert [receive] + [] == [receive];
    if d.handling.Some? {
      FirstOf(d, Handle, [receive]);
    } else {
      assert Received(d, outcome) == [receive];
    }
    hide Act;
    hide Enabled;
  }

  lemma PendingReturns(d: Driver, outcome: Outcome)
    requires PoolInv(d) && d.pool == CancelPending && d.manager.Wf()
    ensures CanAct(d, Returned(d, outcome)) && ActAll(d, Returned(d, outcome)).pool == Good
  {
    hide ManagerValue.Wf;
    var d' := if d.due.Some? then Act(d, SendCancellation) else d;
    assert Received(d', outcome) == Received(d, outcome);
    hide Received;
    CancellationReturns(d', outcome);
    if d.due.Some? {
      FirstOf(d, SendCancellation, Received(d, outcome));
    }
    hide CanAct;
    hide ActAll;
  }

  /** The pool need not stay unusable: from any state in which it is, also while the goroutine is handling
      another receipt, these at most four actions are possible one after the other and leave it good,
      whatever becomes of the cancellation. */
  lemma RecoveryIsPossible(d: Driver, outcome: Outcome)
    requires PoolInv(d) && d.pool != Good && d.manager.Wf()
    ensures |Recovery(d, outcome)| <= 4
    ensures CanAct(d, Recovery(d, outcome)) && ActAll(d, Recovery(d, outcome)).pool == Good
  {
    hide ManagerValue.Wf;
    if d.pool == Blocked {
      ActKeepsPool(d, CheckTxpool);
      var d1 := Act(d, CheckTxpool);
      assert Returned(d1, outcome) == [SendCancellation] + Received(d, outcome);
      PendingReturns(d1, outcome);
      FirstOf(d, CheckTxpool, Returned(d1, outcome));
    } else {
      PendingReturns(d, outcome);
    }
    hide CanAct;
    hide ActAll;
    hide PoolInv;
  }

  /** The hypotheses hold at the end of every interleaving from the start of the loop. */
  lemma RecoveryIsReachable(l1Origin: BlockID, actions: seq<Action>, outcome: Outcome)
    requires CanAct(Start(Cleared(l1Origin)), actions)
    ensures var d := ActAll(Start(Cleared(l1Origin)), actions);
            d.pool != Good ==> CanAct(d, Recovery(d, outcome)) && ActAll(d, Recovery(d, outcome)).pool == Good
  {
    ClearedCore(l1Origin);
    EveryInterleaving(Start(Cleared(l1Origin)), actions);
    var d := ActAll(Start(Cleared(l1Origin)), actions);
    hide ActAll;
    hide CanAct;
    CoreWf(d.manager);
    hide Core;
    hide PoolInv;
    hide Recovery;
    if d.pool != Good {
      RecoveryIsPossible(d, outcome);
    }
  }
}
