/** op-batcher/batcher/channel_manager.go as functions on values.  A channel is named by its place
    among the channels opened since the last Clear. */
module ManagerSpec {
  import opened Bytes
  import opened TxDatas
  import opened BuilderSpec
  import opened ChannelSpec

  /** What opening a channel gives: its configuration and a random id, or an error. */
  datatype Opening = Opened(cfg: ChannelConfig, id: ChannelID) | OpenFailed

  /** What the abstract pipeline answers during one TxData call. */
  datatype Pipeline = Pipeline(opening: Opening, adds: nat -> AddOutcome, close: CloseOutcome)

  datatype TxResult = Tx(data: TxData) | NoTx | TxError

  /** From `accepted` on, the fields record what happened since the last Clear: the blocks taken in,
      the channels dropped as fully submitted and as timed out, whether adding a block failed, and
      whether creating frames failed. */
  datatype ManagerValue = ManagerValue(
    blocks: seq<Block>, l1OriginLastClosed: BlockID, tip: nat,
    current: Option<nat>, queue: seq<nat>, chans: seq<ChannelValue>, txChannels: map<string, nat>, closed: bool,
    accepted: seq<Block>, done: set<nat>, timedOut: set<nat>, addFailed: bool, outputFailed: bool)
  {
    ghost predicate Wf() {
      && (current.Some? ==> current.value < |chans|)
      && (forall i :: 0 <= i < |queue| ==> queue[i] < |chans|)
      && (forall k :: k in txChannels ==> txChannels[k] < |chans|)
      && forall c :: 0 <= c < |chans| ==>
           chans[c].builder.cfg.Valid() && chans[c].builder.co.taken <= |chans[c].builder.co.stream|
    }
  }

  function Cleared(l1OriginLastClosed: BlockID): ManagerValue {
    ManagerValue([], l1OriginLastClosed, 0, None, [], [], map[], false, [], {}, {}, false, false)
  }

  /** False is ErrReorg. */
  function AddL2Block(m: ManagerValue, block: Block): (ManagerValue, bool) {
    if m.tip != 0 && m.tip != block.parentHash then (m, false)
    else (m.(blocks := m.blocks + [block], tip := block.hash, accepted := m.accepted + [block]), true)
  }

  function Without(queue: seq<nat>, c: nat): seq<nat> {
    if queue == [] then [] else if queue[0] == c then queue[1..] else [queue[0]] + Without(queue[1..], c)
  }

  function RemovePending(m: ManagerValue, c: nat): ManagerValue {
    m.(current := if m.current == Some(c) then None else m.current, queue := Without(m.queue, c))
  }

  function Set(m: ManagerValue, c: nat, v: ChannelValue): ManagerValue
    requires c < |m.chans|
  {
    m.(chans := m.chans[c := v])
  }

  ghost function TxFailed(m: ManagerValue, id: string): ManagerValue
    requires m.Wf()
  {
    if id !in m.txChannels then m
    else
      var c := m.txChannels[id];
      var m' := Set(m, c, ChannelSpec.TxFailed(m.chans[c], id)).(txChannels := m.txChannels - {id});
      if m.closed && m'.chans[c].NoneSubmitted() then RemovePending(m', c) else m'
  }

  ghost function TxConfirmed(m: ManagerValue, id: string, inclusion: BlockID): ManagerValue
    requires m.Wf()
  {
    if id !in m.txChannels then m
    else
      var c := m.txChannels[id];
      var (v, verdict) := ChannelSpec.TxConfirmed(m.chans[c], id, inclusion);
      var m' := Set(m, c, v).(txChannels := m.txChannels - {id});
      match verdict
      case Ongoing => m'
      case TimedOut => RemovePending(m'.(blocks := v.builder.blocks + m'.blocks, timedOut := m'.timedOut + {c}), c)
      case Done => RemovePending(m'.(done := m'.done + {c}), c)
  }

  /** The first queued channel with data for a transaction. */
  function FirstWithData(chans: seq<ChannelValue>, queue: seq<nat>): (r: Option<nat>)
    requires forall i :: 0 <= i < |queue| ==> queue[i] < |chans|
    ensures r.Some? ==> exists k :: 0 <= k < |queue| && queue[k] == r.value && chans[r.value].HasTxData()
                                    && forall i :: 0 <= i < k ==> !chans[queue[i]].HasTxData()
    ensures r.None? ==> forall i :: 0 <= i < |queue| ==> !chans[queue[i]].HasTxData()
  {
    if queue == [] then None
    else if chans[queue[0]].HasTxData() then Some(queue[0])
    else
      var r := FirstWithData(chans, queue[1..]);
      assert r.Some? ==> exists k :: 1 <= k < |queue| && queue[k] == r.value && forall i :: 0 <= i < k ==> !chans[queue[i]].HasTxData() by {
        if r.Some? {
          var k :| 0 <= k < |queue[1..]| && queue[1..][k] == r.value && forall i :: 0 <= i < k ==> !chans[queue[1..][i]].HasTxData();
          assert queue[k + 1] == r.value && forall i :: 1 <= i < k + 1 ==> queue[i] == queue[1..][i - 1];
        }
      }
      r
  }

  function PopTx(m: ManagerValue, from: Option<nat>): (ManagerValue, TxResult)
    requires from.Some? ==> from.value < |m.chans|
  {
    if from.None? || !m.chans[from.value].HasTxData() then (m, NoTx)
    else
      var c := from.value;
      var tx := m.chans[c].NextTx();
      (Set(m, c, NextTxData(m.chans[c])).(txChannels := m.txChannels[tx.Key() := c]), Tx(tx))
  }

  /** The current channel if it has space, else a new one at the end of the queue. */
  ghost function EnsureSpace(m: ManagerValue, opening: Opening): (r: Option<ManagerValue>)
    requires m.Wf()
    ensures r.Some? ==> r.value.current.Some? && r.value.current.value < |r.value.chans|
  {
    if m.current.Some? && !m.chans[m.current.value].builder.IsFull() then Some(m)
    else match opening
      case OpenFailed => None
      case Opened(cfg, id) =>
        var n := |m.chans|;
        Some(m.(current := Some(n), queue := m.queue + [n],
                chans := m.chans + [NewChannel(cfg, id, m.l1OriginLastClosed.number)]))
  }

  /** The channel after adding blocks until it is full, and how many blocks it took; None is an error. */
  function AddBlocks(b: BuilderValue, blocks: seq<Block>, adds: nat -> AddOutcome, i: nat): (r: (BuilderValue, Option<nat>))
    requires b.cfg.Valid() && i <= |blocks|
    ensures r.1.Some? ==> r.1.value <= |blocks|
    decreases |blocks| - i
  {
    if i == |blocks| then (b, Some(i))
    else
      var (b', result) := AddBlock(b, blocks[i], adds(i));
      match result
      case AddError => (b', None)
      case ChannelFull => (b', Some(i))
      case Added => if b'.IsFull() then (b', Some(i + 1)) else AddBlocks(b', blocks, adds, i + 1)
  }

  function WithBuilder(m: ManagerValue, c: nat, b: BuilderValue): ManagerValue
    requires c < |m.chans|
  {
    Set(m, c, m.chans[c].(builder := b))
  }

  /** The current channel takes blocks from the queue; after an error it may have taken some that
      stay in the queue. */
  ghost function ProcessBlocks(m: ManagerValue, c: nat, adds: nat -> AddOutcome): (ManagerValue, bool)
    requires c < |m.chans| && m.chans[c].builder.cfg.Valid()
  {
    var (b, taken) := AddBlocks(m.chans[c].builder, m.blocks, adds, 0);
    var m' := WithBuilder(m, c, b);
    if taken.None? then (m'.(addFailed := true), false) else (m'.(blocks := m.blocks[taken.value..]), true)
  }

  ghost function OutputFrames(m: ManagerValue, c: nat, close: CloseOutcome): (ManagerValue, bool)
    requires c < |m.chans| && m.chans[c].builder.cfg.Valid() && m.chans[c].builder.co.taken <= |m.chans[c].builder.co.stream|
  {
    var (b, ok) := BuilderSpec.OutputFrames(m.chans[c].builder, close);
    var m' := WithBuilder(m, c, b);
    if !ok then (m'.(outputFailed := true), false)
    else if b.IsFull() && b.latestL1Origin.number > m.l1OriginLastClosed.number
    then (m'.(l1OriginLastClosed := b.latestL1Origin), true)
    else (m', true)
  }

  /** Fill channel `c` with the waiting blocks, register the L1 head, and create frames. */
  ghost function Build(m: ManagerValue, c: nat, l1Head: nat, p: Pipeline): (ManagerValue, bool)
    requires c < |m.chans| && m.chans[c].builder.cfg.Valid() && m.chans[c].builder.co.taken <= |m.chans[c].builder.co.stream|
  {
    var (m1, added) := ProcessBlocks(m, c, p.adds);
    if !added then (m1, false)
    else
      AddBlocksShape(m.chans[c].builder, m.blocks, p.adds, 0);
      OutputFrames(WithBuilder(m1, c, CheckTimeout(m1.chans[c].builder, l1Head)), c, p.close)
  }

  lemma AddBlocksShape(b: BuilderValue, blocks: seq<Block>, adds: nat -> AddOutcome, i: nat)
    requires b.cfg.Valid() && b.co.taken <= |b.co.stream| && i <= |blocks|
    ensures var b' := AddBlocks(b, blocks, adds, i).0;
            b'.cfg == b.cfg && b'.co.taken <= |b'.co.stream| && b'.co.id == b.co.id
    decreases |blocks| - i
  {
    hide AddBlock;
    if i < |blocks| {
      AddBlockFrame(b, blocks[i], adds(i));
    }
  }

  ghost function RequestTx(m: ManagerValue, l1Head: nat, p: Pipeline): (ManagerValue, TxResult)
    requires m.Wf()
    requires p.opening.Opened? ==> p.opening.cfg.Valid()
  {
    var first := FirstWithData(m.chans, m.queue);
    if first.Some? || m.closed then PopTx(m, first)
    else if m.blocks == [] then (m, NoTx)
    else
      var space := EnsureSpace(m, p.opening);
      if space.None? then (m, TxError)
      else
        var c := space.value.current.value;
        var (m', ok) := Build(space.value, c, l1Head, p);
        if ok then PopTx(m', Some(c)) else (m', TxError)
  }

  datatype CloseResult = Closed | PendingAfterClose | CloseError

  lemma WithoutLength(queue: seq<nat>, c: nat)
    ensures |Without(queue, c)| == if c in queue then |queue| - 1 else |queue|
    ensures c !in queue ==> Without(queue, c) == queue
    ensures forall x :: x in Without(queue, c) ==> x in queue
  {
  }

  /** Removing `c` from the queue shifts the elements of the backing array to the left in place, so
      that what follows the shorter queue in the array is a stale copy of its old last element. */
  function Shift(queue: seq<nat>, arr: seq<nat>, c: nat): (arr': seq<nat>)
    requires queue <= arr
    ensures |arr'| == |arr| && Without(queue, c) <= arr'
  {
    WithoutLength(queue, c);
    if c in queue then Without(queue, c) + arr[|queue| - 1..] else arr
  }

  datatype Swept = Swept(current: Option<nat>, queue: seq<nat>)

  /** The loop of Close ranges over the backing array `arr` of the queue while it removes the idle
      channels from the queue. */
  function Sweep(s: Swept, idle: set<nat>, arr: seq<nat>, i: nat): Swept
    requires s.queue <= arr && i <= |arr|
    decreases |arr| - i
  {
    if i == |arr| then s
    else if arr[i] !in idle then Sweep(s, idle, arr, i + 1)
    else Sweep(Swept(if s.current == Some(arr[i]) then None else s.current, Without(s.queue, arr[i])),
               idle, Shift(s.queue, arr, arr[i]), i + 1)
  }

  lemma SweepStep(s: Swept, idle: set<nat>, arr: seq<nat>, i: nat)
    requires s.queue <= arr && i < |arr|
    ensures arr[i] !in idle ==> Sweep(s, idle, arr, i) == Sweep(s, idle, arr, i + 1)
    ensures arr[i] in idle ==>
      var next := Swept(if s.current == Some(arr[i]) then None else s.current, Without(s.queue, arr[i]));
      Sweep(s, idle, arr, i) == Sweep(next, idle, Shift(s.queue, arr, arr[i]), i + 1)
  {
  }

  /** The queued channels without a pending or confirmed transaction. */
  ghost function Idle(m: ManagerValue): set<nat>
    requires m.Wf()
  {
    set c | c in m.queue && m.chans[c].NoneSubmitted()
  }

  ghost function DropIdle(m: ManagerValue): ManagerValue
    requires m.Wf()
  {
    var s := Sweep(Swept(m.current, m.queue), Idle(m), m.queue, 0);
    m.(closed := true, current := s.current, queue := s.queue)
  }

  lemma SweepShape(s: Swept, idle: set<nat>, arr: seq<nat>, i: nat)
    requires s.queue <= arr && i <= |arr|
    ensures var s' := Sweep(s, idle, arr, i);
            && (s'.current == s.current || s'.current == None)
            && forall c :: c in s'.queue ==> c in s.queue
    decreases |arr| - i
  {
    if i < |arr| && arr[i] in idle {
      WithoutLength(s.queue, arr[i]);
    }
  }

  ghost function CloseAll(m: ManagerValue, close: CloseOutcome): (ManagerValue, CloseResult)
    requires m.Wf()
  {
    if m.closed then (m, Closed)
    else
      var m1 := DropIdle(m);
      SweepShape(Swept(m.current, m.queue), Idle(m), m.queue, 0);
      if m1.current.None? then (m1, Closed)
      else
        var c := m1.current.value;
        var (m2, ok) := if m1.chans[c].builder.IsFull() then (m1, true)
                        else OutputFrames(WithBuilder(m1, c, BuilderSpec.Close(m1.chans[c].builder)), c, close);
        (m2, if !ok then CloseError else if m2.chans[c].HasTxData() then PendingAfterClose else Closed)
  }
}
