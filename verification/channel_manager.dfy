/** op-batcher/batcher/channel_manager.go: the `ChannelManager` object, whose current channel, queue
    and transaction index share mutable `Channel` objects.  Each method is proved equal to the
    function of the same name in `ManagerSpec` on the abstract value of the object. */
module ChannelManagers {
  import opened Bytes
  import opened TxDatas
  import opened BuilderSpec
  import opened ChannelSpec
  import opened ManagerSpec
  import opened Builder
  import opened Channels

  class ChannelManager {
    var blocks: seq<Block>
    var l1OriginLastClosedChannel: BlockID
    var tip: nat
    var currentChannel: Channel?
    var channelQueue: seq<Channel>
    var txChannels: map<string, Channel>
    var closed: bool
    // every channel opened since the last Clear with its builder, and the abstract value
    ghost var history: seq<Channel>
    ghost var builders: seq<ChannelBuilder>
    ghost var view: ManagerValue

    ghost predicate Opened(c: Channel)
      reads `history
    {
      c.position < |history| && history[c.position] == c
    }

    ghost predicate ValidFields()
      reads `blocks, `l1OriginLastClosedChannel, `tip, `closed, `view
    {
      && view.blocks == blocks && view.l1OriginLastClosed == l1OriginLastClosedChannel
      && view.tip == tip && view.closed == closed
    }

    // the references held are to these places in the history

    ghost predicate ValidCurrent(current: Option<nat>)
      reads `currentChannel, `history
    {
      if currentChannel == null then current == None
      else Opened(currentChannel) && current == Some(currentChannel.position)
    }

    ghost predicate ValidQueue(queue: seq<nat>)
      reads `channelQueue, `history
    {
      && |channelQueue| == |queue|
      && forall i :: 0 <= i < |channelQueue| ==> Opened(channelQueue[i]) && queue[i] == channelQueue[i].position
    }

    ghost predicate ValidIndex(txs: map<string, nat>)
      reads `txChannels, `history
    {
      && txChannels.Keys == txs.Keys
      && forall k :: k in txChannels ==> Opened(txChannels[k]) && txs[k] == txChannels[k].position
    }

    ghost predicate ValidRefs(current: Option<nat>, queue: seq<nat>, txs: map<string, nat>)
      reads `currentChannel, `channelQueue, `txChannels, `history
    {
      ValidCurrent(current) && ValidQueue(queue) && ValidIndex(txs)
    }

    // the channels opened are valid, distinct objects with distinct builders, and hold these values
    ghost predicate ValidChans(chans: seq<ChannelValue>)
      reads `history, `builders, history, builders
    {
      && |chans| == |history| == |builders|
      && (forall i :: 0 <= i < |history| ==>
           history[i].position == i && history[i].channelBuilder == builders[i] && builders[i].position == i)
      && forall i :: 0 <= i < |history| ==> history[i].Valid() && history[i].Value() == chans[i]
    }

    ghost predicate Valid()
      reads this, history, builders
    {
      ValidFields() && ValidRefs(view.current, view.queue, view.txChannels) && ValidChans(view.chans)
    }

    lemma WfView()
      requires Valid()
      ensures view.Wf()
    {
      hide Channel.CacheValid;
      forall c | 0 <= c < |view.chans|
        ensures view.chans[c].builder.cfg.Valid() && view.chans[c].builder.co.taken <= |view.chans[c].builder.co.stream|
      {
        assert history[c].Valid() && history[c].Value() == view.chans[c];
      }
    }

    constructor ()
      ensures Valid() && view == Cleared(BlockID(0, 0)) && history == [] && builders == []
    {
      blocks, l1OriginLastClosedChannel, tip := [], BlockID(0, 0), 0;
      currentChannel, channelQueue, txChannels, closed := null, [], map[], false;
      history, builders, view := [], [], Cleared(BlockID(0, 0));
    }

    method Clear(l1Origin: BlockID)
      modifies this
      ensures Valid() && view == Cleared(l1Origin) && history == [] && builders == []
    {
      hide Channel.Valid;
      hide Channel.Value;
      hide ChannelBuilder.Value;
      blocks := [];
      l1OriginLastClosedChannel := l1Origin;
      tip := 0;
      closed := false;
      currentChannel := null;
      channelQueue := [];
      txChannels := map[];
      history, builders, view := [], [], Cleared(l1Origin);
    }

    method AddL2Block(block: Block) returns (ok: bool)
      requires Valid()
      modifies `blocks, `tip, `view
      ensures Valid()
      ensures (view, ok) == ManagerSpec.AddL2Block(old(view), block)
    {
      hide Channel.Valid;
      if tip != 0 && tip != block.parentHash {
        return false;
      }
      blocks := blocks + [block];
      tip := block.hash;
      view := view.(blocks := blocks, tip := tip, accepted := view.accepted + [block]);
      ok := true;
    }

    // the loop of RemovePendingChannel
    method Find(channel: Channel) returns (index: nat)
      ensures index <= |channelQueue| && channel !in channelQueue[..index]
      ensures index < |channelQueue| ==> channelQueue[index] == channel
    {
      index := 0;
      while index < |channelQueue| && channelQueue[index] != channel
        invariant 0 <= index <= |channelQueue|
        invariant channel !in channelQueue[..index]
      {
        index := index + 1;
      }
    }

    method RemovePendingChannel(channel: Channel)
      requires Valid() && Opened(channel)
      modifies `currentChannel, `channelQueue, `view
      ensures Valid()
      ensures view == RemovePending(old(view), channel.position)
    {
      hide ValidChans;
      hide ValidQueue;
      hide ValidIndex;
      hide Without;
      if currentChannel == channel {
        currentChannel := null;
        view := view.(current := None);
      }
      Dequeue(channel);
    }

    // the queue half of RemovePendingChannel
    method Dequeue(channel: Channel)
      requires Valid() && Opened(channel)
      modifies `channelQueue, `view
      ensures Valid()
      ensures view == old(view).(queue := Without(old(view).queue, channel.position))
    {
      hide ValidChans;
      hide ValidCurrent;
      hide ValidIndex;
      hide Without;
      var index := Find(channel);
      FoundInView(channel, index);
      if index < |channelQueue| {
        channelQueue := channelQueue[..index] + channelQueue[index + 1..];
      }
      view := view.(queue := Without(view.queue, channel.position));
    }

    lemma FoundInView(channel: Channel, index: nat)
      requires ValidQueue(view.queue) && Opened(channel)
      requires index <= |channelQueue| && channel !in channelQueue[..index]
      requires index < |channelQueue| ==> channelQueue[index] == channel
      ensures Without(view.queue, channel.position)
           == if index < |view.queue| then view.queue[..index] + view.queue[index + 1..] else view.queue
    {
      hide Without;
      forall i | 0 <= i < index
        ensures view.queue[i] != channel.position
      {
        assert channelQueue[i] == channelQueue[..index][i];
      }
      WithoutIndex(view.queue, channel.position, index);
    }

    static lemma {:induction false} WithoutIndex(queue: seq<nat>, c: nat, index: nat)
      requires index <= |queue| && (forall i :: 0 <= i < index ==> queue[i] != c)
      requires index < |queue| ==> queue[index] == c
      ensures Without(queue, c) == if index < |queue| then queue[..index] + queue[index + 1..] else queue
    {
      if queue != [] && index > 0 {
        WithoutIndex(queue[1..], c, index - 1);
      }
    }

    // The methods named ...At make one call on a channel and record its effect.

    method TxFailedAt(c: Channel, id: string)
      requires Valid() && Opened(c)
      modifies `view, c, c.channelBuilder
      ensures Valid()
      ensures view == Set(old(view), c.position, ChannelSpec.TxFailed(old(view).chans[c.position], id))
    {
      hide Channel.Valid;
      hide Channel.Value;
      hide ValidRefs;
      hide ChannelSpec.TxFailed;
      c.TxFailed(id);
      view := Set(view, c.position, c.Value());
    }

    method TxConfirmedAt(c: Channel, id: string, inclusion: BlockID)
        returns (done: bool, returned: seq<Block>, ghost verdict: Verdict)
      requires Valid() && Opened(c) && inclusion.number <= MAX_UINT64
      modifies `view, c, c.channelBuilder
      ensures Valid()
      ensures old(view).chans[c.position].builder.cfg.Valid()
      ensures var v := ChannelSpec.TxConfirmed(old(view).chans[c.position], id, inclusion);
              && view == Set(old(view), c.position, v.0) && verdict == v.1
              && done == !verdict.Ongoing? && returned == if verdict.TimedOut? then v.0.builder.blocks else []
    {
      hide Channel.Valid;
      hide Channel.Value;
      hide ValidRefs;
      hide ChannelSpec.TxConfirmed;
      done, returned, verdict := c.TxConfirmed(id, inclusion);
      view := Set(view, c.position, c.Value());
    }

    method NextTxDataAt(c: Channel) returns (tx: TxData)
      requires Valid() && Opened(c)
      modifies `view, c, c.channelBuilder
      ensures Valid()
      ensures view == Set(old(view), c.position, NextTxData(old(view).chans[c.position]))
      ensures tx == old(view).chans[c.position].NextTx()
    {
      hide Channel.Valid;
      hide Channel.Value;
      hide ValidRefs;
      hide NextTxData;
      tx := c.NextTxData();
      view := Set(view, c.position, c.Value());
    }

    method AddBlockAt(c: Channel, block: Block, outcome: AddOutcome) returns (result: AddResult)
      requires Valid() && Opened(c)
      modifies `view, c.channelBuilder
      ensures Valid()
      ensures old(view).chans[c.position].builder.cfg.Valid()
      ensures var r := AddBlock(old(view).chans[c.position].builder, block, outcome);
              view == WithBuilder(old(view), c.position, r.0) && result == r.1
    {
      hide Channel.Valid;
      hide Channel.Value;
      hide ValidRefs;
      hide AddBlock;
      result := c.AddBlock(block, outcome);
      view := Set(view, c.position, c.Value());
    }

    method CheckTimeoutAt(c: Channel, l1BlockNum: nat)
      requires Valid() && Opened(c)
      modifies `view, c.channelBuilder
      ensures Valid()
      ensures view == WithBuilder(old(view), c.position, CheckTimeout(old(view).chans[c.position].builder, l1BlockNum))
    {
      hide Channel.Valid;
      hide Channel.Value;
      hide ValidRefs;
      hide CheckTimeout;
      c.CheckTimeout(l1BlockNum);
      view := Set(view, c.position, c.Value());
    }

    method CloseAt(c: Channel)
      requires Valid() && Opened(c)
      modifies `view, c.channelBuilder
      ensures Valid()
      ensures view == WithBuilder(old(view), c.position, BuilderSpec.Close(old(view).chans[c.position].builder))
    {
      hide Channel.Valid;
      hide Channel.Value;
      hide ValidRefs;
      hide BuilderSpec.Close;
      c.Close();
      view := Set(view, c.position, c.Value());
    }

    method OutputFramesAt(c: Channel, close: CloseOutcome) returns (ok: bool)
      requires Valid() && Opened(c)
      modifies `view, c.channelBuilder
      ensures Valid()
      ensures var b := old(view).chans[c.position].builder;
              b.cfg.Valid() && b.co.taken <= |b.co.stream|
      ensures var r := BuilderSpec.OutputFrames(old(view).chans[c.position].builder, close);
              view == WithBuilder(old(view), c.position, r.0) && ok == r.1
    {
      hide Channel.Valid;
      hide Channel.Value;
      hide ValidRefs;
      hide BuilderSpec.OutputFrames;
      ok := c.OutputFrames(close);
      view := Set(view, c.position, c.Value());
    }

    // takes a pending transaction out of the index
    method Unindex(id: string)
      requires Valid()
      modifies `txChannels, `view
      ensures Valid()
      ensures view == old(view).(txChannels := old(view).txChannels - {id})
    {
      hide ValidChans;
      hide ValidCurrent;
      hide ValidQueue;
      txChannels := txChannels - {id};
      view := view.(txChannels := view.txChannels - {id});
    }

    method Reindex(id: string, c: Channel)
      requires Valid() && Opened(c)
      modifies `txChannels, `view
      ensures Valid()
      ensures view == old(view).(txChannels := old(view).txChannels[id := c.position])
    {
      hide ValidChans;
      hide ValidCurrent;
      hide ValidQueue;
      txChannels := txChannels[id := c];
      view := view.(txChannels := view.txChannels[id := c.position]);
    }

    // the channel that the index names
    method Lookup(id: string) returns (c: Channel?)
      requires Valid()
      ensures c == null <==> id !in view.txChannels
      ensures c != null ==> Opened(c) && c.position == view.txChannels[id] < |view.chans|
    {
      hide Channel.Valid;
      c := if id in txChannels then txChannels[id] else null;
    }

    method TxFailed(txID: seq<FrameID>)
      requires Valid()
      modifies this, history, builders
      ensures Valid() && old(view).Wf()
      ensures view == ManagerSpec.TxFailed(old(view), Render(txID, ZeroChannelID))
    {
      hide Valid;
      hide Render;
      WfView();
      hide ManagerValue.Wf;
      var id := TxIdString(txID);
      var channel := Lookup(id);
      if channel != null {
        Members(channel);
        Unindex(id);
        TxFailedAt(channel, id);
        var none := IsIdle(channel);
        if closed && none {
          RemovePendingChannel(channel);
        }
      }
    }

    // the channel and its builder may be modified
    lemma Members(c: Channel)
      requires Valid() && Opened(c)
      ensures c in history && c.channelBuilder in builders && c.position < |view.chans|
      ensures view.closed == closed
    {
      hide Channel.Valid;
      hide ValidRefs;
      assert builders[c.position] == c.channelBuilder;
    }

    method IsIdle(c: Channel) returns (b: bool)
      requires Valid() && Opened(c)
      ensures c.position < |view.chans| && b == view.chans[c.position].NoneSubmitted()
      ensures view.closed == closed
    {
      hide Channel.Valid;
      hide ValidRefs;
      assert c.Value() == view.chans[c.position];
      b := c.NoneSubmitted();
    }

    method TxConfirmed(txID: seq<FrameID>, inclusionBlock: BlockID)
      requires Valid() && inclusionBlock.number <= MAX_UINT64
      modifies this, history, builders
      ensures Valid() && old(view).Wf()
      ensures view == ManagerSpec.TxConfirmed(old(view), Render(txID, ZeroChannelID), inclusionBlock)
    {
      hide Valid;
      hide Render;
      hide ChannelSpec.TxConfirmed;
      hide RemovePending;
      WfView();
      var id := TxIdString(txID);
      var channel := Lookup(id);
      if channel != null {
        Members(channel);
        Unindex(id);
        var done, returned;
        ghost var verdict;
        done, returned, verdict := TxConfirmedAt(channel, id, inclusionBlock);
        Prepend(returned);
        ghost var c := channel.position;
        RecordVerdict(c, verdict);
        assert forall bs: seq<Block> :: [] + bs == bs;
        if done {
          RemovePendingChannel(channel);
        }
      }
    }

    method Prepend(returned: seq<Block>)
      requires Valid()
      modifies `blocks, `view
      ensures Valid() && view == old(view).(blocks := returned + old(view).blocks)
    {
      hide ValidChans;
      hide ValidRefs;
      blocks := returned + blocks;
      view := view.(blocks := blocks);
    }

    ghost method RecordVerdict(c: nat, verdict: Verdict)
      requires Valid()
      modifies `view
      ensures Valid()
      ensures view == match verdict
                      case Ongoing => old(view)
                      case TimedOut => old(view).(timedOut := old(view).timedOut + {c})
                      case Done => old(view).(done := old(view).done + {c})
    {
      hide ValidChans;
      hide ValidRefs;
      match verdict
      case Ongoing =>
      case TimedOut => view := view.(timedOut := view.timedOut + {c});
      case Done => view := view.(done := view.done + {c});
    }

    method HasDataAt(c: Channel) returns (b: bool)
      requires Valid() && Opened(c)
      ensures c.position < |view.chans| && b == view.chans[c.position].HasTxData()
    {
      hide Channel.CacheValid;
      hide ChannelBuilder.Valid;
      hide ValidRefs;
      assert c.Value() == view.chans[c.position] && c.Valid();
      b := c.HasTxData();
    }

    method NextTx(channel: Channel?) returns (result: TxResult)
      requires Valid() && (channel != null ==> Opened(channel))
      modifies this, history, builders
      ensures Valid()
      ensures channel != null ==> channel.position < |old(view).chans|
      ensures (view, result) == PopTx(old(view), if channel == null then None else Some(channel.position))
    {
      hide Valid;
      hide Render;
      if channel == null {
        return NoTx;
      }
      Members(channel);
      var has := HasDataAt(channel);
      if !has {
        return NoTx;
      }
      var tx := NextTxDataAt(channel);
      var id := TxIdString(tx.ID());
      Reindex(id, channel);
      return Tx(tx);
    }

    // the loop that looks for pending data
    method FirstWithTxData() returns (c: Channel?)
      requires Valid()
      ensures forall i :: 0 <= i < |view.queue| ==> view.queue[i] < |view.chans|
      ensures c != null ==> Opened(c)
      ensures (if c == null then None else Some(c.position)) == FirstWithData(view.chans, view.queue)
    {
      hide ValidChans;
      assert |view.chans| == |history| by { Sizes(); }
      var i := 0;
      while i < |channelQueue|
        invariant 0 <= i <= |channelQueue|
        invariant FirstWithData(view.chans, view.queue[i..]) == FirstWithData(view.chans, view.queue)
      {
        var has := HasDataAt(channelQueue[i]);
        assert view.queue[i..][0] == view.queue[i] && view.queue[i..][1..] == view.queue[i + 1..];
        if has {
          return channelQueue[i];
        }
        i := i + 1;
      }
      return null;
    }

    lemma Sizes()
      requires Valid()
      ensures |view.chans| == |history| && view.l1OriginLastClosed == l1OriginLastClosedChannel
    {
    }

    method EnsureChannelWithSpace(opening: Opening) returns (ok: bool)
      requires Valid() && (opening.Opened? ==> opening.cfg.Valid())
      modifies `currentChannel, `channelQueue, `history, `builders, `view
      ensures Valid() && old(view).Wf()
      ensures ok == EnsureSpace(old(view), opening).Some?
      ensures view == if ok then EnsureSpace(old(view), opening).value else old(view)
      ensures ok ==> currentChannel != null && Opened(currentChannel)
      ensures forall i :: 0 <= i < |history| ==> history[i] in old(history) || fresh(history[i])
      ensures forall i :: 0 <= i < |builders| ==> builders[i] in old(builders) || fresh(builders[i])
    {
      hide Channel.Valid;
      WfView();
      var full := true;
      if currentChannel != null {
        assert currentChannel.Value() == view.chans[currentChannel.position];
        full := currentChannel.IsFull();
      }
      hide ManagerValue.Wf;
      if !full {
        return true;
      }
      if opening.OpenFailed? {
        return false;
      }
      Open(opening.cfg, opening.id);
      ok := true;
    }

    // a new channel at the end of the queue
    method Open(cfg: ChannelConfig, id: ChannelID)
      requires Valid() && cfg.Valid()
      modifies `currentChannel, `channelQueue, `history, `builders, `view
      ensures Valid() && currentChannel != null && Opened(currentChannel)
      ensures var n, m := |old(view).chans|, old(view);
              view == m.(current := Some(n), queue := m.queue + [n],
                         chans := m.chans + [NewChannel(cfg, id, m.l1OriginLastClosed.number)])
      ensures exists c: Channel :: fresh(c) && fresh(c.channelBuilder) && history == old(history) + [c] && builders == old(builders) + [c.channelBuilder]
    {
      hide NewChannel;
      hide Valid;
      var pc := new Channel(cfg, id, l1OriginLastClosedChannel.number, |history|);
      assert view.l1OriginLastClosed == l1OriginLastClosedChannel && |view.chans| == |history| by { Sizes(); }
      hide Channel.Valid;
      Record(pc);
      Enqueue(pc);
    }

    // the history of the channels opened
    ghost method Record(pc: Channel)
      requires Valid() && pc.Valid() && pc.position == pc.channelBuilder.position == |history|
      modifies `history, `builders, `view
      ensures Valid() && Opened(pc)
      ensures history == old(history) + [pc] && builders == old(builders) + [pc.channelBuilder]
      ensures view == old(view).(chans := old(view).chans + [pc.Value()])
    {
      hide Channel.Valid;
      hide Channel.Value;
      history, builders := history + [pc], builders + [pc.channelBuilder];
      view := view.(chans := view.chans + [pc.Value()]);
    }

    method Enqueue(pc: Channel)
      requires Valid() && Opened(pc)
      modifies `currentChannel, `channelQueue, `view
      ensures Valid() && currentChannel == pc
      ensures view == old(view).(current := Some(pc.position), queue := old(view).queue + [pc.position])
    {
      hide ValidChans;
      hide ValidIndex;
      currentChannel := pc;
      channelQueue := channelQueue + [pc];
      view := view.(current := Some(pc.position), queue := view.queue + [pc.position]);
    }

    // what a method that works on channel `c` may use
    lemma ChannelFacts(c: Channel)
      requires Valid() && Opened(c)
      ensures c in history && c.channelBuilder in builders && c.position < |view.chans| == |history|
      ensures c.Value() == view.chans[c.position] && c.Valid()
      ensures var b := view.chans[c.position].builder; b.cfg.Valid() && b.co.taken <= |b.co.stream|
    {
      hide Channel.CacheValid;
      hide ValidRefs;
      assert history[c.position] == c && builders[c.position] == c.channelBuilder;
    }

    // the loop of ProcessBlocks: how many blocks were added, or an error
    method AddQueued(c: Channel, adds: nat -> AddOutcome) returns (blocksAdded: Option<nat>)
      requires Valid() && Opened(c)
      modifies `view, c.channelBuilder
      ensures Valid()
      ensures c.position < |old(view).chans| && old(view).chans[c.position].builder.cfg.Valid()
      ensures var r := AddBlocks(old(view).chans[c.position].builder, old(view).blocks, adds, 0);
              view == WithBuilder(old(view), c.position, r.0) && blocksAdded == r.1
    {
      hide Valid;
      hide AddBlock;
      hide BuilderValue.IsFull;
      ChannelFacts(c);
      hide Channel.Valid;
      ghost var p, m := c.position, view;
      Fields();
      assert WithBuilder(m, p, m.chans[p].builder) == m;
      var i := 0;
      while i < |blocks|
        invariant Valid() && blocks == m.blocks && 0 <= i <= |blocks|
        invariant p < |view.chans| && view.chans[p].builder.cfg.Valid()
        invariant view == WithBuilder(m, p, view.chans[p].builder)
        invariant AddBlocks(view.chans[p].builder, blocks, adds, i) == AddBlocks(m.chans[p].builder, blocks, adds, 0)
      {
        var result := AddBlockAt(c, blocks[i], adds(i));
        ChannelFacts(c);
        if result.AddError? {
          return None;
        }
        if result.ChannelFull? {
          return Some(i);
        }
        if c.IsFull() {
          assert view.chans[p].builder.IsFull() by { Full(c); }
          return Some(i + 1);
        }
        assert !view.chans[p].builder.IsFull() by { Full(c); }
        i := i + 1;
      }
      return Some(i);
    }

    lemma Full(c: Channel)
      requires Valid() && Opened(c) && c.position < |view.chans|
      ensures view.chans[c.position].builder.IsFull() == c.IsFull()
    {
      hide Channel.Valid;
      hide ValidRefs;
      assert c.Value() == view.chans[c.position];
    }

    method ProcessBlocks(c: Channel, adds: nat -> AddOutcome) returns (ok: bool)
      requires Valid() && Opened(c)
      modifies `blocks, `view, c.channelBuilder
      ensures Valid()
      ensures c.position < |old(view).chans| && old(view).chans[c.position].builder.cfg.Valid()
      ensures (view, ok) == ManagerSpec.ProcessBlocks(old(view), c.position, adds)
    {
      hide Valid;
      hide AddBlocks;
      Fields();
      var blocksAdded := AddQueued(c, adds);
      if blocksAdded.None? {
        NoteAddFailed();
        return false;
      }
      DropProcessed(blocksAdded.value);
      ok := true;
    }

    lemma Fields()
      requires Valid()
      ensures blocks == view.blocks && l1OriginLastClosedChannel == view.l1OriginLastClosed && tip == view.tip && closed == view.closed
    {
    }

    ghost method NoteAddFailed()
      requires Valid()
      modifies `view
      ensures Valid() && view == old(view).(addFailed := true)
    {
      hide ValidChans;
      hide ValidRefs;
      view := view.(addFailed := true);
    }

    ghost method NoteOutputFailed()
      requires Valid()
      modifies `view
      ensures Valid() && view == old(view).(outputFailed := true)
    {
      hide ValidChans;
      hide ValidRefs;
      view := view.(outputFailed := true);
    }

    method DropProcessed(blocksAdded: nat)
      requires Valid() && blocksAdded <= |blocks|
      modifies `blocks, `view
      ensures Valid() && blocksAdded <= |old(view).blocks| && view == old(view).(blocks := old(view).blocks[blocksAdded..])
    {
      hide ValidChans;
      hide ValidRefs;
      blocks := if blocksAdded == |blocks| then [] else blocks[blocksAdded..];
      view := view.(blocks := blocks);
    }

    method OutputFrames(c: Channel, close: CloseOutcome) returns (ok: bool)
      requires Valid() && Opened(c)
      modifies `l1OriginLastClosedChannel, `view, c.channelBuilder
      ensures Valid()
      ensures c.position < |old(view).chans|
      ensures var b := old(view).chans[c.position].builder; b.cfg.Valid() && b.co.taken <= |b.co.stream|
      ensures (view, ok) == ManagerSpec.OutputFrames(old(view), c.position, close)
    {
      hide Valid;
      hide BuilderSpec.OutputFrames;
      ChannelFacts(c);
      ok := OutputFramesAt(c, close);
      ChannelFacts(c);
      hide Channel.Valid;
      if !ok {
        NoteOutputFailed();
        return;
      }
      if !c.IsFull() {
        return;
      }
      Fields();
      var lastClosedL1Origin := c.channelBuilder.latestL1Origin;
      if lastClosedL1Origin.number > l1OriginLastClosedChannel.number {
        NoteClosed(lastClosedL1Origin);
      }
    }

    method NoteClosed(l1Origin: BlockID)
      requires Valid()
      modifies `l1OriginLastClosedChannel, `view
      ensures Valid() && view == old(view).(l1OriginLastClosed := l1Origin)
    {
      hide ValidChans;
      hide ValidRefs;
      l1OriginLastClosedChannel := l1Origin;
      view := view.(l1OriginLastClosed := l1Origin);
    }

    method TxData(l1Head: nat, p: Pipeline) returns (result: TxResult)
      requires Valid() && (p.opening.Opened? ==> p.opening.cfg.Valid())
      modifies this, history, builders
      ensures Valid() && old(view).Wf()
      ensures (view, result) == RequestTx(old(view), l1Head, p)
    {
      hide Valid;
      hide PopTx;
      WfView();
      Fields();
      hide ManagerValue.Wf;
      var firstWithTxData := FirstWithTxData();
      if firstWithTxData != null || closed {
        result := NextTx(firstWithTxData);
        return;
      }
      if |blocks| == 0 {
        return NoTx;
      }
      var space := EnsureChannelWithSpace(p.opening);
      if !space {
        return TxError;
      }
      result := BuildAndPop(l1Head, p);
    }

    // fills the current channel and hands out its next transaction
    method BuildAndPop(l1Head: nat, p: Pipeline) returns (result: TxResult)
      requires Valid() && currentChannel != null && Opened(currentChannel)
      modifies this, history, builders
      ensures Valid()
      ensures var c := old(currentChannel).position;
              && old(view).current == Some(c) && c < |old(view).chans|
              && old(view).chans[c].builder.cfg.Valid() && old(view).chans[c].builder.co.taken <= |old(view).chans[c].builder.co.stream|
              && |Build(old(view), c, l1Head, p).0.chans| == |old(view).chans|
              && (view, result) == var (m, ok) := Build(old(view), c, l1Head, p); if ok then PopTx(m, Some(c)) else (m, TxError)
    {
      hide Valid;
      hide PopTx;
      hide ManagerSpec.ProcessBlocks;
      hide ManagerSpec.OutputFrames;
      hide CheckTimeout;
      var c := currentChannel;
      Current();
      ChannelFacts(c);
      hide Channel.Valid;
      var added := ProcessBlocks(c, p.adds);
      if !added {
        ChannelFacts(c);
        return TxError;
      }
      ChannelFacts(c);
      CheckTimeoutAt(c, l1Head);
      var ok := OutputFrames(c, p.close);
      ChannelFacts(c);
      if !ok {
        return TxError;
      }
      result := NextTx(c);
    }

    lemma Current()
      requires Valid() && currentChannel != null
      ensures view.current == Some(currentChannel.position)
    {
      hide ValidChans;
      hide ValidQueue;
      hide ValidIndex;
    }

    // the channels at these places in the history
    ghost predicate At(cs: seq<Channel>, places: seq<nat>)
      reads `history
    {
      |cs| == |places| && forall i :: 0 <= i < |cs| ==> Opened(cs[i]) && places[i] == cs[i].position
    }

    lemma QueueAt()
      requires Valid()
      ensures At(channelQueue, view.queue) && |channelQueue| == |view.queue|
    {
      hide ValidChans;
      hide ValidCurrent;
      hide ValidIndex;
    }

    // removes a channel from the queue; what follows the queue in its backing array is not cleared
    method RemoveShifting(channel: Channel, slots: seq<Channel>, ghost places: seq<nat>)
        returns (slots': seq<Channel>, ghost places': seq<nat>)
      requires Valid() && Opened(channel) && At(slots, places) && view.queue <= places
      modifies `currentChannel, `channelQueue, `view
      ensures Valid() && view == RemovePending(old(view), channel.position)
      ensures At(slots', places') && view.queue <= places'
      ensures places' == Shift(old(view).queue, places, channel.position)
    {
      hide Valid;
      hide Without;
      QueueAt();
      ghost var queue := view.queue;
      var size := |channelQueue|;
      WithoutLength(queue, channel.position);
      RemovePendingChannel(channel);
      QueueAt();
      hide RemovePending;
      if |channelQueue| < size {
        slots', places' := channelQueue + slots[size - 1..], view.queue + places[size - 1..];
      } else {
        slots', places' := slots, places;
      }
    }

    // the loop of Close: it ranges over the backing array of the queue, which each removal shifts
    method SweepQueue(ghost idle: set<nat>)
      requires Valid()
      requires forall x :: x in view.queue ==> x < |view.chans| && (x in idle <==> view.chans[x].NoneSubmitted())
      modifies `currentChannel, `channelQueue, `view
      ensures Valid()
      ensures var s := Sweep(Swept(old(view).current, old(view).queue), idle, old(view).queue, 0);
              view == old(view).(current := s.current, queue := s.queue)
    {
      hide Valid;
      hide Without;
      hide At;
      ghost var m, places := view, view.queue;
      var slots := channelQueue;
      QueueAt();
      var i := 0;
      while i < |slots|
        invariant Valid() && 0 <= i <= |slots|
        invariant At(slots, places) && |slots| == |places| && view.queue <= places
        invariant forall x :: x in places ==> x in m.queue
        invariant view == m.(current := view.current, queue := view.queue)
        invariant Sweep(Swept(view.current, view.queue), idle, places, i) == Sweep(Swept(m.current, m.queue), idle, m.queue, 0)
      {
        SweepStep(Swept(view.current, view.queue), idle, places, i);
        hide Sweep;
        slots, places := SweepOne(slots, i, places, idle);
        i := i + 1;
      }
    }

    // the loop body of SweepQueue
    method SweepOne(slots: seq<Channel>, i: nat, ghost places: seq<nat>, ghost idle: set<nat>)
        returns (slots': seq<Channel>, ghost places': seq<nat>)
      requires Valid() && At(slots, places) && view.queue <= places && i < |slots|
      requires places[i] < |view.chans| && (places[i] in idle <==> view.chans[places[i]].NoneSubmitted())
      modifies `currentChannel, `channelQueue, `view
      ensures Valid() && At(slots', places') && view.queue <= places' && |slots'| == |places'| == |places|
      ensures forall x :: x in places' ==> x in places
      ensures view == if places[i] in idle then RemovePending(old(view), places[i]) else old(view)
      ensures places' == if places[i] in idle then Shift(old(view).queue, places, places[i]) else places
    {
      hide Valid;
      hide Without;
      var none := IsIdleAt(slots, i, places);
      hide ChannelValue.NoneSubmitted;
      slots', places' := slots, places;
      if none {
        ShiftSubset(view.queue, places, places[i]);
        slots', places' := RemoveShifting(slots[i], slots, places);
      }
    }

    method IsIdleAt(cs: seq<Channel>, i: nat, ghost places: seq<nat>) returns (b: bool)
      requires Valid() && At(cs, places) && i < |cs|
      ensures Opened(cs[i]) && cs[i].position == places[i] < |view.chans| && b == view.chans[places[i]].NoneSubmitted()
    {
      hide Valid;
      b := IsIdle(cs[i]);
    }

    method RemoveIdle()
      requires Valid()
      modifies `currentChannel, `channelQueue, `view
      ensures Valid() && old(view).Wf()
      ensures var s := Sweep(Swept(old(view).current, old(view).queue), Idle(old(view)), old(view).queue, 0);
              view == old(view).(current := s.current, queue := s.queue)
    {
      hide Valid;
      hide Sweep;
      WfView();
      SweepQueue(Idle(view));
    }

    static lemma ShiftSubset(queue: seq<nat>, places: seq<nat>, c: nat)
      requires queue <= places
      ensures forall x :: x in Shift(queue, places, c) ==> x in places
    {
      WithoutLength(queue, c);
    }

    method Close(close: CloseOutcome) returns (result: CloseResult)
      requires Valid()
      modifies this, history, builders
      ensures Valid() && old(view).Wf()
      ensures (view, result) == CloseAll(old(view), close)
    {
      hide Valid;
      hide Sweep;
      WfView();
      Fields();
      if closed {
        return Closed;
      }
      NoteClosing();
      assert Idle(view) == Idle(old(view));
      RemoveIdle();
      hide ManagerValue.Wf;
      hide Idle;
      if currentChannel == null {
        NoCurrent();
        return Closed;
      }
      result := Terminate(close);
    }

    method NoteClosing()
      requires Valid()
      modifies `closed, `view
      ensures Valid() && view == old(view).(closed := true)
    {
      hide ValidChans;
      hide ValidRefs;
      closed := true;
      view := view.(closed := true);
    }

    lemma NoCurrent()
      requires Valid()
      ensures currentChannel == null <==> view.current == None
      ensures currentChannel != null ==> Opened(currentChannel)
    {
      hide ValidChans;
      hide ValidQueue;
      hide ValidIndex;
    }

    // closes the open channel, if there is one, and outputs its frames
    method Terminate(close: CloseOutcome) returns (result: CloseResult)
      requires Valid() && currentChannel != null
      modifies this, history, builders
      ensures Valid()
      ensures old(view).current.Some? && old(view).current.value < |old(view).chans|
      ensures var m, c := old(view), old(view).current.value;
              && m.chans[c].builder.cfg.Valid() && m.chans[c].builder.co.taken <= |m.chans[c].builder.co.stream|
              && var (m2, ok) := if m.chans[c].builder.IsFull() then (m, true)
                                 else ManagerSpec.OutputFrames(WithBuilder(m, c, BuilderSpec.Close(m.chans[c].builder)), c, close);
                 && view == m2 && c < |m2.chans|
                 && result == if !ok then CloseError else if m2.chans[c].HasTxData() then PendingAfterClose else Closed
    {
      hide Valid;
      hide ManagerSpec.OutputFrames;
      var c := currentChannel;
      NoCurrent();
      Current();
      ChannelFacts(c);
      hide Channel.Valid;
      Full(c);
      if !c.IsFull() {
        CloseAt(c);
        var ok := OutputFrames(c, close);
        ChannelFacts(c);
        if !ok {
          return CloseError;
        }
      }
      var has := HasDataAt(c);
      return if has then PendingAfterClose else Closed;
    }
  }
}
