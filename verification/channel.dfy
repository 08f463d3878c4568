/** op-batcher/batcher/channel.go: the `Channel` object.  Each method is proved equal to the function
    of the same name in `ChannelSpec`; the cached inclusion range is proved to decide the timeout. */
module Channels {
  import opened Bytes
  import opened TxDatas
  import opened BuilderSpec
  import opened ChannelSpec
  import opened Builder

  const MAX_UINT64 := 0xFFFF_FFFF_FFFF_FFFF

  ghost predicate Lowest(confirmed: map<string, BlockID>, seen: set<string>, n: nat) {
    && (forall k :: k in seen && k in confirmed ==> n <= confirmed[k].number)
    && (n == MAX_UINT64 || exists k :: k in seen && k in confirmed && confirmed[k].number == n)
  }

  ghost predicate Highest(confirmed: map<string, BlockID>, seen: set<string>, n: nat) {
    && (forall k :: k in seen && k in confirmed ==> confirmed[k].number <= n)
    && (n == 0 || exists k :: k in seen && k in confirmed && confirmed[k].number == n)
  }

  class Channel {
    const cfg: ChannelConfig
    const channelBuilder: ChannelBuilder
    var pendingTransactions: map<string, TxData>
    var confirmedTransactions: map<string, BlockID>
    var confirmedTxUpdated: bool
    var minInclusionBlock: nat
    var maxInclusionBlock: nat
    // the data of every transaction that is pending or confirmed
    ghost var sent: map<string, TxData>
    ghost const position: nat

    ghost function Value(): ChannelValue
      reads this, channelBuilder
    {
      ChannelValue(channelBuilder.Value(), pendingTransactions, confirmedTransactions, sent)
    }

    // unless marked as outdated, the cached range is that of the confirmed transactions
    ghost predicate CacheValid()
      reads `confirmedTransactions, `confirmedTxUpdated, `minInclusionBlock, `maxInclusionBlock
    {
      && (forall k :: k in confirmedTransactions ==> confirmedTransactions[k].number <= MAX_UINT64)
      && (!confirmedTxUpdated && confirmedTransactions != map[] ==>
           && Lowest(confirmedTransactions, confirmedTransactions.Keys, minInclusionBlock)
           && Highest(confirmedTransactions, confirmedTransactions.Keys, maxInclusionBlock))
    }

    ghost predicate Valid()
      reads this, channelBuilder
    {
      && channelBuilder.cfg == cfg && channelBuilder.position == position && channelBuilder.Valid()
      && CacheValid()
      && forall k :: k in pendingTransactions ==>
           forall i :: 0 <= i < |pendingTransactions[k].frames| ==>
             pendingTransactions[k].frames[i].id.chID == channelBuilder.co.id
    }

    constructor (cfg: ChannelConfig, id: ChannelID, latestL1OriginBlockNum: nat, ghost position: nat)
      requires cfg.Valid()
      ensures Valid() && fresh(channelBuilder) && this.position == position == channelBuilder.position
      ensures Value() == NewChannel(cfg, id, latestL1OriginBlockNum)
    {
      this.cfg, this.position := cfg, position;
      channelBuilder := new ChannelBuilder(cfg, id, latestL1OriginBlockNum, position);
      pendingTransactions, confirmedTransactions, sent := map[], map[], map[];
      confirmedTxUpdated, minInclusionBlock, maxInclusionBlock := false, 0, 0;
    }

    predicate IsFull()
      reads channelBuilder
    {
      channelBuilder.IsFull()
    }

    predicate NoneSubmitted()
      reads this
    {
      |confirmedTransactions| == 0 && |pendingTransactions| == 0
    }

    predicate HasTxData()
      reads this, channelBuilder
    {
      if IsFull() || !cfg.useBlobs then |channelBuilder.frames| > 0
      else |channelBuilder.frames| >= cfg.MaxFramesPerTx()
    }

    method AddBlock(block: Block, outcome: AddOutcome) returns (result: AddResult)
      requires Valid()
      modifies channelBuilder
      ensures Valid() && old(Value()).builder.cfg.Valid()
      ensures var r := BuilderSpec.AddBlock(old(Value()).builder, block, outcome);
              Value() == old(Value()).(builder := r.0) && result == r.1
    {
      hide CacheValid;
      AddBlockFrame(channelBuilder.Value(), block, outcome);
      hide BuilderSpec.AddBlock;
      result := channelBuilder.AddBlock(block, outcome);
    }

    method CheckTimeout(l1BlockNum: nat)
      requires Valid()
      modifies channelBuilder`fullErr
      ensures Valid()
      ensures Value() == old(Value()).(builder := BuilderSpec.CheckTimeout(old(Value()).builder, l1BlockNum))
    {
      hide CacheValid;
      hide BuilderSpec.CheckTimeout;
      channelBuilder.CheckTimeout(l1BlockNum);
    }

    method Close()
      requires Valid()
      modifies channelBuilder`fullErr
      ensures Valid()
      ensures Value() == old(Value()).(builder := BuilderSpec.Close(old(Value()).builder))
    {
      hide CacheValid;
      hide BuilderSpec.Close;
      channelBuilder.Close();
    }

    method OutputFrames(close: CloseOutcome) returns (ok: bool)
      requires Valid()
      modifies channelBuilder
      ensures Valid() && old(Value()).builder.cfg.Valid() && old(Value()).builder.co.taken <= |old(Value()).builder.co.stream|
      ensures var r := BuilderSpec.OutputFrames(old(Value()).builder, close);
              Value() == old(Value()).(builder := r.0) && ok == r.1
    {
      hide CacheValid;
      OutputFramesFrame(channelBuilder.Value(), close);
      hide BuilderSpec.OutputFrames;
      ok := channelBuilder.OutputFrames(close);
    }

    method TxFailed(id: string)
      requires Valid()
      modifies `pendingTransactions, `sent, channelBuilder`frames
      ensures Valid()
      ensures Value() == ChannelSpec.TxFailed(old(Value()), id)
    {
      hide CacheValid;
      if id in pendingTransactions {
        channelBuilder.PushFrames(pendingTransactions[id].frames);
        pendingTransactions := pendingTransactions - {id};
        sent := sent - {id};
      }
    }

    // finds the first and last inclusion block of the confirmed transactions
    method UpdateInclusionBlocks()
      requires Valid()
      modifies `confirmedTxUpdated, `minInclusionBlock, `maxInclusionBlock
      ensures Valid() && (confirmedTransactions != map[] ==> !confirmedTxUpdated)
    {
      hide ChannelBuilder.Valid;
      if |confirmedTransactions| == 0 || !confirmedTxUpdated {
        return;
      }
      var min, max := RangeOf(confirmedTransactions);
      minInclusionBlock, maxInclusionBlock := min, max;
      confirmedTxUpdated := false;
    }

    static method RangeOf(confirmed: map<string, BlockID>) returns (min: nat, max: nat)
      requires forall k :: k in confirmed ==> confirmed[k].number <= MAX_UINT64
      ensures Lowest(confirmed, confirmed.Keys, min) && Highest(confirmed, confirmed.Keys, max)
    {
      min, max := MAX_UINT64, 0;
      var rest := confirmed.Keys;
      while rest != {}
        invariant rest <= confirmed.Keys
        invariant Lowest(confirmed, confirmed.Keys - rest, min) && Highest(confirmed, confirmed.Keys - rest, max)
        decreases |rest|
      {
        var k :| k in rest;
        var number := confirmed[k].number;
        rest := rest - {k};
        if number < min {
          min := number;
        }
        if number > max {
          max := number;
        }
      }
      assert confirmed.Keys - rest == confirmed.Keys;
    }

    method IsTimedOut() returns (b: bool)
      requires Valid() && confirmedTransactions != map[]
      modifies `confirmedTxUpdated, `minInclusionBlock, `maxInclusionBlock
      ensures Valid() && Value() == old(Value())
      ensures b == Value().TimedOut()
    {
      UpdateInclusionBlocks();
      RangeDecides(confirmedTransactions, minInclusionBlock, maxInclusionBlock, cfg.channelTimeout);
      b := maxInclusionBlock - minInclusionBlock >= cfg.channelTimeout;
    }

    // two confirmed blocks lie a timeout apart if and only if the lowest and the highest do
    static lemma RangeDecides(confirmed: map<string, BlockID>, min: nat, max: nat, timeout: nat)
      requires confirmed != map[]
      requires forall k :: k in confirmed ==> confirmed[k].number <= MAX_UINT64
      requires Lowest(confirmed, confirmed.Keys, min) && Highest(confirmed, confirmed.Keys, max)
      ensures min <= max
      ensures max - min >= timeout <==>
              exists a, b :: a in confirmed && b in confirmed && confirmed[a].number >= confirmed[b].number + timeout
    {
      var k :| k in confirmed;
      var a :| a in confirmed && confirmed[a].number == max;
      var b :| b in confirmed && confirmed[b].number == min;
    }

    method IsFullySubmitted() returns (b: bool)
      requires Valid()
      modifies `confirmedTxUpdated, `minInclusionBlock, `maxInclusionBlock
      ensures Valid() && Value() == old(Value())
      ensures b == Value().FullySubmitted()
    {
      UpdateInclusionBlocks();
      b := IsFull() && |pendingTransactions| + |channelBuilder.frames| == 0;
    }

    // done, and the blocks to be put back into the queue after a timeout
    method TxConfirmed(id: string, inclusionBlock: BlockID) returns (done: bool, blocks: seq<Block>, ghost verdict: Verdict)
      requires Valid() && inclusionBlock.number <= MAX_UINT64
      modifies this, channelBuilder
      ensures Valid() && old(Value()).builder.cfg.Valid()
      ensures (Value(), verdict) == ChannelSpec.TxConfirmed(old(Value()), id, inclusionBlock)
      ensures done == !verdict.Ongoing?
      ensures blocks == if verdict.TimedOut? then Value().builder.blocks else []
    {
      if id !in pendingTransactions {
        return false, [], Ongoing;
      }
      Confirm(id, inclusionBlock);
      hide Valid;
      hide ChannelSpec.Confirm;
      var timedOut := IsTimedOut();
      if timedOut {
        return true, channelBuilder.blocks, Verdict.TimedOut;
      }
      var full := IsFullySubmitted();
      if full {
        return true, [], Done;
      }
      return false, [], Ongoing;
    }

    // moves a pending transaction to the confirmed ones
    method Confirm(id: string, inclusionBlock: BlockID)
      requires Valid() && inclusionBlock.number <= MAX_UINT64 && id in pendingTransactions
      modifies this, channelBuilder`timeout, channelBuilder`timeoutReason, channelBuilder`deadlines
      ensures Valid() && confirmedTransactions != map[]
      ensures Value() == ChannelSpec.Confirm(old(Value()), id, inclusionBlock)
    {
      pendingTransactions := pendingTransactions - {id};
      confirmedTransactions := confirmedTransactions[id := inclusionBlock];
      confirmedTxUpdated := true;
      assert id in confirmedTransactions;
      channelBuilder.FramePublished(inclusionBlock.number);
    }

    method NextTxData() returns (tx: TxData)
      requires Valid()
      modifies `pendingTransactions, `sent, channelBuilder`frames
      ensures Valid()
      ensures Value() == ChannelSpec.NextTxData(old(Value()))
      ensures tx == old(Value()).NextTx()
    {
      hide Render;
      hide CacheValid;
      var nf := cfg.MaxFramesPerTx();
      var frames: seq<Frame> := [];
      var i := 0;
      while i < nf && |channelBuilder.frames| > 0
        invariant 0 <= i <= nf && i == |frames|
        invariant i <= |old(channelBuilder.frames)|
        invariant frames == old(channelBuilder.frames)[..i] && channelBuilder.frames == old(channelBuilder.frames)[i..]
        invariant channelBuilder.Valid() && pendingTransactions == old(pendingTransactions) && sent == old(sent)
      {
        var f := channelBuilder.NextFrame();
        frames := frames + [f];
        i := i + 1;
      }
      tx := TxData(frames, cfg.useBlobs);
      var id := TxIdString(tx.ID());
      pendingTransactions := pendingTransactions[id := tx];
      sent := sent[id := tx];
    }
  }
}
