/** op-batcher/batcher/channel.go as functions on values. */
module ChannelSpec {
  import opened Bytes
  import opened TxDatas
  import opened BuilderSpec

  /** `sent` records the data of every transaction that is pending or confirmed. */
  datatype ChannelValue = ChannelValue(
    builder: BuilderValue, pending: map<string, TxData>, confirmed: map<string, BlockID>, sent: map<string, TxData>)
  {
    function HasTxData(): bool {
      if builder.IsFull() || !builder.cfg.useBlobs then |builder.frames| > 0
      else |builder.frames| >= builder.cfg.MaxFramesPerTx()
    }

    function FramesInNextTx(): nat {
      if builder.cfg.MaxFramesPerTx() <= |builder.frames| then builder.cfg.MaxFramesPerTx() else |builder.frames|
    }

    function NextTx(): TxData {
      TxData(builder.frames[..FramesInNextTx()], builder.cfg.useBlobs)
    }

    /** The inclusion blocks of two confirmed transactions are a channel timeout apart. */
    ghost predicate TimedOut() {
      exists a, b :: a in confirmed && b in confirmed
                     && confirmed[a].number >= confirmed[b].number + builder.cfg.channelTimeout
    }

    predicate FullySubmitted() {
      builder.IsFull() && |pending| + |builder.frames| == 0
    }

    predicate NoneSubmitted() {
      |confirmed| == 0 && |pending| == 0
    }
  }

  function NewChannel(cfg: ChannelConfig, id: ChannelID, latestL1Origin: nat): ChannelValue {
    ChannelValue(NewBuilder(cfg, id, latestL1Origin), map[], map[], map[])
  }

  function NextTxData(c: ChannelValue): ChannelValue {
    var tx := c.NextTx();
    c.(builder := NextFrames(c.builder, c.FramesInNextTx()),
       pending := c.pending[tx.Key() := tx], sent := c.sent[tx.Key() := tx])
  }

  function TxFailed(c: ChannelValue, id: string): ChannelValue {
    if id in c.pending then
      c.(builder := PushFrames(c.builder, c.pending[id].frames), pending := c.pending - {id}, sent := c.sent - {id})
    else c
  }

  function Confirm(c: ChannelValue, id: string, inclusion: BlockID): ChannelValue
    requires c.builder.cfg.Valid()
  {
    c.(pending := c.pending - {id}, confirmed := c.confirmed[id := inclusion],
       builder := FramePublished(c.builder, inclusion.number))
  }

  datatype Verdict = Ongoing | TimedOut | Done

  ghost function TxConfirmed(c: ChannelValue, id: string, inclusion: BlockID): (ChannelValue, Verdict)
    requires c.builder.cfg.Valid()
  {
    if id !in c.pending then (c, Ongoing)
    else
      var c' := Confirm(c, id, inclusion);
      (c', if c'.TimedOut() then Verdict.TimedOut else if c'.FullySubmitted() then Done else Ongoing)
  }
}
