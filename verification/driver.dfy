/** op-batcher/batcher/driver.go: the fields of the `BatchSubmitter` object that the pool recovery and
    the slot selection update.  Each method is proved equal to the function it is named after. */
module Drivers {
  import opened Bytes
  import opened TxDatas
  import opened TxPool
  import opened Slots

  class BatchSubmitter {
    const from: nat
    var txpoolState: PoolState
    var txpoolBlockedBlob: bool
    var lastL1Tip: L1Ref
    var lastSubmit: L1Ref
    var nextEpochToCheck: nat
    var targetTimestamps: seq<nat>

    ghost function Selection(): SlotState
      reads this
    {
      SlotState(lastL1Tip, lastSubmit, nextEpochToCheck, targetTimestamps)
    }

    constructor (from: nat)
      ensures txpoolState == Good && !txpoolBlockedBlob && this.from == from
      ensures Selection() == SlotState(NO_REF, NO_REF, 0, [])
    {
      this.from := from;
      txpoolState, txpoolBlockedBlob := Good, false;
      lastL1Tip, lastSubmit, nextEpochToCheck, targetTimestamps := NO_REF, NO_REF, 0, [];
    }

    // whether the pool is usable, and the cancellation to send, a blob transaction or not
    method CheckTxpool() returns (ok: bool, cancel: Option<bool>)
      modifies `txpoolState
      ensures ok == (old(txpoolState) == Good)
      ensures (txpoolState, cancel) == Check(old(txpoolState), txpoolBlockedBlob)
    {
      if txpoolState == Blocked {
        txpoolState := CancelPending;
        return false, Some(!txpoolBlockedBlob);
      }
      return txpoolState == Good, None;
    }

    // the part of the receipt loop that holds the mutex
    method OnReceipt(ref: TxRef, outcome: Outcome)
      modifies `txpoolState, `txpoolBlockedBlob
      ensures (txpoolState, txpoolBlockedBlob) == TxPool.OnReceipt(old(txpoolState), old(txpoolBlockedBlob), ref, outcome)
    {
      if outcome == AlreadyReserved && txpoolState == Good {
        txpoolState := Blocked;
        txpoolBlockedBlob := ref.isBlob;
      } else if ref.isCancel && txpoolState == CancelPending {
        txpoolState := Good;
      }
    }

    method RecordL1Tip(l1Tip: L1Ref)
      modifies `lastL1Tip
      ensures lastL1Tip == l1Tip
    {
      if lastL1Tip == l1Tip {
        return;
      }
      lastL1Tip := l1Tip;
    }

    method GenerateTargetTimestamps(electionWinners: seq<Winner>) returns (out: seq<nat>)
      ensures out == Won(electionWinners, from)
    {
      out := [];
      for i := 0 to |electionWinners|
        invariant out == Won(electionWinners[..i], from)
      {
        assert electionWinners[..i + 1][..i] == electionWinners[..i];
        if electionWinners[i].address == from {
          out := out + [electionWinners[i].time];
        }
      }
      assert electionWinners[..|electionWinners|] == electionWinners;
    }

    // pops all missed slots
    method PopMissed(nextSlotTime: nat)
      modifies `targetTimestamps
      ensures targetTimestamps == Pop(old(targetTimestamps), nextSlotTime)
    {
      while |targetTimestamps| > 0 && nextSlotTime > targetTimestamps[0]
        invariant Pop(targetTimestamps, nextSlotTime) == Pop(old(targetTimestamps), nextSlotTime)
        decreases |targetTimestamps|
      {
        targetTimestamps := targetTimestamps[1..];
      }
    }

    method ShouldPublish(poll: Poll) returns (publish: bool, targetTimestamp: nat)
      modifies `lastL1Tip, `nextEpochToCheck, `targetTimestamps
      ensures (Selection(), if publish then Some(targetTimestamp) else None) == Slots.ShouldPublish(old(Selection()), from, poll)
    {
      if poll.tip.None? {
        return false, 0;
      }
      RecordL1Tip(poll.tip.value);
      if lastL1Tip == lastSubmit {
        return false, 0;
      }
      if poll.head.None? || poll.head.value == NO_REF {
        return false, 0;
      }
      var nextSlotTime := poll.head.value.time + SLOT_TIME;
      if poll.epoch.None? {
        return false, 0;
      }
      var epoch := poll.epoch.value;
      if epoch >= nextEpochToCheck {
        if poll.winners.None? {
          return false, 0;
        }
        var timestamps := GenerateTargetTimestamps(poll.winners.value);
        targetTimestamps := timestamps;
        nextEpochToCheck := epoch + 1;
      }
      PopMissed(nextSlotTime);
      if |targetTimestamps| == 0 {
        return false, 0;
      }
      if nextSlotTime == targetTimestamps[0] {
        return true, nextSlotTime;
      }
      return false, 0;
    }

    // publishStateToL1, which remembers the tip if a transaction was handed over
    method PublishState(handedOver: bool)
      modifies `lastSubmit
      ensures Selection() == if handedOver then Submitted(old(Selection())) else old(Selection())
    {
      if !handedOver {
        return;
      }
      lastSubmit := lastL1Tip;
    }

    // one turn of the main loop with a usable pool
    method OneTick(tick: Tick) returns (publish: bool, targetTimestamp: nat)
      modifies `lastL1Tip, `lastSubmit, `nextEpochToCheck, `targetTimestamps
      ensures (if publish then Some(targetTimestamp) else None) == Slots.ShouldPublish(old(Selection()), from, tick.poll).1
      ensures Selection() == AfterTick(old(Selection()), from, tick)
    {
      publish, targetTimestamp := ShouldPublish(tick.poll);
      if publish {
        PublishState(tick.submits);
      }
    }

    // the turns of the main loop
    method Loop(ticks: seq<Tick>) returns (decisions: seq<Option<nat>>)
      modifies `lastL1Tip, `lastSubmit, `nextEpochToCheck, `targetTimestamps
      ensures Selection() == AfterTicks(old(Selection()), from, ticks)
      ensures |decisions| == |ticks| && Decided(old(Selection()), from, ticks, decisions)
    {
      ghost var start := Selection();
      NoTicks(start, from, ticks);
      assert ticks[..|ticks|] == ticks;
      hide *;
      decisions := [];
      while |decisions| < |ticks|
        invariant |decisions| <= |ticks| && Selection() == AfterTicks(start, from, ticks[..|decisions|])
        invariant Decided(start, from, ticks, decisions)
      {
        OneMoreTick(start, from, ticks, decisions);
        var publish, targetTimestamp := OneTick(ticks[|decisions|]);
        decisions := decisions + [if publish then Some(targetTimestamp) else None];
      }
    }
  }
}
