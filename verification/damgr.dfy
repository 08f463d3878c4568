/** op-alt-da/damgr.go: the `DA` object.  Each method is proved equal to the function of the same
    name in `DaSpec` on the abstract value of the object. */
module DaManager {
  import opened Bytes
  import opened Commitments
  import opened ChallengeState
  import opened DaState
  import opened DaSpec

  class DA {
    const cfg: Config
    const keccak: seq<byte> -> seq<byte>
    const state: State
    var challengeOrigin: BlockRef
    var commitmentOrigin: BlockRef
    var finalizedHead: BlockRef
    var l1FinalizedHead: BlockRef
    var resetting: bool

    function Environment(): Env {
      Env(cfg, keccak)
    }

    ghost predicate Valid()
      reads state, state.history
    {
      state.cfg == cfg && state.Valid()
    }

    // the challenges tracked now are earlier ones and new ones
    twostate predicate OnlyFreshAdded(earlier: seq<Challenge>)
      reads state
    {
      forall i :: 0 <= i < |state.history| ==> state.history[i] in earlier || fresh(state.history[i])
    }

    ghost function Value(): DaValue
      reads this, state
    {
      DaValue(challengeOrigin, commitmentOrigin, finalizedHead, l1FinalizedHead, resetting, state.Contents())
    }

    constructor (cfg: Config, keccak: seq<byte> -> seq<byte>)
      ensures Valid() && Value() == NewDa && Environment() == Env(cfg, keccak)
    {
      this.cfg, this.keccak := cfg, keccak;
      state := new State(cfg);
      challengeOrigin, commitmentOrigin := BlockRef(0, 0), BlockRef(0, 0);
      finalizedHead, l1FinalizedHead := BlockRef(0, 0), BlockRef(0, 0);
      resetting := false;
    }

    method Finalize(l1Finalized: BlockRef)
      requires Valid()
      modifies this, state, state.history
      ensures Valid() && old(state.db).Wf()
      ensures Value() == DaSpec.Finalize(old(Value()), l1Finalized)
    {
      hide State.Valid;
      hide ChallengeKey;
      hide ChallengeState.Prune;
      l1FinalizedHead := l1Finalized;
      state.Prune(l1Finalized);
      finalizedHead := state.lastPrunedCommitment;
    }

    // io.EOF, the signal that the reset is complete, is the only possible outcome
    method Reset(base: BlockRef)
      requires Valid()
      modifies this, state, state.history
      ensures Valid()
      ensures Value() == ResetTo(old(Value()), base)
    {
      hide State.Valid;
      hide ChallengeKey;
      if resetting {
        resetting := false;
        commitmentOrigin := base;
        state.ClearCommitments();
      } else {
        challengeOrigin := base;
        commitmentOrigin := base;
        state.Reset();
      }
    }

    method LoadChallengeEvents(logs: seq<Log>, block: BlockRef)
      requires Valid()
      modifies state, state.history
      ensures Valid() && OnlyFreshAdded(old(state.history))
      ensures state.Contents() == old(state.Contents()).(db := ApplyLogs(Environment(), old(state.db), block.number, logs))
    {
      hide State.Valid;
      hide ChallengeKey;
      for i := 0 to |logs|
        invariant Valid() && OnlyFreshAdded(old(state.history))
        invariant state.Contents() == old(state.Contents()).(db := ApplyLogs(Environment(), old(state.db), block.number, logs[..i]))
      {
        assert logs[..i + 1][..i] == logs[..i];
        LoadChallengeEvent(logs[i], block);
      }
      assert logs[..|logs|] == logs;
    }

    // the body of the loop over the logs of a block
    method LoadChallengeEvent(log: Log, block: BlockRef)
      requires Valid()
      modifies state, state.history
      ensures Valid() && OnlyFreshAdded(old(state.history))
      ensures state.Contents() == old(state.Contents()).(db := ApplyLog(Environment(), old(state.db), block.number, log))
    {
      hide State.Valid;
      hide ChallengeKey;
      if log.Undecodable? {
        return;
      }
      if log.status == RESOLVED_EVENT {
        if log.tx.TxUnavailable? {
          return;
        }
        var input := [];
        if cfg.commitmentType == Keccak256CommitmentType {
          if log.tx.BadCalldata? || |log.tx.input| == 0 {
            return;
          }
          input := log.tx.input;
          if !log.comm.Verify(keccak, input) {
            return;
          }
        }
        var _ := state.ResolveChallenge(log.comm, log.commBlockNumber, input);
      } else if log.status == ACTIVE_EVENT {
        state.CreateChallenge(log.comm, block, log.commBlockNumber);
      }
    }

    method AdvanceChallengeOrigin(l1: L1Fetcher, block: BlockRef) returns (ok: bool)
      requires Valid()
      modifies this`challengeOrigin, state, state.history
      ensures Valid() && old(state.db).Wf() && OnlyFreshAdded(old(state.history))
      ensures ok == DaSpec.AdvanceChallengeOrigin(Environment(), old(Value()), l1, block).Some?
      ensures Value() == if ok then DaSpec.AdvanceChallengeOrigin(Environment(), old(Value()), l1, block).value
                         else old(Value())
    {
      hide State.Valid;
      hide ChallengeKey;
      state.Heads();
      if block.number <= challengeOrigin.number {
        return true;
      }
      var logs := FetchLogs(Environment(), l1, block);
      if logs.None? {
        return false;
      }
      LoadChallengeEvents(logs.value, block);
      state.ExpireChallenges(block);
      challengeOrigin := block;
      ok := true;
    }

    method LookAhead(l1: L1Fetcher) returns (ok: bool)
      requires Valid()
      modifies this`challengeOrigin, state, state.history
      ensures Valid() && old(state.db).Wf()
      ensures ok == DaSpec.LookAhead(Environment(), old(Value()), l1).Some?
      ensures Value() == if ok then DaSpec.LookAhead(Environment(), old(Value()), l1).value else old(Value())
    {
      hide State.Valid;
      hide ChallengeKey;
      state.Heads();
      var block := l1.refByNumber(challengeOrigin.number + 1);
      if block.None? {
        return false;
      }
      ok := AdvanceChallengeOrigin(l1, block.value);
    }

    method AdvanceCommitmentOrigin(block: BlockRef) returns (r: AdvanceResult)
      requires Valid()
      modifies this`commitmentOrigin, this`resetting, state`commitments, state`expiredCommitments
      ensures Valid()
      ensures (Value(), r) == DaSpec.AdvanceCommitmentOrigin(old(Value()), block)
    {
      hide State.Valid;
      hide ChallengeKey;
      if block.number <= commitmentOrigin.number {
        return Advanced;
      }
      var reorg := state.ExpireCommitments(block);
      if reorg {
        resetting := true;
        return ErrReorgRequired;
      }
      commitmentOrigin := block;
      r := Advanced;
    }

    method AdvanceL1Origin(l1: L1Fetcher, block: BlockRef) returns (r: AdvanceResult)
      requires Valid()
      modifies this, state, state.history
      ensures Valid() && old(state.db).Wf()
      ensures (Value(), r) == DaSpec.AdvanceL1Origin(Environment(), old(Value()), l1, block)
    {
      hide State.Valid;
      hide ChallengeKey;
      state.Heads();
      var ok := AdvanceChallengeOrigin(l1, block);
      if !ok {
        return ErrL1;
      }
      r := AdvanceCommitmentOrigin(block);
      if r != Advanced {
        return;
      }
      var none := state.NoCommitments();
      if none {
        r := UpdateFinalizedFromL1(l1);
      }
    }

    method UpdateFinalizedFromL1(l1: L1Fetcher) returns (r: AdvanceResult)
      modifies this`finalizedHead
      ensures (Value(), r) == DaSpec.UpdateFinalizedFromL1(Environment(), old(Value()), l1)
    {
      if l1FinalizedHead.number < cfg.challengeWindow {
        return Advanced;
      }
      var ref := l1.refByNumber(l1FinalizedHead.number - cfg.challengeWindow);
      if ref.None? {
        return ErrL1;
      }
      finalizedHead := ref.value;
      r := Advanced;
    }

    method GetInput(l1: L1Fetcher, storage: StorageResult, comm: CommitmentData, block: BlockRef) returns (r: InputResult)
      requires Valid()
      modifies this, state, state.history
      ensures Valid() && old(state.db).Wf()
      ensures (Value(), r) == DaSpec.GetInput(Environment(), old(Value()), l1, storage, comm, block)
    {
      hide State.Valid;
      hide ChallengeKey;
      state.Heads();
      if cfg.commitmentType != comm.Type() {
        return ErrExpiredChallenge;
      }
      var status := state.GetChallengeStatus(comm, block.number);
      if status == Expired {
        return ErrExpiredChallenge;
      }
      state.TrackCommitment(comm, block);
      if storage.StorageFailed? {
        return ErrTemporary;
      }
      if storage.NotFound? {
        match status {
          case Uninitialized =>
            if challengeOrigin.number > block.number + cfg.challengeWindow {
              return ErrMissingPastWindow;
            }
            var ok := LookAhead(l1);
            return if ok then ErrPendingChallenge else ErrTemporary;
          case Active =>
            var ok := LookAhead(l1);
            return if ok then ErrPendingChallenge else ErrTemporary;
          case Resolved =>
            if comm.GenericCommitment? {
              return ErrMissingPastWindow;
            }
            var _, ch := state.GetChallenge(comm, block.number);
            return Data(ch.input);
        }
      }
      r := Data(storage.data);
    }
  }
}
