/** A node with generic commitments: whatever the challenge contract logs, it neither sees a challenge nor asks
    for a reorg. */
module DaGeneric {
  import opened Bytes
  import opened Commitments
  import opened ChallengeState
  import opened DaSpec
  import opened DaRuns

  /** No challenge is known, and no reorg is under way. */
  ghost predicate Free(d: DaValue) {
    d.state.db == NoChallenges && !d.resetting
  }

  /** The same call, up to the logs of the challenge contract. */
  ghost predicate SameButLogs(s: Step, t: Step) {
    match s
    case Fetch(l1, storage, comm, block) =>
      t.Fetch? && t == Fetch(L1Fetcher(l1.refByNumber, t.l1.challengeLogs), storage, comm, block)
    case Advance(l1, block) =>
      t.Advance? && t == Advance(L1Fetcher(l1.refByNumber, t.l1.challengeLogs), block)
    case _ => t == s
  }

  lemma EmptyFolds(env: Env, n: nat)
    ensures ApplyBlock(env, NoChallenges, n, []) == NoChallenges
    ensures NoChallenges.Prune(n) == NoChallenges
  {
    assert NoChallenges.ExpireTo(0) == NoChallenges by { NoChallenges.ExpireToStart(); }
    assert NoChallenges.PruneTo(0) == NoChallenges by { NoChallenges.PruneToStart(); }
    assert NoChallenges.Expire(n) == NoChallenges;
    assert ApplyLogs(env, NoChallenges, n, []) == NoChallenges;
  }

  /** The node follows the chain without looking at the contract. */
  lemma SyncsFreely(env: Env, d: DaValue, l1: L1Fetcher, block: BlockRef)
    requires env.cfg.commitmentType == GenericCommitmentType && Free(d)
    ensures AdvanceChallengeOrigin(env, d, l1, block)
         == Some(if block.number <= d.challengeOrigin.number then d else d.(challengeOrigin := block))
  {
    EmptyFolds(env, block.number);
    hide ApplyBlock;
    assert d.(state := d.state.(db := d.state.db)) == d;
  }

  lemma CommitmentsAdvanceFreely(d: DaValue, block: BlockRef)
    requires Free(d)
    ensures var (d', r) := AdvanceCommitmentOrigin(d, block); Free(d') && r == Advanced
  {
    hide ChallengeKey;
    hide Challenges.DuePrefix;
  }

  lemma AdvancesFreely(env: Env, d: DaValue, l1: L1Fetcher, block: BlockRef)
    requires env.cfg.commitmentType == GenericCommitmentType && Free(d)
    ensures var (d', r) := AdvanceL1Origin(env, d, l1, block);
            && Free(d') && r != ErrReorgRequired
            && (r == ErrL1 ==> exists n: nat :: l1.refByNumber(n) == None)
    ensures forall logs :: AdvanceL1Origin(env, d, L1Fetcher(l1.refByNumber, logs), block) == AdvanceL1Origin(env, d, l1, block)
  {
    SyncsFreely(env, d, l1, block);
    forall logs
      ensures AdvanceChallengeOrigin(env, d, L1Fetcher(l1.refByNumber, logs), block) == AdvanceChallengeOrigin(env, d, l1, block)
    {
      SyncsFreely(env, d, L1Fetcher(l1.refByNumber, logs), block);
    }
    CommitmentsAdvanceFreely(AdvanceChallengeOrigin(env, d, l1, block).value, block);
    hide AdvanceChallengeOrigin;
    hide AdvanceCommitmentOrigin;
    hide NoCommitments;
  }

  lemma FetchesFreely(env: Env, d: DaValue, l1: L1Fetcher, storage: StorageResult, comm: CommitmentData, block: BlockRef)
    requires env.cfg.commitmentType == GenericCommitmentType && Free(d)
    ensures Free(GetInput(env, d, l1, storage, comm, block).0)
    ensures GetInput(env, d, l1, storage, comm, block).1 == ErrExpiredChallenge ==> comm.Keccak256Commitment?
    ensures forall logs :: GetInput(env, d, L1Fetcher(l1.refByNumber, logs), storage, comm, block)
                        == GetInput(env, d, l1, storage, comm, block)
  {
    hide ChallengeKey;
    var d1 := d.(state := TrackCommitment(d.state, env.cfg, comm, block));
    var ref := l1.refByNumber(d1.challengeOrigin.number + 1);
    if ref.Some? {
      SyncsFreely(env, d1, l1, ref.value);
      forall logs
        ensures AdvanceChallengeOrigin(env, d1, L1Fetcher(l1.refByNumber, logs), ref.value)
             == AdvanceChallengeOrigin(env, d1, l1, ref.value)
      {
        SyncsFreely(env, d1, L1Fetcher(l1.refByNumber, logs), ref.value);
      }
    }
    hide AdvanceChallengeOrigin;
  }

  lemma NextFree(env: Env, d: DaValue, s: Step, t: Step)
    requires env.cfg.commitmentType == GenericCommitmentType && Free(d) && Inv(env, d) && SameButLogs(s, t)
    ensures Free(Next(env, d, s)) && Next(env, d, t) == Next(env, d, s)
  {
    hide Inv;
    match s
    case Fetch(l1, storage, comm, block) => FetchesFreely(env, d, l1, storage, comm, block); hide GetInput;
    case Advance(l1, block) => AdvancesFreely(env, d, l1, block); hide AdvanceL1Origin;
    case Reset(base) =>
    case Finalization(f) => EmptyFolds(env, f.number); hide Challenges.Prune;
  }

  lemma {:induction false} RunFree(env: Env, d: DaValue, steps: seq<Step>, others: seq<Step>)
    requires env.cfg.commitmentType == GenericCommitmentType && Free(d) && Inv(env, d)
    requires |others| == |steps| && forall i :: 0 <= i < |steps| ==> SameButLogs(steps[i], others[i])
    ensures Free(Run(env, d, steps)) && Run(env, d, others) == Run(env, d, steps)
    decreases |steps|
  {
    hide Free;
    hide SameButLogs;
    hide Inv;
    hide Next;
    if steps != [] {
      NextFree(env, d, steps[0], others[0]);
      NextKeeps(env, d, steps[0]);
      forall i | 0 <= i < |steps| - 1
        ensures SameButLogs(steps[1..][i], others[1..][i])
      {
        assert steps[1..][i] == steps[i + 1] && others[1..][i] == others[i + 1];
      }
      RunFree(env, Next(env, d, steps[0]), steps[1..], others[1..]);
    }
  }

  /** Two runs of a new node that differ in the logs of the contract alone end in the same state, after which no
      advance asks for a reorg, and only a request for a commitment of the other type is told that it expired. */
  lemma ContractIsIgnored(env: Env, steps: seq<Step>, others: seq<Step>)
    requires env.cfg.commitmentType == GenericCommitmentType
    requires |others| == |steps| && forall i :: 0 <= i < |steps| ==> SameButLogs(steps[i], others[i])
    ensures Inv(env, NewDa) && Run(env, NewDa, others) == Run(env, NewDa, steps)
    ensures var d := Run(env, NewDa, steps);
            && d.state.db == NoChallenges
            && (forall l1, block :: AdvanceL1Origin(env, d, l1, block).1 != ErrReorgRequired)
            && (forall l1, storage, comm, block ::
                  GetInput(env, d, l1, storage, comm, block).1 == ErrExpiredChallenge ==> comm.Keccak256Commitment?)
  {
    assert Inv(env, NewDa);
    RunFree(env, NewDa, steps, others);
    var d := Run(env, NewDa, steps);
    assert Free(d) && d.state.db.expired <= |d.state.db.table|;
    hide Run;
    hide Inv;
    forall l1, block
      ensures AdvanceL1Origin(env, d, l1, block).1 != ErrReorgRequired
    {
      AdvancesFreely(env, d, l1, block);
    }
    forall l1, storage, comm, block
      ensures GetInput(env, d, l1, storage, comm, block).1 == ErrExpiredChallenge ==> comm.Keccak256Commitment?
    {
      FetchesFreely(env, d, l1, storage, comm, block);
    }
    hide AdvanceL1Origin;
    hide GetInput;
  }
}
