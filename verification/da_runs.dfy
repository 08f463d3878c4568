/** Runs of the Alt-DA manager: any interleaving of the four calls the derivation pipeline makes,
    and what holds in every state such a run can reach. */
module DaRuns {
  import opened Bytes
  import opened Commitments
  import opened ChallengeState
  import opened DaSpec

  datatype Step =
    | Fetch(l1: L1Fetcher, storage: StorageResult, comm: CommitmentData, block: BlockRef)
    | Advance(l1: L1Fetcher, block: BlockRef)
    | Reset(base: BlockRef)
    | Finalization(l1Finalized: BlockRef)

  ghost predicate Sorted(table: seq<ChallengeValue>) {
    forall i, j :: 0 <= i < j < |table| ==> table[i].resolveWindowEnd <= table[j].resolveWindowEnd
  }

  /** The challenge table is in creation order, its windows close no later than `last` allows, and
      the boundary between the two queues is exactly where the windows closed by block `n` end. */
  ghost predicate QueuesSplitAt(env: Env, db: Challenges, n: nat, last: nat) {
    && db.Wf()
    && Sorted(db.table)
    && (forall i :: 0 <= i < db.expired ==> db.table[i].status != Active && db.table[i].resolveWindowEnd <= n)
    && (forall i :: db.expired <= i < |db.table| ==> db.table[i].resolveWindowEnd > n)
    && (forall i :: 0 <= i < |db.table| ==>
         db.table[i].status != Uninitialized && db.table[i].resolveWindowEnd <= last + env.cfg.resolveWindow)
  }

  ghost predicate Good(env: Env, v: Synced) {
    QueuesSplitAt(env, v.db, v.origin.number, v.origin.number)
  }

  ghost predicate Inv(env: Env, d: DaValue) {
    Good(env, View(d))
  }

  ghost function Next(env: Env, d: DaValue, step: Step): DaValue
    requires Inv(env, d)
  {
    match step
    case Fetch(l1, storage, comm, block) => GetInput(env, d, l1, storage, comm, block).0
    case Advance(l1, block) => AdvanceL1Origin(env, d, l1, block).0
    case Reset(base) => ResetTo(d, base)
    case Finalization(f) => Finalize(d, f)
  }

  lemma CreateKeeps(env: Env, db: Challenges, n: nat, block: nat, comm: CommitmentData, bn: nat)
    requires n < block && QueuesSplitAt(env, db, n, block)
    ensures QueuesSplitAt(env, db.Create(comm, bn, block + env.cfg.resolveWindow), n, block)
  {
    hide ChallengeKey;
  }

  lemma ResolveKeeps(env: Env, db: Challenges, n: nat, block: nat, key: string, input: seq<byte>)
    requires QueuesSplitAt(env, db, n, block)
    ensures QueuesSplitAt(env, db.Resolve(key, input), n, block)
  {
    hide ChallengeKey;
  }

  lemma ApplyLogKeeps(env: Env, db: Challenges, n: nat, block: nat, log: Log)
    requires n < block && QueuesSplitAt(env, db, n, block)
    ensures QueuesSplitAt(env, ApplyLog(env, db, block, log), n, block)
  {
    hide ChallengeKey;
    hide QueuesSplitAt;
    hide Challenges.Create;
    hide Challenges.Resolve;
    if log.StatusChanged? {
      CreateKeeps(env, db, n, block, log.comm, log.commBlockNumber);
      var input := ResolvedInput(env, log.comm, log.tx);
      if input.Some? {
        ResolveKeeps(env, db, n, block, ChallengeKey(log.comm, log.commBlockNumber), input.value);
      }
    }
  }

  lemma {:induction false} ApplyLogsKeeps(env: Env, db: Challenges, n: nat, block: nat, logs: seq<Log>)
    requires n < block && QueuesSplitAt(env, db, n, block)
    ensures QueuesSplitAt(env, ApplyLogs(env, db, block, logs), n, block)
  {
    hide ChallengeKey;
    if logs != [] {
      ApplyLogsKeeps(env, db, n, block, logs[..|logs| - 1]);
      ApplyLogKeeps(env, ApplyLogs(env, db, block, logs[..|logs| - 1]), n, block, logs[|logs| - 1]);
    }
  }

  lemma ExpireKeeps(env: Env, db: Challenges, n: nat, block: nat)
    requires n <= block && QueuesSplitAt(env, db, n, block)
    ensures QueuesSplitAt(env, db.Expire(block), block, block)
  {
    hide ChallengeKey;
    var e := FirstOpen(db.table, db.expired, block);
    forall i | e <= i < |db.table|
      ensures db.table[i].resolveWindowEnd > block
    {
    }
  }

  lemma PruneKeeps(env: Env, db: Challenges, n: nat, f: nat)
    requires QueuesSplitAt(env, db, n, n)
    ensures QueuesSplitAt(env, db.Prune(f), n, n)
  {
    GoodShape(env, Synced(db, BlockRef(0, n)));
    PruneWf(db, f);
    hide ChallengeKey;
    hide KeysOf;
    hide Challenges.Wf;
  }

  lemma PruneWf(db: Challenges, f: nat)
    requires db.Wf()
    ensures db.Prune(f).Wf()
  {
    hide ChallengeKey;
    hide Challenges.PruneEnd;
    var p := db.PruneEnd(f);
    forall i | db.pruned <= i < p
      ensures db.table[i].Key() in KeysOf(db.table[db.pruned..p])
    {
      assert db.table[db.pruned..p][i - db.pruned] == db.table[i];
    }
    hide KeysOf;
  }

  lemma GoodShape(env: Env, v: Synced)
    requires Good(env, v)
    ensures v.db.Wf()
  {
    hide ChallengeKey;
  }

  lemma SyncToKeeps(env: Env, v: Synced, l1: L1Fetcher, block: BlockRef)
    requires Good(env, v)
    ensures v.db.Wf()
    ensures var r := SyncTo(env, v, l1, block);
            r.Some? ==> Good(env, r.value) && r.value.origin.number >= block.number
  {
    GoodShape(env, v);
    hide ChallengeKey;
    hide QueuesSplitAt;
    var logs := FetchLogs(env, l1, block);
    if block.number > v.origin.number && logs.Some? {
      Widen(env, v.db, v.origin.number, v.origin.number, block.number);
      ApplyLogsKeeps(env, v.db, v.origin.number, block.number, logs.value);
      ExpireKeeps(env, ApplyLogs(env, v.db, block.number, logs.value), v.origin.number, block.number);
    }
  }

  lemma Widen(env: Env, db: Challenges, n: nat, last: nat, block: nat)
    requires QueuesSplitAt(env, db, n, last) && last <= block
    ensures QueuesSplitAt(env, db, n, block)
  {
    hide ChallengeKey;
  }

  /** What one step does to the challenge view: nothing, one block of events, a clearing, a pruning. */
  lemma NextView(env: Env, d: DaValue, step: Step)
    requires Inv(env, d)
    ensures d.state.db.Wf()
    ensures var v' := View(Next(env, d, step));
            match step
            case Fetch(l1, storage, comm, block) =>
              var ref := l1.refByNumber(d.challengeOrigin.number + 1);
              if GetInput(env, d, l1, storage, comm, block).1 == ErrPendingChallenge
              then ref.Some? && SyncTo(env, View(d), l1, ref.value) == Some(v')
              else v' == View(d)
            case Advance(l1, block) =>
              var r := SyncTo(env, View(d), l1, block);
              v' == if r.None? then View(d) else r.value
            case Reset(base) => v' == if d.resetting then View(d) else Synced(NoChallenges, base)
            case Finalization(f) => v' == Synced(d.state.db.Prune(f.number), d.challengeOrigin)
  {
    GoodShape(env, View(d));
    hide ChallengeKey;
    hide QueuesSplitAt;
    match step
    case Fetch(l1, storage, comm, block) =>
      hide DaSpec.GetInput;
      FetchView(env, d, l1, storage, comm, block);
    case Advance(l1, block) =>
      hide DaSpec.AdvanceL1Origin;
      AdvanceView(env, d, l1, block);
    case Reset(base) =>
    case Finalization(f) => hide Challenges.Prune;
  }

  /** Whether or not commitments expire, advancing processes the events of at most one block. */
  lemma AdvanceView(env: Env, d: DaValue, l1: L1Fetcher, block: BlockRef)
    requires Inv(env, d) && d.state.db.Wf()
    ensures var r := SyncTo(env, View(d), l1, block);
            View(AdvanceL1Origin(env, d, l1, block).0) == if r.None? then View(d) else r.value
  {
    hide ChallengeKey;
    hide QueuesSplitAt;
    hide SyncTo;
    hide AdvanceCommitmentOrigin;
    hide UpdateFinalizedFromL1;
    var d1 := AdvanceChallengeOrigin(env, d, l1, block);
    if d1.Some? {
      CommitmentSideView(env, d1.value, l1, block);
      CommitmentSideView(env, AdvanceCommitmentOrigin(d1.value, block).0, l1, block);
    }
  }

  /** The two halves of advancing that do not follow the challenge contract. */
  lemma CommitmentSideView(env: Env, d: DaValue, l1: L1Fetcher, block: BlockRef)
    ensures View(AdvanceCommitmentOrigin(d, block).0) == View(d)
    ensures View(UpdateFinalizedFromL1(env, d, l1).0) == View(d)
  {
    hide Challenges.DuePrefix;
  }

  /** Only a look-ahead changes the view. */
  lemma FetchView(env: Env, d: DaValue, l1: L1Fetcher, storage: StorageResult, comm: CommitmentData, block: BlockRef)
    requires Inv(env, d) && d.state.db.Wf()
    ensures var v' := View(GetInput(env, d, l1, storage, comm, block).0);
            var ref := l1.refByNumber(d.challengeOrigin.number + 1);
            if GetInput(env, d, l1, storage, comm, block).1 == ErrPendingChallenge
            then ref.Some? && SyncTo(env, View(d), l1, ref.value) == Some(v')
            else v' == View(d)
  {
    hide ChallengeKey;
    hide QueuesSplitAt;
    hide ApplyBlock;
  }

  /** The invariant holds in every reachable state, whatever the node sees of L1. */
  lemma NextKeeps(env: Env, d: DaValue, step: Step)
    requires Inv(env, d)
    ensures Inv(env, Next(env, d, step))
  {
    NextView(env, d, step);
    hide ChallengeKey;
    hide SyncTo;
    hide Next;
    match step
    case Fetch(l1, storage, comm, block) =>
      var ref := l1.refByNumber(d.challengeOrigin.number + 1);
      if ref.Some? {
        SyncToKeeps(env, View(d), l1, ref.value);
      }
    case Advance(l1, block) => SyncToKeeps(env, View(d), l1, block);
    case Reset(base) =>
    case Finalization(f) => PruneKeeps(env, d.state.db, d.challengeOrigin.number, f.number);
  }

  ghost function Run(env: Env, d: DaValue, steps: seq<Step>): (r: DaValue)
    requires Inv(env, d)
    ensures Inv(env, r)
    decreases |steps|
  {
    if steps == [] then d
    else
      NextKeeps(env, d, steps[0]);
      Run(env, Next(env, d, steps[0]), steps[1..])
  }
}
