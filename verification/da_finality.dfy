/** The finality signal: between resets the pruned commitments have non-decreasing inclusion
    blocks, and none is signalled before min(ChallengeWindow, ResolveWindow) blocks after its
    inclusion are final on L1. */
module DaFinality {
  import opened Bytes
  import opened Commitments
  import opened ChallengeState
  import opened DaSpec
  import opened DaRuns
  import opened DaIntegrity
  import opened DaExpiry

  function Margin(env: Env): nat {
    if env.cfg.challengeWindow <= env.cfg.resolveWindow then env.cfg.challengeWindow else env.cfg.resolveWindow
  }

  /** A challenge is opened at or after the inclusion of the keccak commitment it is against. */
  ghost predicate CausalLog(n: nat, log: Log) {
    log.StatusChanged? && log.status == ACTIVE_EVENT ==> KeccakLog(log) && log.commBlockNumber <= n
  }

  ghost predicate CausalBlock(env: Env, l1: L1Fetcher, block: BlockRef) {
    FetchLogs(env, l1, block).Some? ==>
      forall i :: 0 <= i < |FetchLogs(env, l1, block).value| ==> CausalLog(block.number, FetchLogs(env, l1, block).value[i])
  }

  function Tracked(d: DaValue): seq<Commitment> {
    d.state.expiredCommitments + d.state.commitments
  }

  /** Requests come in inclusion order, and there is no reset. */
  ghost predicate InOrder(env: Env, d: DaValue, floor: nat, step: Step) {
    match step
    case Fetch(l1, _, comm, block) =>
      && comm.WellFormed() && floor <= block.number
      && (forall i :: 0 <= i < |Tracked(d)| ==> Tracked(d)[i].inclusionBlock.number <= block.number)
      && var ref := l1.refByNumber(d.challengeOrigin.number + 1);
         ref.Some? ==> CausalBlock(env, l1, ref.value)
    case Advance(l1, block) => CausalBlock(env, l1, block)
    case Reset(_) => false
    case Finalization(_) => true
  }

  ghost predicate Ordered(cs: seq<Commitment>) {
    forall i, j :: 0 <= i <= j < |cs| ==> cs[i].inclusionBlock.number <= cs[j].inclusionBlock.number
  }

  /** Challenges close no earlier than a resolve window after the inclusion they are about. */
  ghost predicate CausalTable(env: Env, db: Challenges) {
    forall i :: 0 <= i < |db.table| ==>
      && db.table[i].commData.Keccak256Commitment? && db.table[i].commData.WellFormed()
      && db.table[i].resolveWindowEnd >= db.table[i].commInclusionBlockNumber + env.cfg.resolveWindow
  }

  ghost predicate Above(env: Env, cs: seq<Commitment>, floor: nat) {
    AllWellTracked(env, cs) && Ordered(cs) && forall i :: 0 <= i < |cs| ==> floor <= cs[i].inclusionBlock.number
  }

  /** Everything still tracked was included at or after block `floor`. */
  ghost predicate FinalityInv(env: Env, d: DaValue, floor: nat) {
    && CausalTable(env, d.state.db)
    && Above(env, Tracked(d), floor)
  }

  lemma LogCausal(env: Env, db: Challenges, n: nat, log: Log)
    requires CausalTable(env, db) && CausalLog(n, log)
    ensures CausalTable(env, ApplyLog(env, db, n, log))
  {
    hide ChallengeKey;
  }

  lemma {:induction false} LogsCausal(env: Env, db: Challenges, n: nat, logs: seq<Log>)
    requires CausalTable(env, db)
    requires forall i :: 0 <= i < |logs| ==> CausalLog(n, logs[i])
    ensures CausalTable(env, ApplyLogs(env, db, n, logs))
  {
    hide ChallengeKey;
    hide CausalTable;
    hide CausalLog;
    if logs != [] {
      LogsCausal(env, db, n, logs[..|logs| - 1]);
      LogCausal(env, ApplyLogs(env, db, n, logs[..|logs| - 1]), n, logs[|logs| - 1]);
    }
  }

  lemma SyncCausal(env: Env, v: Synced, l1: L1Fetcher, block: BlockRef)
    requires Good(env, v) && CausalTable(env, v.db) && CausalBlock(env, l1, block)
    ensures v.db.Wf()
    ensures SyncTo(env, v, l1, block).Some? ==> CausalTable(env, SyncTo(env, v, l1, block).value.db)
  {
    hide ChallengeKey;
    hide CausalLog;
    hide QueuesSplitAt;
    GoodShape(env, v);
    var logs := FetchLogs(env, l1, block);
    if logs.Some? && block.number > v.origin.number {
      LogsCausal(env, v.db, block.number, logs.value);
      ApplyLogsShape(env, v.db, block.number, logs.value);
      ExpireCausal(env, ApplyLogs(env, v.db, block.number, logs.value), block.number);
    }
  }

  lemma ExpireCausal(env: Env, db: Challenges, n: nat)
    requires db.expired <= |db.table| && CausalTable(env, db)
    ensures CausalTable(env, db.Expire(n))
  {
    hide FirstOpen;
  }

  /** No commitment is due before the margin after its inclusion. */
  lemma DeadlineHasMargin(env: Env, db: Challenges, c: Commitment)
    requires db.Wf() && CausalTable(env, db) && WellTracked(env, c)
    ensures db.Deadline(c) >= c.inclusionBlock.number + Margin(env)
  {
    if c.Key() in db.index {
      var e := db.table[db.index[c.Key()]];
      assert |e.commData.Encode()| == 33 && |c.data.Encode()| == 33;
      ChallengeKeyInjective(e.commData, e.commInclusionBlockNumber, c.data, c.inclusionBlock.number);
    }
    hide ChallengeKey;
  }

  ghost predicate Prunes(d: DaValue, step: Step) {
    step.Finalization? && d.state.db.DuePrefix(d.state.expiredCommitments, step.l1Finalized.number) > 0
  }

  function Floor(d: DaValue, step: Step, floor: nat): nat {
    if step.Finalization? && d.state.db.DuePrefix(d.state.expiredCommitments, step.l1Finalized.number) > 0
    then PruneCommitments(d.state, step.l1Finalized.number).lastPrunedCommitment.number else floor
  }

  lemma DropKeepsAbove(env: Env, cs: seq<Commitment>, floor: nat, k: nat)
    requires Above(env, cs, floor) && k <= |cs|
    ensures Above(env, cs[k..], if k == 0 then floor else cs[k - 1].inclusionBlock.number)
    ensures k > 0 ==> floor <= cs[k - 1].inclusionBlock.number && WellTracked(env, cs[k - 1])
  {
    hide WellTracked;
  }

  lemma PruneCausal(env: Env, db: Challenges, n: nat)
    requires db.Wf() && CausalTable(env, db)
    ensures CausalTable(env, db.Prune(n))
  {
    hide ChallengeKey;
    hide FirstOpen;
  }

  lemma FinalizeBound(env: Env, d: DaValue, f: BlockRef, floor: nat)
    requires d.state.db.Wf() && FinalityInv(env, d, floor)
    ensures FinalityInv(env, Finalize(d, f), Floor(d, Finalization(f), floor))
    ensures Prunes(d, Finalization(f)) ==>
      && floor <= Finalize(d, f).finalizedHead.number
      && Finalize(d, f).finalizedHead.number + Margin(env) <= f.number
  {
    hide ChallengeKey;
    hide WellTracked;
    hide CausalTable;
    hide FirstOpen;
    hide Challenges.Deadline;
    hide AllWellTracked;
    hide Ordered;
    hide Margin;
    var db, cs := d.state.db, d.state.expiredCommitments;
    var k := db.DuePrefix(cs, f.number);
    DropKeepsAbove(env, Tracked(d), floor, k);
    PruneCausal(env, db, f.number);
    assert Tracked(d)[k..] == cs[k..] + d.state.commitments;
    if k > 0 {
      assert Tracked(d)[k - 1] == cs[k - 1];
      DeadlineHasMargin(env, db, cs[k - 1]);
    }
    hide Challenges.DuePrefix;
    hide Challenges.Prune;
  }

  lemma ExpiringKeepsTracked(s: StateValue, n: nat)
    ensures ExpireCommitments(s, n).expiredCommitments + ExpireCommitments(s, n).commitments
         == s.expiredCommitments + s.commitments
  {
    hide Challenges.DuePrefix;
    Rejoined(s.expiredCommitments, s.commitments, s.db.DuePrefix(s.commitments, n));
  }

  lemma Rejoined(a: seq<Commitment>, b: seq<Commitment>, k: nat)
    requires k <= |b|
    ensures (a + b[..k]) + b[k..] == a + b
  {
    assert b[..k] + b[k..] == b;
  }

  lemma AdvanceKeepsTracked(env: Env, d: DaValue, l1: L1Fetcher, block: BlockRef)
    requires Inv(env, d)
    ensures Tracked(Next(env, d, Advance(l1, block))) == Tracked(d)
  {
    hide ChallengeKey;
    hide QueuesSplitAt;
    hide SyncTo;
    hide ReorgRequired;
    hide NoCommitments;
    hide ExpireCommitments;
    GoodShape(env, View(d));
    var v := SyncTo(env, View(d), l1, block);
    if v.Some? {
      ExpiringKeepsTracked(d.state.(db := v.value.db), block.number);
    }
  }

  lemma AdvanceFinality(env: Env, d: DaValue, step: Step, floor: nat)
    requires Inv(env, d) && FinalityInv(env, d, floor) && step.Advance? && InOrder(env, d, floor, step)
    ensures FinalityInv(env, Next(env, d, step), floor)
  {
    hide ChallengeKey;
    hide QueuesSplitAt;
    hide CausalTable;
    hide CausalBlock;
    hide Next;
    hide Tracked;
    hide SyncTo;
    SyncCausal(env, View(d), step.l1, step.block);
    NextView(env, d, step);
    AdvanceKeepsTracked(env, d, step.l1, step.block);
  }

  lemma FetchFinality(env: Env, d: DaValue, step: Step, floor: nat)
    requires env.cfg.commitmentType == Keccak256CommitmentType
    requires Inv(env, d) && FinalityInv(env, d, floor) && step.Fetch? && InOrder(env, d, floor, step)
    ensures FinalityInv(env, Next(env, d, step), floor)
  {
    hide ChallengeKey;
    hide QueuesSplitAt;
    hide CausalTable;
    hide CausalBlock;
    hide Challenges.Lookup;
    GoodShape(env, View(d));
    NextView(env, d, step);
    var ref := step.l1.refByNumber(d.challengeOrigin.number + 1);
    if ref.Some? {
      SyncCausal(env, View(d), step.l1, ref.value);
    }
    hide SyncTo;
    var c := Commitment(step.comm, step.block, step.block.number + env.cfg.challengeWindow);
    var cs := Tracked(Next(env, d, step));
    assert cs == Tracked(d) || cs == Tracked(d) + [c];
  }

  /** Every pruning of a run signals a later inclusion block, far enough behind L1 finality. */
  ghost predicate SignalsAreFinal(env: Env, d: DaValue, steps: seq<Step>, floor: nat)
    requires Inv(env, d)
    decreases |steps|
  {
    steps == [] ||
    (NextKeeps(env, d, steps[0]);
     && (Prunes(d, steps[0]) ==>
          var head := Next(env, d, steps[0]).finalizedHead;
          floor <= head.number && head.number + Margin(env) <= steps[0].l1Finalized.number)
     && SignalsAreFinal(env, Next(env, d, steps[0]), steps[1..], Floor(d, steps[0], floor)))
  }

  ghost predicate OrderedRun(env: Env, d: DaValue, steps: seq<Step>, floor: nat)
    requires Inv(env, d)
    decreases |steps|
  {
    steps == [] ||
    (InOrder(env, d, floor, steps[0]) &&
     (NextKeeps(env, d, steps[0]); OrderedRun(env, Next(env, d, steps[0]), steps[1..], Floor(d, steps[0], floor))))
  }

  lemma NextFinality(env: Env, d: DaValue, step: Step, floor: nat)
    requires env.cfg.commitmentType == Keccak256CommitmentType
    requires Inv(env, d) && FinalityInv(env, d, floor) && InOrder(env, d, floor, step)
    ensures FinalityInv(env, Next(env, d, step), Floor(d, step, floor))
    ensures Prunes(d, step) ==>
      var head := Next(env, d, step).finalizedHead;
      floor <= head.number && head.number + Margin(env) <= step.l1Finalized.number
  {
    hide ChallengeKey;
    hide QueuesSplitAt;
    hide FinalityInv;
    hide AdvanceL1Origin;
    hide GetInput;
    hide Challenges.DuePrefix;
    hide Finalize;
    match step
    case Fetch(_, _, _, _) => FetchFinality(env, d, step, floor);
    case Advance(_, _) => AdvanceFinality(env, d, step, floor);
    case Finalization(f) =>
      GoodShape(env, View(d));
      FinalizeBound(env, d, f, floor);
  }

  lemma {:induction false} FinalitySignals(env: Env, d: DaValue, steps: seq<Step>, floor: nat)
    requires env.cfg.commitmentType == Keccak256CommitmentType
    requires Inv(env, d) && FinalityInv(env, d, floor) && OrderedRun(env, d, steps, floor)
    ensures SignalsAreFinal(env, d, steps, floor)
    decreases |steps|
  {
    hide ChallengeKey;
    hide QueuesSplitAt;
    hide FinalityInv;
    hide InOrder;
    hide Prunes;
    hide Floor;
    if steps != [] {
      NextFinality(env, d, steps[0], floor);
      NextKeeps(env, d, steps[0]);
      hide Next;
      FinalitySignals(env, Next(env, d, steps[0]), steps[1..], Floor(d, steps[0], floor));
    }
  }
}
