/** When expired commitments stay settled although a key may be challenged again: exactly when the
    resolve window is at least as long as the challenge window. */
module DaWindows {
  import opened Bytes
  import opened Commitments
  import opened ChallengeState
  import opened DaSpec
  import opened DaRuns
  import opened DaIntegrity
  import opened DaExpiry
  import opened DaFinality

  /** The contract's side: a challenge is opened for a keccak commitment, from its inclusion to the end
      of its challenge window, and possibly more than once. */
  ghost predicate InWindowLog(env: Env, n: nat, log: Log) {
    log.StatusChanged? && log.status == ACTIVE_EVENT ==>
      KeccakLog(log) && log.commBlockNumber <= n <= log.commBlockNumber + env.cfg.challengeWindow
  }

  ghost predicate InWindowBlock(env: Env, l1: L1Fetcher, block: BlockRef) {
    FetchLogs(env, l1, block).Some? ==>
      forall i :: 0 <= i < |FetchLogs(env, l1, block).value| ==> InWindowLog(env, block.number, FetchLogs(env, l1, block).value[i])
  }

  ghost predicate InWindow(env: Env, d: DaValue, step: Step) {
    match step
    case Fetch(l1, _, comm, _) =>
      && comm.WellFormed()
      && var ref := l1.refByNumber(d.challengeOrigin.number + 1);
         ref.Some? ==> InWindowBlock(env, l1, ref.value)
    case Advance(l1, block) => InWindowBlock(env, l1, block)
    case _ => true
  }

  ghost predicate InWindowRun(env: Env, d: DaValue, steps: seq<Step>)
    requires Inv(env, d)
    decreases |steps|
  {
    steps == [] ||
    (InWindow(env, d, steps[0]) && (NextKeeps(env, d, steps[0]); InWindowRun(env, Next(env, d, steps[0]), steps[1..])))
  }

  /** Unless a reset is due, no expired commitment has an indexed challenge that is not resolved. */
  ghost predicate ExpiredAreResolved(d: DaValue) {
    !d.resetting ==> forall i :: 0 <= i < |d.state.expiredCommitments| ==>
      !d.state.db.ChallengedUnresolved(d.state.expiredCommitments[i])
  }

  /** The challenge window of `c` is over, and `c` is not challenged or its challenge was resolved. */
  ghost predicate Past(db: Challenges, n: nat, c: Commitment) {
    c.challengeWindowEnd <= n && !db.ChallengedUnresolved(c)
  }

  ghost predicate AllPast(db: Challenges, n: nat, cs: seq<Commitment>) {
    forall i :: 0 <= i < |cs| ==> Past(db, n, cs[i])
  }

  ghost predicate ExpiredArePast(env: Env, d: DaValue) {
    && CausalTable(env, d.state.db)
    && AllWellTracked(env, d.state.commitments)
    && AllWellTracked(env, d.state.expiredCommitments)
    && (!d.resetting ==> AllPast(d.state.db, d.challengeOrigin.number, d.state.expiredCommitments))
  }

  lemma LogKeepsPast(env: Env, db: Challenges, n: nat, block: nat, log: Log, c: Commitment)
    requires n < block && db.Wf() && InWindowLog(env, block, log)
    requires WellTracked(env, c) && Past(db, n, c)
    ensures Past(ApplyLog(env, db, block, log), n, c)
  {
    if log.StatusChanged? && log.status == ACTIVE_EVENT {
      assert |c.data.Encode()| == 33 && |log.comm.Encode()| == 33;
      ChallengeKeyInjective(c.data, c.inclusionBlock.number, log.comm, log.commBlockNumber);
    }
    hide ChallengeKey;
  }

  lemma {:induction false} LogsKeepPast(env: Env, db: Challenges, n: nat, block: nat, logs: seq<Log>, c: Commitment)
    requires n < block && QueuesSplitAt(env, db, n, block) && WellTracked(env, c) && Past(db, n, c)
    requires forall i :: 0 <= i < |logs| ==> InWindowLog(env, block, logs[i])
    ensures Past(ApplyLogs(env, db, block, logs), n, c)
  {
    hide ChallengeKey;
    hide WellTracked;
    hide Past;
    hide InWindowLog;
    hide QueuesSplitAt;
    if logs != [] {
      var mid := ApplyLogs(env, db, block, logs[..|logs| - 1]);
      LogsKeepPast(env, db, n, block, logs[..|logs| - 1], c);
      ApplyLogsKeeps(env, db, n, block, logs[..|logs| - 1]);
      SplitShape(env, mid, n, block);
      LogKeepsPast(env, mid, n, block, logs[|logs| - 1], c);
    }
  }

  lemma ExpireKeepsPast(db: Challenges, n: nat, block: nat, c: Commitment)
    requires db.Wf() && n <= block && Past(db, n, c)
    ensures Past(db.Expire(block), block, c)
  {
    hide ChallengeKey;
    hide FirstOpen;
  }

  lemma SyncKeepsPast(env: Env, v: Synced, l1: L1Fetcher, block: BlockRef, cs: seq<Commitment>)
    requires Good(env, v) && AllWellTracked(env, cs) && AllPast(v.db, v.origin.number, cs) && InWindowBlock(env, l1, block)
    ensures v.db.Wf()
    ensures var r := SyncTo(env, v, l1, block);
            r.Some? ==> AllPast(r.value.db, r.value.origin.number, cs)
  {
    hide ChallengeKey;
    hide WellTracked;
    hide Past;
    hide InWindowLog;
    GoodShape(env, v);
    hide QueuesSplitAt;
    var logs := FetchLogs(env, l1, block);
    if logs.Some? && block.number > v.origin.number {
      Widen(env, v.db, v.origin.number, v.origin.number, block.number);
      ApplyLogsKeeps(env, v.db, v.origin.number, block.number, logs.value);
      var mid := ApplyLogs(env, v.db, block.number, logs.value);
      SplitShape(env, mid, v.origin.number, block.number);
      hide ApplyLogs;
      forall i | 0 <= i < |cs|
        ensures Past(mid.Expire(block.number), block.number, cs[i])
      {
        LogsKeepPast(env, v.db, v.origin.number, block.number, logs.value, cs[i]);
        ExpireKeepsPast(mid, v.origin.number, block.number, cs[i]);
      }
    }
  }

  lemma InWindowIsCausal(env: Env, l1: L1Fetcher, block: BlockRef)
    requires InWindowBlock(env, l1, block)
    ensures CausalBlock(env, l1, block)
  {
  }

  /** Only commitments of blocks at or before the commitment origin await their deadline. */
  ghost predicate Behind(d: DaValue) {
    forall i :: 0 <= i < |d.state.commitments| ==> d.state.commitments[i].inclusionBlock.number <= d.commitmentOrigin.number
  }

  /** Nothing can expire before its challenge window ends: no deadline comes earlier, or the window is
      over in the first block that can expire it. */
  ghost predicate ExpiresLate(env: Env, d: DaValue) {
    env.cfg.resolveWindow >= env.cfg.challengeWindow || (env.cfg.challengeWindow <= 1 && Behind(d))
  }

  /** What expires without a reorg has its challenge window behind it. */
  lemma ExpiringIsPast(env: Env, d: DaValue, n: nat)
    requires ExpiresLate(env, d) && d.commitmentOrigin.number < n
    requires n <= d.challengeOrigin.number && d.state.db.Wf() && !ReorgRequired(d.state, n)
    requires CausalTable(env, d.state.db) && AllWellTracked(env, d.state.commitments)
    ensures var k := d.state.db.DuePrefix(d.state.commitments, n);
            AllPast(d.state.db, d.challengeOrigin.number, d.state.commitments[..k])
  {
    hide ChallengeKey;
    hide Challenges.Deadline;
    var db, cs := d.state.db, d.state.commitments;
    forall i | 0 <= i < db.DuePrefix(cs, n)
      ensures Past(db, d.challengeOrigin.number, cs[i])
    {
      assert db.Deadline(cs[i]) <= n && !db.ChallengedUnresolved(cs[i]);
      DeadlineHasMargin(env, db, cs[i]);
    }
  }

  lemma CommitmentOriginKeepsPast(env: Env, d: DaValue, block: BlockRef)
    requires ExpiresLate(env, d)
    requires d.state.db.Wf() && ExpiredArePast(env, d) && block.number <= d.challengeOrigin.number
    ensures ExpiredArePast(env, AdvanceCommitmentOrigin(d, block).0)
  {
    hide ChallengeKey;
    hide CausalTable;
    if block.number > d.commitmentOrigin.number && !ReorgRequired(d.state, block.number) {
      ExpiringIsPast(env, d, block.number);
    }
    hide WellTracked;
    hide Past;
    hide ReorgRequired;
    hide Challenges.DuePrefix;
  }

  lemma FetchKeepsPast(env: Env, d: DaValue, step: Step)
    requires env.cfg.commitmentType == Keccak256CommitmentType
    requires Inv(env, d) && ExpiredArePast(env, d) && step.Fetch? && InWindow(env, d, step)
    ensures ExpiredArePast(env, Next(env, d, step))
  {
    hide ChallengeKey;
    hide QueuesSplitAt;
    hide Past;
    hide InWindowBlock;
    hide CausalTable;
    GoodShape(env, View(d));
    var ref := step.l1.refByNumber(d.challengeOrigin.number + 1);
    if ref.Some? {
      InWindowIsCausal(env, step.l1, ref.value);
      SyncCausal(env, View(d), step.l1, ref.value);
      if !d.resetting {
        SyncKeepsPast(env, View(d), step.l1, ref.value, d.state.expiredCommitments);
      }
    }
    hide SyncTo;
    hide AllPast;
    hide CausalBlock;
    hide Challenges.Lookup;
  }

  lemma AdvanceKeepsPast(env: Env, d: DaValue, step: Step)
    requires ExpiresLate(env, d)
    requires Inv(env, d) && ExpiredArePast(env, d) && step.Advance? && InWindow(env, d, step)
    ensures ExpiredArePast(env, Next(env, d, step))
  {
    hide ChallengeKey;
    hide QueuesSplitAt;
    hide AllPast;
    hide AllWellTracked;
    hide InWindowBlock;
    hide CausalTable;
    hide CausalBlock;
    GoodShape(env, View(d));
    SyncToKeeps(env, View(d), step.l1, step.block);
    InWindowIsCausal(env, step.l1, step.block);
    SyncCausal(env, View(d), step.l1, step.block);
    if !d.resetting {
      SyncKeepsPast(env, View(d), step.l1, step.block, d.state.expiredCommitments);
    }
    var v := SyncTo(env, View(d), step.l1, step.block);
    if v.Some? {
      hide SyncTo;
      GoodShape(env, v.value);
      var d1 := d.(challengeOrigin := v.value.origin, state := d.state.(db := v.value.db));
      assert AdvanceChallengeOrigin(env, d, step.l1, step.block) == Some(d1);
      CommitmentOriginKeepsPast(env, d1, step.block);
      hide AdvanceCommitmentOrigin;
    }
  }

  lemma PruneKeepsPast(env: Env, d: DaValue, f: BlockRef)
    requires d.state.db.Wf() && ExpiredArePast(env, d)
    ensures ExpiredArePast(env, Finalize(d, f))
  {
    hide ChallengeKey;
    hide WellTracked;
    hide Challenges.DuePrefix;
    hide FirstOpen;
    PruneCausal(env, d.state.db, f.number);
    hide CausalTable;
  }

  lemma NextKeepsPast(env: Env, d: DaValue, step: Step)
    requires env.cfg.commitmentType == Keccak256CommitmentType && ExpiresLate(env, d)
    requires Inv(env, d) && ExpiredArePast(env, d) && InWindow(env, d, step)
    ensures ExpiredArePast(env, Next(env, d, step))
  {
    hide ChallengeKey;
    hide QueuesSplitAt;
    hide AdvanceL1Origin;
    hide GetInput;
    hide Finalize;
    match step
    case Fetch(_, _, _, _) => FetchKeepsPast(env, d, step);
    case Advance(_, _) => AdvanceKeepsPast(env, d, step);
    case Reset(_) =>
    case Finalization(f) =>
      GoodShape(env, View(d));
      PruneKeepsPast(env, d, f);
  }

  /** With nested windows the expired commitments stay settled over every run, however often a key is
      challenged within its window. */
  lemma {:induction false} NestedWindowsKeepExpiredResolved(env: Env, d: DaValue, steps: seq<Step>)
    requires env.cfg.commitmentType == Keccak256CommitmentType && env.cfg.resolveWindow >= env.cfg.challengeWindow
    requires Inv(env, d) && ExpiredArePast(env, d) && InWindowRun(env, d, steps)
    ensures ExpiredArePast(env, Run(env, d, steps)) && ExpiredAreResolved(Run(env, d, steps))
    decreases |steps|
  {
    hide ChallengeKey;
    hide QueuesSplitAt;
    hide InWindow;
    if steps != [] {
      hide ExpiredArePast;
      NextKeepsPast(env, d, steps[0]);
      NextKeeps(env, d, steps[0]);
      hide Next;
      NestedWindowsKeepExpiredResolved(env, Next(env, d, steps[0]), steps[1..]);
    }
  }

  // The runs that break it when the challenge window is longer.  A commitment of block 1 is requested,
  // and challenged and resolved in one block; its deadline passes a resolve window later; and in the
  // block after that, still within the challenge window, it is challenged again.

  const INPUT: seq<byte> := [0]

  function Comm(env: Env): CommitmentData {
    Keccak256Commitment(env.keccak(INPUT))
  }

  function Opening(env: Env): Log {
    StatusChanged(ACTIVE_EVENT, Comm(env), 1, TxUnavailable)
  }

  function Resolving(env: Env): Log {
    StatusChanged(RESOLVED_EVENT, Comm(env), 1, Calldata(INPUT))
  }

  /** The block with hash `first` challenges and resolves, the one with hash 3 challenges again. */
  ghost function Witness(env: Env, first: nat): L1Fetcher {
    L1Fetcher(n => None,
              h => Some(if h == first then [Opening(env), Resolving(env)] else if h == 3 then [Opening(env)] else []))
  }

  lemma WitnessLogs(env: Env, first: nat, block: BlockRef)
    requires env.cfg.commitmentType == Keccak256CommitmentType && first != 3
    ensures FetchLogs(env, Witness(env, first), block) ==
            Some(if block.hash == first then [Opening(env), Resolving(env)] else if block.hash == 3 then [Opening(env)] else [])
  {
  }

  function Requested(env: Env): Commitment {
    Commitment(Comm(env), BlockRef(1, 1), 1 + env.cfg.challengeWindow)
  }

  /** The challenge opened and resolved in block `at`. */
  function ResolvedEntry(env: Env, at: nat): ChallengeValue {
    ChallengeValue(Comm(env), 1, at + env.cfg.resolveWindow, INPUT, Resolved)
  }

  /** The one resolved challenge, of which the first `expired` have expired. */
  function OneResolved(env: Env, at: nat, expired: nat): Challenges {
    Challenges([ResolvedEntry(env, at)], 0, expired, map[ChallengeKey(Comm(env), 1) := 0])
  }

  lemma FirstBlock(env: Env, at: nat)
    requires env.cfg.commitmentType == Keccak256CommitmentType
    ensures ApplyBlock(env, NoChallenges, at, [Opening(env), Resolving(env)])
         == OneResolved(env, at, if env.cfg.resolveWindow == 0 then 1 else 0)
  {
    hide ChallengeKey;
    var logs := [Opening(env), Resolving(env)];
    assert logs[..1] == [Opening(env)] && logs[..1][..0] == [];
    assert ApplyLogs(env, NoChallenges, at, logs[..1][..0]) == NoChallenges;
    assert ApplyLogs(env, NoChallenges, at, logs[..1]) == NoChallenges.Create(Comm(env), 1, at + env.cfg.resolveWindow);
    assert ApplyLogs(env, NoChallenges, at, logs) == OneResolved(env, at, 0);
    hide ApplyLogs;
    OneExpires(env, at, 0, at);
  }

  lemma OneExpires(env: Env, at: nat, e: nat, n: nat)
    requires e <= 1
    ensures OneResolved(env, at, e).Expire(n) == OneResolved(env, at, if at + env.cfg.resolveWindow <= n then 1 else e)
  {
    hide ChallengeKey;
    var db := OneResolved(env, at, e);
    assert |db.table| == 1;
    assert FirstOpen(db.table, 1, n) == 1;
    var to := FirstOpen(db.table, e, n);
    assert to == if at + env.cfg.resolveWindow <= n then 1 else e;
    hide FirstOpen;
    assert MarkExpired(db.table, e, to) == db.table;
  }

  /** A block without logs. */
  lemma QuietBlock(env: Env, at: nat, n: nat)
    ensures ApplyBlock(env, OneResolved(env, at, 0), n, []) == OneResolved(env, at, if at + env.cfg.resolveWindow <= n then 1 else 0)
  {
    assert ApplyLogs(env, OneResolved(env, at, 0), n, []) == OneResolved(env, at, 0);
    OneExpires(env, at, 0, n);
  }

  /** The commitment is due when the resolve window ends, and not unresolved. */
  lemma RequestedIsDue(env: Env, s: StateValue, at: nat, e: nat, n: nat)
    requires s.commitments == [Requested(env)] && s.db == OneResolved(env, at, e)
    ensures s.db.DuePrefix(s.commitments, n) == if at + env.cfg.resolveWindow <= n then 1 else 0
    ensures !ReorgRequired(s, n)
  {
    hide ChallengeKey;
    assert s.commitments[1..] == [];
    assert !s.db.ChallengedUnresolved(s.commitments[0]);
  }

  function After(env: Env, origin: BlockRef, db: Challenges, waiting: seq<Commitment>, expired: seq<Commitment>): DaValue {
    DaValue(origin, origin, BlockRef(0, 0), BlockRef(0, 0), false, StateValue(waiting, expired, db, BlockRef(0, 0)))
  }

  lemma RequestStep(env: Env, origin: BlockRef, db: Challenges, l1: L1Fetcher)
    requires env.cfg.commitmentType == Keccak256CommitmentType && db.expired <= |db.table|
    requires db == NoChallenges || db == OneResolved(env, 1, 0)
    ensures GetInput(env, After(env, origin, db, [], []), l1, Found(INPUT), Comm(env), BlockRef(1, 1))
         == (After(env, origin, db, [Requested(env)], []), Data(INPUT))
  {
    hide ChallengeKey;
    assert [] + [Requested(env)] == [Requested(env)];
  }

  /** An advance after which the table holds the one resolved challenge. */
  lemma ResolvedStep(env: Env, origin: BlockRef, db: Challenges, requested: bool, l1: L1Fetcher, block: BlockRef, at: nat, e: nat)
    requires db.expired <= |db.table| && origin.number < block.number && FetchLogs(env, l1, block).Some?
    requires ApplyBlock(env, db, block.number, FetchLogs(env, l1, block).value) == OneResolved(env, at, e)
    ensures var due := requested && at + env.cfg.resolveWindow <= block.number;
            var before := After(env, origin, db, if requested then [Requested(env)] else [], []);
            AdvanceL1Origin(env, before, l1, block)
            == (After(env, block, OneResolved(env, at, e), if requested && !due then [Requested(env)] else [],
                      if due then [Requested(env)] else []), Advanced)
  {
    hide ChallengeKey;
    hide ApplyBlock;
    hide FetchLogs;
    hide ReorgRequired;
    hide Challenges.DuePrefix;
    var c := Requested(env);
    assert [c][1..] == [] && [] + [c][..1] == [c] && [c][0..] == [c] && [] + [c][..0] == [];
    var s := StateValue(if requested then [c] else [], [], OneResolved(env, at, e), BlockRef(0, 0));
    if requested {
      RequestedIsDue(env, s, at, e, block.number);
    } else {
      NothingDue(s, block.number);
    }
  }

  lemma NothingDue(s: StateValue, n: nat)
    requires s.commitments == []
    ensures !ReorgRequired(s, n) && ExpireCommitments(s, n) == s
  {
    assert s.expiredCommitments + [] == s.expiredCommitments;
  }

  /** The rest of an advance once the challenges are synced, if nothing waits and something expired. */
  lemma SyncedStep(env: Env, d: DaValue, l1: L1Fetcher, block: BlockRef, d1: DaValue)
    requires d.state.db.expired <= |d.state.db.table| && AdvanceChallengeOrigin(env, d, l1, block) == Some(d1)
    requires d1.state.commitments == [] && d1.state.expiredCommitments != [] && d1.commitmentOrigin.number < block.number
    ensures AdvanceL1Origin(env, d, l1, block) == (d1.(commitmentOrigin := block), Advanced)
  {
    hide AdvanceChallengeOrigin;
    hide ExpireCommitments;
    hide ReorgRequired;
    NothingDue(d1.state, block.number);
    var d2 := d1.(commitmentOrigin := block);
    assert AdvanceCommitmentOrigin(d1, block) == (d2, Advanced);
    assert !NoCommitments(d2.state);
    hide AdvanceCommitmentOrigin;
    hide NoCommitments;
  }

  /** Once the commitment has expired as resolved, the second challenge leaves it unresolved. */
  lemma ReopeningStep(env: Env, d: DaValue, origin: BlockRef, at: nat, first: nat, n: nat)
    requires env.cfg.commitmentType == Keccak256CommitmentType && first != 3
    requires d == After(env, origin, OneResolved(env, at, 1), [], [Requested(env)])
    requires origin.number < n <= 1 + env.cfg.challengeWindow
    ensures d.state.db.Wf()
    ensures var (d', r) := AdvanceL1Origin(env, d, Witness(env, first), BlockRef(3, n));
            r == Advanced && !d'.resetting && !ExpiredAreResolved(d')
  {
    hide ChallengeKey;
    hide ApplyBlock;
    var l1, block := Witness(env, first), BlockRef(3, n);
    WitnessLogs(env, first, block);
    hide FetchLogs;
    SecondChallengeReopens(env, d, l1, block, Requested(env));
    var d1 := AdvanceChallengeOrigin(env, d, l1, block).value;
    SyncedStep(env, d, l1, block, d1);
    assert d1.state.expiredCommitments[0] == Requested(env);
    hide AdvanceL1Origin;
    hide AdvanceChallengeOrigin;
    hide Challenges.ChallengedUnresolved;
  }

  // The request comes first: the run for any order of the calls.

  function Last(env: Env): nat {
    2 + env.cfg.resolveWindow
  }

  ghost function ReopeningRun(env: Env): seq<Step> {
    [Fetch(Witness(env, 1), Found(INPUT), Comm(env), BlockRef(1, 1)), Advance(Witness(env, 1), BlockRef(1, 1)),
     Advance(Witness(env, 1), BlockRef(2, Last(env) - 1)), Advance(Witness(env, 1), BlockRef(3, Last(env)))]
  }

  function AfterRequest(env: Env): DaValue {
    After(env, BlockRef(0, 0), NoChallenges, [Requested(env)], [])
  }

  function AfterFirst(env: Env): DaValue {
    if env.cfg.resolveWindow == 0 then After(env, BlockRef(1, 1), OneResolved(env, 1, 1), [], [Requested(env)])
    else After(env, BlockRef(1, 1), OneResolved(env, 1, 0), [Requested(env)], [])
  }

  function AfterDeadline(env: Env): DaValue {
    After(env, if env.cfg.resolveWindow == 0 then BlockRef(1, 1) else BlockRef(2, Last(env) - 1),
          OneResolved(env, 1, 1), [], [Requested(env)])
  }

  lemma FirstStep(env: Env)
    requires env.cfg.commitmentType == Keccak256CommitmentType
    ensures AdvanceL1Origin(env, AfterRequest(env), Witness(env, 1), BlockRef(1, 1)) == (AfterFirst(env), Advanced)
  {
    hide AdvanceL1Origin;
    FirstBlock(env, 1);
    WitnessLogs(env, 1, BlockRef(1, 1));
    hide FetchLogs;
    ResolvedStep(env, BlockRef(0, 0), NoChallenges, true, Witness(env, 1), BlockRef(1, 1), 1,
                 if env.cfg.resolveWindow == 0 then 1 else 0);
  }

  lemma DeadlineStep(env: Env)
    requires env.cfg.commitmentType == Keccak256CommitmentType
    ensures AfterFirst(env).state.db.Wf()
    ensures AdvanceL1Origin(env, AfterFirst(env), Witness(env, 1), BlockRef(2, Last(env) - 1)) == (AfterDeadline(env), Advanced)
  {
    hide ChallengeKey;
    hide ReorgRequired;
    hide ExpireCommitments;
    hide ApplyBlock;
    var block := BlockRef(2, Last(env) - 1);
    WitnessLogs(env, 1, block);
    hide FetchLogs;
    if env.cfg.resolveWindow > 0 {
      hide AdvanceL1Origin;
      QuietBlock(env, 1, block.number);
      ResolvedStep(env, BlockRef(1, 1), OneResolved(env, 1, 0), true, Witness(env, 1), block, 1, 1);
    }
  }

  lemma RunOfFour(env: Env, steps: seq<Step>, d1: DaValue, d2: DaValue, d3: DaValue)
    requires |steps| == 4 && Inv(env, NewDa) && Next(env, NewDa, steps[0]) == d1
    requires Inv(env, d1) && Next(env, d1, steps[1]) == d2
    requires Inv(env, d2) && Next(env, d2, steps[2]) == d3 && Inv(env, d3)
    ensures Run(env, NewDa, steps) == Next(env, d3, steps[3])
    ensures InWindowRun(env, NewDa, steps)
        <==> InWindow(env, NewDa, steps[0]) && InWindow(env, d1, steps[1]) && InWindow(env, d2, steps[2]) && InWindow(env, d3, steps[3])
  {
    hide Inv;
    hide Next;
    hide InWindow;
    var s1, s2, s3 := steps[1..], steps[2..], steps[3..];
    assert s1[1..] == s2 && s2[1..] == s3 && s3[1..] == [];
    NextKeeps(env, d3, steps[3]);
    assert Run(env, d3, s3) == Run(env, Next(env, d3, steps[3]), []) == Next(env, d3, steps[3]);
    assert Run(env, d2, s2) == Run(env, d3, s3);
    assert Run(env, d1, s1) == Run(env, d2, s2);
    assert InWindowRun(env, d3, s3) == InWindow(env, d3, steps[3]);
    assert InWindowRun(env, d2, s2) == (InWindow(env, d2, steps[2]) && InWindowRun(env, d3, s3));
    assert InWindowRun(env, d1, s1) == (InWindow(env, d1, steps[1]) && InWindowRun(env, d2, s2));
  }

  /** Every challenge of the witness comes within its window, whatever the state. */
  lemma WitnessIsInWindow(env: Env, first: nat, d: DaValue, step: Step)
    requires env.cfg.commitmentType == Keccak256CommitmentType && |env.keccak(INPUT)| == 32 && first != 3
    requires match step
             case Fetch(l1, _, comm, _) => l1 == Witness(env, first) && comm == Comm(env)
             case Advance(l1, block) => l1 == Witness(env, first) && 1 <= block.number <= 1 + env.cfg.challengeWindow
             case _ => false
    ensures InWindow(env, d, step)
  {
    if step.Advance? {
      WitnessLogs(env, first, step.block);
    }
    hide FetchLogs;
  }

  lemma ReopeningStates(env: Env)
    requires env.cfg.commitmentType == Keccak256CommitmentType
    ensures var steps := ReopeningRun(env);
            && Inv(env, NewDa) && Next(env, NewDa, steps[0]) == AfterRequest(env)
            && Inv(env, AfterRequest(env)) && Next(env, AfterRequest(env), steps[1]) == AfterFirst(env)
            && Inv(env, AfterFirst(env)) && Next(env, AfterFirst(env), steps[2]) == AfterDeadline(env)
            && Inv(env, AfterDeadline(env))
            && AfterDeadline(env).state.db.expired <= |AfterDeadline(env).state.db.table|
            && Next(env, AfterDeadline(env), steps[3]) == AdvanceL1Origin(env, AfterDeadline(env), Witness(env, 1), BlockRef(3, Last(env))).0
  {
    var steps := ReopeningRun(env);
    hide AdvanceL1Origin;
    hide GetInput;
    hide ChallengeKey;
    assert Inv(env, NewDa);
    hide Inv;
    RequestStep(env, BlockRef(0, 0), NoChallenges, Witness(env, 1));
    NextKeeps(env, NewDa, steps[0]);
    FirstStep(env);
    hide Witness;
    NextKeeps(env, AfterRequest(env), steps[1]);
    DeadlineStep(env);
    NextKeeps(env, AfterFirst(env), steps[2]);
  }

  /** With a challenge window longer than the resolve window, this run of a new manager ends with an
      expired commitment whose indexed challenge is not resolved, although all three advances succeed,
      no reorg is required, and every challenge comes within its window. */
  lemma ReopeningRunBreaks(env: Env)
    requires env.cfg.commitmentType == Keccak256CommitmentType && |env.keccak(INPUT)| == 32
    requires env.cfg.resolveWindow < env.cfg.challengeWindow
    ensures Inv(env, NewDa) && InWindowRun(env, NewDa, ReopeningRun(env))
    ensures !Run(env, NewDa, ReopeningRun(env)).resetting && !ExpiredAreResolved(Run(env, NewDa, ReopeningRun(env)))
  {
    var steps := ReopeningRun(env);
    ReopeningStates(env);
    WitnessIsInWindow(env, 1, NewDa, steps[0]);
    WitnessIsInWindow(env, 1, AfterRequest(env), steps[1]);
    WitnessIsInWindow(env, 1, AfterFirst(env), steps[2]);
    WitnessIsInWindow(env, 1, AfterDeadline(env), steps[3]);
    ReopeningStep(env, AfterDeadline(env), AfterDeadline(env).challengeOrigin, 1, 1, Last(env));
    RunOfFour(env, steps, AfterRequest(env), AfterFirst(env), AfterDeadline(env));
    assert |steps| == 4;
    hide *;
  }

  /** For a given configuration: whatever keys are challenged within their windows, and however often,
      every run of a new manager keeps its expired commitments settled, if and only if the resolve
      window is at least as long as the challenge window. */
  lemma ExpiredStayResolvedIffWindowsNest(env: Env)
    requires env.cfg.commitmentType == Keccak256CommitmentType && |env.keccak(INPUT)| == 32
    ensures Inv(env, NewDa)
    ensures env.cfg.resolveWindow >= env.cfg.challengeWindow
        <==> forall steps: seq<Step> :: InWindowRun(env, NewDa, steps) ==> ExpiredAreResolved(Run(env, NewDa, steps))
  {
    assert Inv(env, NewDa) && ExpiredArePast(env, NewDa);
    hide Inv;
    hide ExpiredArePast;
    hide ExpiredAreResolved;
    hide Run;
    hide InWindowRun;
    if env.cfg.resolveWindow >= env.cfg.challengeWindow {
      forall steps: seq<Step> | InWindowRun(env, NewDa, steps)
        ensures ExpiredAreResolved(Run(env, NewDa, steps))
      {
        NestedWindowsKeepExpiredResolved(env, NewDa, steps);
      }
    } else {
      ReopeningRunBreaks(env);
    }
  }
}
