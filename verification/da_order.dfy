/** Expired commitments in the data source's order of calls: a commitment is requested only once the
    manager has advanced to its block.  They stay settled exactly when the resolve window, or one
    block, is at least as long as the challenge window. */
module DaOrder {
  import opened Bytes
  import opened Commitments
  import opened ChallengeState
  import opened DaSpec
  import opened DaRuns
  import opened DaIntegrity
  import opened DaExpiry
  import opened DaFinality
  import opened DaWindows

  /** The data source advances to a block, successfully, before it asks for an input of that block. */
  ghost predicate InOrderOfCalls(d: DaValue, step: Step) {
    step.Fetch? ==> step.block.number <= d.commitmentOrigin.number
  }

  ghost predicate CallersRun(env: Env, d: DaValue, steps: seq<Step>)
    requires Inv(env, d)
    decreases |steps|
  {
    steps == [] ||
    (InWindow(env, d, steps[0]) && InOrderOfCalls(d, steps[0]) &&
     (NextKeeps(env, d, steps[0]); CallersRun(env, Next(env, d, steps[0]), steps[1..])))
  }

  /** What a successful advance establishes for the requests that follow it. */
  lemma AdvanceAllowsRequests(env: Env, d: DaValue, l1: L1Fetcher, block: BlockRef, storage: StorageResult, comm: CommitmentData)
    requires Inv(env, d) && d.state.db.Wf() && AdvanceL1Origin(env, d, l1, block).1 == Advanced
    ensures InOrderOfCalls(AdvanceL1Origin(env, d, l1, block).0, Fetch(l1, storage, comm, block))
  {
    hide AdvanceChallengeOrigin;
    hide ReorgRequired;
    hide ExpireCommitments;
    hide NoCommitments;
  }

  lemma NextKeepsBehind(env: Env, d: DaValue, step: Step)
    requires Inv(env, d) && Behind(d) && InOrderOfCalls(d, step)
    ensures Behind(Next(env, d, step))
  {
    hide ChallengeKey;
    hide QueuesSplitAt;
    hide SyncTo;
    hide ReorgRequired;
    hide NoCommitments;
    hide Challenges.DuePrefix;
    hide Challenges.Prune;
    GoodShape(env, View(d));
  }

  /** In this order a challenge window of one block is over before anything can expire. */
  lemma {:induction false} CallersRunKeepsExpiredResolved(env: Env, d: DaValue, steps: seq<Step>)
    requires env.cfg.commitmentType == Keccak256CommitmentType
    requires env.cfg.resolveWindow >= env.cfg.challengeWindow || env.cfg.challengeWindow <= 1
    requires Inv(env, d) && ExpiredArePast(env, d) && Behind(d) && CallersRun(env, d, steps)
    ensures ExpiredArePast(env, Run(env, d, steps)) && ExpiredAreResolved(Run(env, d, steps))
    decreases |steps|
  {
    hide ChallengeKey;
    hide QueuesSplitAt;
    hide InWindow;
    hide InOrderOfCalls;
    if steps != [] {
      hide ExpiredArePast;
      NextKeepsPast(env, d, steps[0]);
      NextKeepsBehind(env, d, steps[0]);
      NextKeeps(env, d, steps[0]);
      hide Next;
      hide Behind;
      CallersRunKeepsExpiredResolved(env, Next(env, d, steps[0]), steps[1..]);
    }
  }

  /** Block 1 is advanced to and its commitment requested.  The challenge is opened and resolved in block
      1, or, when the resolve window is empty, in block 2. */
  ghost function CallersReopeningRun(env: Env): seq<Step> {
    var l1, at := Witness(env, FirstAt(env)), FirstAt(env);
    [Advance(l1, BlockRef(1, 1)), Fetch(l1, Found(INPUT), Comm(env), BlockRef(1, 1)),
     Advance(l1, BlockRef(2, at + env.cfg.resolveWindow)), Advance(l1, BlockRef(3, at + env.cfg.resolveWindow + 1))]
  }

  function FirstAt(env: Env): nat {
    if env.cfg.resolveWindow == 0 then 2 else 1
  }

  function Requesting(env: Env, waiting: seq<Commitment>): DaValue {
    After(env, BlockRef(1, 1), if env.cfg.resolveWindow == 0 then NoChallenges else OneResolved(env, 1, 0), waiting, [])
  }

  function Expiring(env: Env): DaValue {
    After(env, BlockRef(2, FirstAt(env) + env.cfg.resolveWindow), OneResolved(env, FirstAt(env), 1), [], [Requested(env)])
  }

  lemma AdvanceToRequest(env: Env)
    requires env.cfg.commitmentType == Keccak256CommitmentType && env.cfg.challengeWindow > 0
    ensures AdvanceL1Origin(env, NewDa, Witness(env, FirstAt(env)), BlockRef(1, 1)) == (Requesting(env, []), Advanced)
  {
    var l1, block := Witness(env, FirstAt(env)), BlockRef(1, 1);
    WitnessLogs(env, FirstAt(env), block);
    hide FetchLogs;
    if env.cfg.resolveWindow > 0 {
      hide AdvanceL1Origin;
      FirstBlock(env, 1);
      ResolvedStep(env, BlockRef(0, 0), NoChallenges, false, l1, block, 1, 0);
    } else {
      assert ApplyBlock(env, NoChallenges, 1, []) == NoChallenges by {
        assert ApplyLogs(env, NoChallenges, 1, []) == NoChallenges;
        assert MarkExpired([], 0, 0) == [];
      }
      hide ApplyBlock;
      NothingDue(EmptyState, 1);
      hide ReorgRequired;
      hide ExpireCommitments;
    }
  }

  lemma AdvanceToDeadline(env: Env)
    requires env.cfg.commitmentType == Keccak256CommitmentType
    ensures Requesting(env, [Requested(env)]).state.db.Wf()
    ensures AdvanceL1Origin(env, Requesting(env, [Requested(env)]), Witness(env, FirstAt(env)),
                            BlockRef(2, FirstAt(env) + env.cfg.resolveWindow))
         == (Expiring(env), Advanced)
  {
    hide ChallengeKey;
    var d, at := Requesting(env, [Requested(env)]), FirstAt(env);
    var l1, block := Witness(env, at), BlockRef(2, at + env.cfg.resolveWindow);
    hide AdvanceL1Origin;
    WitnessLogs(env, at, block);
    hide FetchLogs;
    if env.cfg.resolveWindow > 0 {
      QuietBlock(env, 1, block.number);
    } else {
      FirstBlock(env, 2);
    }
    hide ApplyBlock;
    ResolvedStep(env, BlockRef(1, 1), d.state.db, true, l1, block, at, 1);
  }

  lemma CallersStates(env: Env)
    requires env.cfg.commitmentType == Keccak256CommitmentType && env.cfg.challengeWindow > 0
    ensures var steps := CallersReopeningRun(env);
            var d1, d2, d3 := Requesting(env, []), Requesting(env, [Requested(env)]), Expiring(env);
            && Inv(env, NewDa) && Next(env, NewDa, steps[0]) == d1
            && Inv(env, d1) && Next(env, d1, steps[1]) == d2
            && Inv(env, d2) && Next(env, d2, steps[2]) == d3 && Inv(env, d3)
  {
    var steps := CallersReopeningRun(env);
    hide AdvanceL1Origin;
    hide GetInput;
    hide ChallengeKey;
    assert Inv(env, NewDa);
    hide Inv;
    AdvanceToRequest(env);
    NextKeeps(env, NewDa, steps[0]);
    RequestStep(env, BlockRef(1, 1), Requesting(env, []).state.db, Witness(env, FirstAt(env)));
    hide Witness;
    NextKeeps(env, Requesting(env, []), steps[1]);
    AdvanceToDeadline(env);
    NextKeeps(env, Requesting(env, [Requested(env)]), steps[2]);
  }

  /** One request, of a block that the manager has reached, among advances. */
  lemma {:induction false} CallersRunOfFour(env: Env, steps: seq<Step>, d1: DaValue, d2: DaValue, d3: DaValue)
    requires |steps| == 4 && Inv(env, NewDa) && Next(env, NewDa, steps[0]) == d1
    requires Inv(env, d1) && Next(env, d1, steps[1]) == d2
    requires Inv(env, d2) && Next(env, d2, steps[2]) == d3 && Inv(env, d3)
    requires InWindow(env, NewDa, steps[0]) && InWindow(env, d1, steps[1]) && InWindow(env, d2, steps[2]) && InWindow(env, d3, steps[3])
    requires InOrderOfCalls(NewDa, steps[0]) && InOrderOfCalls(d1, steps[1]) && InOrderOfCalls(d2, steps[2]) && InOrderOfCalls(d3, steps[3])
    ensures CallersRun(env, NewDa, steps)
  {
    hide Inv;
    hide Next;
    hide InWindow;
    hide InOrderOfCalls;
    var s1, s2, s3 := steps[1..], steps[2..], steps[3..];
    assert s1[1..] == s2 && s2[1..] == s3 && s3[1..] == [];
    NextKeeps(env, d3, steps[3]);
    assert CallersRun(env, d3, s3);
    assert CallersRun(env, d2, s2);
    assert CallersRun(env, d1, s1);
  }

  lemma CallersStepsAllowed(env: Env)
    requires env.cfg.commitmentType == Keccak256CommitmentType && |env.keccak(INPUT)| == 32
    requires env.cfg.resolveWindow < env.cfg.challengeWindow && env.cfg.challengeWindow > 1
    ensures var steps := CallersReopeningRun(env);
            var d1, d2, d3 := Requesting(env, []), Requesting(env, [Requested(env)]), Expiring(env);
            && InWindow(env, NewDa, steps[0]) && InWindow(env, d1, steps[1]) && InWindow(env, d2, steps[2]) && InWindow(env, d3, steps[3])
            && InOrderOfCalls(NewDa, steps[0]) && InOrderOfCalls(d1, steps[1]) && InOrderOfCalls(d2, steps[2]) && InOrderOfCalls(d3, steps[3])
  {
    hide InWindow;
    hide Witness;
    var steps, at := CallersReopeningRun(env), FirstAt(env);
    WitnessIsInWindow(env, at, NewDa, steps[0]);
    WitnessIsInWindow(env, at, Requesting(env, []), steps[1]);
    WitnessIsInWindow(env, at, Requesting(env, [Requested(env)]), steps[2]);
    WitnessIsInWindow(env, at, Expiring(env), steps[3]);
  }

  lemma CallersLastStep(env: Env)
    requires env.cfg.commitmentType == Keccak256CommitmentType && Inv(env, Expiring(env))
    requires env.cfg.resolveWindow < env.cfg.challengeWindow && env.cfg.challengeWindow > 1
    ensures var d := Next(env, Expiring(env), CallersReopeningRun(env)[3]);
            !d.resetting && !ExpiredAreResolved(d)
  {
    var d, at := Expiring(env), FirstAt(env);
    ReopeningStep(env, d, d.challengeOrigin, at, at, at + env.cfg.resolveWindow + 1);
    hide AdvanceL1Origin;
    hide ExpiredAreResolved;
    hide Witness;
    hide Inv;
  }

  /** With a challenge window of two blocks or more that is longer than the resolve window, the run ends
      with an expired commitment whose indexed challenge is not resolved, in the caller's order too. */
  lemma CallersRunBreaks(env: Env)
    requires env.cfg.commitmentType == Keccak256CommitmentType && |env.keccak(INPUT)| == 32
    requires env.cfg.resolveWindow < env.cfg.challengeWindow && env.cfg.challengeWindow > 1
    ensures Inv(env, NewDa) && CallersRun(env, NewDa, CallersReopeningRun(env))
    ensures !Run(env, NewDa, CallersReopeningRun(env)).resetting
    ensures !ExpiredAreResolved(Run(env, NewDa, CallersReopeningRun(env)))
  {
    var steps := CallersReopeningRun(env);
    assert |steps| == 4;
    hide *;
    var d1, d2, d3 := Requesting(env, []), Requesting(env, [Requested(env)]), Expiring(env);
    CallersStates(env);
    CallersStepsAllowed(env);
    CallersLastStep(env);
    RunOfFour(env, steps, d1, d2, d3);
    CallersRunOfFour(env, steps, d1, d2, d3);
  }

  /** For a given configuration: every run of a new manager in the data source's order keeps its expired
      commitments settled, if and only if the challenge window is no longer than the resolve window or
      than one block. */
  lemma CallersKeepExpiredResolvedIff(env: Env)
    requires env.cfg.commitmentType == Keccak256CommitmentType && |env.keccak(INPUT)| == 32
    ensures Inv(env, NewDa)
    ensures env.cfg.challengeWindow <= env.cfg.resolveWindow || env.cfg.challengeWindow <= 1
        <==> forall steps: seq<Step> :: CallersRun(env, NewDa, steps) ==> ExpiredAreResolved(Run(env, NewDa, steps))
  {
    assert Inv(env, NewDa) && ExpiredArePast(env, NewDa) && Behind(NewDa);
    hide Inv;
    hide ExpiredArePast;
    hide ExpiredAreResolved;
    hide Behind;
    hide Run;
    hide CallersRun;
    if env.cfg.challengeWindow <= env.cfg.resolveWindow || env.cfg.challengeWindow <= 1 {
      forall steps: seq<Step> | CallersRun(env, NewDa, steps)
        ensures ExpiredAreResolved(Run(env, NewDa, steps))
      {
        CallersRunKeepsExpiredResolved(env, NewDa, steps);
      }
    } else {
      CallersRunBreaks(env);
    }
  }
}
