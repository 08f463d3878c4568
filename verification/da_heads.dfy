/** The two heads and the pipeline position over whole runs: which block is called final, by either of the
    two calls that say so, and that a reset sends the expiry of commitments back to its base. */
module DaHeads {
  import opened Bytes
  import opened Commitments
  import opened ChallengeState
  import opened DaSpec
  import opened DaRuns
  import opened DaStall
  import opened DaIntegrity
  import opened DaExpiry
  import opened DaFinality

  /** The L1 block of the last Finalization of the run. */
  function LastFinalized(start: BlockRef, steps: seq<Step>): BlockRef
    decreases |steps|
  {
    if steps == [] then start
    else LastFinalized(if steps[0].Finalization? then steps[0].l1Finalized else start, steps[1..])
  }

  /** The highest of them. */
  function Highest(start: nat, steps: seq<Step>): nat
    decreases |steps|
  {
    if steps == [] then start
    else Highest(if steps[0].Finalization? && steps[0].l1Finalized.number > start then steps[0].l1Finalized.number else start, steps[1..])
  }

  /** The fields that only a finalization and the end of an advance write. */
  ghost predicate SameHeads(d: DaValue, d': DaValue) {
    && d'.l1FinalizedHead == d.l1FinalizedHead && d'.finalizedHead == d.finalizedHead
    && d'.state.lastPrunedCommitment == d.state.lastPrunedCommitment
  }

  lemma FetchHeads(env: Env, d: DaValue, l1: L1Fetcher, storage: StorageResult, comm: CommitmentData, block: BlockRef)
    requires Inv(env, d) && d.state.db.Wf()
    ensures SameHeads(d, GetInput(env, d, l1, storage, comm, block).0)
  {
    hide ChallengeKey;
    hide QueuesSplitAt;
    hide SyncTo;
    hide Challenges.StatusOf;
    hide Challenges.Lookup;
  }

  lemma AdvanceHeads(env: Env, d: DaValue, l1: L1Fetcher, block: BlockRef)
    requires Inv(env, d) && d.state.db.Wf()
    ensures var d' := AdvanceL1Origin(env, d, l1, block).0;
            SameHeads(d, d'.(finalizedHead := d.finalizedHead))
  {
    hide ChallengeKey;
    hide QueuesSplitAt;
    hide SyncTo;
    hide ReorgRequired;
    hide NoCommitments;
    hide Challenges.DuePrefix;
  }

  /** What each call does to the heads. */
  lemma NextHeads(env: Env, d: DaValue, step: Step)
    requires Inv(env, d)
    ensures var d' := Next(env, d, step);
            match step
            case Fetch(_, _, _, _) => SameHeads(d, d')
            case Advance(_, _) => SameHeads(d, d'.(finalizedHead := d.finalizedHead))
            case Reset(_) => SameHeads(d, d')
            case Finalization(f) => d'.l1FinalizedHead == f && d'.finalizedHead == d'.state.lastPrunedCommitment
  {
    GoodShape(env, View(d));
    match step
    case Fetch(l1, storage, comm, block) =>
      hide GetInput;
      FetchHeads(env, d, l1, storage, comm, block);
    case Advance(l1, block) =>
      hide AdvanceL1Origin;
      AdvanceHeads(env, d, l1, block);
    case Reset(_) =>
    case Finalization(_) =>
      hide Challenges.Prune;
      hide Challenges.DuePrefix;
  }

  lemma {:induction false} L1HeadIs(env: Env, d: DaValue, steps: seq<Step>)
    requires Inv(env, d)
    ensures Run(env, d, steps).l1FinalizedHead == LastFinalized(d.l1FinalizedHead, steps)
    decreases |steps|
  {
    hide Inv;
    if steps != [] {
      NextHeads(env, d, steps[0]);
      NextKeeps(env, d, steps[0]);
      hide Next;
      L1HeadIs(env, Next(env, d, steps[0]), steps[1..]);
    }
  }

  /** No challenge is in a queue, and no commitment. */
  ghost predicate NothingTracked(d: DaValue) {
    && d.state.db.pruned <= |d.state.db.table| && d.state.db.table[d.state.db.pruned..] == []
    && Tracked(d) == []
  }

  /** An advance at the end of any run: if it succeeds, leaves nothing tracked, and the last L1 block finalized
      in the run is a challenge window or more, then the block a challenge window before that one is called
      final; otherwise the finalized head stays. */
  lemma AdvanceSetsHead(env: Env, d: DaValue, steps: seq<Step>, l1: L1Fetcher, block: BlockRef)
    requires Inv(env, d)
    ensures Run(env, d, steps).state.db.Wf()
    ensures var (m, last) := (Run(env, d, steps), LastFinalized(d.l1FinalizedHead, steps));
            var (m', r) := AdvanceL1Origin(env, m, l1, block);
            if r == Advanced && NothingTracked(m') && last.number >= env.cfg.challengeWindow
            then l1.refByNumber(last.number - env.cfg.challengeWindow) == Some(m'.finalizedHead)
            else m'.finalizedHead == m.finalizedHead
  {
    L1HeadIs(env, d, steps);
    var m := Run(env, d, steps);
    GoodShape(env, View(m));
    hide Inv;
    hide Run;
    hide LastFinalized;
    AdvanceHead(env, m, l1, block);
    hide AdvanceL1Origin;
    hide NothingTracked;
  }

  lemma AdvanceHead(env: Env, d: DaValue, l1: L1Fetcher, block: BlockRef)
    requires Inv(env, d) && d.state.db.Wf()
    ensures var (d', r) := AdvanceL1Origin(env, d, l1, block);
            if r == Advanced && NothingTracked(d') && d.l1FinalizedHead.number >= env.cfg.challengeWindow
            then l1.refByNumber(d.l1FinalizedHead.number - env.cfg.challengeWindow) == Some(d'.finalizedHead)
            else d'.finalizedHead == d.finalizedHead
  {
    hide ChallengeKey;
    hide QueuesSplitAt;
    hide SyncTo;
    SyncToKeeps(env, View(d), l1, block);
    var v := SyncTo(env, View(d), l1, block);
    if v.Some? {
      GoodShape(env, v.value);
      hide Inv;
      var d1 := AdvanceChallengeOrigin(env, d, l1, block).value;
      var (d2, r) := AdvanceCommitmentOrigin(d1, block);
      CommitmentSideHeads(d1, block);
      hide AdvanceChallengeOrigin;
      hide AdvanceCommitmentOrigin;
      NoneIffNothing(d2);
      hide NothingTracked;
      hide NoCommitments;
    }
  }

  lemma CommitmentSideHeads(d: DaValue, block: BlockRef)
    ensures var d' := AdvanceCommitmentOrigin(d, block).0;
            SameHeads(d, d') && d'.state.db == d.state.db
  {
    hide ReorgRequired;
    hide Challenges.DuePrefix;
  }

  lemma NoneIffNothing(d: DaValue)
    requires d.state.db.Wf()
    ensures NoCommitments(d.state) <==> NothingTracked(d)
    ensures forall head :: NothingTracked(d.(finalizedHead := head)) <==> NothingTracked(d)
  {
    hide ChallengeKey;
    assert |d.state.db.table[d.state.db.pruned..]| == |d.state.db.table| - d.state.db.pruned;
    assert |Tracked(d)| == |d.state.expiredCommitments| + |d.state.commitments|;
  }

  /** An advance that calls another block final calls one exactly a challenge window behind L1 finality so. */
  lemma AdvancedHeadIsWindowBehind(env: Env, d: DaValue, steps: seq<Step>, l1: L1Fetcher, block: BlockRef)
    requires Inv(env, d) && Honest(l1)
    ensures Run(env, d, steps).state.db.Wf()
    ensures var (m, last) := (Run(env, d, steps), LastFinalized(d.l1FinalizedHead, steps));
            var head := AdvanceL1Origin(env, m, l1, block).0.finalizedHead;
            head != m.finalizedHead ==> head.number + env.cfg.challengeWindow == last.number
  {
    AdvanceSetsHead(env, d, steps, l1, block);
    hide AdvanceL1Origin;
    hide Run;
    hide Inv;
    hide LastFinalized;
    hide NothingTracked;
  }

  // The bound that both writers of the finalized head keep.

  /** Challenges and tracked commitments have the deadlines that follow from their inclusion. */
  ghost predicate Tame(env: Env, d: DaValue) {
    && CausalTable(env, d.state.db)
    && AllWellTracked(env, d.state.commitments) && AllWellTracked(env, d.state.expiredCommitments)
  }

  /** Requests are well formed, challenges come after inclusion, and L1 answers are numbered truly. */
  ghost predicate Causal(env: Env, d: DaValue, step: Step) {
    match step
    case Fetch(l1, _, comm, _) =>
      && comm.WellFormed()
      && var ref := l1.refByNumber(d.challengeOrigin.number + 1);
         ref.Some? ==> CausalBlock(env, l1, ref.value)
    case Advance(l1, block) => CausalBlock(env, l1, block) && Honest(l1)
    case _ => true
  }

  ghost predicate CausalRun(env: Env, d: DaValue, steps: seq<Step>)
    requires Inv(env, d)
    decreases |steps|
  {
    steps == [] ||
    (Causal(env, d, steps[0]) && (NextKeeps(env, d, steps[0]); CausalRun(env, Next(env, d, steps[0]), steps[1..])))
  }

  lemma FetchTame(env: Env, d: DaValue, step: Step)
    requires env.cfg.commitmentType == Keccak256CommitmentType
    requires Inv(env, d) && Tame(env, d) && step.Fetch? && Causal(env, d, step)
    ensures Tame(env, Next(env, d, step))
  {
    hide ChallengeKey;
    hide QueuesSplitAt;
    hide CausalTable;
    hide CausalBlock;
    hide Challenges.Lookup;
    GoodShape(env, View(d));
    NextView(env, d, step);
    var ref := step.l1.refByNumber(d.challengeOrigin.number + 1);
    if ref.Some? {
      SyncCausal(env, View(d), step.l1, ref.value);
    }
    hide SyncTo;
  }

  lemma AdvanceTame(env: Env, d: DaValue, step: Step)
    requires Inv(env, d) && Tame(env, d) && step.Advance? && Causal(env, d, step)
    ensures Tame(env, Next(env, d, step))
  {
    hide ChallengeKey;
    hide QueuesSplitAt;
    hide CausalTable;
    hide CausalBlock;
    hide WellTracked;
    hide SyncTo;
    hide Next;
    SyncCausal(env, View(d), step.l1, step.block);
    NextView(env, d, step);
    AdvanceKeepsTracked(env, d, step.l1, step.block);
    AllOfTracked(env, d);
    AllOfTracked(env, Next(env, d, step));
    hide AllWellTracked;
  }

  lemma AllOfTracked(env: Env, d: DaValue)
    ensures AllWellTracked(env, Tracked(d)) <==> AllWellTracked(env, d.state.commitments) && AllWellTracked(env, d.state.expiredCommitments)
  {
    hide WellTracked;
    var a, b := d.state.expiredCommitments, d.state.commitments;
    assert forall i :: 0 <= i < |a| ==> (a + b)[i] == a[i];
    assert forall i :: 0 <= i < |b| ==> (a + b)[|a| + i] == b[i];
  }

  lemma NextTame(env: Env, d: DaValue, step: Step)
    requires env.cfg.commitmentType == Keccak256CommitmentType
    requires Inv(env, d) && Tame(env, d) && Causal(env, d, step)
    ensures Tame(env, Next(env, d, step))
  {
    match step
    case Fetch(_, _, _, _) => FetchTame(env, d, step);
    case Advance(_, _) => AdvanceTame(env, d, step);
    case Reset(_) =>
    case Finalization(f) =>
      hide ChallengeKey;
      GoodShape(env, View(d));
      PruneCausal(env, d.state.db, f.number);
      hide CausalTable;
      hide WellTracked;
      hide Challenges.DuePrefix;
      hide Challenges.Prune;
  }

  /** `ref` is an old reference or lies the margin behind block `n`. */
  ghost predicate MarginBehind(env: Env, initial: set<BlockRef>, ref: BlockRef, n: nat) {
    ref in initial || ref.number + Margin(env) <= n
  }

  ghost predicate HeadsBehind(env: Env, initial: set<BlockRef>, d: DaValue, n: nat) {
    && d.l1FinalizedHead.number <= n
    && MarginBehind(env, initial, d.finalizedHead, n) && MarginBehind(env, initial, d.state.lastPrunedCommitment, n)
  }

  function Max(a: nat, b: nat): nat {
    if a >= b then a else b
  }

  lemma PruningIsBehind(env: Env, initial: set<BlockRef>, d: DaValue, f: BlockRef, n: nat)
    requires d.state.db.Wf() && Tame(env, d) && HeadsBehind(env, initial, d, n)
    ensures MarginBehind(env, initial, Finalize(d, f).state.lastPrunedCommitment, Max(n, f.number))
  {
    hide ChallengeKey;
    hide WellTracked;
    hide CausalTable;
    hide Challenges.Deadline;
    hide Margin;
    var cs, k := d.state.expiredCommitments, d.state.db.DuePrefix(d.state.expiredCommitments, f.number);
    if k > 0 {
      assert d.state.db.Deadline(cs[k - 1]) <= f.number;
      DeadlineHasMargin(env, d.state.db, cs[k - 1]);
    }
    hide Challenges.DuePrefix;
    hide Challenges.Prune;
  }

  lemma NextBehind(env: Env, initial: set<BlockRef>, d: DaValue, step: Step, n: nat)
    requires Inv(env, d) && Tame(env, d) && HeadsBehind(env, initial, d, n) && Causal(env, d, step)
    ensures HeadsBehind(env, initial, Next(env, d, step), if step.Finalization? then Max(n, step.l1Finalized.number) else n)
  {
    NextHeads(env, d, step);
    match step
    case Fetch(_, _, _, _) =>
      hide Next;
    case Advance(l1, block) =>
      AdvancedHeadIsWindowBehind(env, d, [], l1, block);
      assert Run(env, d, []) == d && LastFinalized(d.l1FinalizedHead, []) == d.l1FinalizedHead;
      hide Run;
      hide AdvanceL1Origin;
      hide Tame;
      hide Inv;
    case Reset(_) =>
    case Finalization(f) =>
      GoodShape(env, View(d));
      PruningIsBehind(env, initial, d, f, n);
      hide Finalize;
      hide Tame;
      hide Inv;
  }

  /** Over any run with resets, finalizations and advances in any order: whatever is called final, by pruning or
      for want of commitments, lies the smaller of the two windows behind the highest L1 block finalized. */
  lemma {:induction false} HeadsStayBehind(env: Env, initial: set<BlockRef>, d: DaValue, steps: seq<Step>, n: nat)
    requires env.cfg.commitmentType == Keccak256CommitmentType
    requires Inv(env, d) && Tame(env, d) && HeadsBehind(env, initial, d, n) && CausalRun(env, d, steps)
    ensures HeadsBehind(env, initial, Run(env, d, steps), Highest(n, steps))
    decreases |steps|
  {
    hide Inv;
    hide Tame;
    hide Causal;
    hide HeadsBehind;
    if steps != [] {
      NextBehind(env, initial, d, steps[0], n);
      NextTame(env, d, steps[0]);
      NextKeeps(env, d, steps[0]);
      hide Next;
      HeadsStayBehind(env, initial, Next(env, d, steps[0]), steps[1..],
                      if steps[0].Finalization? then Max(n, steps[0].l1Finalized.number) else n);
    }
  }

  /** The head of a new manager is unset until a block is called final, and none is too early. */
  lemma HeadIsBehindFinality(env: Env, steps: seq<Step>)
    requires env.cfg.commitmentType == Keccak256CommitmentType
    ensures Inv(env, NewDa)
    ensures CausalRun(env, NewDa, steps) ==>
              var head := Run(env, NewDa, steps).finalizedHead;
              head == BlockRef(0, 0) || head.number + Margin(env) <= Highest(0, steps)
  {
    assert Inv(env, NewDa) && Tame(env, NewDa);
    hide Inv;
    hide Tame;
    hide Margin;
    if CausalRun(env, NewDa, steps) {
      HeadsStayBehind(env, {BlockRef(0, 0)}, NewDa, steps, 0);
    }
    hide Run;
    hide CausalRun;
    hide Highest;
  }

  // A finalization signals the last commitment pruned, however long ago.

  /** The inclusion block of the commitment pruned last. */
  ghost function LastPruned(env: Env, start: BlockRef, d: DaValue, steps: seq<Step>): BlockRef
    requires Inv(env, d)
    decreases |steps|
  {
    if steps == [] then start
    else
      NextKeeps(env, d, steps[0]);
      var d' := Next(env, d, steps[0]);
      var k := |d.state.expiredCommitments| - |d'.state.expiredCommitments|;
      LastPruned(env, if steps[0].Finalization? && 0 < k <= |d.state.expiredCommitments| then d.state.expiredCommitments[k - 1].inclusionBlock else start,
                 d', steps[1..])
  }

  lemma FinalizationPrunes(env: Env, d: DaValue, f: BlockRef)
    requires d.state.db.Wf()
    ensures var d', cs := Finalize(d, f), d.state.expiredCommitments;
            var k := |cs| - |d'.state.expiredCommitments|;
            && 0 <= k <= |cs| && d'.state.expiredCommitments == cs[k..]
            && d'.state.lastPrunedCommitment == (if k > 0 then cs[k - 1].inclusionBlock else d.state.lastPrunedCommitment)
  {
    hide Challenges.Prune;
    hide Challenges.DuePrefix;
  }

  lemma StepRemembers(env: Env, d: DaValue, step: Step)
    requires Inv(env, d)
    ensures var d', cs := Next(env, d, step), d.state.expiredCommitments;
            var k := |cs| - |d'.state.expiredCommitments|;
            && d'.state.lastPrunedCommitment
               == (if step.Finalization? && 0 < k <= |cs| then cs[k - 1].inclusionBlock else d.state.lastPrunedCommitment)
            && (step.Finalization? ==> d'.finalizedHead == d'.state.lastPrunedCommitment)
  {
    NextHeads(env, d, step);
    if step.Finalization? {
      assert d.state.db.Wf() by { GoodShape(env, View(d)); }
      FinalizationPrunes(env, d, step.l1Finalized);
      hide Inv;
      hide Finalize;
    } else {
      hide *;
    }
  }

  /** After any run, resets included, the state remembers exactly that block, and each finalization signals it. */
  lemma {:induction false} RemembersLastPruned(env: Env, d: DaValue, steps: seq<Step>)
    requires Inv(env, d)
    ensures Run(env, d, steps).state.lastPrunedCommitment == LastPruned(env, d.state.lastPrunedCommitment, d, steps)
    ensures steps != [] && steps[|steps| - 1].Finalization? ==>
              Run(env, d, steps).finalizedHead == LastPruned(env, d.state.lastPrunedCommitment, d, steps)
    decreases |steps|
  {
    hide Inv;
    hide Next;
    if steps != [] {
      StepRemembers(env, d, steps[0]);
      NextKeeps(env, d, steps[0]);
      RemembersLastPruned(env, Next(env, d, steps[0]), steps[1..]);
      assert |steps| > 1 ==> steps[1..][|steps| - 2] == steps[|steps| - 1];
    }
  }

  /** A finalization takes the finalized head back exactly if the last commitment that it prunes, or the one
      pruned last if it prunes none, was included before the head. */
  lemma FinalizationGoesBackIff(d: DaValue, f: BlockRef)
    requires d.state.db.Wf()
    ensures var k := d.state.db.DuePrefix(d.state.expiredCommitments, f.number);
            var last := if k > 0 then d.state.expiredCommitments[k - 1].inclusionBlock else d.state.lastPrunedCommitment;
            Finalize(d, f).finalizedHead.number < d.finalizedHead.number <==> last.number < d.finalizedHead.number
  {
    hide Challenges.DuePrefix;
    hide Challenges.Prune;
  }

  /** It does come about: with nothing to track, an advance calls a block final, and the next finalization takes
      the head back to the unset one. */
  lemma HeadGoesBack(env: Env, l1: L1Fetcher, first: BlockRef, block: BlockRef, second: BlockRef, head: BlockRef)
    requires first.number >= env.cfg.challengeWindow && 0 < block.number && FetchLogs(env, l1, block) == Some([])
    requires l1.refByNumber(first.number - env.cfg.challengeWindow) == Some(head)
    ensures Inv(env, NewDa)
    ensures Run(env, NewDa, [Finalization(first), Advance(l1, block)]).finalizedHead == head
    ensures Run(env, NewDa, [Finalization(first), Advance(l1, block), Finalization(second)]).finalizedHead == BlockRef(0, 0)
  {
    HeadGoesBackFrom(env, NewDa, l1, first, block, second, head);
    hide *;
  }

  lemma HeadGoesBackFrom(env: Env, d: DaValue, l1: L1Fetcher, first: BlockRef, block: BlockRef, second: BlockRef, head: BlockRef)
    requires d.state == EmptyState && d.challengeOrigin.number < block.number && d.commitmentOrigin.number < block.number
    requires first.number >= env.cfg.challengeWindow && FetchLogs(env, l1, block) == Some([])
    requires l1.refByNumber(first.number - env.cfg.challengeWindow) == Some(head)
    ensures Inv(env, d)
    ensures Run(env, d, [Finalization(first), Advance(l1, block)]).finalizedHead == head
    ensures Run(env, d, [Finalization(first), Advance(l1, block), Finalization(second)]).finalizedHead == BlockRef(0, 0)
  {
    hide *;
    var d1 := d.(l1FinalizedHead := first, finalizedHead := BlockRef(0, 0));
    var d2 := d1.(challengeOrigin := block, commitmentOrigin := block, finalizedHead := head);
    FinalizesNothing(env, d, first);
    AdvancesNothing(env, d1, l1, block, head);
    FinalizesNothing(env, d2, second);
    ThreeSteps(env, d, Finalization(first), Advance(l1, block), Finalization(second));
  }

  lemma ThreeSteps(env: Env, d: DaValue, f: Step, a: Step, g: Step)
    requires Inv(env, d)
    ensures var d1 := Next(env, d, f);
            && Inv(env, d1) && Run(env, d, [f, a]) == Next(env, d1, a)
            && Inv(env, Next(env, d1, a)) && Run(env, d, [f, a, g]) == Next(env, Next(env, d1, a), g)
  {
    hide *;
    var d1 := Next(env, d, f);
    assert [f, a] == [f] + [a] && [f, a, g] == [f] + [a, g] && [a, g] == [a] + [g] && [a] == [a] + [] && [g] == [g] + [];
    OneStep(env, d, f, [a]);
    OneStep(env, d, f, [a, g]);
    OneStep(env, d1, a, []);
    OneStep(env, d1, a, [g]);
    OneStep(env, Next(env, d1, a), g, []);
    NoStep(env, Next(env, d1, a));
    NextKeeps(env, Next(env, d1, a), g);
    NoStep(env, Next(env, Next(env, d1, a), g));
  }

  lemma OneStep(env: Env, d: DaValue, s: Step, rest: seq<Step>)
    requires Inv(env, d)
    ensures Inv(env, Next(env, d, s)) && Run(env, d, [s] + rest) == Run(env, Next(env, d, s), rest)
  {
    NextKeeps(env, d, s);
    hide Inv;
    hide Next;
    assert ([s] + rest)[1..] == rest;
  }

  lemma NoStep(env: Env, d: DaValue)
    requires Inv(env, d)
    ensures Run(env, d, []) == d
  {
    hide Inv;
    hide Next;
  }

  lemma FinalizesNothing(env: Env, d: DaValue, f: BlockRef)
    requires d.state == EmptyState
    ensures Inv(env, d) && Next(env, d, Finalization(f)) == d.(l1FinalizedHead := f, finalizedHead := BlockRef(0, 0))
  {
    assert NoChallenges.table[..0] == [] && NoChallenges.table[0..0] == [];
    assert FirstOpen([], 0, f.number) == 0;
    assert NoChallenges.Prune(f.number) == NoChallenges;
    assert EmptyState.expiredCommitments[0..] == [];
  }

  lemma AdvancesNothing(env: Env, d: DaValue, l1: L1Fetcher, block: BlockRef, head: BlockRef)
    requires d.state == EmptyState && d.challengeOrigin.number < block.number && d.commitmentOrigin.number < block.number
    requires FetchLogs(env, l1, block) == Some([])
    requires d.l1FinalizedHead.number >= env.cfg.challengeWindow
    requires l1.refByNumber(d.l1FinalizedHead.number - env.cfg.challengeWindow) == Some(head)
    ensures Inv(env, d)
    ensures Next(env, d, Advance(l1, block)) == d.(challengeOrigin := block, commitmentOrigin := block, finalizedHead := head)
  {
    hide *;
    EmptyInv(env, d);
    var d1 := d.(challengeOrigin := block);
    var d2 := d1.(commitmentOrigin := block);
    SyncsNothing(env, d, l1, block);
    ExpiresNothing(d1, block);
    SetsHead(env, d2, l1, head);
    AdvancesThrough(env, d, l1, block, d1, d2, d2.(finalizedHead := head));
  }

  lemma AdvancesThrough(env: Env, d: DaValue, l1: L1Fetcher, block: BlockRef, d1: DaValue, d2: DaValue, d3: DaValue)
    requires Inv(env, d) && d.state.db.expired <= |d.state.db.table| && AdvanceChallengeOrigin(env, d, l1, block) == Some(d1)
    requires AdvanceCommitmentOrigin(d1, block) == (d2, Advanced) && NoCommitments(d2.state)
    requires UpdateFinalizedFromL1(env, d2, l1) == (d3, Advanced)
    ensures Next(env, d, Advance(l1, block)) == d3
  {
    hide Inv;
    hide AdvanceChallengeOrigin;
    hide AdvanceCommitmentOrigin;
    hide UpdateFinalizedFromL1;
    hide NoCommitments;
  }

  lemma EmptyInv(env: Env, d: DaValue)
    requires d.state == EmptyState
    ensures Inv(env, d) && NoCommitments(d.state) && d.state.db.expired <= |d.state.db.table|
  {
  }

  lemma SetsHead(env: Env, d: DaValue, l1: L1Fetcher, head: BlockRef)
    requires d.l1FinalizedHead.number >= env.cfg.challengeWindow
    requires l1.refByNumber(d.l1FinalizedHead.number - env.cfg.challengeWindow) == Some(head)
    ensures UpdateFinalizedFromL1(env, d, l1) == (d.(finalizedHead := head), Advanced)
  {
  }

  lemma SyncsNothing(env: Env, d: DaValue, l1: L1Fetcher, block: BlockRef)
    requires d.state == EmptyState && d.challengeOrigin.number < block.number && FetchLogs(env, l1, block) == Some([])
    ensures AdvanceChallengeOrigin(env, d, l1, block) == Some(d.(challengeOrigin := block))
  {
    hide FetchLogs;
    assert ApplyLogs(env, NoChallenges, block.number, []) == NoChallenges;
    assert FirstOpen([], 0, block.number) == 0;
    assert MarkExpired([], 0, 0) == [];
    assert ApplyBlock(env, NoChallenges, block.number, []) == NoChallenges;
    hide ApplyBlock;
  }

  lemma ExpiresNothing(d: DaValue, block: BlockRef)
    requires d.state == EmptyState && d.commitmentOrigin.number < block.number
    ensures AdvanceCommitmentOrigin(d, block) == (d.(commitmentOrigin := block), Advanced)
  {
    assert EmptyState.commitments[0..] == [] && EmptyState.commitments[..0] == [];
    assert ExpireCommitments(EmptyState, block.number) == EmptyState && !ReorgRequired(EmptyState, block.number);
  }
}
