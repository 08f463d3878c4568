/** One challenge never causes reorg after reorg: between two full resets every challenge is to
    blame for at most one ErrReorgRequired, so there are at most as many reorgs as challenges. */
module DaReorg {
  import opened Bytes
  import opened Commitments
  import opened ChallengeState
  import opened DaSpec
  import opened DaRuns

  /** Table positions of the unresolved challenges that make expiring at block n require a reorg. */
  ghost function Blamed(s: StateValue, n: nat): set<nat> {
    set i | 0 <= i < s.db.DuePrefix(s.commitments, n) && s.db.ChallengedUnresolved(s.commitments[i])
      :: s.db.index[s.commitments[i].Key()]
  }

  ghost function BlamedBy(env: Env, d: DaValue, step: Step): set<nat>
    requires Inv(env, d)
  {
    GoodShape(env, View(d));
    if !step.Advance? then {}
    else match AdvanceChallengeOrigin(env, d, step.l1, step.block)
      case None => {}
      case Some(d1) =>
        if step.block.number <= d1.commitmentOrigin.number then {} else Blamed(d1.state, step.block.number)
  }

  ghost predicate Reorgs(env: Env, d: DaValue, step: Step)
    requires Inv(env, d)
  {
    GoodShape(env, View(d));
    step.Advance? && AdvanceL1Origin(env, d, step.l1, step.block).1 == ErrReorgRequired
  }

  lemma ReorgHasBlame(env: Env, d: DaValue, step: Step)
    requires Inv(env, d)
    ensures Reorgs(env, d, step) <==> BlamedBy(env, d, step) != {}
    ensures step.Advance? && Reorgs(env, d, step) ==> Next(env, d, step).resetting
  {
    hide ChallengeKey;
    hide QueuesSplitAt;
    hide SyncTo;
    hide Challenges.DuePrefix;
    hide Challenges.Lookup;
    GoodShape(env, View(d));
    if step.Advance? {
      var r := AdvanceChallengeOrigin(env, d, step.l1, step.block);
      if r.Some? {
        BlamedIffRequired(r.value.state, step.block.number);
      }
    }
    hide ReorgRequired;
    hide Blamed;
  }

  lemma BlamedIffRequired(s: StateValue, n: nat)
    ensures ReorgRequired(s, n) <==> Blamed(s, n) != {}
  {
    hide ChallengeKey;
    if ReorgRequired(s, n) {
      var i :| 0 <= i < s.db.DuePrefix(s.commitments, n) && s.db.ChallengedUnresolved(s.commitments[i]);
      assert s.db.index[s.commitments[i].Key()] in Blamed(s, n);
    }
  }

  /** The driver resets right after a reorg is required, and a full reset ends the run. */
  ghost predicate Allowed(d: DaValue, step: Step) {
    if d.resetting then step.Reset? || step.Finalization? else !step.Reset?
  }

  ghost predicate Disciplined(env: Env, d: DaValue, steps: seq<Step>)
    requires Inv(env, d)
    decreases |steps|
  {
    steps == [] ||
    (Allowed(d, steps[0]) && (NextKeeps(env, d, steps[0]); Disciplined(env, Next(env, d, steps[0]), steps[1..])))
  }

  /** How the challenges may develop without a full reset. */
  ghost predicate Grows(db: Challenges, db': Challenges) {
    && |db.table| <= |db'.table|
    && (forall i :: 0 <= i < |db.table| ==>
         && (db.table[i].status != Active ==> db'.table[i].status != Active)
         && (db.table[i].status == Resolved ==> db'.table[i].status == Resolved))
    && (forall k :: k in db'.index ==> db'.index[k] >= |db.table| || (k in db.index && db.index[k] == db'.index[k]))
  }

  lemma GrowsTransitive(a: Challenges, b: Challenges, c: Challenges)
    requires Grows(a, b) && Grows(b, c)
    ensures Grows(a, c)
  {
  }

  lemma {:induction false} LogsGrow(env: Env, db: Challenges, n: nat, logs: seq<Log>)
    ensures Grows(db, ApplyLogs(env, db, n, logs))
  {
    hide ChallengeKey;
    if logs != [] {
      LogsGrow(env, db, n, logs[..|logs| - 1]);
      var mid := ApplyLogs(env, db, n, logs[..|logs| - 1]);
      assert Grows(mid, ApplyLog(env, mid, n, logs[|logs| - 1]));
      GrowsTransitive(db, mid, ApplyLogs(env, db, n, logs));
    }
  }

  lemma SyncGrows(env: Env, v: Synced, l1: L1Fetcher, block: BlockRef)
    requires Good(env, v)
    ensures v.db.Wf()
    ensures SyncTo(env, v, l1, block).Some? ==> Grows(v.db, SyncTo(env, v, l1, block).value.db)
  {
    GoodShape(env, v);
    hide ChallengeKey;
    hide QueuesSplitAt;
    var logs := FetchLogs(env, l1, block);
    if logs.Some? {
      var mid := ApplyLogs(env, v.db, block.number, logs.value);
      LogsGrow(env, v.db, block.number, logs.value);
      ApplyLogsShape(env, v.db, block.number, logs.value);
      assert Grows(mid, mid.Expire(block.number));
      GrowsTransitive(v.db, mid, mid.Expire(block.number));
    }
  }

  /** The challenges in `blamed` are settled: none is active, and unless a reset is due no tracked
      commitment depends on one that is not resolved. */
  ghost predicate Settled(d: DaValue, blamed: set<nat>) {
    && (forall i :: i in blamed ==> i < |d.state.db.table| && d.state.db.table[i].status != Active)
    && (!d.resetting ==> ClearOf(d.state.db, d.state.commitments, blamed))
  }

  ghost predicate ClearOf(db: Challenges, cs: seq<Commitment>, blamed: set<nat>) {
    forall i :: 0 <= i < |cs| && cs[i].Key() in db.index && db.index[cs[i].Key()] in blamed ==>
      db.index[cs[i].Key()] < |db.table| && db.table[db.index[cs[i].Key()]].status == Resolved
  }

  lemma GrowthKeepsSettled(db: Challenges, db': Challenges, cs: seq<Commitment>, blamed: set<nat>)
    requires Grows(db, db')
    requires forall i :: i in blamed ==> i < |db.table| && db.table[i].status != Active
    ensures forall i :: i in blamed ==> i < |db'.table| && db'.table[i].status != Active
    ensures ClearOf(db, cs, blamed) ==> ClearOf(db', cs, blamed)
  {
    hide ChallengeKey;
  }

  lemma TrackingKeepsClear(env: Env, d: DaValue, comm: CommitmentData, block: BlockRef, blamed: set<nat>)
    requires Inv(env, d) && Settled(d, blamed) && !d.resetting
    requires d.state.db.StatusOf(ChallengeKey(comm, block.number)) != Expired
    ensures ClearOf(d.state.db, TrackCommitment(d.state, env.cfg, comm, block).commitments, blamed)
  {
    hide ChallengeKey;
  }

  lemma FetchSettled(env: Env, d: DaValue, step: Step, blamed: set<nat>)
    requires Inv(env, d) && step.Fetch? && Settled(d, blamed) && Allowed(d, step)
    ensures Settled(Next(env, d, step), blamed)
    ensures Grows(d.state.db, Next(env, d, step).state.db)
  {
    hide ChallengeKey;
    hide QueuesSplitAt;
    hide ClearOf;
    hide Grows;
    hide ApplyBlock;
    hide Challenges.Lookup;
    GoodShape(env, View(d));
    assert Grows(d.state.db, d.state.db) by {
      GrowsReflexive(d.state.db);
    }
    var key := ChallengeKey(step.comm, step.block.number);
    if d.state.db.StatusOf(key) != Expired {
      TrackingKeepsClear(env, d, step.comm, step.block, blamed);
    }
    hide Challenges.StatusOf;
    var ref := step.l1.refByNumber(d.challengeOrigin.number + 1);
    if ref.Some? {
      SyncGrows(env, View(d), step.l1, ref.value);
      var v := SyncTo(env, View(d), step.l1, ref.value);
      if v.Some? {
        GrowthKeepsSettled(d.state.db, v.value.db, TrackCommitment(d.state, env.cfg, step.comm, step.block).commitments, blamed);
      }
    }
  }

  lemma GrowsReflexive(db: Challenges)
    ensures Grows(db, db)
  {
  }

  /** A challenge whose window is over when a commitment expires is not active any more. */
  lemma BlamedAreSettled(env: Env, d: DaValue, n: nat)
    requires Inv(env, d) && n <= d.challengeOrigin.number
    ensures forall i :: i in Blamed(d.state, n) ==>
              && i < |d.state.db.table|
              && d.state.db.table[i].status != Active && d.state.db.table[i].status != Resolved
  {
    hide ChallengeKey;
    var db, cs := d.state.db, d.state.commitments;
    forall i | i in Blamed(d.state, n)
      ensures i < |db.table| && db.table[i].status != Active && db.table[i].status != Resolved
    {
      var p :| 0 <= p < db.DuePrefix(cs, n) && db.ChallengedUnresolved(cs[p]) && i == db.index[cs[p].Key()];
      assert db.Deadline(cs[p]) <= n;
    }
  }

  /** Nothing that was blamed before is blamed again. */
  lemma BlamedAreNew(env: Env, d: DaValue, n: nat, blamed: set<nat>)
    requires Inv(env, d) && n <= d.challengeOrigin.number && ClearOf(d.state.db, d.state.commitments, blamed)
    ensures Blamed(d.state, n) !! blamed
  {
    BlamedAreSettled(env, d, n);
    hide ChallengeKey;
    hide QueuesSplitAt;
    var db, cs := d.state.db, d.state.commitments;
    forall i | i in Blamed(d.state, n)
      ensures i !in blamed
    {
      var p :| 0 <= p < db.DuePrefix(cs, n) && db.ChallengedUnresolved(cs[p]) && i == db.index[cs[p].Key()];
    }
  }

  lemma CommitmentsAdvance(env: Env, d: DaValue, block: BlockRef, blamed: set<nat>)
    requires Inv(env, d) && Settled(d, blamed) && !d.resetting && block.number <= d.challengeOrigin.number
    ensures var added := if block.number <= d.commitmentOrigin.number then {} else Blamed(d.state, block.number);
            added !! blamed && Settled(AdvanceCommitmentOrigin(d, block).0, blamed + added)
  {
    BlamedAreSettled(env, d, block.number);
    BlamedAreNew(env, d, block.number, blamed);
    BlamedIffRequired(d.state, block.number);
    hide ChallengeKey;
    hide QueuesSplitAt;
    hide Blamed;
    hide ReorgRequired;
    hide Challenges.DuePrefix;
  }

  lemma AdvanceSettled(env: Env, d: DaValue, step: Step, blamed: set<nat>)
    requires Inv(env, d) && step.Advance? && Settled(d, blamed) && Allowed(d, step)
    ensures BlamedBy(env, d, step) !! blamed
    ensures Settled(Next(env, d, step), blamed + BlamedBy(env, d, step))
    ensures Grows(d.state.db, Next(env, d, step).state.db)
  {
    hide ChallengeKey;
    hide QueuesSplitAt;
    hide Grows;
    hide Blamed;
    hide ClearOf;
    hide ReorgRequired;
    hide Challenges.DuePrefix;
    hide ApplyBlock;
    GrowsReflexive(d.state.db);
    SyncGrows(env, View(d), step.l1, step.block);
    SyncToKeeps(env, View(d), step.l1, step.block);
    var v := SyncTo(env, View(d), step.l1, step.block);
    if v.Some? {
      hide SyncTo;
      var d1 := d.(challengeOrigin := v.value.origin, state := d.state.(db := v.value.db));
      GrowthKeepsSettled(d.state.db, v.value.db, d.state.commitments, blamed);
      CommitmentsAdvance(env, d1, step.block, blamed);
      assert AdvanceChallengeOrigin(env, d, step.l1, step.block) == Some(d1);
    } else {
      assert blamed + {} == blamed;
    }
  }

  lemma FinalizationSettled(env: Env, d: DaValue, f: BlockRef, blamed: set<nat>)
    requires Inv(env, d) && Settled(d, blamed)
    ensures d.state.db.Wf() && Settled(Finalize(d, f), blamed)
  {
    hide ChallengeKey;
    GoodShape(env, View(d));
    hide QueuesSplitAt;
    var db' := d.state.db.Prune(f.number);
    assert Grows(d.state.db, db');
    GrowthKeepsSettled(d.state.db, db', d.state.commitments, blamed);
  }

  lemma StepSettled(env: Env, d: DaValue, step: Step, blamed: set<nat>)
    requires Inv(env, d) && Settled(d, blamed) && Allowed(d, step)
    ensures BlamedBy(env, d, step) !! blamed
    ensures Settled(Next(env, d, step), blamed + BlamedBy(env, d, step))
  {
    hide ChallengeKey;
    hide QueuesSplitAt;
    hide AdvanceL1Origin;
    hide GetInput;
    hide Finalize;
    if !step.Advance? {
      assert blamed + {} == blamed;
    }
    match step
    case Fetch(_, _, _, _) => FetchSettled(env, d, step, blamed);
    case Advance(_, _) => AdvanceSettled(env, d, step, blamed);
    case Reset(_) =>
    case Finalization(f) => FinalizationSettled(env, d, f, blamed);
  }

  /** The challenges blamed by each step of a run. */
  ghost function Blames(env: Env, d: DaValue, steps: seq<Step>): (bs: seq<set<nat>>)
    requires Inv(env, d)
    ensures |bs| == |steps|
    decreases |steps|
  {
    if steps == [] then []
    else
      NextKeeps(env, d, steps[0]);
      [BlamedBy(env, d, steps[0])] + Blames(env, Next(env, d, steps[0]), steps[1..])
  }

  ghost function ReorgCount(env: Env, d: DaValue, steps: seq<Step>): nat
    requires Inv(env, d)
    decreases |steps|
  {
    if steps == [] then 0
    else
      NextKeeps(env, d, steps[0]);
      (if Reorgs(env, d, steps[0]) then 1 else 0) + ReorgCount(env, Next(env, d, steps[0]), steps[1..])
  }

  /** No challenge is blamed by two steps of a run, nor by a step and before the run. */
  lemma {:induction false} BlamedOnce(env: Env, d: DaValue, steps: seq<Step>, blamed: set<nat>)
    requires Inv(env, d) && Settled(d, blamed) && Disciplined(env, d, steps)
    ensures forall i :: 0 <= i < |steps| ==> Blames(env, d, steps)[i] !! blamed
    ensures forall i, j :: 0 <= i < j < |steps| ==> Blames(env, d, steps)[i] !! Blames(env, d, steps)[j]
    decreases |steps|
  {
    hide ChallengeKey;
    hide Inv;
    hide Settled;
    hide BlamedBy;
    if steps != [] {
      StepSettled(env, d, steps[0], blamed);
      NextKeeps(env, d, steps[0]);
      hide Next;
      BlamedOnce(env, Next(env, d, steps[0]), steps[1..], blamed + BlamedBy(env, d, steps[0]));
    }
  }

  lemma {:induction false} SetBelow(s: set<nat>, n: nat)
    requires forall i :: i in s ==> i < n
    ensures |s| <= n
  {
    if n > 0 {
      SetBelow(s - {n - 1}, n - 1);
    } else {
      assert s == {};
    }
  }

  /** At most as many reorgs as challenges. */
  lemma {:induction false} ReorgsAtMostChallenges(env: Env, d: DaValue, steps: seq<Step>, blamed: set<nat>)
    requires Inv(env, d) && Settled(d, blamed) && Disciplined(env, d, steps)
    ensures |blamed| + ReorgCount(env, d, steps) <= |Run(env, d, steps).state.db.table|
    decreases |steps|
  {
    hide ChallengeKey;
    hide Inv;
    hide BlamedBy;
    if steps == [] {
      SetBelow(blamed, |d.state.db.table|);
    } else {
      StepSettled(env, d, steps[0], blamed);
      NextKeeps(env, d, steps[0]);
      ReorgHasBlame(env, d, steps[0]);
      hide Next;
      hide Settled;
      hide Reorgs;
      var added := BlamedBy(env, d, steps[0]);
      if added != {} {
        assert |blamed + added| == |blamed| + |added|;
      } else {
        assert blamed + added == blamed;
      }
      ReorgsAtMostChallenges(env, Next(env, d, steps[0]), steps[1..], blamed + added);
    }
  }
}
