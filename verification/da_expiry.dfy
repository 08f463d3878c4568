/** What the expired queue may hold, over whole runs: unless a reset is due, every expired
    commitment that is still indexed as challenged had its challenge resolved. */
module DaExpiry {
  import opened Bytes
  import opened Commitments
  import opened ChallengeState
  import opened DaSpec
  import opened DaRuns
  import opened DaReorg
  import opened DaIntegrity

  /** The contract's side: at block `n` a challenge is opened for a keccak commitment, within its
      challenge window, and never for a key that was challenged before. */
  ghost predicate TimelyLog(env: Env, db: Challenges, n: nat, log: Log) {
    log.StatusChanged? && log.status == ACTIVE_EVENT ==>
      && KeccakLog(log) && n <= log.commBlockNumber + env.cfg.challengeWindow
      && forall i :: 0 <= i < |db.table| ==> db.table[i].Key() != ChallengeKey(log.comm, log.commBlockNumber)
  }

  ghost predicate TimelyLogs(env: Env, db: Challenges, n: nat, logs: seq<Log>) {
    logs == [] ||
    (TimelyLogs(env, db, n, logs[..|logs| - 1]) &&
     TimelyLog(env, ApplyLogs(env, db, n, logs[..|logs| - 1]), n, logs[|logs| - 1]))
  }

  ghost predicate TimelyBlock(env: Env, d: DaValue, l1: L1Fetcher, block: BlockRef) {
    FetchLogs(env, l1, block).Some? ==> TimelyLogs(env, d.state.db, block.number, FetchLogs(env, l1, block).value)
  }

  ghost predicate Timely(env: Env, d: DaValue, step: Step) {
    match step
    case Fetch(l1, _, comm, _) =>
      && comm.WellFormed()
      && var ref := l1.refByNumber(d.challengeOrigin.number + 1);
         ref.Some? ==> TimelyBlock(env, d, l1, ref.value)
    case Advance(l1, block) => TimelyBlock(env, d, l1, block)
    case _ => true
  }

  ghost predicate WellTracked(env: Env, c: Commitment) {
    && c.data.Keccak256Commitment? && c.data.WellFormed()
    && c.challengeWindowEnd == c.inclusionBlock.number + env.cfg.challengeWindow
  }

  ghost predicate AllWellTracked(env: Env, cs: seq<Commitment>) {
    forall i :: 0 <= i < |cs| ==> WellTracked(env, cs[i])
  }

  /** No challenge can appear for `c` any more that is not already resolved. */
  ghost predicate Closed(env: Env, db: Challenges, n: nat, c: Commitment) {
    if c.Key() in db.index then db.Lookup(c.Key()).Some? && db.Lookup(c.Key()).value.status == Resolved
    else c.challengeWindowEnd <= n || exists i :: 0 <= i < |db.table| && db.table[i].Key() == c.Key()
  }

  ghost predicate AllClosed(env: Env, db: Challenges, n: nat, cs: seq<Commitment>) {
    forall i :: 0 <= i < |cs| ==> Closed(env, db, n, cs[i])
  }

  ghost predicate ExpiredAreClosed(env: Env, d: DaValue) {
    && AllWellTracked(env, d.state.commitments)
    && AllWellTracked(env, d.state.expiredCommitments)
    && (!d.resetting ==> AllClosed(env, d.state.db, d.challengeOrigin.number, d.state.expiredCommitments))
  }

  lemma LogKeepsClosed(env: Env, db: Challenges, n: nat, block: nat, log: Log, c: Commitment)
    requires n < block && db.Wf() && TimelyLog(env, db, block, log)
    requires WellTracked(env, c) && Closed(env, db, n, c)
    ensures Closed(env, ApplyLog(env, db, block, log), n, c)
  {
    hide Closed;
    if log.StatusChanged? && log.status == ACTIVE_EVENT {
      CreateKeepsClosed(env, db, n, block, log, c);
    } else if log.StatusChanged? && log.status == RESOLVED_EVENT {
      var input := ResolvedInput(env, log.comm, log.tx);
      if input.Some? {
        ResolveKeepsClosed(env, db, n, ChallengeKey(log.comm, log.commBlockNumber), input.value, c);
      }
    }
  }

  lemma CreateKeepsClosed(env: Env, db: Challenges, n: nat, block: nat, log: Log, c: Commitment)
    requires n < block && db.Wf() && TimelyLog(env, db, block, log) && log.StatusChanged? && log.status == ACTIVE_EVENT
    requires WellTracked(env, c) && Closed(env, db, n, c)
    ensures Closed(env, ApplyLog(env, db, block, log), n, c)
  {
    var db' := ApplyLog(env, db, block, log);
    assert c.Key() != ChallengeKey(log.comm, log.commBlockNumber) by {
      if c.Key() in db.index {
        assert db.table[db.index[c.Key()]].Key() == c.Key();
      }
      assert |c.data.Encode()| == 33 && |log.comm.Encode()| == 33;
      if c.Key() == ChallengeKey(log.comm, log.commBlockNumber) {
        ChallengeKeyInjective(c.data, c.inclusionBlock.number, log.comm, log.commBlockNumber);
      }
    }
    hide ChallengeKey;
    hide TimelyLog;
    hide WellTracked;
    if i :| 0 <= i < |db.table| && db.table[i].Key() == c.Key() {
      assert db'.table[i].Key() == c.Key();
    }
  }

  lemma ResolveKeepsClosed(env: Env, db: Challenges, n: nat, key: string, input: seq<byte>, c: Commitment)
    requires db.Wf() && Closed(env, db, n, c)
    ensures Closed(env, db.Resolve(key, input), n, c)
  {
    hide ChallengeKey;
    if i :| 0 <= i < |db.table| && db.table[i].Key() == c.Key() {
      assert db.Resolve(key, input).table[i].Key() == c.Key();
    }
  }

  lemma {:induction false} LogsKeepClosed(env: Env, db: Challenges, n: nat, block: nat, logs: seq<Log>, c: Commitment)
    requires n < block && QueuesSplitAt(env, db, n, block) && TimelyLogs(env, db, block, logs)
    requires WellTracked(env, c) && Closed(env, db, n, c)
    ensures Closed(env, ApplyLogs(env, db, block, logs), n, c)
  {
    hide ChallengeKey;
    hide WellTracked;
    hide Closed;
    hide TimelyLog;
    if logs != [] {
      var mid := ApplyLogs(env, db, block, logs[..|logs| - 1]);
      LogsKeepClosed(env, db, n, block, logs[..|logs| - 1], c);
      ApplyLogsKeeps(env, db, n, block, logs[..|logs| - 1]);
      assert mid.Wf();
      LogKeepsClosed(env, mid, n, block, logs[|logs| - 1], c);
    }
  }

  lemma ExpireKeepsClosed(env: Env, db: Challenges, n: nat, block: nat, c: Commitment)
    requires db.Wf() && n <= block && Closed(env, db, n, c)
    ensures Closed(env, db.Expire(block), block, c)
  {
    hide ChallengeKey;
    hide FirstOpen;
    var db' := db.Expire(block);
    if i :| 0 <= i < |db.table| && db.table[i].Key() == c.Key() {
      assert db'.table[i].Key() == c.Key();
    }
  }

  lemma SyncKeepsClosed(env: Env, v: Synced, l1: L1Fetcher, block: BlockRef, cs: seq<Commitment>)
    requires Good(env, v) && AllWellTracked(env, cs) && AllClosed(env, v.db, v.origin.number, cs)
    requires FetchLogs(env, l1, block).Some? ==> TimelyLogs(env, v.db, block.number, FetchLogs(env, l1, block).value)
    ensures v.db.Wf()
    ensures var r := SyncTo(env, v, l1, block);
            r.Some? ==> AllClosed(env, r.value.db, r.value.origin.number, cs)
  {
    hide ChallengeKey;
    hide WellTracked;
    hide Closed;
    hide TimelyLogs;
    GoodShape(env, v);
    hide QueuesSplitAt;
    var logs := FetchLogs(env, l1, block);
    if logs.Some? && block.number > v.origin.number {
      Widen(env, v.db, v.origin.number, v.origin.number, block.number);
      ApplyLogsKeeps(env, v.db, v.origin.number, block.number, logs.value);
      var mid := ApplyLogs(env, v.db, block.number, logs.value);
      assert mid.Wf() by { SplitShape(env, mid, v.origin.number, block.number); }
      forall i | 0 <= i < |cs|
        ensures Closed(env, mid.Expire(block.number), block.number, cs[i])
      {
        LogsKeepClosed(env, v.db, v.origin.number, block.number, logs.value, cs[i]);
        ExpireKeepsClosed(env, mid, v.origin.number, block.number, cs[i]);
      }
    }
  }

  lemma SplitShape(env: Env, db: Challenges, n: nat, last: nat)
    requires QueuesSplitAt(env, db, n, last)
    ensures db.Wf()
  {
    hide ChallengeKey;
  }

  /** The prefix that expires without a reorg is closed. */
  lemma ExpiringIsClosed(env: Env, d: DaValue, n: nat)
    requires n <= d.challengeOrigin.number && d.state.db.Wf() && !ReorgRequired(d.state, n)
    ensures var k := d.state.db.DuePrefix(d.state.commitments, n);
            AllClosed(env, d.state.db, d.challengeOrigin.number, d.state.commitments[..k])
  {
    hide ChallengeKey;
    var db, cs := d.state.db, d.state.commitments;
    var k := db.DuePrefix(cs, n);
    forall i | 0 <= i < k
      ensures Closed(env, db, d.challengeOrigin.number, cs[i])
    {
      assert db.Deadline(cs[i]) <= n && !db.ChallengedUnresolved(cs[i]);
    }
  }

  lemma CommitmentOriginKeepsClosed(env: Env, d: DaValue, block: BlockRef)
    requires d.state.db.Wf() && ExpiredAreClosed(env, d) && block.number <= d.challengeOrigin.number
    ensures ExpiredAreClosed(env, AdvanceCommitmentOrigin(d, block).0)
  {
    hide ChallengeKey;
    if !ReorgRequired(d.state, block.number) {
      ExpiringIsClosed(env, d, block.number);
    }
    hide WellTracked;
    hide Closed;
    hide ReorgRequired;
    hide Challenges.DuePrefix;
  }

  lemma PruneKeepsClosed(env: Env, d: DaValue, f: BlockRef)
    requires d.state.db.Wf() && ExpiredAreClosed(env, d)
    ensures ExpiredAreClosed(env, Finalize(d, f))
  {
    hide ChallengeKey;
    hide WellTracked;
    hide Challenges.DuePrefix;
    hide FirstOpen;
    var db, cs, db' := d.state.db, d.state.expiredCommitments, d.state.db.Prune(f.number);
    if !d.resetting {
      forall i | 0 <= i < |cs|
        ensures Closed(env, db', d.challengeOrigin.number, cs[i])
      {
        if cs[i].Key() in db.index {
          assert db.table[db.index[cs[i].Key()]].Key() == cs[i].Key();
        }
      }
    }
  }

  lemma FetchKeepsClosed(env: Env, d: DaValue, step: Step)
    requires env.cfg.commitmentType == Keccak256CommitmentType
    requires Inv(env, d) && ExpiredAreClosed(env, d) && step.Fetch? && Timely(env, d, step)
    ensures ExpiredAreClosed(env, Next(env, d, step))
  {
    hide ChallengeKey;
    hide QueuesSplitAt;
    hide Closed;
    hide TimelyLogs;
    GoodShape(env, View(d));
    var ref := step.l1.refByNumber(d.challengeOrigin.number + 1);
    if ref.Some? && !d.resetting {
      SyncKeepsClosed(env, View(d), step.l1, ref.value, d.state.expiredCommitments);
    }
    hide SyncTo;
    hide AllClosed;
    hide Challenges.Lookup;
  }

  lemma AdvanceKeepsClosed(env: Env, d: DaValue, step: Step)
    requires Inv(env, d) && ExpiredAreClosed(env, d) && step.Advance? && Timely(env, d, step)
    ensures ExpiredAreClosed(env, Next(env, d, step))
  {
    hide ChallengeKey;
    hide QueuesSplitAt;
    hide AllClosed;
    hide AllWellTracked;
    hide TimelyLogs;
    hide ReorgRequired;
    hide Challenges.DuePrefix;
    GoodShape(env, View(d));
    SyncToKeeps(env, View(d), step.l1, step.block);
    if !d.resetting {
      SyncKeepsClosed(env, View(d), step.l1, step.block, d.state.expiredCommitments);
    }
    var v := SyncTo(env, View(d), step.l1, step.block);
    if v.Some? {
      hide SyncTo;
      GoodShape(env, v.value);
      var d1 := d.(challengeOrigin := v.value.origin, state := d.state.(db := v.value.db));
      assert AdvanceChallengeOrigin(env, d, step.l1, step.block) == Some(d1);
      CommitmentOriginKeepsClosed(env, d1, step.block);
    }
  }

  lemma NextKeepsClosed(env: Env, d: DaValue, step: Step)
    requires env.cfg.commitmentType == Keccak256CommitmentType
    requires Inv(env, d) && ExpiredAreClosed(env, d) && Timely(env, d, step)
    ensures ExpiredAreClosed(env, Next(env, d, step))
  {
    hide ChallengeKey;
    hide QueuesSplitAt;
    hide AdvanceL1Origin;
    hide GetInput;
    hide Finalize;
    match step
    case Fetch(_, _, _, _) => FetchKeepsClosed(env, d, step);
    case Advance(_, _) => AdvanceKeepsClosed(env, d, step);
    case Reset(_) =>
    case Finalization(f) =>
      GoodShape(env, View(d));
      PruneKeepsClosed(env, d, f);
  }

  ghost predicate TimelyRun(env: Env, d: DaValue, steps: seq<Step>)
    requires Inv(env, d)
    decreases |steps|
  {
    steps == [] ||
    (Timely(env, d, steps[0]) && (NextKeeps(env, d, steps[0]); TimelyRun(env, Next(env, d, steps[0]), steps[1..])))
  }

  /** Unless a reset is due, no expired commitment has an indexed challenge that is not resolved. */
  lemma {:induction false} ExpiredCommitmentsAreResolved(env: Env, d: DaValue, steps: seq<Step>)
    requires env.cfg.commitmentType == Keccak256CommitmentType
    requires Inv(env, d) && ExpiredAreClosed(env, d) && TimelyRun(env, d, steps)
    ensures var d' := Run(env, d, steps);
            !d'.resetting ==> forall i :: 0 <= i < |d'.state.expiredCommitments| ==>
              !d'.state.db.ChallengedUnresolved(d'.state.expiredCommitments[i])
    decreases |steps|
  {
    hide ChallengeKey;
    hide QueuesSplitAt;
    hide Timely;
    if steps != [] {
      hide ExpiredAreClosed;
      NextKeepsClosed(env, d, steps[0]);
      NextKeeps(env, d, steps[0]);
      hide Next;
      ExpiredCommitmentsAreResolved(env, Next(env, d, steps[0]), steps[1..]);
    }
  }

  /** A second challenge that reaches an expired commitment leaves it unresolved; `DaWindows` shows when
      a run gets there. */
  lemma SecondChallengeReopens(env: Env, d: DaValue, l1: L1Fetcher, block: BlockRef, c: Commitment)
    requires d.state.db.Wf() && c in d.state.expiredCommitments && d.challengeOrigin.number < block.number <= c.challengeWindowEnd
    requires FetchLogs(env, l1, block) == Some([StatusChanged(ACTIVE_EVENT, c.data, c.inclusionBlock.number, TxUnavailable)])
    ensures var d' := AdvanceChallengeOrigin(env, d, l1, block);
            && d'.Some? && c in d'.value.state.expiredCommitments && d'.value.resetting == d.resetting
            && d'.value.state.db.ChallengedUnresolved(c)
  {
    var log := StatusChanged(ACTIVE_EVENT, c.data, c.inclusionBlock.number, TxUnavailable);
    hide ChallengeKey;
    assert [log][..0] == [];
    assert ApplyLogs(env, d.state.db, block.number, [log][..0]) == d.state.db;
    var db := d.state.db.Create(c.data, c.inclusionBlock.number, block.number + env.cfg.resolveWindow);
    assert ApplyLogs(env, d.state.db, block.number, [log]) == db;
    hide ApplyLogs;
    hide FirstOpen;
    assert db.Expire(block.number).index == db.index;
    assert db.Expire(block.number).table[|d.state.db.table|].status != Resolved;
  }
}
