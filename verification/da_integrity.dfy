/** Input integrity: with keccak commitments, a storage client that verifies on read and a
    challenge contract that only accepts keccak commitments, every input handed to the derivation
    pipeline hashes to the commitment it was requested for. */
module DaIntegrity {
  import opened Bytes
  import opened Commitments
  import opened ChallengeState
  import opened DaSpec
  import opened DaRuns

  ghost predicate KeccakLog(log: Log) {
    log.StatusChanged? ==> log.comm.Keccak256Commitment? && log.comm.WellFormed()
  }

  ghost predicate KeccakEvents(l1: L1Fetcher) {
    forall h: nat, i: nat :: l1.challengeLogs(h).Some? && i < |l1.challengeLogs(h).value| ==> KeccakLog(l1.challengeLogs(h).value[i])
  }

  /** With verification on read the client hands on exactly the bytes that hash to the commitment, and only the
      server's own word that it has none counts as not found: wrong bytes are a failure to be tried again. */
  lemma ClientAnswers(env: Env, hash: seq<byte>, response: Response)
    ensures var comm, r := Keccak256Commitment(hash), ClientGet(env, true, Keccak256Commitment(hash), response);
            && (forall data :: r == Found(data) <==> response == Body(data) && env.keccak(data) == hash)
            && (r == NotFound <==> response == Missing)
  {
  }

  /** The assumptions on one step: event types, verification on read, a well-formed request. */
  ghost predicate Trusted(env: Env, step: Step) {
    match step
    case Fetch(l1, storage, comm, _) =>
      && KeccakEvents(l1) && comm.WellFormed()
      && exists response :: storage == ClientGet(env, true, comm, response)
    case Advance(l1, _) => KeccakEvents(l1)
    case _ => true
  }

  /** Every resolved challenge carries a preimage of its own commitment. */
  ghost predicate Verified(env: Env, db: Challenges) {
    forall i :: 0 <= i < |db.table| ==>
      && db.table[i].commData.Keccak256Commitment? && db.table[i].commData.WellFormed()
      && (db.table[i].status == Resolved ==> db.table[i].commData.hash == env.keccak(db.table[i].input))
  }

  ghost predicate Sound(env: Env, d: DaValue, step: Step)
    requires Inv(env, d)
  {
    GoodShape(env, View(d));
    step.Fetch? ==>
      var r := GetInput(env, d, step.l1, step.storage, step.comm, step.block).1;
      r.Data? ==> step.comm.Keccak256Commitment? && env.keccak(r.data) == step.comm.hash
  }

  lemma KeysMeetOnlyWhenEqual(db: Challenges, comm: CommitmentData, n: nat, i: nat)
    requires comm.Keccak256Commitment? && comm.WellFormed()
    requires i < |db.table| && db.table[i].commData.Keccak256Commitment? && db.table[i].commData.WellFormed()
    requires db.table[i].Key() == ChallengeKey(comm, n)
    ensures db.table[i].commData == comm
  {
    var c := db.table[i];
    assert |c.commData.Encode()| == 33 && |comm.Encode()| == 33;
    ChallengeKeyInjective(c.commData, c.commInclusionBlockNumber, comm, n);
    hide ChallengeKey;
  }

  lemma LogVerified(env: Env, db: Challenges, n: nat, log: Log)
    requires env.cfg.commitmentType == Keccak256CommitmentType
    requires db.Wf() && Verified(env, db) && KeccakLog(log)
    ensures Verified(env, ApplyLog(env, db, n, log))
  {
    hide ChallengeKey;
    if log.StatusChanged? && log.status == RESOLVED_EVENT {
      var key := ChallengeKey(log.comm, log.commBlockNumber);
      if key in db.index {
        KeysMeetOnlyWhenEqual(db, log.comm, log.commBlockNumber, db.index[key]);
      }
    }
  }

  lemma {:induction false} LogsVerified(env: Env, db: Challenges, n: nat, block: nat, logs: seq<Log>)
    requires env.cfg.commitmentType == Keccak256CommitmentType
    requires n < block && QueuesSplitAt(env, db, n, block) && Verified(env, db)
    requires forall i :: 0 <= i < |logs| ==> KeccakLog(logs[i])
    ensures Verified(env, ApplyLogs(env, db, block, logs))
  {
    hide ChallengeKey;
    if logs != [] {
      var mid := ApplyLogs(env, db, block, logs[..|logs| - 1]);
      LogsVerified(env, db, n, block, logs[..|logs| - 1]);
      ApplyLogsKeeps(env, db, n, block, logs[..|logs| - 1]);
      assert mid.Wf();
      hide Verified;
      LogVerified(env, mid, block, logs[|logs| - 1]);
    }
  }

  lemma SyncVerified(env: Env, v: Synced, l1: L1Fetcher, block: BlockRef)
    requires env.cfg.commitmentType == Keccak256CommitmentType
    requires Good(env, v) && Verified(env, v.db) && KeccakEvents(l1)
    ensures v.db.Wf()
    ensures SyncTo(env, v, l1, block).Some? ==> Verified(env, SyncTo(env, v, l1, block).value.db)
  {
    hide ChallengeKey;
    hide KeccakLog;
    hide QueuesSplitAt;
    GoodShape(env, v);
    var logs := FetchLogs(env, l1, block);
    if logs.Some? && block.number > v.origin.number {
      Widen(env, v.db, v.origin.number, v.origin.number, block.number);
      LogsVerified(env, v.db, v.origin.number, block.number, logs.value);
      ApplyLogsShape(env, v.db, block.number, logs.value);
      ExpireVerified(env, ApplyLogs(env, v.db, block.number, logs.value), block.number);
    }
  }

  lemma ExpireVerified(env: Env, db: Challenges, n: nat)
    requires db.expired <= |db.table| && Verified(env, db)
    ensures Verified(env, db.Expire(n))
  {
    hide FirstOpen;
  }

  lemma StepVerified(env: Env, d: DaValue, step: Step)
    requires env.cfg.commitmentType == Keccak256CommitmentType
    requires Inv(env, d) && Verified(env, d.state.db) && Trusted(env, step)
    ensures Verified(env, Next(env, d, step).state.db)
  {
    hide ChallengeKey;
    hide QueuesSplitAt;
    hide Next;
    hide SyncTo;
    hide KeccakEvents;
    NextView(env, d, step);
    match step
    case Fetch(l1, _, _, _) =>
      var ref := l1.refByNumber(d.challengeOrigin.number + 1);
      if ref.Some? {
        SyncVerified(env, View(d), l1, ref.value);
      }
    case Advance(l1, block) => SyncVerified(env, View(d), l1, block);
    case _ =>
  }

  lemma FetchIsSound(env: Env, d: DaValue, step: Step)
    requires env.cfg.commitmentType == Keccak256CommitmentType
    requires Inv(env, d) && Verified(env, d.state.db) && Trusted(env, step)
    ensures Sound(env, d, step)
  {
    hide ChallengeKey;
    hide SyncTo;
    GoodShape(env, View(d));
    if step.Fetch? && step.comm.Keccak256Commitment? {
      var key := ChallengeKey(step.comm, step.block.number);
      if d.state.db.Lookup(key).Some? {
        KeysMeetOnlyWhenEqual(d.state.db, step.comm, step.block.number, d.state.db.index[key]);
      }
    }
    hide QueuesSplitAt;
  }

  ghost predicate AllSound(env: Env, d: DaValue, steps: seq<Step>)
    requires Inv(env, d)
    decreases |steps|
  {
    steps == [] ||
    (Sound(env, d, steps[0]) && (NextKeeps(env, d, steps[0]); AllSound(env, Next(env, d, steps[0]), steps[1..])))
  }

  /** Every input any run returns is a preimage of the commitment it was requested for, and every
      challenge resolved on the way carries a preimage of its own commitment. */
  lemma {:induction false} InputIntegrity(env: Env, d: DaValue, steps: seq<Step>)
    requires env.cfg.commitmentType == Keccak256CommitmentType
    requires Inv(env, d) && Verified(env, d.state.db)
    requires forall i :: 0 <= i < |steps| ==> Trusted(env, steps[i])
    ensures AllSound(env, d, steps)
    ensures Verified(env, Run(env, d, steps).state.db)
    decreases |steps|
  {
    hide ChallengeKey;
    hide QueuesSplitAt;
    hide Verified;
    hide Trusted;
    hide Sound;
    if steps != [] {
      FetchIsSound(env, d, steps[0]);
      StepVerified(env, d, steps[0]);
      NextKeeps(env, d, steps[0]);
      hide Next;
      InputIntegrity(env, Next(env, d, steps[0]), steps[1..]);
    }
  }

  lemma Hex0145()
    ensures Hex([1, 0x45]) == "0145"
  {
  }

  lemma Decimal10145()
    ensures Decimal(1) == "1" && Decimal(10145) == "10145"
  {
    assert Decimal(101) == Decimal(10) + "1" && Decimal(10) == Decimal(1) + "0";
    assert Decimal(1014) == Decimal(101) + "4" && Decimal(10145) == Decimal(1014) + "5";
  }

  /** Why the events must be keccak commitments: the key of a generic commitment can be that of a
      keccak commitment of another block, for every hash. */
  lemma GenericKeyCollides(h: seq<byte>)
    requires |h| == 32
    ensures ChallengeKey(GenericCommitment([0x45, 0] + h), 1) == ChallengeKey(Keccak256Commitment(h), 10145)
  {
    hide Hex;
    hide Decimal;
    var b := [0] + h;
    assert [1] + ([0x45, 0] + h) == [1, 0x45] + b;
    HexConcat([1, 0x45], b);
    Hex0145();
    Decimal10145();
    assert "1" + ("0145" + Hex(b)) == "10145" + Hex(b);
  }

  function GenericEvents(h: seq<byte>, input: seq<byte>): seq<Log> {
    var comm := GenericCommitment([0x45, 0] + h);
    [StatusChanged(ACTIVE_EVENT, comm, 1, TxUnavailable), StatusChanged(RESOLVED_EVENT, comm, 1, Calldata(input))]
  }

  ghost predicate ResolvedWith(db: Challenges, key: string, input: seq<byte>) {
    db.Lookup(key).Some? && db.Lookup(key).value.status == Resolved && db.Lookup(key).value.input == input
  }

  lemma GenericEventsResolve(env: Env, h: seq<byte>, input: seq<byte>)
    requires env.cfg.commitmentType == Keccak256CommitmentType && |h| == 32 && |input| > 0
    ensures ApplyLogs(env, NoChallenges, 1, GenericEvents(h, input)).expired == 0
    ensures ResolvedWith(ApplyLogs(env, NoChallenges, 1, GenericEvents(h, input)), ChallengeKey(Keccak256Commitment(h), 10145), input)
  {
    GenericKeyCollides(h);
    hide ChallengeKey;
    var logs := GenericEvents(h, input);
    var comm := GenericCommitment([0x45, 0] + h);
    assert logs[..1] == [logs[0]] && logs[..1][..0] == [];
    var db1 := ApplyLog(env, NoChallenges, 1, logs[0]);
    assert ApplyLogs(env, NoChallenges, 1, logs[..1][..0]) == NoChallenges;
    assert ApplyLogs(env, NoChallenges, 1, logs[..1]) == db1;
    assert ApplyLogs(env, NoChallenges, 1, logs) == ApplyLog(env, db1, 1, logs[1]) == db1.Resolve(ChallengeKey(comm, 1), input);
    hide ApplyLogs;
  }

  lemma ExpireKeepsResolved(db: Challenges, n: nat, key: string, input: seq<byte>)
    requires db.expired <= |db.table| && ResolvedWith(db, key, input)
    ensures ResolvedWith(db.Expire(n), key, input)
  {
    hide ChallengeKey;
    hide FirstOpen;
  }

  /** The node advances to block 1, whose logs are the events, and to block 10145, which has none. */
  ghost function GenericRun(l1: L1Fetcher, first: nat, second: nat): seq<Step> {
    [Advance(l1, BlockRef(first, 1)), Advance(l1, BlockRef(second, 10145))]
  }

  lemma AdvanceReads(env: Env, d: DaValue, l1: L1Fetcher, block: BlockRef, logs: seq<Log>)
    requires env.cfg.commitmentType == Keccak256CommitmentType && l1.challengeLogs(block.hash) == Some(logs)
    requires Inv(env, d) && d.challengeOrigin.number < block.number
    ensures d.state.db.Wf() && Inv(env, Next(env, d, Advance(l1, block)))
    ensures View(Next(env, d, Advance(l1, block))) == Synced(ApplyBlock(env, d.state.db, block.number, logs), block)
  {
    NextView(env, d, Advance(l1, block));
    NextKeeps(env, d, Advance(l1, block));
    hide Next;
    hide Inv;
    hide ApplyBlock;
    hide ChallengeKey;
  }

  lemma RunOfTwo(env: Env, d: DaValue, first: Step, second: Step)
    requires Inv(env, d) && Inv(env, Next(env, d, first))
    ensures Run(env, d, [first, second]) == Next(env, Next(env, d, first), second)
  {
    hide Inv;
    hide Next;
    var d1, steps := Next(env, d, first), [first, second];
    NextKeeps(env, d1, second);
    assert steps[1..] == [second] && [second][1..] == [];
    assert Run(env, d1, [second]) == Run(env, Next(env, d1, second), []);
  }

  lemma GenericRunResolves(env: Env, l1: L1Fetcher, h: seq<byte>, input: seq<byte>, first: nat, second: nat)
    requires env.cfg.commitmentType == Keccak256CommitmentType && |h| == 32 && |input| > 0
    requires l1.challengeLogs(first) == Some(GenericEvents(h, input)) && l1.challengeLogs(second) == Some([])
    ensures Inv(env, NewDa)
    ensures var d := Run(env, NewDa, GenericRun(l1, first, second));
            d.state.db.Wf() && ResolvedWith(d.state.db, ChallengeKey(Keccak256Commitment(h), 10145), input)
  {
    var key, steps, logs := ChallengeKey(Keccak256Commitment(h), 10145), GenericRun(l1, first, second), GenericEvents(h, input);
    hide ChallengeKey;
    hide ResolvedWith;
    assert Inv(env, NewDa);
    hide Inv;
    hide Challenges.Expire;
    AdvanceReads(env, NewDa, l1, BlockRef(first, 1), logs);
    GenericEventsResolve(env, h, input);
    hide GenericEvents;
    ExpireKeepsResolved(ApplyLogs(env, NoChallenges, 1, logs), 1, key, input);
    var d1 := Next(env, NewDa, steps[0]);
    AdvanceReads(env, d1, l1, BlockRef(second, 10145), []);
    assert ApplyLogs(env, d1.state.db, 10145, []) == d1.state.db;
    ExpireKeepsResolved(d1.state.db, 10145, key, input);
    RunOfTwo(env, NewDa, steps[0], steps[1]);
    hide *;
    GoodShape(env, View(Next(env, d1, steps[1])));
  }

  /** One challenged and resolved generic commitment at block 1 makes the node return arbitrary bytes
      for an unrelated keccak commitment at block 10145. */
  lemma GenericEventBreaksIntegrity(env: Env, l1: L1Fetcher, h: seq<byte>, input: seq<byte>, first: nat, second: nat)
    requires env.cfg.commitmentType == Keccak256CommitmentType && |h| == 32 && |input| > 0
    requires l1.challengeLogs(first) == Some(GenericEvents(h, input)) && l1.challengeLogs(second) == Some([])
    ensures Inv(env, NewDa)
    ensures var d := Run(env, NewDa, GenericRun(l1, first, second));
            && d.state.db.Wf()
            && GetInput(env, d, l1, NotFound, Keccak256Commitment(h), BlockRef(second, 10145)).1 == Data(input)
  {
    GenericRunResolves(env, l1, h, input, first, second);
    hide *;
    ResolvedIsReturned(env, Run(env, NewDa, GenericRun(l1, first, second)), l1, h, BlockRef(second, 10145), input);
  }

  lemma ResolvedIsReturned(env: Env, d: DaValue, l1: L1Fetcher, h: seq<byte>, block: BlockRef, input: seq<byte>)
    requires env.cfg.commitmentType == Keccak256CommitmentType && d.state.db.Wf()
    requires ResolvedWith(d.state.db, ChallengeKey(Keccak256Commitment(h), block.number), input)
    ensures GetInput(env, d, l1, NotFound, Keccak256Commitment(h), block).1 == Data(input)
  {
    hide ChallengeKey;
    hide LookAhead;
  }
}
