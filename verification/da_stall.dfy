/** A derivation stalled on missing data ends: however often GetInput is retried for one
    commitment, only a bounded number of look-aheads can happen before a call returns data, an
    expired challenge or data missing past its window. */
module DaStall {
  import opened Bytes
  import opened Commitments
  import opened ChallengeState
  import opened DaSpec
  import opened DaRuns
  import opened DaStatus

  /** One retry: the node's view of L1 and the storage server's answer at that moment. */
  datatype Try = Try(l1: L1Fetcher, storage: StorageResult)

  ghost predicate Honest(l1: L1Fetcher) {
    forall n: nat :: l1.refByNumber(n).Some? ==> l1.refByNumber(n).value.number == n
  }

  ghost predicate Succeeds(l1: L1Fetcher) {
    (forall n: nat :: l1.refByNumber(n).Some?) && (forall h: nat :: l1.challengeLogs(h).Some?)
  }

  ghost function After(env: Env, d: DaValue, comm: CommitmentData, block: BlockRef, t: Try): (d': DaValue)
    requires Inv(env, d)
    ensures Inv(env, d')
  {
    NextKeeps(env, d, Fetch(t.l1, t.storage, comm, block));
    Next(env, d, Fetch(t.l1, t.storage, comm, block))
  }

  ghost function Result(env: Env, d: DaValue, comm: CommitmentData, block: BlockRef, t: Try): InputResult
    requires Inv(env, d)
  {
    GoodShape(env, View(d));
    GetInput(env, d, t.l1, t.storage, comm, block).1
  }

  ghost function Retry(env: Env, d: DaValue, comm: CommitmentData, block: BlockRef, tries: seq<Try>): (d': DaValue)
    requires Inv(env, d)
    ensures Inv(env, d')
    decreases |tries|
  {
    if tries == [] then d else Retry(env, After(env, d, comm, block, tries[0]), comm, block, tries[1..])
  }

  /** No attempt settles the commitment. */
  ghost predicate Stalled(env: Env, d: DaValue, comm: CommitmentData, block: BlockRef, tries: seq<Try>)
    requires Inv(env, d)
    decreases |tries|
  {
    tries == [] ||
    (var r := Result(env, d, comm, block, tries[0]);
     && (r == ErrPendingChallenge || r == ErrTemporary)
     && Stalled(env, After(env, d, comm, block, tries[0]), comm, block, tries[1..]))
  }

  ghost function Opened(n: nat, logs: seq<Log>, key: string): nat {
    if logs == [] then 0
    else Opened(n, logs[..|logs| - 1], key) + if Opens(Event(n, logs[|logs| - 1]), key) then 1 else 0
  }

  /** How often the look-ahead of one attempt sees the key challenged. */
  ghost function OpenedBy(env: Env, d: DaValue, comm: CommitmentData, block: BlockRef, t: Try): nat
    requires Inv(env, d)
  {
    if Result(env, d, comm, block, t) != ErrPendingChallenge then 0
    else match t.l1.refByNumber(d.challengeOrigin.number + 1)
      case None => 0
      case Some(ref) =>
        match FetchLogs(env, t.l1, ref)
        case None => 0
        case Some(logs) => Opened(ref.number, logs, ChallengeKey(comm, block.number))
  }

  ghost function TimesOpened(env: Env, d: DaValue, comm: CommitmentData, block: BlockRef, tries: seq<Try>): nat
    requires Inv(env, d)
    decreases |tries|
  {
    if tries == [] then 0
    else OpenedBy(env, d, comm, block, tries[0])
         + TimesOpened(env, After(env, d, comm, block, tries[0]), comm, block, tries[1..])
  }

  /** Blocks until the challenge window of an unchallenged commitment is certainly over. */
  function WindowLeft(env: Env, d: DaValue, block: BlockRef): nat {
    var end := block.number + env.cfg.challengeWindow + 1;
    if end <= d.challengeOrigin.number then 0 else end - d.challengeOrigin.number
  }

  /** Look-aheads still possible before the commitment is settled or challenged again. */
  ghost function Patience(env: Env, d: DaValue, comm: CommitmentData, block: BlockRef): nat {
    var key := ChallengeKey(comm, block.number);
    match d.state.db.Lookup(key)
    case None => WindowLeft(env, d, block)
    case Some(c) =>
      if c.status == Active && c.resolveWindowEnd > d.challengeOrigin.number
      then c.resolveWindowEnd - d.challengeOrigin.number else 0
  }

  /** What one block of logs does to the entry of a key. */
  ghost predicate Followed(before: Option<ChallengeValue>, after: Option<ChallengeValue>, times: nat, deadline: nat) {
    && (times == 0 && before.None? ==> after.None?)
    && (times == 0 && before.Some? ==>
         && after.Some? && after.value.resolveWindowEnd == before.value.resolveWindowEnd
         && (after.value.status == Active ==> before.value.status == Active))
    && (times > 0 ==> after.Some? && after.value.resolveWindowEnd == deadline)
  }

  lemma LogFollowed(env: Env, db: Challenges, block: nat, log: Log, key: string)
    requires db.Wf()
    ensures Followed(db.Lookup(key), ApplyLog(env, db, block, log).Lookup(key),
                     if Opens(Event(block, log), key) then 1 else 0, block + env.cfg.resolveWindow)
  {
    hide ChallengeKey;
  }

  lemma FollowedOn(a: Option<ChallengeValue>, b: Option<ChallengeValue>, c: Option<ChallengeValue>, m: nat, n: nat, deadline: nat)
    requires Followed(a, b, m, deadline) && Followed(b, c, n, deadline)
    ensures Followed(a, c, m + n, deadline)
  {
  }

  lemma {:induction false} LogsFollowed(env: Env, db: Challenges, n: nat, block: nat, logs: seq<Log>, key: string)
    requires n < block && QueuesSplitAt(env, db, n, block)
    ensures Followed(db.Lookup(key), ApplyLogs(env, db, block, logs).Lookup(key),
                     Opened(block, logs, key), block + env.cfg.resolveWindow)
  {
    hide Opens;
    if logs != [] {
      var k := |logs| - 1;
      var mid := ApplyLogs(env, db, block, logs[..k]);
      LogsFollowed(env, db, n, block, logs[..k], key);
      ApplyLogsKeeps(env, db, n, block, logs[..k]);
      assert mid.Wf();
      LogFollowed(env, mid, block, logs[k], key);
      hide ApplyLog;
      FollowedOn(db.Lookup(key), mid.Lookup(key), ApplyLogs(env, db, block, logs).Lookup(key),
                 Opened(block, logs[..k], key), if Opens(Event(block, logs[k]), key) then 1 else 0, block + env.cfg.resolveWindow);
    }
  }

  lemma BlockFollows(env: Env, db: Challenges, n: nat, logs: seq<Log>, key: string)
    requires QueuesSplitAt(env, db, n, n)
    ensures db.Wf()
    ensures Followed(db.Lookup(key), ApplyBlock(env, db, n + 1, logs).Lookup(key),
                     Opened(n + 1, logs, key), n + 1 + env.cfg.resolveWindow)
  {
    GoodShape(env, Synced(db, BlockRef(0, n)));
    hide ChallengeKey;
    hide QueuesSplitAt;
    hide Challenges.Expire;
    hide Challenges.Lookup;
    hide Opened;
    Widen(env, db, n, n, n + 1);
    LogsFollowed(env, db, n, n + 1, logs, key);
    ApplyLogsKeeps(env, db, n, n + 1, logs);
    ExpireFollows(env, ApplyLogs(env, db, n + 1, logs), n, n + 1, key);
  }

  lemma SyncFollows(env: Env, v: Synced, l1: L1Fetcher, ref: BlockRef, key: string)
    requires Good(env, v) && ref.number == v.origin.number + 1 && FetchLogs(env, l1, ref).Some?
    ensures v.db.Wf() && SyncTo(env, v, l1, ref).Some?
    ensures SyncTo(env, v, l1, ref).value.origin == ref
    ensures Followed(v.db.Lookup(key), SyncTo(env, v, l1, ref).value.db.Lookup(key),
                     Opened(ref.number, FetchLogs(env, l1, ref).value, key), ref.number + env.cfg.resolveWindow)
  {
    hide ApplyBlock;
    hide Opened;
    hide Followed;
    hide QueuesSplitAt;
    hide ChallengeKey;
    hide Challenges.Lookup;
    BlockFollows(env, v.db, v.origin.number, FetchLogs(env, l1, ref).value, key);
  }

  /** The look-ahead of a pending attempt reads exactly the next block. */
  lemma PendingReadsNextBlock(env: Env, d: DaValue, comm: CommitmentData, block: BlockRef, t: Try)
    requires Inv(env, d) && Honest(t.l1) && Result(env, d, comm, block, t) == ErrPendingChallenge
    ensures var d' := After(env, d, comm, block, t);
            var n := d.challengeOrigin.number;
            var key := ChallengeKey(comm, block.number);
            && d'.challengeOrigin.number == n + 1
            && Followed(d.state.db.Lookup(key), d'.state.db.Lookup(key), OpenedBy(env, d, comm, block, t),
                        n + 1 + env.cfg.resolveWindow)
  {
    hide ChallengeKey;
    hide QueuesSplitAt;
    hide Challenges.Lookup;
    hide GetInput;
    hide ApplyBlock;
    NextView(env, d, Fetch(t.l1, t.storage, comm, block));
    var ref := t.l1.refByNumber(d.challengeOrigin.number + 1).value;
    SyncFollows(env, View(d), t.l1, ref, ChallengeKey(comm, block.number));
  }

  lemma ExpireFollows(env: Env, db: Challenges, n: nat, block: nat, key: string)
    requires QueuesSplitAt(env, db, n, block)
    ensures Followed(db.Lookup(key), db.Expire(block).Lookup(key), 0, 0)
  {
    hide ChallengeKey;
  }

  lemma PendingMeansUnsettled(env: Env, d: DaValue, comm: CommitmentData, block: BlockRef, t: Try)
    requires Inv(env, d) && Result(env, d, comm, block, t) == ErrPendingChallenge
    ensures var c := d.state.db.Lookup(ChallengeKey(comm, block.number));
            if c.None? then d.challengeOrigin.number <= block.number + env.cfg.challengeWindow
            else c.value.status == Active && c.value.resolveWindowEnd > d.challengeOrigin.number
  {
    hide ChallengeKey;
    hide SyncTo;
  }

  /** Every look-ahead uses up patience, unless the block it reads challenges the commitment. */
  lemma PendingCosts(env: Env, d: DaValue, comm: CommitmentData, block: BlockRef, t: Try)
    requires Inv(env, d) && Honest(t.l1) && Result(env, d, comm, block, t) == ErrPendingChallenge
    ensures After(env, d, comm, block, t).challengeOrigin.number == d.challengeOrigin.number + 1
    ensures 1 + Patience(env, After(env, d, comm, block, t), comm, block)
         <= Patience(env, d, comm, block) + env.cfg.resolveWindow * OpenedBy(env, d, comm, block, t)
  {
    hide ChallengeKey;
    hide After;
    hide OpenedBy;
    hide Challenges.Lookup;
    hide Inv;
    PendingReadsNextBlock(env, d, comm, block, t);
    PendingMeansUnsettled(env, d, comm, block, t);
    hide Result;
    var k := OpenedBy(env, d, comm, block, t);
    assert k > 0 ==> env.cfg.resolveWindow * k >= env.cfg.resolveWindow;
  }

  lemma TemporaryCostsNothing(env: Env, d: DaValue, comm: CommitmentData, block: BlockRef, t: Try)
    requires Inv(env, d) && Result(env, d, comm, block, t) == ErrTemporary
    ensures View(After(env, d, comm, block, t)) == View(d) && OpenedBy(env, d, comm, block, t) == 0
  {
    hide ChallengeKey;
    hide Next;
    hide QueuesSplitAt;
    hide GetInput;
    NextView(env, d, Fetch(t.l1, t.storage, comm, block));
  }

  /** Look-aheads during a stall: at most the patience of the first state, and one resolve window
      more for every time the commitment is challenged on the way. */
  lemma {:induction false} StallIsBounded(env: Env, d: DaValue, comm: CommitmentData, block: BlockRef, tries: seq<Try>)
    requires Inv(env, d) && Stalled(env, d, comm, block, tries)
    requires forall i :: 0 <= i < |tries| ==> Honest(tries[i].l1)
    ensures Retry(env, d, comm, block, tries).challengeOrigin.number - d.challengeOrigin.number
         <= Patience(env, d, comm, block) + env.cfg.resolveWindow * TimesOpened(env, d, comm, block, tries)
    decreases |tries|
  {
    hide ChallengeKey;
    hide OpenedBy;
    hide QueuesSplitAt;
    hide After;
    hide Result;
    if tries != [] {
      var t, d' := tries[0], After(env, d, comm, block, tries[0]);
      StallIsBounded(env, d', comm, block, tries[1..]);
      var k, m := OpenedBy(env, d, comm, block, t), TimesOpened(env, d', comm, block, tries[1..]);
      assert env.cfg.resolveWindow * (k + m) == env.cfg.resolveWindow * k + env.cfg.resolveWindow * m;
      if Result(env, d, comm, block, t) == ErrPendingChallenge {
        PendingCosts(env, d, comm, block, t);
      } else {
        TemporaryCostsNothing(env, d, comm, block, t);
      }
    }
  }

  lemma WorkingAttemptIsNotTemporary(env: Env, d: DaValue, comm: CommitmentData, block: BlockRef, t: Try)
    requires Inv(env, d) && Succeeds(t.l1) && t.storage != StorageFailed
    ensures Result(env, d, comm, block, t) != ErrTemporary
  {
    GoodShape(env, View(d));
    hide ChallengeKey;
    hide QueuesSplitAt;
    hide ApplyBlock;
    var ref := t.l1.refByNumber(d.challengeOrigin.number + 1);
    assert ref.Some? && t.l1.challengeLogs(ref.value.hash).Some?;
  }

  lemma {:induction false} WorkingAttemptsAdvance(env: Env, d: DaValue, comm: CommitmentData, block: BlockRef, tries: seq<Try>)
    requires Inv(env, d) && Stalled(env, d, comm, block, tries)
    requires forall i :: 0 <= i < |tries| ==> Honest(tries[i].l1) && Succeeds(tries[i].l1) && tries[i].storage != StorageFailed
    ensures Retry(env, d, comm, block, tries).challengeOrigin.number == d.challengeOrigin.number + |tries|
    decreases |tries|
  {
    hide ChallengeKey;
    hide QueuesSplitAt;
    hide After;
    hide Result;
    hide Patience;
    hide OpenedBy;
    hide Succeeds;
    hide Honest;
    if tries != [] {
      WorkingAttemptIsNotTemporary(env, d, comm, block, tries[0]);
      PendingCosts(env, d, comm, block, tries[0]);
      WorkingAttemptsAdvance(env, After(env, d, comm, block, tries[0]), comm, block, tries[1..]);
    }
  }

  /** With working L1 and storage, a commitment that is challenged at most once is settled after at
      most the rest of its challenge window plus one resolve window of attempts. */
  lemma StallEnds(env: Env, d: DaValue, comm: CommitmentData, block: BlockRef, tries: seq<Try>)
    requires Inv(env, d)
    requires forall i :: 0 <= i < |tries| ==> Honest(tries[i].l1) && Succeeds(tries[i].l1) && tries[i].storage != StorageFailed
    requires var known := if d.state.db.Lookup(ChallengeKey(comm, block.number)).Some? then 1 else 0;
             known + TimesOpened(env, d, comm, block, tries) <= 1
    requires |tries| > WindowLeft(env, d, block) + env.cfg.resolveWindow
    ensures !Stalled(env, d, comm, block, tries)
  {
    hide ChallengeKey;
    hide QueuesSplitAt;
    hide Stalled;
    hide Honest;
    hide Succeeds;
    hide Retry;
    hide TimesOpened;
    var k := TimesOpened(env, d, comm, block, tries);
    assert k <= 1 ==> env.cfg.resolveWindow * k <= env.cfg.resolveWindow && (k == 0 ==> env.cfg.resolveWindow * k == 0);
    PatienceAtMost(env, d, comm, block);
    if Stalled(env, d, comm, block, tries) {
      StallIsBounded(env, d, comm, block, tries);
      WorkingAttemptsAdvance(env, d, comm, block, tries);
      assert false;
    }
  }

  lemma PatienceAtMost(env: Env, d: DaValue, comm: CommitmentData, block: BlockRef)
    requires Inv(env, d)
    ensures Patience(env, d, comm, block)
         <= if d.state.db.Lookup(ChallengeKey(comm, block.number)).Some? then env.cfg.resolveWindow else WindowLeft(env, d, block)
  {
    hide ChallengeKey;
  }
}
