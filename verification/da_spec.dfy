/** op-alt-da/damgr.go and the read path of daclient.go as functions on values. */
module DaSpec {
  import opened Bytes
  import opened Commitments
  import opened ChallengeState

  /** What can happen to the resolving transaction of a challenge-resolved log: it cannot be
      fetched (or does not match the receipt), or its calldata does or does not decode. */
  datatype ResolveTx = TxUnavailable | BadCalldata | Calldata(input: seq<byte>)

  datatype Log =
    | Undecodable
    | StatusChanged(status: nat, comm: CommitmentData, commBlockNumber: nat, tx: ResolveTx)

  const ACTIVE_EVENT := 1
  const RESOLVED_EVENT := 2

  /** The node's view of L1 during one call.  Either request may fail. */
  datatype L1Fetcher = L1Fetcher(refByNumber: nat -> Option<BlockRef>, challengeLogs: nat -> Option<seq<Log>>)

  datatype StorageResult = Found(data: seq<byte>) | NotFound | StorageFailed

  datatype Response = Body(data: seq<byte>) | Missing | Broken

  datatype InputResult =
    | Data(data: seq<byte>)
    | ErrExpiredChallenge
    | ErrPendingChallenge
    | ErrMissingPastWindow
    | ErrTemporary

  datatype AdvanceResult = Advanced | ErrReorgRequired | ErrL1

  datatype Env = Env(cfg: Config, keccak: seq<byte> -> seq<byte>)

  datatype DaValue = DaValue(
    challengeOrigin: BlockRef, commitmentOrigin: BlockRef,
    finalizedHead: BlockRef, l1FinalizedHead: BlockRef,
    resetting: bool, state: StateValue)

  const NewDa := DaValue(BlockRef(0, 0), BlockRef(0, 0), BlockRef(0, 0), BlockRef(0, 0), false, EmptyState)

  /** DAClient.GetInput: a configured client re-hashes what the server returns. */
  function ClientGet(env: Env, verify: bool, comm: CommitmentData, response: Response): StorageResult {
    match response
    case Missing => NotFound
    case Broken => StorageFailed
    case Body(data) => if verify && !comm.Verify(env.keccak, data) then StorageFailed else Found(data)
  }

  /** The input a resolve log installs, if it passes every check of loadChallengeEvents. */
  function ResolvedInput(env: Env, comm: CommitmentData, tx: ResolveTx): Option<seq<byte>> {
    if tx.TxUnavailable? then None
    else if env.cfg.commitmentType == GenericCommitmentType then Some([])
    else if tx.Calldata? && |tx.input| > 0 && comm.Verify(env.keccak, tx.input) then Some(tx.input)
    else None
  }

  function ApplyLog(env: Env, db: Challenges, number: nat, log: Log): Challenges {
    match log
    case Undecodable => db
    case StatusChanged(status, comm, bn, tx) =>
      if status == RESOLVED_EVENT then
        match ResolvedInput(env, comm, tx)
        case None => db
        case Some(input) => db.Resolve(ChallengeKey(comm, bn), input)
      else if status == ACTIVE_EVENT then db.Create(comm, bn, number + env.cfg.resolveWindow)
      else db
  }

  function ApplyLogs(env: Env, db: Challenges, number: nat, logs: seq<Log>): Challenges {
    if logs == [] then db
    else ApplyLog(env, ApplyLogs(env, db, number, logs[..|logs| - 1]), number, logs[|logs| - 1])
  }

  /** Applying logs appends to the table and leaves both queue boundaries alone. */
  lemma {:induction false} ApplyLogsShape(env: Env, db: Challenges, number: nat, logs: seq<Log>)
    ensures var db' := ApplyLogs(env, db, number, logs);
            |db'.table| >= |db.table| && db'.pruned == db.pruned && db'.expired == db.expired
  {
    if logs != [] {
      ApplyLogsShape(env, db, number, logs[..|logs| - 1]);
    }
  }

  function ApplyBlock(env: Env, db: Challenges, number: nat, logs: seq<Log>): Challenges
    requires db.expired <= |db.table|
  {
    ApplyLogsShape(env, db, number, logs);
    ApplyLogs(env, db, number, logs).Expire(number)
  }

  /** A generic-commitment node never looks at the challenge contract. */
  function FetchLogs(env: Env, l1: L1Fetcher, block: BlockRef): Option<seq<Log>> {
    if env.cfg.commitmentType == GenericCommitmentType then Some([]) else l1.challengeLogs(block.hash)
  }

  /** The part of the manager that follows the challenge contract. */
  datatype Synced = Synced(db: Challenges, origin: BlockRef)

  function SyncTo(env: Env, v: Synced, l1: L1Fetcher, block: BlockRef): Option<Synced>
    requires v.db.expired <= |v.db.table|
  {
    if block.number <= v.origin.number then Some(v)
    else match FetchLogs(env, l1, block)
      case None => None
      case Some(logs) => Some(Synced(ApplyBlock(env, v.db, block.number, logs), block))
  }

  function View(d: DaValue): Synced {
    Synced(d.state.db, d.challengeOrigin)
  }

  function AdvanceChallengeOrigin(env: Env, d: DaValue, l1: L1Fetcher, block: BlockRef): Option<DaValue>
    requires d.state.db.expired <= |d.state.db.table|
  {
    match SyncTo(env, View(d), l1, block)
    case None => None
    case Some(v) => Some(d.(challengeOrigin := v.origin, state := d.state.(db := v.db)))
  }

  function LookAhead(env: Env, d: DaValue, l1: L1Fetcher): Option<DaValue>
    requires d.state.db.expired <= |d.state.db.table|
  {
    match l1.refByNumber(d.challengeOrigin.number + 1)
    case None => None
    case Some(block) => AdvanceChallengeOrigin(env, d, l1, block)
  }

  ghost function AdvanceCommitmentOrigin(d: DaValue, block: BlockRef): (DaValue, AdvanceResult) {
    if block.number <= d.commitmentOrigin.number then (d, Advanced)
    else
      var s := ExpireCommitments(d.state, block.number);
      if ReorgRequired(d.state, block.number) then (d.(resetting := true, state := s), ErrReorgRequired)
      else (d.(commitmentOrigin := block, state := s), Advanced)
  }

  function UpdateFinalizedFromL1(env: Env, d: DaValue, l1: L1Fetcher): (DaValue, AdvanceResult) {
    if d.l1FinalizedHead.number < env.cfg.challengeWindow then (d, Advanced)
    else match l1.refByNumber(d.l1FinalizedHead.number - env.cfg.challengeWindow)
      case None => (d, ErrL1)
      case Some(ref) => (d.(finalizedHead := ref), Advanced)
  }

  ghost function AdvanceL1Origin(env: Env, d: DaValue, l1: L1Fetcher, block: BlockRef): (DaValue, AdvanceResult)
    requires d.state.db.expired <= |d.state.db.table|
  {
    match AdvanceChallengeOrigin(env, d, l1, block)
    case None => (d, ErrL1)
    case Some(d1) =>
      var (d2, r) := AdvanceCommitmentOrigin(d1, block);
      if r != Advanced then (d2, r)
      else if NoCommitments(d2.state) then UpdateFinalizedFromL1(env, d2, l1)
      else (d2, Advanced)
  }

  function Finalize(d: DaValue, l1Finalized: BlockRef): DaValue
    requires d.state.db.pruned <= d.state.db.expired <= |d.state.db.table|
  {
    var s := Prune(d.state, l1Finalized.number);
    d.(l1FinalizedHead := l1Finalized, state := s, finalizedHead := s.lastPrunedCommitment)
  }

  /** A reset that follows an expired challenge keeps the challenges; any other reset starts over. */
  function ResetTo(d: DaValue, base: BlockRef): DaValue {
    if d.resetting then
      d.(resetting := false, commitmentOrigin := base, state := ClearCommitments(d.state))
    else
      d.(challengeOrigin := base, commitmentOrigin := base, state := Reset(d.state))
  }

  function GetInput(env: Env, d: DaValue, l1: L1Fetcher, storage: StorageResult, comm: CommitmentData, block: BlockRef)
      : (DaValue, InputResult)
    requires d.state.db.expired <= |d.state.db.table|
  {
    var key := ChallengeKey(comm, block.number);
    var status := d.state.db.StatusOf(key);
    if env.cfg.commitmentType != comm.Type() then (d, ErrExpiredChallenge)
    else if status == Expired then (d, ErrExpiredChallenge)
    else
      var d1 := d.(state := TrackCommitment(d.state, env.cfg, comm, block));
      match storage
      case StorageFailed => (d1, ErrTemporary)
      case Found(data) => (d1, Data(data))
      case NotFound =>
        if status == Uninitialized && d.challengeOrigin.number > block.number + env.cfg.challengeWindow then
          (d1, ErrMissingPastWindow)
        else if status == Resolved then
          if comm.GenericCommitment? then (d1, ErrMissingPastWindow)
          else (d1, Data(d.state.db.Lookup(key).value.input))
        else
          match LookAhead(env, d1, l1)
          case None => (d1, ErrTemporary)
          case Some(d2) => (d2, ErrPendingChallenge)
  }
}
