/** The challenge state is a function of the L1 event stream: however the pipeline interleaves
    look-ahead, normal advance and resets after an expired challenge, and whichever of its L1
    requests fail on the way, the challenges tracked at challenge origin n are those of the event
    blocks after the base up to n. */
module DaEventFold {
  import opened Bytes
  import opened Commitments
  import opened ChallengeState
  import opened DaSpec
  import opened DaRuns

  /** The canonical chain: block n has reference `refs(n)` and challenge logs `logs(n)`. */
  datatype Chain = Chain(refs: nat -> BlockRef, logs: nat -> seq<Log>)

  ghost predicate Numbered(chain: Chain) {
    forall n: nat :: chain.refs(n).number == n
  }

  /** Every answer `l1` gives agrees with the chain; any request may still fail. */
  ghost predicate Serves(env: Env, chain: Chain, l1: L1Fetcher) {
    && (forall n: nat :: l1.refByNumber(n).Some? ==> l1.refByNumber(n).value == chain.refs(n))
    && (forall n: nat :: FetchLogs(env, l1, chain.refs(n)).Some? ==>
         FetchLogs(env, l1, chain.refs(n)).value == chain.logs(n))
  }

  ghost predicate OnChain(env: Env, chain: Chain, d: DaValue, step: Step) {
    match step
    case Fetch(l1, _, _, _) => Serves(env, chain, l1)
    case Advance(l1, block) =>
      Serves(env, chain, l1) && block == chain.refs(block.number) && block.number <= d.challengeOrigin.number + 1
    case Reset(_) => d.resetting
    case Finalization(_) => false
  }

  /** No step skips an L1 block, clears the challenges or prunes them. */
  ghost predicate RunOnChain(env: Env, chain: Chain, d: DaValue, steps: seq<Step>)
    requires Inv(env, d)
    decreases |steps|
  {
    steps == [] ||
    (OnChain(env, chain, d, steps[0]) &&
     (NextKeeps(env, d, steps[0]); RunOnChain(env, chain, Next(env, d, steps[0]), steps[1..])))
  }

  /** The challenges after processing blocks base+1, ..., n one after the other. */
  function FoldTo(env: Env, chain: Chain, base: nat, n: nat): (db: Challenges)
    requires base <= n
    ensures db.expired <= |db.table|
    decreases n
  {
    if n == base then NoChallenges else ApplyBlock(env, FoldTo(env, chain, base, n - 1), n, chain.logs(n))
  }

  ghost predicate IsFold(env: Env, chain: Chain, base: nat, v: Synced) {
    base <= v.origin.number && v == Synced(FoldTo(env, chain, base, v.origin.number), chain.refs(v.origin.number))
  }

  lemma SyncToIsFold(env: Env, chain: Chain, base: nat, v: Synced, l1: L1Fetcher, block: BlockRef)
    requires Numbered(chain) && Serves(env, chain, l1) && IsFold(env, chain, base, v)
    requires block == chain.refs(block.number) && block.number <= v.origin.number + 1
    ensures v.db.expired <= |v.db.table|
    ensures SyncTo(env, v, l1, block).Some? ==> IsFold(env, chain, base, SyncTo(env, v, l1, block).value)
  {
    hide ApplyBlock;
  }

  lemma NextIsFold(env: Env, chain: Chain, base: nat, d: DaValue, step: Step)
    requires Inv(env, d) && Numbered(chain)
    requires IsFold(env, chain, base, View(d)) && OnChain(env, chain, d, step)
    ensures IsFold(env, chain, base, View(Next(env, d, step)))
  {
    NextView(env, d, step);
    hide Next;
    hide SyncTo;
    hide FoldTo;
    match step
    case Fetch(l1, storage, comm, block) =>
      var ref := l1.refByNumber(d.challengeOrigin.number + 1);
      if ref.Some? {
        assert ref.value == chain.refs(d.challengeOrigin.number + 1);
        SyncToIsFold(env, chain, base, View(d), l1, ref.value);
      }
    case Advance(l1, block) => SyncToIsFold(env, chain, base, View(d), l1, block);
    case Reset(_) =>
  }

  /** Two runs from the same base that reach the same challenge origin have equal challenge state. */
  lemma {:induction false} ChallengesAreEventFold(env: Env, chain: Chain, base: nat, d: DaValue, steps: seq<Step>)
    requires Inv(env, d) && Numbered(chain)
    requires IsFold(env, chain, base, View(d)) && RunOnChain(env, chain, d, steps)
    ensures IsFold(env, chain, base, View(Run(env, d, steps)))
    decreases |steps|
  {
    if steps != [] {
      NextKeeps(env, d, steps[0]);
      NextIsFold(env, chain, base, d, steps[0]);
      ChallengesAreEventFold(env, chain, base, Next(env, d, steps[0]), steps[1..]);
    }
  }
}
