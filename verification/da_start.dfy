/** Where runs start: a new manager and a manager after a full reset meet the initial conditions of
    every theorem about runs. */
module DaStart {
  import opened ChallengeState
  import opened DaSpec
  import opened DaRuns
  import opened DaEventFold
  import opened DaReorg
  import opened DaIntegrity
  import opened DaExpiry
  import opened DaFinality
  import opened DaWindows

  ghost predicate Fresh(env: Env, d: DaValue, base: BlockRef) {
    && Inv(env, d)
    && View(d) == Synced(NoChallenges, base)
    && Settled(d, {}) && Verified(env, d.state.db) && ExpiredAreClosed(env, d) && ExpiredArePast(env, d)
    && FinalityInv(env, d, 0)
    && forall chain: Chain :: chain.refs(base.number) == base ==> IsFold(env, chain, base.number, View(d))
  }

  lemma NewIsFresh(env: Env)
    ensures Fresh(env, NewDa, BlockRef(0, 0))
  {
  }

  /** A full reset forgets everything, whatever the state before it was. */
  lemma FullResetIsFresh(env: Env, d: DaValue, base: BlockRef)
    requires !d.resetting
    ensures Fresh(env, ResetTo(d, base), base)
  {
  }

  /** A reset that follows an expired challenge keeps the challenges and drops the commitments, and
      the next reset is a full one again. */
  lemma SoftResetKeepsChallenges(d: DaValue, base: BlockRef)
    requires d.resetting
    ensures View(ResetTo(d, base)) == View(d) && !ResetTo(d, base).resetting
    ensures Tracked(ResetTo(d, base)) == []
  {
  }
}
