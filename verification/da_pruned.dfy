/** The event fold when challenges are pruned on the way: what is left of the challenges is what the
    events dictate, and what is gone had its resolve window end before a finalized block. */
module DaPruned {
  import opened Bytes
  import opened Commitments
  import opened ChallengeState
  import opened DaSpec
  import opened DaRuns
  import opened DaEventFold
  import opened DaStatus

  ghost predicate SameTable(db: Challenges, full: Challenges, high: nat) {
    && |db.table| == |full.table| && db.expired == full.expired && db.pruned <= db.expired <= |db.table|
    && (forall i :: db.pruned <= i < |db.table| ==> db.table[i] == full.table[i])
    && (forall i :: 0 <= i < db.pruned ==> full.table[i].resolveWindowEnd <= high)
  }

  ghost predicate SameIndex(db: Challenges, full: Challenges) {
    && (forall k :: k in full.index ==> full.index[k] < |full.table|)
    && (forall k :: k in db.index ==> k in full.index && db.index[k] == full.index[k] >= db.pruned)
    && (forall k :: k in full.index && full.index[k] >= db.pruned ==> k in db.index)
  }

  /** `db` is `full` without the challenges before `db.pruned`, none of which was open after `high`. */
  ghost predicate Agrees(db: Challenges, full: Challenges, high: nat) {
    SameTable(db, full, high) && SameIndex(db, full)
  }

  lemma LogAgrees(env: Env, db: Challenges, full: Challenges, high: nat, n: nat, log: Log)
    requires Agrees(db, full, high)
    ensures Agrees(ApplyLog(env, db, n, log), ApplyLog(env, full, n, log), high)
  {
    hide ChallengeKey;
  }

  lemma {:induction false} LogsAgree(env: Env, db: Challenges, full: Challenges, high: nat, n: nat, logs: seq<Log>)
    requires Agrees(db, full, high)
    ensures Agrees(ApplyLogs(env, db, n, logs), ApplyLogs(env, full, n, logs), high)
  {
    hide ApplyLog;
    hide Agrees;
    if logs != [] {
      var k := |logs| - 1;
      LogsAgree(env, db, full, high, n, logs[..k]);
      LogAgrees(env, ApplyLogs(env, db, n, logs[..k]), ApplyLogs(env, full, n, logs[..k]), high, n, logs[k]);
    }
  }

  /** The boundary of the open challenges depends only on what lies behind it. */
  lemma {:induction false} SameBoundary(a: seq<ChallengeValue>, b: seq<ChallengeValue>, from: nat, n: nat)
    requires |a| == |b| && from <= |a| && forall i :: from <= i < |a| ==> a[i] == b[i]
    ensures FirstOpen(a, from, n) == FirstOpen(b, from, n)
    decreases |a| - from
  {
    if from < |a| {
      SameBoundary(a, b, from + 1, n);
    }
  }

  lemma ExpireAgrees(db: Challenges, full: Challenges, high: nat, n: nat)
    requires Agrees(db, full, high)
    ensures Agrees(db.Expire(n), full.Expire(n), high)
  {
    SameBoundary(db.table, full.table, db.expired, n);
    hide FirstOpen;
    hide ChallengeKey;
  }

  lemma BlockAgrees(env: Env, db: Challenges, full: Challenges, high: nat, n: nat, logs: seq<Log>)
    requires Agrees(db, full, high) && db.expired <= |db.table| && full.expired <= |full.table|
    ensures Agrees(ApplyBlock(env, db, n, logs), ApplyBlock(env, full, n, logs), high)
  {
    hide Agrees;
    LogsAgree(env, db, full, high, n, logs);
    ApplyLogsShape(env, db, n, logs);
    ApplyLogsShape(env, full, n, logs);
    hide ApplyLogs;
    ExpireAgrees(ApplyLogs(env, db, n, logs), ApplyLogs(env, full, n, logs), high, n);
    hide Challenges.Expire;
  }

  ghost predicate Once(full: Challenges) {
    forall i, j :: 0 <= i < j < |full.table| ==> full.table[i].Key() != full.table[j].Key()
  }

  /** Where no key is challenged twice, pruning removes exactly the index entries of what it prunes. */
  lemma PruneAgrees(db: Challenges, full: Challenges, high: nat, n: nat)
    requires Agrees(db, full, high) && Once(full)
    requires forall k :: k in full.index ==> full.table[full.index[k]].Key() == k
    ensures Agrees(db.Prune(n), full, if n > high then n else high)
  {
    hide ChallengeKey;
    hide SameIndex;
    hide KeysOf;
    PruneIndex(db, full, high, n);
  }

  lemma PruneIndex(db: Challenges, full: Challenges, high: nat, n: nat)
    requires Agrees(db, full, high) && Once(full)
    requires forall k :: k in full.index ==> full.table[full.index[k]].Key() == k
    ensures SameIndex(db.Prune(n), full)
  {
    hide ChallengeKey;
    hide KeysOf;
    var p := FirstOpen(db.table[..db.expired], db.pruned, n);
    PrunedKeys(db, p);
    hide FirstOpen;
    forall k | k in db.index
      ensures k in KeysOf(db.table[db.pruned..p]) <==> db.index[k] < p
    {
      assert db.table[db.index[k]].Key() == k;
    }
    hide Once;
  }

  lemma PrunedKeys(db: Challenges, p: nat)
    requires db.pruned <= p <= |db.table|
    ensures forall i :: db.pruned <= i < p ==> db.table[i].Key() in KeysOf(db.table[db.pruned..p])
    ensures forall k :: k in KeysOf(db.table[db.pruned..p]) ==> exists i :: db.pruned <= i < p && db.table[i].Key() == k
  {
    hide ChallengeKey;
    var window := db.table[db.pruned..p];
    forall i | db.pruned <= i < p
      ensures db.table[i].Key() in KeysOf(window)
    {
      assert window[i - db.pruned] == db.table[i];
    }
    forall k | k in KeysOf(window)
      ensures exists i :: db.pruned <= i < p && db.table[i].Key() == k
    {
      var c :| c in window && c.Key() == k;
      var i :| 0 <= i < |window| && window[i] == c;
      assert db.table[db.pruned + i].Key() == k;
    }
  }

  /** No step skips an L1 block or clears the challenges; L1 finality may come at any time. */
  ghost predicate PrunedRunOnChain(env: Env, chain: Chain, d: DaValue, steps: seq<Step>)
    requires Inv(env, d)
    decreases |steps|
  {
    steps == [] ||
    ((steps[0].Finalization? || OnChain(env, chain, d, steps[0])) &&
     (NextKeeps(env, d, steps[0]); PrunedRunOnChain(env, chain, Next(env, d, steps[0]), steps[1..])))
  }

  /** The highest block passed to Finalize. */
  function Finalized(high: nat, steps: seq<Step>): nat
    decreases |steps|
  {
    if steps == [] then high
    else
      var f := if steps[0].Finalization? && steps[0].l1Finalized.number > high then steps[0].l1Finalized.number else high;
      Finalized(f, steps[1..])
  }

  ghost predicate NeverTwice(env: Env, chain: Chain, base: nat) {
    forall n: nat :: base <= n ==> Once(FoldTo(env, chain, base, n))
  }

  ghost predicate IsPrunedFold(env: Env, chain: Chain, base: nat, high: nat, v: Synced) {
    && base <= v.origin.number && v.origin == chain.refs(v.origin.number)
    && Agrees(v.db, FoldTo(env, chain, base, v.origin.number), high)
  }

  lemma SyncToAgrees(env: Env, chain: Chain, base: nat, high: nat, v: Synced, l1: L1Fetcher, block: BlockRef)
    requires Numbered(chain) && Serves(env, chain, l1) && IsPrunedFold(env, chain, base, high, v)
    requires block == chain.refs(block.number) && block.number <= v.origin.number + 1
    ensures v.db.expired <= |v.db.table|
    ensures SyncTo(env, v, l1, block).Some? ==> IsPrunedFold(env, chain, base, high, SyncTo(env, v, l1, block).value)
  {
    var n := v.origin.number;
    if block.number > n && FetchLogs(env, l1, block).Some? {
      BlockAgrees(env, v.db, FoldTo(env, chain, base, n), high, n + 1, chain.logs(n + 1));
    }
    hide ApplyBlock;
    hide Agrees;
    assert v.db.expired <= |v.db.table| by { Boundaries(v.db, FoldTo(env, chain, base, n), high); }
  }

  lemma Boundaries(db: Challenges, full: Challenges, high: nat)
    requires Agrees(db, full, high)
    ensures db.expired <= |db.table|
  {
  }

  lemma FinalizationAgrees(env: Env, chain: Chain, base: nat, high: nat, v: Synced, f: nat)
    requires IsPrunedFold(env, chain, base, high, v) && NeverTwice(env, chain, base)
    ensures v.db.pruned <= v.db.expired <= |v.db.table|
    ensures IsPrunedFold(env, chain, base, if f > high then f else high, Synced(v.db.Prune(f), v.origin))
  {
    var full := FoldTo(env, chain, base, v.origin.number);
    IndexCoversQueues(env, chain, base, v.origin.number);
    hide FoldTo;
    hide ChallengeKey;
    PruneAgrees(v.db, full, high, f);
  }

  lemma NextIsPrunedFold(env: Env, chain: Chain, base: nat, high: nat, d: DaValue, step: Step)
    requires Inv(env, d) && Numbered(chain) && NeverTwice(env, chain, base)
    requires IsPrunedFold(env, chain, base, high, View(d)) && (step.Finalization? || OnChain(env, chain, d, step))
    ensures IsPrunedFold(env, chain, base, Finalized(high, [step]), View(Next(env, d, step)))
  {
    hide FoldTo;
    hide Agrees;
    hide NeverTwice;
    NextView(env, d, step);
    hide Next;
    hide SyncTo;
    hide Inv;
    assert [step][1..] == [];
    match step
    case Fetch(l1, storage, comm, block) =>
      var ref := l1.refByNumber(d.challengeOrigin.number + 1);
      if ref.Some? {
        SyncToAgrees(env, chain, base, high, View(d), l1, ref.value);
      }
    case Advance(l1, block) => SyncToAgrees(env, chain, base, high, View(d), l1, block);
    case Reset(_) =>
    case Finalization(f) => FinalizationAgrees(env, chain, base, high, View(d), f.number);
  }

  lemma {:induction false} PrunedRunIsFold(env: Env, chain: Chain, base: nat, high: nat, d: DaValue, steps: seq<Step>)
    requires Inv(env, d) && Numbered(chain) && NeverTwice(env, chain, base)
    requires IsPrunedFold(env, chain, base, high, View(d)) && PrunedRunOnChain(env, chain, d, steps)
    ensures IsPrunedFold(env, chain, base, Finalized(high, steps), View(Run(env, d, steps)))
    decreases |steps|
  {
    hide NeverTwice;
    hide Numbered;
    hide OnChain;
    hide IsPrunedFold;
    if steps != [] {
      NextKeeps(env, d, steps[0]);
      NextIsPrunedFold(env, chain, base, high, d, steps[0]);
      hide Next;
      hide Inv;
      assert [steps[0]][1..] == [];
      PrunedRunIsFold(env, chain, base, Finalized(high, [steps[0]]), Next(env, d, steps[0]), steps[1..]);
    }
  }

  /** After any run on a chain that challenges no key twice, with L1 finality at any points: a key that
      is still indexed has the status its events dictate, and a challenged key that is not any more had
      its resolve window end at or before a finalized block. */
  lemma StatusSurvivesPruning(env: Env, chain: Chain, base: nat, d: DaValue, steps: seq<Step>, key: string, j: int)
    requires Inv(env, d) && Numbered(chain) && NeverTwice(env, chain, base)
    requires IsFold(env, chain, base, View(d)) && PrunedRunOnChain(env, chain, d, steps)
    requires var n := Run(env, d, steps).challengeOrigin.number;
             base <= n && LastChallenge(Stream(chain, base, n), key, j)
    ensures var d' := Run(env, d, steps);
            var n := d'.challengeOrigin.number;
            var es := Stream(chain, base, n);
            if key in d'.state.db.index then d'.state.db.StatusOf(key) == StatusAt(env, es, key, j, n)
            else es[j].number + env.cfg.resolveWindow <= Finalized(0, steps)
  {
    FoldAgreesWithItself(env, chain, base, d.challengeOrigin.number);
    assert IsPrunedFold(env, chain, base, 0, View(d));
    PrunedRunIsFold(env, chain, base, 0, d, steps);
    var d' := Run(env, d, steps);
    var n := d'.challengeOrigin.number;
    hide Run;
    hide PrunedRunOnChain;
    hide NeverTwice;
    FoldReflectsStream(env, chain, base, n);
    AgreeingStatus(d'.state.db, FoldTo(env, chain, base, n), Finalized(0, steps), key);
    hide FoldTo;
    hide Agrees;
    hide Inv;
    hide LastChallenge;
    hide StatusAt;
    hide Finalized;
  }

  lemma FoldAgreesWithItself(env: Env, chain: Chain, base: nat, n: nat)
    requires base <= n
    ensures Agrees(FoldTo(env, chain, base, n), FoldTo(env, chain, base, n), 0)
  {
    FoldReflectsStream(env, chain, base, n);
    hide FoldTo;
    hide LastChallenge;
    hide ChallengeKey;
  }

  lemma AgreeingStatus(db: Challenges, full: Challenges, high: nat, key: string)
    requires Agrees(db, full, high) && key in full.index
    ensures full.Lookup(key).Some?
    ensures if key in db.index then db.Lookup(key) == full.Lookup(key) else full.Lookup(key).value.resolveWindowEnd <= high
  {
  }
}
