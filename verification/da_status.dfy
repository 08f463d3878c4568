/** The status of every challenge, read off the L1 event stream alone. */
module DaStatus {
  import opened Bytes
  import opened Commitments
  import opened ChallengeState
  import opened DaSpec
  import opened DaRuns
  import opened DaEventFold

  datatype Event = Event(number: nat, log: Log)

  ghost predicate Opens(e: Event, key: string) {
    e.log.StatusChanged? && e.log.status == ACTIVE_EVENT && ChallengeKey(e.log.comm, e.log.commBlockNumber) == key
  }

  /** What proves a resolution: any transaction that can be fetched in generic mode; in keccak mode one whose
      calldata decodes to an input that is not empty and, for a keccak commitment, has its hash. */
  ghost predicate Proves(env: Env, comm: CommitmentData, tx: ResolveTx) {
    match tx
    case TxUnavailable => false
    case BadCalldata => env.cfg.commitmentType == GenericCommitmentType
    case Calldata(input) =>
      env.cfg.commitmentType == GenericCommitmentType
      || (input != [] && (comm == Keccak256Commitment(env.keccak(input)) || comm.GenericCommitment?))
  }

  /** A resolve event with its proof. */
  ghost predicate Resolves(env: Env, e: Event, key: string) {
    && e.log.StatusChanged? && e.log.status == RESOLVED_EVENT
    && ChallengeKey(e.log.comm, e.log.commBlockNumber) == key
    && Proves(env, e.log.comm, e.log.tx)
  }

  function Tagged(n: nat, logs: seq<Log>): (es: seq<Event>)
    ensures |es| == |logs| && forall i :: 0 <= i < |es| ==> es[i] == Event(n, logs[i])
  {
    seq(|logs|, i requires 0 <= i < |logs| => Event(n, logs[i]))
  }

  /** All events of blocks base+1, ..., n in order. */
  function Stream(chain: Chain, base: nat, n: nat): seq<Event>
    requires base <= n
    decreases n
  {
    if n == base then [] else Stream(chain, base, n - 1) + Tagged(n, chain.logs(n))
  }

  /** Event j is the last challenge of `key`. */
  ghost predicate LastChallenge(es: seq<Event>, key: string, j: int) {
    && 0 <= j < |es| && Opens(es[j], key)
    && forall p :: j < p < |es| ==> !Opens(es[p], key)
  }

  ghost predicate ResolvedAfter(env: Env, es: seq<Event>, key: string, j: int) {
    exists p :: 0 <= j < p < |es| && Resolves(env, es[p], key)
  }

  ghost function StatusAt(env: Env, es: seq<Event>, key: string, j: int, n: nat): Status
    requires 0 <= j < |es|
  {
    if ResolvedAfter(env, es, key, j) then Resolved
    else if es[j].number + env.cfg.resolveWindow <= n then Expired
    else Active
  }

  /** The index leads from a key exactly to its last challenge in the stream, whose entry has the
      deadline and the status the stream dictates at block n. */
  ghost predicate Reflects(env: Env, db: Challenges, es: seq<Event>, n: nat) {
    && db.pruned == 0
    && (forall key :: key in db.index ==> exists j :: LastChallenge(es, key, j))
    && (forall key, j :: LastChallenge(es, key, j) ==>
         && db.Lookup(key).Some?
         && db.Lookup(key).value.resolveWindowEnd == es[j].number + env.cfg.resolveWindow
         && db.Lookup(key).value.status == StatusAt(env, es, key, j, n))
    && (forall i :: 0 <= i < |db.table| ==> db.table[i].Key() in db.index && i <= db.index[db.table[i].Key()])
  }

  /** How the last challenge of a key, and whether it was resolved, change with one more event. */
  lemma StreamStep(env: Env, es: seq<Event>, e: Event, key: string, j: int)
    ensures j < |es| ==> (LastChallenge(es + [e], key, j) <==> LastChallenge(es, key, j) && !Opens(e, key))
    ensures LastChallenge(es + [e], key, |es|) <==> Opens(e, key)
    ensures 0 <= j < |es| ==> (ResolvedAfter(env, es + [e], key, j) <==> ResolvedAfter(env, es, key, j) || Resolves(env, e, key))
    ensures !ResolvedAfter(env, es + [e], key, |es|)
  {
    hide Opens;
    hide Resolves;
    var es' := es + [e];
    assert forall p :: 0 <= p < |es| ==> es'[p] == es[p];
    assert es'[|es|] == e;
    if 0 <= j < |es| {
      if ResolvedAfter(env, es, key, j) {
        var p :| j < p < |es| && Resolves(env, es[p], key);
        assert Resolves(env, es'[p], key);
      }
      if Resolves(env, e, key) {
        assert Resolves(env, es'[|es|], key);
      }
    }
  }

  lemma ReflectsLog(env: Env, db: Challenges, es: seq<Event>, n: nat, e: Event)
    requires db.Wf() && Reflects(env, db, es, n) && n < e.number
    ensures Reflects(env, ApplyLog(env, db, e.number, e.log), es + [e], n)
  {
    var db', es' := ApplyLog(env, db, e.number, e.log), es + [e];
    hide ChallengeKey;
    hide StatusAt;
    forall key, j | LastChallenge(es', key, j)
      ensures db'.Lookup(key).Some?
      ensures db'.Lookup(key).value.resolveWindowEnd == es'[j].number + env.cfg.resolveWindow
      ensures db'.Lookup(key).value.status == StatusAt(env, es', key, j, n)
    {
      EntryReflectsLog(env, db, es, n, e, key, j);
    }
    IndexedHasLast(env, db, es, n, e);
    hide LastChallenge;
    CoveredAfterLog(env, db, e);
  }

  /** Each entry of the table stays covered by the index. */
  lemma CoveredAfterLog(env: Env, db: Challenges, e: Event)
    requires db.Wf() && forall i :: 0 <= i < |db.table| ==> db.table[i].Key() in db.index && i <= db.index[db.table[i].Key()]
    ensures var db' := ApplyLog(env, db, e.number, e.log);
            forall i :: 0 <= i < |db'.table| ==> db'.table[i].Key() in db'.index && i <= db'.index[db'.table[i].Key()]
  {
    hide ChallengeKey;
  }

  lemma EntryReflectsLog(env: Env, db: Challenges, es: seq<Event>, n: nat, e: Event, key: string, j: int)
    requires db.Wf() && Reflects(env, db, es, n) && n < e.number && LastChallenge(es + [e], key, j)
    ensures var found := ApplyLog(env, db, e.number, e.log).Lookup(key);
            && found.Some? && found.value.resolveWindowEnd == (es + [e])[j].number + env.cfg.resolveWindow
            && found.value.status == StatusAt(env, es + [e], key, j, n)
  {
    hide ChallengeKey;
    StreamStep(env, es, e, key, j);
    assert j < |es| ==> LastChallenge(es, key, j);
    hide LastChallenge;
    hide ResolvedAfter;
  }

  lemma IndexedHasLast(env: Env, db: Challenges, es: seq<Event>, n: nat, e: Event)
    requires db.Wf() && Reflects(env, db, es, n)
    ensures forall key :: key in ApplyLog(env, db, e.number, e.log).index ==> exists j :: LastChallenge(es + [e], key, j)
  {
    hide ChallengeKey;
    forall key | key in ApplyLog(env, db, e.number, e.log).index
      ensures exists j :: LastChallenge(es + [e], key, j)
    {
      if Opens(e, key) {
        StreamStep(env, es, e, key, |es|);
      } else {
        var j :| LastChallenge(es, key, j);
        StreamStep(env, es, e, key, j);
      }
    }
  }

  lemma {:induction false} ReflectsLogs(env: Env, db: Challenges, es: seq<Event>, n: nat, block: nat, logs: seq<Log>)
    requires n < block && QueuesSplitAt(env, db, n, block) && Reflects(env, db, es, n)
    ensures Reflects(env, ApplyLogs(env, db, block, logs), es + Tagged(block, logs), n)
  {
    hide ChallengeKey;
    hide Reflects;
    hide ApplyLog;
    if logs == [] {
      assert es + Tagged(block, logs) == es;
    } else {
      var k := |logs| - 1;
      ReflectsLogs(env, db, es, n, block, logs[..k]);
      ApplyLogsKeeps(env, db, n, block, logs[..k]);
      ReflectsLog(env, ApplyLogs(env, db, block, logs[..k]), es + Tagged(block, logs[..k]), n, Event(block, logs[k]));
      assert es + Tagged(block, logs) == (es + Tagged(block, logs[..k])) + [Event(block, logs[k])];
    }
  }

  /** Expiring at block n turns exactly the unresolved challenges whose window is over into expired ones. */
  lemma ReflectsExpire(env: Env, db: Challenges, es: seq<Event>, m: nat, n: nat)
    requires m <= n && QueuesSplitAt(env, db, m, n) && Reflects(env, db, es, m)
    ensures Reflects(env, db.Expire(n), es, n)
  {
    hide ChallengeKey;
    hide Opens;
    hide ResolvedAfter;
    hide FirstOpen;
    var db' := db.Expire(n);
    forall i | 0 <= i < |db.table|
      ensures db'.table[i].Key() == db.table[i].Key()
      ensures db'.table[i].resolveWindowEnd == db.table[i].resolveWindowEnd
      ensures db'.table[i].status == if db.table[i].status == Active && db.table[i].resolveWindowEnd <= n then Expired else db.table[i].status
    {
    }
    forall key, j | LastChallenge(es, key, j)
      ensures db'.Lookup(key).Some?
      ensures db'.Lookup(key).value.resolveWindowEnd == es[j].number + env.cfg.resolveWindow
      ensures db'.Lookup(key).value.status == StatusAt(env, es, key, j, n)
    {
    }
  }

  lemma BlockReflects(env: Env, db: Challenges, es: seq<Event>, n: nat, logs: seq<Log>)
    requires 0 < n && QueuesSplitAt(env, db, n - 1, n - 1) && Reflects(env, db, es, n - 1)
    ensures db.Wf() && QueuesSplitAt(env, ApplyBlock(env, db, n, logs), n, n)
    ensures Reflects(env, ApplyBlock(env, db, n, logs), es + Tagged(n, logs), n)
  {
    hide Reflects;
    GoodShape(env, Synced(db, BlockRef(0, n - 1)));
    hide QueuesSplitAt;
    hide ChallengeKey;
    hide Challenges.Expire;
    Widen(env, db, n - 1, n - 1, n);
    ApplyLogsKeeps(env, db, n - 1, n, logs);
    ReflectsLogs(env, db, es, n - 1, n, logs);
    ExpireKeeps(env, ApplyLogs(env, db, n, logs), n - 1, n);
    ReflectsExpire(env, ApplyLogs(env, db, n, logs), es + Tagged(n, logs), n - 1, n);
  }

  lemma {:induction false} FoldReflectsStream(env: Env, chain: Chain, base: nat, n: nat)
    requires base <= n
    ensures QueuesSplitAt(env, FoldTo(env, chain, base, n), n, n)
    ensures Reflects(env, FoldTo(env, chain, base, n), Stream(chain, base, n), n)
    decreases n
  {
    if n == base {
    } else {
      FoldReflectsStream(env, chain, base, n - 1);
      BlockReflects(env, FoldTo(env, chain, base, n - 1), Stream(chain, base, n - 1), n, chain.logs(n));
      hide Reflects;
      hide QueuesSplitAt;
      hide ApplyBlock;
    }
  }

  /** After any run on the chain the status of a key is the one the events of the blocks
      base+1, ..., challengeOrigin dictate, and both queues hold what those blocks dictate. */
  lemma StatusIsDictatedByEvents(env: Env, chain: Chain, base: nat, d: DaValue, steps: seq<Step>, key: string)
    requires Inv(env, d) && Numbered(chain)
    requires IsFold(env, chain, base, View(d)) && RunOnChain(env, chain, d, steps)
    ensures var d' := Run(env, d, steps);
            var n := d'.challengeOrigin.number;
            && base <= n
            && var es := Stream(chain, base, n);
               && QueuesSplitAt(env, d'.state.db, n, n)
               && ((forall j :: !LastChallenge(es, key, j)) ==> d'.state.db.StatusOf(key) == Uninitialized)
               && forall j :: LastChallenge(es, key, j) ==> d'.state.db.StatusOf(key) == StatusAt(env, es, key, j, n)
  {
    ChallengesAreEventFold(env, chain, base, d, steps);
    FoldReflectsStream(env, chain, base, Run(env, d, steps).challengeOrigin.number);
    hide LastChallenge;
    hide StatusAt;
    hide FoldTo;
    hide QueuesSplitAt;
    hide Run;
  }

  /** Where no key is challenged twice, the index leads to every tracked challenge and nowhere else. */
  lemma IndexCoversQueues(env: Env, chain: Chain, base: nat, n: nat)
    requires base <= n
    requires var t := FoldTo(env, chain, base, n).table;
             forall i, j :: 0 <= i < j < |t| ==> t[i].Key() != t[j].Key()
    ensures var db := FoldTo(env, chain, base, n);
            && (forall i :: 0 <= i < |db.table| ==> db.table[i].Key() in db.index && db.index[db.table[i].Key()] == i)
            && (forall key :: key in db.index ==> db.index[key] < |db.table| && db.table[db.index[key]].Key() == key)
  {
    FoldReflectsStream(env, chain, base, n);
    hide ChallengeKey;
    hide FoldTo;
    hide LastChallenge;
  }
}
