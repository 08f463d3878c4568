/** op-alt-da/dastate.go: the `State` object, whose queues and index share mutable `Challenge`
    objects.  Every method is proved equal to the function of the same name on the abstract
    contents. */
module DaState {
  import opened Bytes
  import opened Commitments
  import opened ChallengeState

  class Challenge {
    const commData: CommitmentData
    const commInclusionBlockNumber: nat
    const resolveWindowEnd: nat
    var input: seq<byte>
    var challengeStatus: Status
    ghost const position: nat  // creation order since the last Reset

    constructor (commData: CommitmentData, commInclusionBlockNumber: nat, resolveWindowEnd: nat, ghost position: nat)
      ensures this.position == position
      ensures Value() == ChallengeValue(commData, commInclusionBlockNumber, resolveWindowEnd, [], Active)
    {
      hide ChallengeKey;
      this.commData := commData;
      this.commInclusionBlockNumber := commInclusionBlockNumber;
      this.resolveWindowEnd := resolveWindowEnd;
      this.position := position;
      input := [];
      challengeStatus := Active;
    }

    function Key(): string {
      ChallengeKey(commData, commInclusionBlockNumber)
    }

    ghost function Value(): ChallengeValue
      reads this
    {
      ChallengeValue(commData, commInclusionBlockNumber, resolveWindowEnd, input, challengeStatus)
    }
  }

  class State {
    const cfg: Config
    var commitments: seq<Commitment>
    var expiredCommitments: seq<Commitment>
    var challenges: seq<Challenge>
    var expiredChallenges: seq<Challenge>
    var challengesMap: map<string, Challenge>
    var lastPrunedCommitment: BlockRef
    // every challenge created since the last Reset, and the abstract challenge table
    ghost var history: seq<Challenge>
    ghost var db: Challenges

    ghost predicate ValidQueues()
      reads `challenges, `expiredChallenges, `history, `db, history
    {
      && |history| == |db.table|
      && db.pruned <= db.expired <= |history|
      && expiredChallenges == history[db.pruned..db.expired]
      && challenges == history[db.expired..]
      && forall i :: 0 <= i < |history| ==> history[i].position == i && history[i].Value() == db.table[i]
    }

    ghost predicate ValidIndex()
      reads `challengesMap, `history, `db
    {
      && db.index.Keys == challengesMap.Keys
      && forall k :: k in db.index ==>
           && db.pruned <= db.index[k] < |history|
           && challengesMap[k] == history[db.index[k]]
           && challengesMap[k].Key() == k
    }

    ghost predicate Valid()
      reads `challenges, `expiredChallenges, `challengesMap, `history, `db, history
    {
      ValidQueues() && ValidIndex()
    }

    ghost function Contents(): StateValue
      reads this
    {
      StateValue(commitments, expiredCommitments, db, lastPrunedCommitment)
    }

    // what the loops need to know of `Valid`
    lemma Heads()
      requires Valid()
      ensures db.Wf() && |history| == |db.table|
      ensures |expiredChallenges| == db.expired - db.pruned && |challenges| == |db.table| - db.expired
      ensures |expiredChallenges| > 0 ==> expiredChallenges[0].Value() == db.table[db.pruned]
      ensures |challenges| > 0 ==> challenges[0].Value() == db.table[db.expired]
    {
      hide ChallengeKey;
    }

    constructor (cfg: Config)
      ensures Valid() && history == [] && this.cfg == cfg
      ensures Contents() == EmptyState
    {
      this.cfg := cfg;
      commitments, expiredCommitments, challenges, expiredChallenges := [], [], [], [];
      challengesMap := map[];
      lastPrunedCommitment := BlockRef(0, 0);
      history, db := [], NoChallenges;
    }

    method ClearCommitments()
      requires Valid()
      modifies `commitments, `expiredCommitments
      ensures Valid()
      ensures Contents() == ChallengeState.ClearCommitments(old(Contents()))
    {
      hide Valid;
      commitments := [];
      expiredCommitments := [];
    }

    method Reset()
      requires Valid()
      modifies this
      ensures Valid() && history == []
      ensures Contents() == ChallengeState.Reset(old(Contents()))
    {
      hide ChallengeKey;
      commitments, expiredCommitments := [], [];
      challenges, expiredChallenges := [], [];
      challengesMap := map[];
      history, db := [], NoChallenges;
    }

    method CreateChallenge(comm: CommitmentData, inclusionBlock: BlockRef, commBlockNumber: nat)
      requires Valid()
      modifies `challenges, `challengesMap, `history, `db
      ensures Valid() && |history| == |old(history)| + 1 && old(history) < history && fresh(history[|old(history)|])
      ensures db == old(db).Create(comm, commBlockNumber, inclusionBlock.number + cfg.resolveWindow)
    {
      hide ChallengeKey;
      hide ValidQueues;
      hide ValidIndex;
      var c := new Challenge(comm, commBlockNumber, inclusionBlock.number + cfg.resolveWindow, |history|);
      Append(c);
      Index(c);
    }

    // the queue half of CreateChallenge
    method Append(c: Challenge)
      requires Valid() && c.position == |history|
      modifies `challenges, `history, `db
      ensures Valid() && history == old(history) + [c] && db.pruned < |history| == |db.table|
      ensures db == old(db).(table := old(db).table + [c.Value()])
    {
      hide ChallengeKey;
      challenges := challenges + [c];
      history, db := history + [c], db.(table := db.table + [c.Value()]);
    }

    // the map half of CreateChallenge
    method Index(c: Challenge)
      requires Valid() && db.pruned <= c.position < |history| == |db.table| && history[c.position] == c
      modifies `challengesMap, `db
      ensures Valid() && db == old(db).(index := old(db).index[c.Key() := c.position])
    {
      hide ChallengeKey;
      challengesMap := challengesMap[c.Key() := c];
      db := db.(index := db.index[c.Key() := c.position]);
      assert ValidQueues();
      hide ValidQueues;
    }

    method ResolveChallenge(comm: CommitmentData, commBlockNumber: nat, input: seq<byte>) returns (ok: bool)
      requires Valid()
      modifies `db, history
      ensures Valid()
      ensures ok == old(db).Lookup(ChallengeKey(comm, commBlockNumber)).Some?
      ensures db == old(db).Resolve(ChallengeKey(comm, commBlockNumber), input)
    {
      hide ChallengeKey;
      var key := ChallengeKey(comm, commBlockNumber);
      ok := key in challengesMap;
      if ok {
        var c := challengesMap[key];
        c.input := input;
        c.challengeStatus := Resolved;
        db := db.Resolve(key, input);
      }
    }

    method TrackCommitment(comm: CommitmentData, inclusionBlock: BlockRef)
      requires Valid()
      modifies `commitments
      ensures Valid()
      ensures Contents() == ChallengeState.TrackCommitment(old(Contents()), cfg, comm, inclusionBlock)
    {
      hide Valid;
      commitments := commitments + [Commitment(comm, inclusionBlock, inclusionBlock.number + cfg.challengeWindow)];
    }

    method GetChallenge(comm: CommitmentData, commBlockNumber: nat) returns (ok: bool, c: Challenge?)
      requires Valid()
      ensures ok == (c != null)
      ensures c != null ==> db.Lookup(ChallengeKey(comm, commBlockNumber)) == Some(c.Value())
      ensures c == null ==> db.Lookup(ChallengeKey(comm, commBlockNumber)) == None
    {
      hide ChallengeKey;
      var key := ChallengeKey(comm, commBlockNumber);
      ok := key in challengesMap;
      c := if ok then challengesMap[key] else null;
    }

    method GetChallengeStatus(comm: CommitmentData, commBlockNumber: nat) returns (status: Status)
      requires Valid()
      ensures status == db.StatusOf(ChallengeKey(comm, commBlockNumber))
    {
      hide ChallengeKey;
      hide Valid;
      var ok, c := GetChallenge(comm, commBlockNumber);
      if ok {
        return c.challengeStatus;
      }
      status := Uninitialized;
    }

    method NoCommitments() returns (b: bool)
      requires Valid()
      ensures b == ChallengeState.NoCommitments(Contents())
    {
      hide Valid;
      Heads();
      b := |challenges| == 0 && |expiredChallenges| == 0 && |commitments| == 0 && |expiredCommitments| == 0;
    }

    // the look-up that both commitment loops start with
    method CommitmentExpiry(c: Commitment) returns (expiresAt: nat, unresolved: bool)
      requires Valid()
      ensures expiresAt == db.Deadline(c)
      ensures unresolved == db.ChallengedUnresolved(c)
    {
      hide ChallengeKey;
      hide Valid;
      var ok, challenge := GetChallenge(c.data, c.inclusionBlock.number);
      expiresAt := c.challengeWindowEnd;
      if ok {
        expiresAt := challenge.resolveWindowEnd;
      }
      unresolved := ok && challenge.challengeStatus != Resolved;
    }

    method ExpireCommitments(origin: BlockRef) returns (reorg: bool)
      requires Valid()
      modifies `commitments, `expiredCommitments
      ensures Valid()
      ensures Contents() == ChallengeState.ExpireCommitments(old(Contents()), origin.number)
      ensures reorg == ReorgRequired(old(Contents()), origin.number)
    {
      hide Valid;
      hide Challenges.DuePrefix;
      hide Challenges.Deadline;
      hide Challenges.ChallengedUnresolved;
      ReorgRequiredIff(Contents(), origin.number);
      hide ReorgRequired;
      ghost var cs := commitments;
      ghost var k := 0;
      reorg := false;
      assert !db.AnyUnresolved(cs[..0]);
      hide Challenges.AnyUnresolved;
      while |commitments| > 0
        invariant 0 <= k <= db.DuePrefix(cs, origin.number)
        invariant Valid()
        invariant commitments == cs[k..] && expiredCommitments == old(expiredCommitments) + cs[..k]
        invariant reorg == db.AnyUnresolved(cs[..k])
        decreases |commitments|
      {
        var c := commitments[0];
        assert c == cs[k];
        db.DueGoesOn(cs, k, origin.number);
        db.AnyUnresolvedStep(cs, k);
        var expiresAt, unresolved := CommitmentExpiry(c);
        if expiresAt > origin.number {
          break;
        }
        expiredCommitments := expiredCommitments + [c];
        commitments := commitments[1..];
        reorg := reorg || unresolved;
        k := k + 1;
      }
      db.DueGoesOn(cs, k, origin.number);
    }

    method ExpireChallenges(origin: BlockRef)
      requires Valid()
      modifies `challenges, `expiredChallenges, `db, history
      ensures Valid() && old(db).expired <= |old(db).table|
      ensures db == old(db).Expire(origin.number)
    {
      hide Valid;
      hide FirstOpen;
      hide Challenges.ExpireTo;
      Heads();
      ghost var db0 := db;
      db0.ExpireToStart();
      while |challenges| > 0
        invariant db0.expired <= db.expired <= FirstOpen(db0.table, db0.expired, origin.number)
        invariant Valid() && |db.table| == |db0.table| && |challenges| == |db.table| - db.expired
        invariant db == db0.ExpireTo(db.expired)
        decreases |challenges|
      {
        Heads();
        db0.ExpireGoesOn(db.expired, origin.number);
        db0.ExpireToStep(db.expired);
        var c := challenges[0];
        if c.resolveWindowEnd > origin.number {
          break;
        }
        ExpireFirst();
        Heads();
      }
      db0.ExpireGoesOn(db.expired, origin.number);
    }

    // the loop body of ExpireChallenges
    method ExpireFirst()
      requires Valid() && |challenges| > 0 && db.expired < |db.table|
      modifies `challenges, `expiredChallenges, `db, history
      ensures Valid()
      ensures db == old(db).(table := old(db).table[old(db).expired := ExpireOne(old(db).table[old(db).expired])],
                             expired := old(db).expired + 1)
    {
      hide Valid;
      Heads();
      var c := ShiftFirst();
      Heads();
      MarkOne(c);
    }

    method ShiftFirst() returns (c: Challenge)
      requires Valid() && |challenges| > 0 && db.expired < |db.table|
      modifies `challenges, `expiredChallenges, `db
      ensures Valid() && c in history
      ensures c.position == old(db).expired < |history| && history[c.position] == c
      ensures db == old(db).(expired := old(db).expired + 1)
    {
      hide ChallengeKey;
      hide Challenge.Value;
      hide ValidIndex;
      c := challenges[0];
      assert c == history[db.expired];
      expiredChallenges := expiredChallenges + [c];
      challenges := challenges[1..];
      db := db.(expired := db.expired + 1);
      assert ValidIndex() by { SameIndex(); }
    }

    // the entries of the index do not depend on which challenges have expired
    twostate lemma SameIndex()
      requires old(ValidIndex()) && challengesMap == old(challengesMap) && history == old(history)
      requires db.index == old(db.index) && db.pruned == old(db.pruned)
      ensures ValidIndex()
    {
      hide ChallengeKey;
    }

    method MarkOne(c: Challenge)
      requires Valid() && c in history && c.position < |db.table| == |history| && history[c.position] == c
      modifies `db, c
      ensures Valid()
      ensures db == old(db).(table := old(db).table[c.position := ExpireOne(old(db).table[c.position])])
    {
      hide ChallengeKey;
      hide ValidIndex;
      if c.challengeStatus == Active {
        c.challengeStatus := Expired;
      }
      db := db.(table := db.table[c.position := c.Value()]);
      assert ValidIndex() by { SameIndex(); }
    }

    method Prune(origin: BlockRef)
      requires Valid()
      modifies `expiredCommitments, `lastPrunedCommitment, `expiredChallenges, `challengesMap, `db
      ensures Valid() && old(db).Wf()
      ensures Contents() == ChallengeState.Prune(old(Contents()), origin.number)
    {
      hide Valid;
      Heads();
      PruneCommitments(origin);
      PruneChallenges(origin);
    }

    method PruneCommitments(origin: BlockRef)
      requires Valid()
      modifies `expiredCommitments, `lastPrunedCommitment
      ensures Valid()
      ensures Contents() == ChallengeState.PruneCommitments(old(Contents()), origin.number)
    {
      hide Valid;
      hide Challenges.DuePrefix;
      hide Challenges.Deadline;
      ghost var cs := expiredCommitments;
      ghost var k := 0;
      while |expiredCommitments| > 0
        invariant 0 <= k <= db.DuePrefix(cs, origin.number)
        invariant Valid()
        invariant expiredCommitments == cs[k..]
        invariant lastPrunedCommitment == if k == 0 then old(lastPrunedCommitment) else cs[k - 1].inclusionBlock
        decreases |expiredCommitments|
      {
        var c := expiredCommitments[0];
        assert c == cs[k];
        db.DueGoesOn(cs, k, origin.number);
        var expiresAt, _ := CommitmentExpiry(c);
        if expiresAt > origin.number {
          break;
        }
        expiredCommitments := expiredCommitments[1..];
        lastPrunedCommitment := c.inclusionBlock;
        k := k + 1;
      }
      db.DueGoesOn(cs, k, origin.number);
    }

    method PruneChallenges(origin: BlockRef)
      requires Valid()
      modifies `expiredChallenges, `challengesMap, `db
      ensures Valid() && old(db).Wf()
      ensures db == old(db).Prune(origin.number)
    {
      hide Valid;
      hide Challenges.PruneTo;
      hide Challenges.PruneEnd;
      Heads();
      ghost var db0 := db;
      db0.PruneToStart();
      while |expiredChallenges| > 0
        invariant db0.pruned <= db.pruned <= db0.PruneEnd(origin.number)
        invariant Valid() && |expiredChallenges| == db.expired - db.pruned
        invariant db == db0.PruneTo(db.pruned) && db.table == db0.table && db.expired == db0.expired
        decreases |expiredChallenges|
      {
        Heads();
        db0.PruneGoesOn(db.pruned, origin.number);
        var c := expiredChallenges[0];
        if c.resolveWindowEnd > origin.number {
          break;
        }
        db0.PruneToStep(db.pruned);
        DropFirstExpired();
        Heads();
      }
      db0.PruneGoesOn(db.pruned, origin.number);
    }

    // the loop body of PruneChallenges
    method DropFirstExpired()
      requires Valid() && |expiredChallenges| > 0 && db.pruned < |db.table|
      modifies `expiredChallenges, `challengesMap, `db
      ensures Valid()
      ensures db == old(db).(pruned := old(db).pruned + 1,
                             index := old(db).index - {old(db).table[old(db).pruned].Key()})
    {
      hide ChallengeKey;
      var c := expiredChallenges[0];
      assert c == history[db.pruned];
      expiredChallenges := expiredChallenges[1..];
      challengesMap := challengesMap - {c.Key()};
      db := db.(pruned := db.pruned + 1, index := db.index - {c.Key()});
    }
  }
}
