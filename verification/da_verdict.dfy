/** What GetInput answers, in terms of the L1 event stream: when data that cannot be found is waited for,
    when it is given up, and how long a stall lasts exactly. */
module DaVerdict {
  import opened Bytes
  import opened Commitments
  import opened ChallengeState
  import opened DaSpec
  import opened DaRuns
  import opened DaEventFold
  import opened DaStatus
  import opened DaStall

  ghost predicate Unchallenged(es: seq<Event>, key: string) {
    forall p :: 0 <= p < |es| ==> !Opens(es[p], key)
  }

  /** The status that the events dictate for the last challenge of the key, if there is one. */
  ghost predicate Dictates(env: Env, es: seq<Event>, key: string, n: nat, status: Status) {
    exists j :: LastChallenge(es, key, j) && StatusAt(env, es, key, j, n) == status
  }

  /** At block `n` the events leave hope for data that cannot be found: the commitment may still be
      challenged, or its challenge may still be resolved. */
  ghost predicate Waits(env: Env, es: seq<Event>, comm: CommitmentData, block: nat, n: nat) {
    var key := ChallengeKey(comm, block);
    (Unchallenged(es, key) && n <= block + env.cfg.challengeWindow) || Dictates(env, es, key, n, Active)
  }

  /** At block `n` the events leave none, and no input from L1. */
  ghost predicate IsLost(env: Env, es: seq<Event>, comm: CommitmentData, block: nat, n: nat) {
    var key := ChallengeKey(comm, block);
    (Unchallenged(es, key) && n > block + env.cfg.challengeWindow)
    || (comm.GenericCommitment? && Dictates(env, es, key, n, Resolved))
  }

  /** The manager is where the events up to its challenge origin have led it. */
  ghost predicate Follows(env: Env, chain: Chain, base: nat, d: DaValue) {
    Inv(env, d) && base <= d.challengeOrigin.number && IsFold(env, chain, base, View(d))
  }

  ghost function Seen(chain: Chain, base: nat, d: DaValue): seq<Event>
    requires base <= d.challengeOrigin.number
  {
    Stream(chain, base, d.challengeOrigin.number)
  }

  lemma {:induction false} SomeLastChallenge(es: seq<Event>, key: string, p: nat) returns (j: nat)
    requires p < |es| && Opens(es[p], key)
    ensures LastChallenge(es, key, j)
    decreases |es| - p
  {
    hide Opens;
    if q: nat :| p < q < |es| && Opens(es[q], key) {
      j := SomeLastChallenge(es, key, q);
    } else {
      j := p;
    }
  }

  lemma LastIsUnique(es: seq<Event>, key: string, i: int, j: int)
    requires LastChallenge(es, key, i) && LastChallenge(es, key, j)
    ensures i == j
  {
    hide Opens;
  }

  /** A key has exactly one of the four statuses, and the manager knows it. */
  lemma StatusIs(env: Env, chain: Chain, base: nat, d: DaValue, key: string)
    requires Follows(env, chain, base, d) && Numbered(chain)
    ensures var es, n := Seen(chain, base, d), d.challengeOrigin.number;
            var status := d.state.db.StatusOf(key);
            && (status == Uninitialized <==> Unchallenged(es, key))
            && (status == Active <==> Dictates(env, es, key, n, Active))
            && (status == Resolved <==> Dictates(env, es, key, n, Resolved))
            && (status == Expired <==> Dictates(env, es, key, n, Expired))
  {
    StatusNow(env, chain, base, d, key);
    assert Seen(chain, base, d) == Stream(chain, base, d.challengeOrigin.number);
    hide *;
    StatusDictated(env, Seen(chain, base, d), key, d.challengeOrigin.number, d.state.db.StatusOf(key));
  }

  lemma NoSteps(env: Env, chain: Chain, d: DaValue)
    requires Inv(env, d)
    ensures Run(env, d, []) == d && RunOnChain(env, chain, d, [])
  {
    hide Inv;
  }

  lemma StatusNow(env: Env, chain: Chain, base: nat, d: DaValue, key: string)
    requires Inv(env, d) && Numbered(chain) && IsFold(env, chain, base, View(d)) && base <= d.challengeOrigin.number
    ensures var es, n := Stream(chain, base, d.challengeOrigin.number), d.challengeOrigin.number;
            && (forall i :: LastChallenge(es, key, i) ==> d.state.db.StatusOf(key) == StatusAt(env, es, key, i, n))
            && ((forall i :: !LastChallenge(es, key, i)) ==> d.state.db.StatusOf(key) == Uninitialized)
  {
    hide *;
    NoSteps(env, chain, d);
    StatusIsDictatedByEvents(env, chain, base, d, [], key);
  }

  lemma StatusDictated(env: Env, es: seq<Event>, key: string, n: nat, status: Status)
    requires forall i :: LastChallenge(es, key, i) ==> status == StatusAt(env, es, key, i, n)
    requires (forall i :: !LastChallenge(es, key, i)) ==> status == Uninitialized
    ensures status == Uninitialized <==> Unchallenged(es, key)
    ensures forall s: Status :: s != Uninitialized ==> (status == s <==> Dictates(env, es, key, n, s))
  {
    if p: nat :| p < |es| && Opens(es[p], key) {
      var j := SomeLastChallenge(es, key, p);
      forall i | LastChallenge(es, key, i)
        ensures i == j
      {
        LastIsUnique(es, key, i, j);
      }
      assert StatusAt(env, es, key, j, n) != Uninitialized;
      hide LastChallenge;
      hide StatusAt;
    } else {
      assert forall j :: !LastChallenge(es, key, j);
      hide StatusAt;
    }
  }

  /** The answer to one request, for every storage answer and every view of L1: whether it is given up, waited
      for, or skipped is decided by the events, the challenge window and the commitment alone. */
  lemma AnswerIsDictatedByEvents(env: Env, chain: Chain, base: nat, d: DaValue, comm: CommitmentData, block: BlockRef, t: Try)
    requires Follows(env, chain, base, d) && Numbered(chain) && Serves(env, chain, t.l1)
    ensures var es, n, key := Seen(chain, base, d), d.challengeOrigin.number, ChallengeKey(comm, block.number);
            var r, d' := Result(env, d, comm, block, t), After(env, d, comm, block, t);
            var skipped := env.cfg.commitmentType != comm.Type() || Dictates(env, es, key, n, Expired);
            && (r == ErrExpiredChallenge <==> skipped)
            && (r == ErrMissingPastWindow <==> !skipped && t.storage.NotFound? && IsLost(env, es, comm, block.number, n))
            && (r == ErrPendingChallenge ==> !skipped && t.storage.NotFound? && Waits(env, es, comm, block.number, n)
                                             && d'.challengeOrigin == chain.refs(n + 1))
            && (r != ErrPendingChallenge ==> View(d') == View(d))
            && (Succeeds(t.l1) && !skipped && t.storage.NotFound? && Waits(env, es, comm, block.number, n) ==> r == ErrPendingChallenge)
            && (t.storage.Found? && !skipped ==> r == Data(t.storage.data))
            && (t.storage.StorageFailed? && !skipped ==> r == ErrTemporary)
            && (t.storage.NotFound? && !skipped && !Waits(env, es, comm, block.number, n) && !IsLost(env, es, comm, block.number, n) ==> r.Data?)
            && Follows(env, chain, base, d')
  {
    var key := ChallengeKey(comm, block.number);
    hide ChallengeKey;
    StatusIs(env, chain, base, d, key);
    NextIsFold(env, chain, base, d, Fetch(t.l1, t.storage, comm, block));
    FetchAnswer(env, chain, base, d, comm, block, t);
    hide Unchallenged;
    hide Dictates;
    hide IsFold;
    hide Inv;
    hide Result;
    hide After;
    hide Next;
    hide Seen;
  }

  /** The same in terms of the status. */
  lemma FetchAnswer(env: Env, chain: Chain, base: nat, d: DaValue, comm: CommitmentData, block: BlockRef, t: Try)
    requires Follows(env, chain, base, d) && Numbered(chain) && Serves(env, chain, t.l1)
    ensures var status, n := d.state.db.StatusOf(ChallengeKey(comm, block.number)), d.challengeOrigin.number;
            var r, d' := Result(env, d, comm, block, t), After(env, d, comm, block, t);
            var skipped := env.cfg.commitmentType != comm.Type() || status == Expired;
            var hope := status == Active || (status == Uninitialized && n <= block.number + env.cfg.challengeWindow);
            && (r == ErrExpiredChallenge <==> skipped)
            && (r == ErrMissingPastWindow <==> !skipped && t.storage.NotFound? && !hope && (status == Uninitialized || comm.GenericCommitment?))
            && (r == ErrPendingChallenge ==> !skipped && t.storage.NotFound? && hope && d'.challengeOrigin == chain.refs(n + 1))
            && (r != ErrPendingChallenge ==> View(d') == View(d))
            && (Succeeds(t.l1) && !skipped && t.storage.NotFound? && hope ==> r == ErrPendingChallenge)
            && (t.storage.Found? && !skipped ==> r == Data(t.storage.data))
            && (t.storage.StorageFailed? && !skipped ==> r == ErrTemporary)
            && (t.storage.NotFound? && status == Resolved && !skipped && !comm.GenericCommitment? ==> r.Data?)
            && d' == Next(env, d, Fetch(t.l1, t.storage, comm, block)) && Inv(env, d')
  {
    GoodShape(env, View(d));
    NextView(env, d, Fetch(t.l1, t.storage, comm, block));
    hide ChallengeKey;
    hide QueuesSplitAt;
    hide ApplyBlock;
    hide FoldTo;
    hide Challenges.Lookup;
    assert d.challengeOrigin.number + 1 > d.challengeOrigin.number;
  }

  /** A try in which L1 answers, truly, and the storage server says that it does not have the data. */
  ghost predicate Working(env: Env, chain: Chain, t: Try) {
    Serves(env, chain, t.l1) && Succeeds(t.l1) && t.storage.NotFound?
  }

  ghost predicate WaitsAt(env: Env, chain: Chain, base: nat, comm: CommitmentData, block: nat, n: nat)
    requires base <= n
  {
    Waits(env, Stream(chain, base, n), comm, block, n)
  }

  /** The blocks from `n` to before `end` each leave hope. */
  ghost predicate WaitsUntil(env: Env, chain: Chain, base: nat, comm: CommitmentData, block: nat, n: nat, end: nat)
    requires base <= n
  {
    forall m: nat :: n <= m < end ==> WaitsAt(env, chain, base, comm, block, m)
  }

  /** One working try waits for exactly the next block, if there is hope, and settles the matter if not. */
  lemma WorkingTry(env: Env, chain: Chain, base: nat, d: DaValue, comm: CommitmentData, block: BlockRef, t: Try)
    requires env.cfg.commitmentType == comm.Type()
    requires Follows(env, chain, base, d) && Numbered(chain) && Working(env, chain, t)
    ensures var n := d.challengeOrigin.number;
            var r, d' := Result(env, d, comm, block, t), After(env, d, comm, block, t);
            && (r == ErrPendingChallenge <==> Waits(env, Seen(chain, base, d), comm, block.number, n))
            && (r == ErrMissingPastWindow <==> IsLost(env, Seen(chain, base, d), comm, block.number, n))
            && r != ErrTemporary
            && d'.challengeOrigin.number == (if r == ErrPendingChallenge then n + 1 else n) && Follows(env, chain, base, d')
  {
    var es, n, key := Seen(chain, base, d), d.challengeOrigin.number, ChallengeKey(comm, block.number);
    hide ChallengeKey;
    AnswerIsDictatedByEvents(env, chain, base, d, comm, block, t);
    WorkingAttemptIsNotTemporary(env, d, comm, block, t);
    OneStatus(env, es, key, n);
    hide Dictates;
    hide Unchallenged;
    hide Follows;
    hide Result;
    hide After;
    hide Serves;
    hide Succeeds;
    hide Stream;
  }

  lemma OneStatus(env: Env, es: seq<Event>, key: string, n: nat)
    ensures !(Dictates(env, es, key, n, Expired) && Dictates(env, es, key, n, Active))
    ensures !(Dictates(env, es, key, n, Expired) && Dictates(env, es, key, n, Resolved))
    ensures forall status :: Dictates(env, es, key, n, status) ==> !Unchallenged(es, key)
  {
    hide StatusAt;
    if i, j :| LastChallenge(es, key, i) && LastChallenge(es, key, j) && i != j {
      LastIsUnique(es, key, i, j);
    }
    hide Opens;
  }

  lemma WaitsHere(env: Env, chain: Chain, base: nat, d: DaValue, comm: CommitmentData, block: nat)
    requires base <= d.challengeOrigin.number
    ensures WaitsAt(env, chain, base, comm, block, d.challengeOrigin.number)
       <==> Waits(env, Seen(chain, base, d), comm, block, d.challengeOrigin.number)
  {
    hide Waits;
    hide Stream;
  }

  /** A stall is exactly as long as the events leave hope: working tries go on without a verdict if and only
      if every block they look at leaves some, and each of them reads one block. */
  lemma {:induction false} StallFollowsEvents(env: Env, chain: Chain, base: nat, d: DaValue, comm: CommitmentData, block: BlockRef, tries: seq<Try>)
    requires env.cfg.commitmentType == comm.Type() && Follows(env, chain, base, d) && Numbered(chain)
    requires forall i :: 0 <= i < |tries| ==> Working(env, chain, tries[i])
    ensures var n := d.challengeOrigin.number;
            var d' := Retry(env, d, comm, block, tries);
            && (Stalled(env, d, comm, block, tries) <==> WaitsUntil(env, chain, base, comm, block.number, n, n + |tries|))
            && (Stalled(env, d, comm, block, tries) ==> Follows(env, chain, base, d') && d'.challengeOrigin.number == n + |tries|)
    decreases |tries|
  {
    hide ChallengeKey;
    hide IsFold;
    hide Inv;
    hide Result;
    hide After;
    hide Working;
    hide WaitsAt;
    hide IsLost;
    if tries != [] {
      var d1 := After(env, d, comm, block, tries[0]);
      WorkingTry(env, chain, base, d, comm, block, tries[0]);
      assert Waits(env, Seen(chain, base, d), comm, block.number, d.challengeOrigin.number)
        <==> WaitsAt(env, chain, base, comm, block.number, d.challengeOrigin.number) by { WaitsHere(env, chain, base, d, comm, block.number); }
      hide Waits;
      hide Stream;
      if Result(env, d, comm, block, tries[0]) == ErrPendingChallenge {
        StallFollowsEvents(env, chain, base, d1, comm, block, tries[1..]);
      }
    }
  }

  lemma {:induction false} UnchallengedBefore(chain: Chain, base: nat, m: nat, n: nat, key: string)
    requires base <= m <= n && Unchallenged(Stream(chain, base, n), key)
    ensures Unchallenged(Stream(chain, base, m), key)
    decreases n - m
  {
    hide Opens;
    if m < n {
      var es := Stream(chain, base, n - 1);
      assert Stream(chain, base, n) == es + Tagged(n, chain.logs(n));
      forall p | 0 <= p < |es|
        ensures !Opens(es[p], key)
      {
        assert Stream(chain, base, n)[p] == es[p];
      }
      UnchallengedBefore(chain, base, m, n - 1, key);
    }
  }

  lemma UnchallengedWaits(env: Env, es: seq<Event>, comm: CommitmentData, block: nat, n: nat)
    requires Unchallenged(es, ChallengeKey(comm, block))
    ensures Waits(env, es, comm, block, n) <==> n <= block + env.cfg.challengeWindow
    ensures IsLost(env, es, comm, block, n) <==> n > block + env.cfg.challengeWindow
  {
    hide ChallengeKey;
    OneStatus(env, es, ChallengeKey(comm, block), n);
    hide Unchallenged;
    hide Dictates;
  }

  lemma UnchallengedWaitsUntil(env: Env, chain: Chain, base: nat, comm: CommitmentData, block: BlockRef, n: nat, end: nat)
    requires base <= n <= end && Unchallenged(Stream(chain, base, end), ChallengeKey(comm, block.number))
    ensures WaitsUntil(env, chain, base, comm, block.number, n, end) <==> end <= n || end <= block.number + env.cfg.challengeWindow + 1
  {
    hide ChallengeKey;
    forall m: nat | n <= m <= end
      ensures WaitsAt(env, chain, base, comm, block.number, m) <==> m <= block.number + env.cfg.challengeWindow
    {
      UnchallengedBefore(chain, base, m, end, ChallengeKey(comm, block.number));
      UnchallengedWaits(env, Stream(chain, base, m), comm, block.number, m);
    }
    hide WaitsAt;
    if end > n && end > block.number + env.cfg.challengeWindow + 1 {
      assert !WaitsAt(env, chain, base, comm, block.number, end - 1);
    }
  }

  lemma LastTry(env: Env, chain: Chain, base: nat, d: DaValue, comm: CommitmentData, block: BlockRef, t: Try)
    requires env.cfg.commitmentType == comm.Type() && Follows(env, chain, base, d) && Numbered(chain) && Working(env, chain, t)
    requires d.challengeOrigin.number > block.number + env.cfg.challengeWindow
    requires Unchallenged(Seen(chain, base, d), ChallengeKey(comm, block.number))
    ensures Result(env, d, comm, block, t) == ErrMissingPastWindow
  {
    hide ChallengeKey;
    UnchallengedWaits(env, Seen(chain, base, d), comm, block.number, d.challengeOrigin.number);
    hide Seen;
    WorkingTry(env, chain, base, d, comm, block, t);
    hide *;
  }

  /** A commitment that is not challenged stays stalled for exactly the rest of its challenge window: that many
      working tries. */
  lemma UnchallengedStall(env: Env, chain: Chain, base: nat, d: DaValue, comm: CommitmentData, block: BlockRef, tries: seq<Try>)
    requires env.cfg.commitmentType == comm.Type() && Follows(env, chain, base, d) && Numbered(chain)
    requires forall i :: 0 <= i < |tries| ==> Working(env, chain, tries[i])
    requires Unchallenged(Stream(chain, base, d.challengeOrigin.number + |tries|), ChallengeKey(comm, block.number))
    ensures Stalled(env, d, comm, block, tries) <==> |tries| <= WindowLeft(env, d, block)
    ensures |tries| <= WindowLeft(env, d, block) ==>
              var d' := Retry(env, d, comm, block, tries);
              Follows(env, chain, base, d') && d'.challengeOrigin.number == d.challengeOrigin.number + |tries|
  {
    var n := d.challengeOrigin.number;
    assert base <= n && Inv(env, d);
    hide *;
    UnchallengedWaitsUntil(env, chain, base, comm, block, n, n + |tries|);
    StallFollowsEvents(env, chain, base, d, comm, block, tries);
    WindowLeftIs(env, d, block);
  }

  /** After those tries the next one gives the data up. */
  lemma StallEndsInLoss(env: Env, chain: Chain, base: nat, d: DaValue, comm: CommitmentData, block: BlockRef,
                        tries: seq<Try>, next: Try)
    requires env.cfg.commitmentType == comm.Type() && Follows(env, chain, base, d) && Numbered(chain) && Working(env, chain, next)
    requires forall i :: 0 <= i < |tries| ==> Working(env, chain, tries[i])
    requires Unchallenged(Stream(chain, base, d.challengeOrigin.number + |tries|), ChallengeKey(comm, block.number))
    requires Inv(env, d) && base <= d.challengeOrigin.number && |tries| == WindowLeft(env, d, block)
    ensures Result(env, Retry(env, d, comm, block, tries), comm, block, next) == ErrMissingPastWindow
  {
    hide *;
    UnchallengedStall(env, chain, base, d, comm, block, tries);
    WindowLeftIs(env, d, block);
    SeenIs(chain, base, Retry(env, d, comm, block, tries));
    LastTry(env, chain, base, Retry(env, d, comm, block, tries), comm, block, next);
  }

  lemma WindowLeftIs(env: Env, d: DaValue, block: BlockRef)
    ensures var end := block.number + env.cfg.challengeWindow + 1;
            WindowLeft(env, d, block) == if end <= d.challengeOrigin.number then 0 else end - d.challengeOrigin.number
  {
  }

  lemma SeenIs(chain: Chain, base: nat, d: DaValue)
    requires base <= d.challengeOrigin.number
    ensures Seen(chain, base, d) == Stream(chain, base, d.challengeOrigin.number)
  {
  }
}
