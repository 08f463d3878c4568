/** What an advance does to the commitments, in terms of the events; that a reset sends it back to its base; and
    that every commitment requested is tracked until it is pruned. */
module DaProgress {
  import opened Bytes
  import opened Commitments
  import opened ChallengeState
  import opened DaSpec
  import opened DaRuns
  import opened DaEventFold
  import opened DaStatus
  import opened DaStall
  import opened DaFinality
  import opened DaVerdict

  /** The deadline of the commitment, which the events alone set, is at or before block `n`. */
  ghost predicate DueBy(env: Env, es: seq<Event>, c: Commitment, n: nat) {
    || (Unchallenged(es, c.Key()) && c.inclusionBlock.number + env.cfg.challengeWindow <= n)
    || exists j :: LastChallenge(es, c.Key(), j) && es[j].number + env.cfg.resolveWindow <= n
  }

  /** The commitment is challenged and not resolved. */
  ghost predicate Disputed(env: Env, es: seq<Event>, c: Commitment, n: nat) {
    Dictates(env, es, c.Key(), n, Active) || Dictates(env, es, c.Key(), n, Expired)
  }

  /** Commitments are tracked with the challenge window counted from their inclusion. */
  ghost predicate WindowsKnown(env: Env, cs: seq<Commitment>) {
    forall i :: 0 <= i < |cs| ==> cs[i].challengeWindowEnd == cs[i].inclusionBlock.number + env.cfg.challengeWindow
  }

  lemma DeadlineIs(env: Env, chain: Chain, base: nat, d: DaValue, c: Commitment, n: nat)
    requires Follows(env, chain, base, d) && Numbered(chain)
    requires c.challengeWindowEnd == c.inclusionBlock.number + env.cfg.challengeWindow
    ensures d.state.db.Deadline(c) <= n <==> DueBy(env, Seen(chain, base, d), c, n)
    ensures d.state.db.ChallengedUnresolved(c) <==> Disputed(env, Seen(chain, base, d), c, d.challengeOrigin.number)
  {
    var es, m, key, db := Seen(chain, base, d), d.challengeOrigin.number, c.Key(), d.state.db;
    StatusIs(env, chain, base, d, key);
    OneStatus(env, es, key, m);
    FoldReflectsStream(env, chain, base, m);
    assert forall j :: LastChallenge(es, key, j) ==>
      db.Lookup(key).Some? && db.Lookup(key).value.resolveWindowEnd == es[j].number + env.cfg.resolveWindow;
    hide ChallengeKey;
    hide Follows;
    hide Seen;
    hide StatusAt;
    if p: nat :| p < |es| && Opens(es[p], key) {
      var j := SomeLastChallenge(es, key, p);
      assert !Unchallenged(es, key);
      forall i | LastChallenge(es, key, i)
        ensures i == j
      {
        LastIsUnique(es, key, i, j);
      }
    } else {
      assert Unchallenged(es, key) && forall j :: !LastChallenge(es, key, j);
    }
    hide LastChallenge;
    hide Unchallenged;
    hide Dictates;
    LookupStatus(db, key);
    hide Challenges.Lookup;
    hide Challenges.StatusOf;
  }

  lemma LookupStatus(db: Challenges, key: string)
    ensures db.Lookup(key).None? ==> db.StatusOf(key) == Uninitialized
    ensures db.Lookup(key).Some? ==> db.StatusOf(key) == db.Lookup(key).value.status
  {
  }

  /** Where the expiry of the waiting commitments stops at block `n`, and what it finds. */
  ghost predicate Expires(env: Env, es: seq<Event>, cs: seq<Commitment>, origin: nat, n: nat, k: nat, reorg: bool) {
    && k <= |cs|
    && (forall i :: 0 <= i < k ==> DueBy(env, es, cs[i], n))
    && (k < |cs| ==> !DueBy(env, es, cs[k], n))
    && (reorg <==> exists i :: 0 <= i < k && Disputed(env, es, cs[i], origin))
  }

  lemma ExpiryIs(env: Env, chain: Chain, base: nat, d: DaValue, n: nat)
    requires Follows(env, chain, base, d) && Numbered(chain) && WindowsKnown(env, d.state.commitments)
    ensures Expires(env, Seen(chain, base, d), d.state.commitments, d.challengeOrigin.number, n,
                    d.state.db.DuePrefix(d.state.commitments, n), ReorgRequired(d.state, n))
  {
    var es, cs := Seen(chain, base, d), d.state.commitments;
    forall i | 0 <= i < |cs|
      ensures d.state.db.Deadline(cs[i]) <= n <==> DueBy(env, es, cs[i], n)
      ensures d.state.db.ChallengedUnresolved(cs[i]) <==> Disputed(env, es, cs[i], d.challengeOrigin.number)
    {
      DeadlineIs(env, chain, base, d, cs[i], n);
    }
    hide *;
    ExpiresAsDue(env, es, d.state, d.challengeOrigin.number, n);
  }

  lemma ExpiresAsDue(env: Env, es: seq<Event>, s: StateValue, origin: nat, n: nat)
    requires forall i :: 0 <= i < |s.commitments| ==>
               && (s.db.Deadline(s.commitments[i]) <= n <==> DueBy(env, es, s.commitments[i], n))
               && (s.db.ChallengedUnresolved(s.commitments[i]) <==> Disputed(env, es, s.commitments[i], origin))
    ensures Expires(env, es, s.commitments, origin, n, s.db.DuePrefix(s.commitments, n), ReorgRequired(s, n))
  {
    hide DueBy;
    hide Disputed;
    hide Challenges.DuePrefix;
    hide Challenges.Deadline;
    hide Challenges.ChallengedUnresolved;
    var k := s.db.DuePrefix(s.commitments, n);
    if ReorgRequired(s, n) {
      var i :| 0 <= i < k && s.db.ChallengedUnresolved(s.commitments[i]);
      assert Disputed(env, es, s.commitments[i], origin);
    }
  }

  /** An advance beyond the commitment origin, on the chain.  If the events of the block cannot be read it changes
      nothing.  Otherwise it moves exactly the longest prefix of the waiting commitments whose deadlines have
      come to the expired ones, and requires a reorg if and only if one of those is challenged and not resolved;
      then, and only then, the commitment origin stays. */
  lemma AdvanceExpiresWhatIsDue(env: Env, chain: Chain, base: nat, d: DaValue, l1: L1Fetcher, n: nat) returns (k: nat)
    requires Follows(env, chain, base, d) && Numbered(chain) && Serves(env, chain, l1)
    requires WindowsKnown(env, d.state.commitments) && d.commitmentOrigin.number < n <= d.challengeOrigin.number + 1
    ensures d.state.db.Wf()
    ensures var (d', r) := AdvanceL1Origin(env, d, l1, chain.refs(n));
            if n > d.challengeOrigin.number && FetchLogs(env, l1, chain.refs(n)).None? then r == ErrL1 && d' == d
            else
              && Follows(env, chain, base, d') && d'.challengeOrigin.number == Max(n, d.challengeOrigin.number)
              && Expires(env, Seen(chain, base, d'), d.state.commitments, d'.challengeOrigin.number, n, k, r == ErrReorgRequired)
              && d'.state.expiredCommitments == d.state.expiredCommitments + d.state.commitments[..k]
              && d'.state.commitments == d.state.commitments[k..]
              && (d'.resetting <==> d.resetting || r == ErrReorgRequired)
              && d'.commitmentOrigin == (if r == ErrReorgRequired then d.commitmentOrigin else chain.refs(n))
  {
    var block := chain.refs(n);
    GoodShape(env, View(d));
    hide ChallengeKey;
    hide QueuesSplitAt;
    SyncToKeeps(env, View(d), l1, block);
    SyncToIsFold(env, chain, base, View(d), l1, block);
    var v := SyncTo(env, View(d), l1, block);
    k := 0;
    if v.Some? {
      var d1 := AdvanceChallengeOrigin(env, d, l1, block).value;
      assert View(d1) == v.value && d1.state.commitments == d.state.commitments;
      assert Follows(env, chain, base, d1) && d1.challengeOrigin.number == Max(n, d.challengeOrigin.number);
      hide Inv;
      hide IsFold;
      hide SyncTo;
      ExpiryIs(env, chain, base, d1, n);
      hide Expires;
      k := d1.state.db.DuePrefix(d1.state.commitments, n);
      AfterSync(env, chain, base, d, l1, block, d1);
      hide AdvanceL1Origin;
      hide ReorgRequired;
      hide Challenges.DuePrefix;
    }
  }

  function Max(a: nat, b: nat): nat {
    if a >= b then a else b
  }

  /** The rest of an advance once the challenges are synced. */
  lemma AfterSync(env: Env, chain: Chain, base: nat, d: DaValue, l1: L1Fetcher, block: BlockRef, d1: DaValue)
    requires d.state.db.expired <= |d.state.db.table| && AdvanceChallengeOrigin(env, d, l1, block) == Some(d1)
    requires d1.commitmentOrigin.number < block.number
    ensures var (d', r) := AdvanceL1Origin(env, d, l1, block);
            var k := d1.state.db.DuePrefix(d1.state.commitments, block.number);
            && View(d') == View(d1) && (r == ErrReorgRequired <==> ReorgRequired(d1.state, block.number))
            && d'.state.expiredCommitments == d1.state.expiredCommitments + d1.state.commitments[..k]
            && d'.state.commitments == d1.state.commitments[k..]
            && (d'.resetting <==> d1.resetting || r == ErrReorgRequired)
            && d'.commitmentOrigin == if r == ErrReorgRequired then d1.commitmentOrigin else block
  {
    hide AdvanceChallengeOrigin;
    hide ReorgRequired;
    hide NoCommitments;
    hide Challenges.DuePrefix;
  }

  // The position of the pipeline.

  /** The block of the last advance or reset of the run. */
  function Position(start: nat, steps: seq<Step>): nat
    decreases |steps|
  {
    if steps == [] then start
    else Position(match steps[0]
                  case Advance(_, block) => block.number
                  case Reset(base) => base.number
                  case _ => start, steps[1..])
  }

  /** Between resets the pipeline advances from block to block, and may try one again. */
  ghost predicate InPipelineOrder(start: nat, steps: seq<Step>)
    decreases |steps|
  {
    steps == [] ||
    ((steps[0].Advance? ==> start <= steps[0].block.number) && InPipelineOrder(Position(start, steps[..1]), steps[1..]))
  }

  lemma OnePosition(start: nat, step: Step)
    ensures Position(start, [step]) == match step
                                       case Advance(_, block) => block.number
                                       case Reset(base) => base.number
                                       case _ => start
  {
  }

  /** No call takes the commitment origin beyond the pipeline, and a reset takes it back to its base. */
  lemma NextPosition(env: Env, d: DaValue, step: Step)
    requires Inv(env, d)
    ensures var origin := Next(env, d, step).commitmentOrigin;
            match step
            case Advance(_, block) => origin == d.commitmentOrigin || origin == block
            case Reset(base) => origin == base
            case _ => origin == d.commitmentOrigin
  {
    GoodShape(env, View(d));
    hide ChallengeKey;
    hide QueuesSplitAt;
    hide SyncTo;
    hide ReorgRequired;
    hide NoCommitments;
    hide Challenges.Prune;
    hide Challenges.DuePrefix;
    hide Challenges.Lookup;
  }

  lemma {:induction false} OriginFollowsPipeline(env: Env, d: DaValue, steps: seq<Step>, start: nat)
    requires Inv(env, d) && d.commitmentOrigin.number <= start && InPipelineOrder(start, steps)
    ensures Run(env, d, steps).commitmentOrigin.number <= Position(start, steps)
    decreases |steps|
  {
    hide Inv;
    if steps != [] {
      NextPosition(env, d, steps[0]);
      NextKeeps(env, d, steps[0]);
      hide Next;
      assert steps[..1] == [steps[0]];
      OnePosition(start, steps[0]);
      OriginFollowsPipeline(env, Next(env, d, steps[0]), steps[1..], Position(start, steps[..1]));
    }
  }

  // Every commitment requested is tracked.

  /** What one call asks to be tracked: the commitment of a request that is not skipped. */
  ghost function RequestedBy(env: Env, d: DaValue, step: Step): seq<Commitment>
    requires Inv(env, d)
  {
    GoodShape(env, View(d));
    match step
    case Fetch(l1, storage, comm, block) =>
      if GetInput(env, d, l1, storage, comm, block).1 == ErrExpiredChallenge then []
      else [Commitment(comm, block, block.number + env.cfg.challengeWindow)]
    case _ => []
  }

  ghost function Requested(env: Env, d: DaValue, steps: seq<Step>): seq<Commitment>
    requires Inv(env, d)
    decreases |steps|
  {
    if steps == [] then []
    else
      NextKeeps(env, d, steps[0]);
      RequestedBy(env, d, steps[0]) + Requested(env, Next(env, d, steps[0]), steps[1..])
  }

  ghost predicate NoReset(steps: seq<Step>) {
    forall i :: 0 <= i < |steps| ==> !steps[i].Reset?
  }

  ghost predicate NoFinalization(steps: seq<Step>) {
    forall i :: 0 <= i < |steps| ==> !steps[i].Finalization?
  }

  lemma FetchTracks(env: Env, d: DaValue, step: Step)
    requires Inv(env, d) && step.Fetch?
    ensures Tracked(Next(env, d, step)) == Tracked(d) + RequestedBy(env, d, step)
  {
    GoodShape(env, View(d));
    hide ChallengeKey;
    hide QueuesSplitAt;
    hide SyncTo;
    hide Challenges.Lookup;
    hide Challenges.StatusOf;
    var c := Commitment(step.comm, step.block, step.block.number + env.cfg.challengeWindow);
    var cs := Next(env, d, step).state.commitments;
    assert cs == d.state.commitments + RequestedBy(env, d, step);
    hide GetInput;
    assert Next(env, d, step).state.expiredCommitments == d.state.expiredCommitments by { ExpiredKept(env, d, step); }
    hide Next;
    assert d.state.expiredCommitments + (d.state.commitments + RequestedBy(env, d, step)) == Tracked(d) + RequestedBy(env, d, step);
  }

  lemma ExpiredKept(env: Env, d: DaValue, step: Step)
    requires Inv(env, d) && step.Fetch?
    ensures Next(env, d, step).state.expiredCommitments == d.state.expiredCommitments
  {
    GoodShape(env, View(d));
    hide ChallengeKey;
    hide QueuesSplitAt;
    hide SyncTo;
    hide Challenges.Lookup;
    hide Challenges.StatusOf;
  }

  /** One call appends what it asks to be tracked, and only a finalization drops the first of the tracked. */
  lemma NextTracks(env: Env, d: DaValue, step: Step) returns (k: nat)
    requires Inv(env, d) && !step.Reset?
    ensures k <= |Tracked(d)| && (!step.Finalization? ==> k == 0)
    ensures Tracked(Next(env, d, step)) == (Tracked(d) + RequestedBy(env, d, step))[k..]
  {
    k := 0;
    match step
    case Fetch(_, _, _, _) =>
      FetchTracks(env, d, step);
      hide *;
    case Advance(l1, block) =>
      AdvanceKeepsTracked(env, d, l1, block);
      hide Tracked;
      hide Next;
    case Finalization(f) =>
      k := FinalizationDrops(env, d, f);
      hide *;
  }

  lemma FinalizationDrops(env: Env, d: DaValue, f: BlockRef) returns (k: nat)
    requires Inv(env, d)
    ensures k <= |Tracked(d)|
    ensures Tracked(Next(env, d, Finalization(f))) == (Tracked(d) + RequestedBy(env, d, Finalization(f)))[k..]
  {
    GoodShape(env, View(d));
    hide ChallengeKey;
    hide Inv;
    hide Challenges.Prune;
    k := d.state.db.DuePrefix(d.state.expiredCommitments, f.number);
    hide Challenges.DuePrefix;
    var a, b := d.state.expiredCommitments, d.state.commitments;
    assert a[k..] + b == (a + b)[k..] == (a + b + [])[k..];
  }

  lemma Dropped<T>(a: seq<T>, r: seq<T>, s: seq<T>, j: nat, k: nat)
    requires j <= |a| && k <= |(a + r)[j..] + s|
    ensures ((a + r)[j..] + s)[k..] == (a + (r + s))[j + k..]
  {
    assert a + (r + s) == (a + r) + s;
    assert (a + r)[j..] + s == ((a + r) + s)[j..];
  }

  /** Between resets the tracked commitments are those tracked before and those requested since, in order, without
      the first ones, which only finalizations have pruned. */
  lemma {:induction false} TrackedIsRequested(env: Env, d: DaValue, steps: seq<Step>) returns (k: nat)
    requires Inv(env, d) && NoReset(steps)
    ensures k <= |Tracked(d) + Requested(env, d, steps)|
    ensures Tracked(Run(env, d, steps)) == (Tracked(d) + Requested(env, d, steps))[k..]
    ensures NoFinalization(steps) ==> k == 0
    decreases |steps|
  {
    if steps == [] {
      k := 0;
    } else {
      var d' := Next(env, d, steps[0]);
      NextKeeps(env, d, steps[0]);
      hide Inv;
      var j := NextTracks(env, d, steps[0]);
      hide Next;
      hide Tracked;
      hide RequestedBy;
      var m := TrackedIsRequested(env, d', steps[1..]);
      Dropped(Tracked(d), RequestedBy(env, d, steps[0]), Requested(env, d', steps[1..]), j, m);
      k := j + m;
    }
  }

  lemma RequestedWindow(env: Env, d: DaValue, step: Step)
    requires Inv(env, d)
    ensures WindowsKnown(env, RequestedBy(env, d, step))
  {
    hide Inv;
    hide GetInput;
  }

  lemma WindowsOfRest(env: Env, a: seq<Commitment>, b: seq<Commitment>, k: nat)
    requires WindowsKnown(env, a) && WindowsKnown(env, b) && k <= |a + b|
    ensures WindowsKnown(env, (a + b)[k..])
  {
  }

  lemma {:induction false} RunWindows(env: Env, d: DaValue, steps: seq<Step>)
    requires Inv(env, d) && WindowsKnown(env, Tracked(d))
    ensures WindowsKnown(env, Tracked(Run(env, d, steps)))
    decreases |steps|
  {
    if steps != [] {
      var d' := Next(env, d, steps[0]);
      NextKeeps(env, d, steps[0]);
      hide Inv;
      if steps[0].Reset? {
        assert Tracked(d') == [];
      } else {
        var k := NextTracks(env, d, steps[0]);
        RequestedWindow(env, d, steps[0]);
        hide Next;
        hide Tracked;
        hide RequestedBy;
        WindowsOfRest(env, Tracked(d), RequestedBy(env, d, steps[0]), k);
      }
      hide Next;
      hide Tracked;
      hide WindowsKnown;
      RunWindows(env, d', steps[1..]);
    }
  }

  /** Over whole runs on the chain, with any number of resets after required reorgs: an advance beyond the block of
      the last advance or reset expires what is due by the events, however far the manager had been before. */
  lemma AdvanceAfterRun(env: Env, chain: Chain, base: nat, d: DaValue, steps: seq<Step>, start: nat, l1: L1Fetcher, n: nat) returns (k: nat)
    requires Follows(env, chain, base, d) && Numbered(chain) && Serves(env, chain, l1) && WindowsKnown(env, Tracked(d))
    requires d.commitmentOrigin.number <= start && InPipelineOrder(start, steps) && RunOnChain(env, chain, d, steps)
    requires Position(start, steps) < n <= Run(env, d, steps).challengeOrigin.number + 1
    ensures Run(env, d, steps).state.db.Wf()
    ensures var m := Run(env, d, steps);
            var (m', r) := AdvanceL1Origin(env, m, l1, chain.refs(n));
            r != ErrL1 ==>
              && Follows(env, chain, base, m')
              && Expires(env, Seen(chain, base, m'), m.state.commitments, m'.challengeOrigin.number, n, k, r == ErrReorgRequired)
              && m'.state.expiredCommitments == m.state.expiredCommitments + m.state.commitments[..k]
              && m'.state.commitments == m.state.commitments[k..]
  {
    var m := Run(env, d, steps);
    ChallengesAreEventFold(env, chain, base, d, steps);
    OriginFollowsPipeline(env, d, steps, start);
    RunWindows(env, d, steps);
    assert WindowsKnown(env, m.state.commitments) by {
      var a, b := m.state.expiredCommitments, m.state.commitments;
      assert forall i :: 0 <= i < |b| ==> (a + b)[|a| + i] == b[i];
    }
    assert Follows(env, chain, base, m);
    hide *;
    k := AdvanceExpiresWhatIsDue(env, chain, base, m, l1, n);
  }
}
