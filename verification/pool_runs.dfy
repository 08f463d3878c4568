/** The transaction pool recovery in terms of what happened: the state of the pool and the cancellation to
    send are read off the receipts, checks and sends of any interleaving. */
module PoolRuns {
  import opened Bytes
  import opened TxDatas
  import opened BuilderSpec
  import opened ChannelSpec
  import opened Segmentation
  import opened Deadlines
  import opened FrameConservation
  import opened ManagerSpec
  import opened ManagerIndex
  import opened ManagerRuns
  import opened TxPool

  /** The receipt of a transaction that the pool refused. */
  predicate Refusal(a: Action) {
    a.Receive? && a.outcome == AlreadyReserved && !a.ref.isCancel
  }

  /** The receipt of a cancellation, whatever became of it. */
  predicate Back(a: Action) {
    a.Receive? && a.ref.isCancel
  }

  /** A cancellation came back after action `q` and before action `i`. */
  ghost predicate BackBetween(actions: seq<Action>, q: int, i: int)
    requires -1 <= q && i <= |actions|
  {
    exists c :: q < c < i && Back(actions[c])
  }

  /** Action `i` is the first refusal since the last cancellation came back, if one ever did. */
  ghost predicate Refused(actions: seq<Action>, i: int) {
    && 0 <= i < |actions| && Refusal(actions[i])
    && !BackBetween(actions, i, |actions|)
    && forall q :: 0 <= q < i && Refusal(actions[q]) ==> BackBetween(actions, q, i)
  }

  ghost predicate CheckedSince(actions: seq<Action>, i: int) {
    exists k :: 0 <= i < k < |actions| && actions[k].CheckTxpool?
  }

  ghost predicate SentSince(actions: seq<Action>, i: int) {
    exists k :: 0 <= i < k < |actions| && actions[k].SendCancellation?
  }

  /** The pool is good unless a transaction was refused since the last cancellation came back; then it is
      blocked until the next check and waits from there on, and the cancellation is of the type that was
      not refused. */
  ghost predicate Dictated(d: Driver, actions: seq<Action>) {
    && ((forall i :: !Refused(actions, i)) ==> d.pool == Good)
    && forall i :: Refused(actions, i) ==>
         && d.pool == (if CheckedSince(actions, i) then CancelPending else Blocked)
         && d.blockedBlob == actions[i].ref.isBlob
         && d.due == (if CheckedSince(actions, i) && !SentSince(actions, i) then Some(!actions[i].ref.isBlob) else None)
         && (SentSince(actions, i) ==> CheckedSince(actions, i))
  }

  /** A refusal after which no cancellation came back: then some refusal is the first such. */
  lemma {:induction false} SomeRefused(actions: seq<Action>, q: nat) returns (i: nat)
    requires q < |actions| && Refusal(actions[q]) && !BackBetween(actions, q, |actions|)
    ensures Refused(actions, i)
    decreases q
  {
    if p: nat :| p < q && Refusal(actions[p]) && !BackBetween(actions, p, q) {
      assert !Back(actions[q]);
      i := SomeRefused(actions, p);
    } else {
      i := q;
    }
  }

  lemma RefusedOnce(actions: seq<Action>, i: int, j: int)
    requires Refused(actions, i) && Refused(actions, j)
    ensures i == j
  {
  }

  lemma BackBetweenNext(actions: seq<Action>, a: Action, q: int, i: int)
    requires -1 <= q && i <= |actions|
    ensures BackBetween(actions + [a], q, i) <==> BackBetween(actions, q, i)
    ensures q < |actions| ==> (BackBetween(actions + [a], q, |actions| + 1) <==> BackBetween(actions, q, |actions|) || Back(a))
  {
    var next := actions + [a];
    assert next[|actions|] == a && forall k :: 0 <= k < |actions| ==> next[k] == actions[k];
    hide Back;
    if c :| q < c < |actions| && Back(actions[c]) {
      assert Back(next[c]);
    }
    if c :| q < c < i && Back(actions[c]) {
      assert Back(next[c]);
    }
  }

  /** One more action: an earlier refusal stays the first one unless a cancellation comes back. */
  lemma RefusedNext(actions: seq<Action>, a: Action, i: int)
    requires i < |actions|
    ensures Refused(actions + [a], i) <==> Refused(actions, i) && !Back(a)
  {
    var next := actions + [a];
    hide Refusal;
    hide Back;
    hide BackBetween;
    if 0 <= i {
      BackBetweenNext(actions, a, i, i);
      forall q | 0 <= q < i
        ensures BackBetween(next, q, i) <==> BackBetween(actions, q, i)
      {
        BackBetweenNext(actions, a, q, i);
      }
    }
  }

  /** A refusal is the first one exactly if no earlier one still is. */
  lemma RefusedNow(actions: seq<Action>, a: Action)
    ensures Refused(actions + [a], |actions|) <==> Refusal(a) && forall i :: !Refused(actions, i)
  {
    var next, n := actions + [a], |actions|;
    if i :| Refused(actions, i) {
      BackBetweenNext(actions, a, i, n);
      assert Refusal(next[i]) && !BackBetween(next, i, n);
    } else if Refusal(a) {
      forall q | 0 <= q < n && Refusal(next[q])
        ensures BackBetween(next, q, n)
      {
        BackBetweenNext(actions, a, q, n);
        if !BackBetween(actions, q, n) {
          var i := SomeRefused(actions, q);
        }
      }
    }
  }

  lemma SinceNext(actions: seq<Action>, a: Action, i: int)
    requires 0 <= i < |actions|
    ensures CheckedSince(actions + [a], i) <==> CheckedSince(actions, i) || a.CheckTxpool?
    ensures SentSince(actions + [a], i) <==> SentSince(actions, i) || a.SendCancellation?
  {
    var next := actions + [a];
    assert next[|actions|] == a && forall k :: 0 <= k < |actions| ==> next[k] == actions[k];
    if k :| 0 <= i < k < |actions| && actions[k].CheckTxpool? {
      assert next[k].CheckTxpool?;
    }
    if k :| 0 <= i < k < |actions| && actions[k].SendCancellation? {
      assert next[k].SendCancellation?;
    }
  }

  lemma NothingSince(actions: seq<Action>)
    ensures !CheckedSince(actions, |actions| - 1) && !SentSince(actions, |actions| - 1)
  {
  }

  /** While a refusal stays the first one. */
  lemma RefusedStep(d: Driver, actions: seq<Action>, a: Action, i: int)
    requires PoolInv(d) && Enabled(d, a) && Dictated(d, actions) && Refused(actions, i) && !Back(a)
    ensures var d', next := Act(d, a), actions + [a];
            && 0 <= i < |actions| && next[i] == actions[i]
            && d'.pool == (if CheckedSince(next, i) then CancelPending else Blocked)
            && d'.blockedBlob == actions[i].ref.isBlob
            && d'.due == (if CheckedSince(next, i) && !SentSince(next, i) then Some(!actions[i].ref.isBlob) else None)
            && (SentSince(next, i) ==> CheckedSince(next, i))
  {
    SinceNext(actions, a, i);
    hide CheckedSince;
    hide SentSince;
    hide ManagerValue.Wf;
    hide Admissible;
    hide Small;
    hide ManagerRuns.Next;
    hide HandleReceipt;
  }

  /** While the pool is good. */
  lemma GoodStep(d: Driver, actions: seq<Action>, a: Action)
    requires PoolInv(d) && Enabled(d, a) && d.pool == Good
    ensures var d' := Act(d, a);
            if Refusal(a) then d'.pool == Blocked && d'.blockedBlob == a.ref.isBlob && d'.due == None
            else d'.pool == Good && !Back(a)
  {
    hide ManagerValue.Wf;
    hide Admissible;
    hide Small;
    hide ManagerRuns.Next;
    hide HandleReceipt;
  }

  /** A cancellation comes back to a pool that waits for it. */
  lemma BackStep(d: Driver, a: Action)
    requires PoolInv(d) && Enabled(d, a) && Back(a)
    ensures d.pool == CancelPending && Act(d, a).pool == Good
  {
  }

  lemma StepDictated(d: Driver, actions: seq<Action>, a: Action)
    requires PoolInv(d) && Enabled(d, a) && Dictated(d, actions)
    ensures Dictated(Act(d, a), actions + [a])
  {
    var next, n := actions + [a], |actions|;
    hide PoolInv;
    hide Enabled;
    hide Act;
    RefusedNow(actions, a);
    NothingSince(next);
    forall i | Refused(next, i)
      ensures i == n || (i < n && Refused(actions, i) && !Back(a))
    {
      if i < n {
        RefusedNext(actions, a, i);
      }
    }
    if i :| Refused(actions, i) {
      RefusedNext(actions, a, i);
      if Back(a) {
        BackStep(d, a);
        assert forall j :: !Refused(next, j);
      } else {
        RefusedStep(d, actions, a, i);
        forall j | Refused(next, j)
          ensures j == i
        {
          RefusedOnce(next, i, j);
        }
      }
    } else {
      GoodStep(d, actions, a);
      assert next[n] == a;
    }
    hide Refused;
    hide CheckedSince;
    hide SentSince;
  }

  lemma {:induction false} LastAction(d: Driver, actions: seq<Action>)
    requires actions != [] && CanAct(d, actions)
    ensures var k := |actions| - 1;
            && CanAct(d, actions[..k]) && Enabled(ActAll(d, actions[..k]), actions[k])
            && ActAll(d, actions) == Act(ActAll(d, actions[..k]), actions[k])
    decreases |actions|
  {
    hide Enabled;
    hide Act;
    var k := |actions| - 1;
    if k > 0 {
      LastAction(Act(d, actions[0]), actions[1..]);
      assert actions[1..][..k - 1] == actions[..k][1..];
    } else {
      assert actions[1..] == [];
    }
  }

  lemma {:induction false} RunIsDictated(d: Driver, actions: seq<Action>)
    requires PoolInv(d) && Core(d.manager) && d.pool == Good && CanAct(d, actions)
    ensures Dictated(ActAll(d, actions), actions)
    decreases |actions|
  {
    hide *;
    if actions == [] {
      StartIsDictated(d);
    } else {
      var k := |actions| - 1;
      LastAction(d, actions);
      RunIsDictated(d, actions[..k]);
      EveryInterleaving(d, actions[..k]);
      StepDictated(ActAll(d, actions[..k]), actions[..k], actions[k]);
      assert actions[..k] + [actions[k]] == actions;
    }
  }

  lemma StartIsDictated(d: Driver)
    requires PoolInv(d) && d.pool == Good && CanAct(d, [])
    ensures Dictated(ActAll(d, []), [])
  {
  }

  /** At the end of every interleaving from the start of the loop: the pool is good if and only if no
      transaction was refused since the last cancellation came back, it is blocked until the next check,
      and that check decides on one cancellation, of the type that was not refused. */
  lemma PoolIsDictatedByActions(l1Origin: BlockID, actions: seq<Action>)
    requires CanAct(Start(Cleared(l1Origin)), actions)
    ensures var d := ActAll(Start(Cleared(l1Origin)), actions);
            && (d.pool == Good <==> forall i :: !Refused(actions, i))
            && forall i :: Refused(actions, i) ==>
                 && d.blockedBlob == actions[i].ref.isBlob
                 && d.pool == (if CheckedSince(actions, i) then CancelPending else Blocked)
                 && d.due == (if CheckedSince(actions, i) && !SentSince(actions, i) then Some(!actions[i].ref.isBlob) else None)
                 && d.flying[CANCELLATION] == if SentSince(actions, i) then 1 else 0
  {
    ClearedCore(l1Origin);
    var d := ActAll(Start(Cleared(l1Origin)), actions);
    RunIsDictated(Start(Cleared(l1Origin)), actions);
    EveryInterleaving(Start(Cleared(l1Origin)), actions);
    hide Refused;
    hide CanAct;
    hide ActAll;
    hide Core;
    hide CheckedSince;
    hide SentSince;
  }

  /** Nothing but a check ends the blocked state. */
  lemma {:induction false} StaysBlocked(d: Driver, actions: seq<Action>)
    requires PoolInv(d) && d.pool == Blocked && CanAct(d, actions) && CheckTxpool !in actions
    ensures var d' := ActAll(d, actions); PoolInv(d') && d'.pool == Blocked && d'.blockedBlob == d.blockedBlob
    decreases |actions|
  {
    hide Enabled;
    if actions != [] {
      ActKeepsPool(d, actions[0]);
      BlockedStep(d, actions[0]);
      hide PoolInv;
      hide Act;
      StaysBlocked(Act(d, actions[0]), actions[1..]);
    }
  }

  lemma BlockedStep(d: Driver, a: Action)
    requires PoolInv(d) && d.pool == Blocked && Enabled(d, a) && a != CheckTxpool
    ensures Act(d, a).pool == Blocked && Act(d, a).blockedBlob == d.blockedBlob
  {
    hide ManagerValue.Wf;
    hide Admissible;
    hide Small;
    hide ManagerRuns.Next;
    hide HandleReceipt;
  }

  /** A refusal received by a good pool, then anything but a check, however many receipts: the next check
      decides on exactly one cancellation, of the type that was not refused. */
  lemma RefusalIsAnswered(d: Driver, ref: TxRef, between: seq<Action>)
    requires PoolInv(d) && d.pool == Good && CheckTxpool !in between
    requires Enabled(d, Receive(ref, AlreadyReserved)) && CanAct(Act(d, Receive(ref, AlreadyReserved)), between)
    requires Enabled(ActAll(Act(d, Receive(ref, AlreadyReserved)), between), CheckTxpool)
    ensures var d' := Act(ActAll(Act(d, Receive(ref, AlreadyReserved)), between), CheckTxpool);
            d'.pool == CancelPending && d'.due == Some(!ref.isBlob) && Outstanding(d') == 1
  {
    var refusal := Receive(ref, AlreadyReserved);
    ActKeepsPool(d, refusal);
    var d1 := Act(d, refusal);
    assert d1.pool == Blocked && d1.blockedBlob == ref.isBlob;
    hide Act;
    StaysBlocked(d1, between);
    hide CanAct;
    hide ActAll;
    CheckDecides(ActAll(d1, between));
  }

  lemma CheckDecides(d: Driver)
    requires PoolInv(d) && d.pool == Blocked && Enabled(d, CheckTxpool)
    ensures var d' := Act(d, CheckTxpool);
            d'.pool == CancelPending && d'.due == Some(!d.blockedBlob) && Outstanding(d') == 1
  {
    hide ManagerValue.Wf;
  }

  /** What the goroutine does with a receipt: an included transaction becomes confirmed in its block, any other
      one is given back, all its frames to the queue of their channel; no other channel changes. */
  lemma ReceiptIsPassedOn(m: ManagerValue, ref: TxRef, outcome: Outcome)
    requires Core(m) && m.Wf()
    ensures var k, m' := Render(ref.id, ZeroChannelID), HandleReceipt(m, ref, outcome);
            && (k !in m.txChannels ==> m' == m)
            && (k in m.txChannels ==>
                 var c := m.txChannels[k];
                 && c < |m.chans| == |m'.chans| && k in m.chans[c].pending && k in m.chans[c].sent
                 && m'.txChannels == m.txChannels - {k}
                 && (forall e :: 0 <= e < |m.chans| && e != c ==> m'.chans[e] == m.chans[e])
                 && var v, v' := m.chans[c], m'.chans[c];
                    && k !in v'.pending
                    && (if outcome.Included? then k in v'.confirmed && v'.confirmed[k] == outcome.block
                        else && k !in v'.confirmed && v'.builder.frames == v.builder.frames + v.sent[k].frames
                             && forall n :: Carries(v.sent[k], n) ==> InQueue(v', n)))
  {
    hide Render;
    var k := Render(ref.id, ZeroChannelID);
    hide Core;
    if k in m.txChannels {
      KnownTx(m, k);
      var c := m.txChannels[k];
      PendingIsSentOnly(m.chans[c], k);
      hide ChannelInv;
      if outcome.Included? {
        ConfirmedEffect(m, k, outcome.block);
        hide ManagerSpec.TxConfirmed;
      } else {
        GivenBack(m.chans[c], k);
        FailedEffect(m, k);
        hide ManagerSpec.TxFailed;
        hide ChannelSpec.TxFailed;
      }
      hide ManagerValue.Wf;
    }
  }

  lemma PendingIsSentOnly(v: ChannelValue, k: string)
    requires ChannelInv(v) && k in v.pending
    ensures k in v.sent && v.pending[k] == v.sent[k] && k !in v.confirmed
  {
    hide Conserved;
    hide Segmented;
    hide Timed;
    hide Published;
  }

  lemma GivenBack(v: ChannelValue, k: string)
    requires k in v.pending && k in v.sent && v.pending[k] == v.sent[k] && k !in v.confirmed
    ensures var v' := ChannelSpec.TxFailed(v, k);
            && k !in v'.pending && k !in v'.confirmed && v'.builder.frames == v.builder.frames + v.sent[k].frames
            && forall n :: Carries(v.sent[k], n) ==> InQueue(v', n)
  {
    var v', fs := ChannelSpec.TxFailed(v, k), v.sent[k].frames;
    forall n | Carries(v.sent[k], n)
      ensures InQueue(v', n)
    {
      var j :| 0 <= j < |fs| && fs[j].id.frameNumber == n;
      assert v'.builder.frames[|v.builder.frames| + j] == fs[j];
    }
  }

  lemma FailedEffect(m: ManagerValue, k: string)
    requires m.Wf() && k in m.txChannels
    ensures var c, m' := m.txChannels[k], ManagerSpec.TxFailed(m, k);
            && c < |m.chans| == |m'.chans| && m'.txChannels == m.txChannels - {k}
            && m'.chans == m.chans[c := ChannelSpec.TxFailed(m.chans[c], k)]
  {
    hide ChannelSpec.TxFailed;
  }

  lemma ConfirmedEffect(m: ManagerValue, k: string, block: BlockID)
    requires m.Wf() && k in m.txChannels && m.txChannels[k] < |m.chans| && k in m.chans[m.txChannels[k]].pending
    ensures var c, m' := m.txChannels[k], ManagerSpec.TxConfirmed(m, k, block);
            && |m'.chans| == |m.chans| && m'.txChannels == m.txChannels - {k}
            && (forall e :: 0 <= e < |m.chans| && e != c ==> m'.chans[e] == m.chans[e])
            && k !in m'.chans[c].pending && k in m'.chans[c].confirmed && m'.chans[c].confirmed[k] == block
  {
    hide ChannelValue.TimedOut;
    hide ChannelValue.FullySubmitted;
    hide Without;
    hide BuilderSpec.FramePublished;
  }
}
