/** What every reachable state of the channel manager satisfies: the channels are consistent, the
    transaction index agrees with the channels' pending transactions, and at most the last channel
    opened still takes blocks. */
module ManagerIndex {
  import opened Bytes
  import opened TxDatas
  import opened BuilderSpec
  import opened ChannelSpec
  import opened Segmentation
  import opened Deadlines
  import opened FrameConservation
  import opened ChannelRuns
  import opened ManagerSpec

  ghost predicate ChansOk(m: ManagerValue) {
    forall c :: 0 <= c < |m.chans| ==> ChannelInv(m.chans[c])
  }

  ghost predicate IdsDistinct(m: ManagerValue) {
    forall c, d :: 0 <= c < d < |m.chans| ==> m.chans[c].builder.co.id != m.chans[d].builder.co.id
  }

  /** The index maps an id to a channel if and only if the id is pending in that channel. */
  ghost predicate IndexAgrees(m: ManagerValue) {
    && (forall k :: k in m.txChannels ==> m.txChannels[k] < |m.chans| && k in m.chans[m.txChannels[k]].pending)
    && (forall c, k :: 0 <= c < |m.chans| && k in m.chans[c].pending ==> k in m.txChannels && m.txChannels[k] == c)
  }

  /** The queue is in opening order; the current channel is the last one opened and is queued; every
      other queued channel is full. */
  ghost predicate QueueOk(m: ManagerValue) {
    && (forall i :: 0 <= i < |m.queue| ==> m.queue[i] < |m.chans|)
    && Ascending(m.queue)
    && (m.current.Some? ==> m.current.value == |m.chans| - 1 && m.current.value in m.queue)
    && (forall i :: 0 <= i < |m.queue| ==> m.current == Some(m.queue[i]) || m.chans[m.queue[i]].builder.IsFull())
  }

  ghost predicate Core(m: ManagerValue) {
    ChansOk(m) && IdsDistinct(m) && IndexAgrees(m) && QueueOk(m)
  }

  /** No channel has reached 65536 frames. */
  ghost predicate Small(m: ManagerValue) {
    forall c :: 0 <= c < |m.chans| ==> |m.chans[c].builder.made| <= MAX_UINT16
  }

  lemma CoreWf(m: ManagerValue)
    requires Core(m)
    ensures m.Wf()
  {
    hide IdsDistinct;
    hide ChannelInv;
    forall c | 0 <= c < |m.chans|
      ensures m.chans[c].builder.cfg.Valid() && m.chans[c].builder.co.taken <= |m.chans[c].builder.co.stream|
    {
      InvShape(m.chans[c]);
    }
  }

  lemma SetKeeps(m: ManagerValue, c: nat, v: ChannelValue)
    requires ChansOk(m) && IdsDistinct(m) && QueueOk(m) && c < |m.chans|
    requires ChannelInv(v) && v.builder.co.id == m.chans[c].builder.co.id
    requires m.chans[c].builder.IsFull() ==> v.builder.IsFull()
    ensures ChansOk(Set(m, c, v)) && IdsDistinct(Set(m, c, v)) && QueueOk(Set(m, c, v))
  {
    hide ChannelInv;
  }

  /** A change of the builder alone. */
  lemma WithBuilderKeeps(m: ManagerValue, c: nat, b: BuilderValue)
    requires Core(m) && c < |m.chans|
    requires ChannelInv(m.chans[c].(builder := b)) && b.co.id == m.chans[c].builder.co.id
    requires m.chans[c].builder.IsFull() ==> b.IsFull()
    ensures Core(WithBuilder(m, c, b))
  {
    hide ChannelInv;
    hide ChansOk;
    hide IdsDistinct;
    hide QueueOk;
    SetKeeps(m, c, m.chans[c].(builder := b));
  }

  /** The four parts depend on nothing else. */
  lemma CoreSame(m: ManagerValue, m': ManagerValue)
    requires Core(m) && m'.chans == m.chans && m'.queue == m.queue && m'.current == m.current && m'.txChannels == m.txChannels
    ensures Core(m')
  {
    hide ChannelInv;
  }

  ghost predicate Ascending(q: seq<nat>) {
    forall i, j :: 0 <= i < j < |q| ==> q[i] < q[j]
  }

  lemma WithoutStep(q: seq<nat>, c: nat)
    requires q != []
    ensures Without(q, c) == if q[0] == c then q[1..] else [q[0]] + Without(q[1..], c)
  {
  }

  lemma {:induction false} WithoutOrdered(q: seq<nat>, c: nat)
    requires Ascending(q)
    ensures Ascending(Without(q, c))
    ensures forall x :: x in Without(q, c) <==> x in q && x != c
  {
    if q != [] {
      WithoutStep(q, c);
      hide Without;
      var rest := q[1..];
      assert q == [q[0]] + rest;
      forall x | x in rest
        ensures q[0] < x
      {
        var i :| 0 <= i < |rest| && rest[i] == x;
        assert q[i + 1] == x;
      }
      if q[0] != c {
        WithoutOrdered(rest, c);
        PrependAscending(q[0], Without(rest, c));
      }
    }
  }

  lemma PrependAscending(x: nat, q: seq<nat>)
    requires Ascending(q) && forall y :: y in q ==> x < y
    ensures Ascending([x] + q)
  {
    forall i, j | 0 <= i < j < |[x] + q|
      ensures ([x] + q)[i] < ([x] + q)[j]
    {
      assert ([x] + q)[j] == q[j - 1] && q[j - 1] in q;
    }
  }

  lemma RemoveKeeps(m: ManagerValue, c: nat)
    requires Core(m)
    ensures Core(RemovePending(m, c))
    ensures forall x :: x in RemovePending(m, c).queue <==> x in m.queue && x != c
  {
    hide ChannelInv;
    hide ChansOk;
    hide IdsDistinct;
    hide Without;
    WithoutOrdered(m.queue, c);
    var m' := RemovePending(m, c);
    assert ChansOk(m') && IdsDistinct(m') by { RemoveSame(m, c); }
    assert forall i :: 0 <= i < |m'.queue| ==> m'.queue[i] in m.queue;
  }

  lemma RemoveSame(m: ManagerValue, c: nat)
    requires ChansOk(m) && IdsDistinct(m)
    ensures ChansOk(RemovePending(m, c)) && IdsDistinct(RemovePending(m, c))
  {
    hide ChannelInv;
    hide Without;
  }

  /** Keys of transactions of different channels differ. */
  lemma KeysDiffer(c: ChannelValue, d: ChannelValue, k: string)
    requires ChannelInv(c) && ChannelInv(d) && k in c.sent && k in d.sent
    ensures c.builder.co.id == d.builder.co.id
  {
    hide Segmented;
    hide Timed;
    hide Render;
    hide InQueue;
    hide Carries;
    hide Published;
    assert GoodTx(c.builder, k, c.sent[k]) && GoodTx(d.builder, k, d.sent[k]);
    SameKeyGoodTx(c.builder, d.builder, k, c.sent[k], d.sent[k]);
  }

  lemma SameKeyGoodTx(a: BuilderValue, b: BuilderValue, k: string, x: TxData, y: TxData)
    requires Segmented(a) && |a.made| <= MAX_UINT16 + 1 && a.co.id != ZeroChannelID && GoodTx(a, k, x)
    requires Segmented(b) && |b.made| <= MAX_UINT16 + 1 && b.co.id != ZeroChannelID && GoodTx(b, k, y)
    ensures a.co.id == b.co.id
  {
    hide Segmented;
    hide Render;
    hide Unrepeated;
    GoodTxIDs(a, k, x);
    GoodTxIDs(b, k, y);
    KeyDeterminesFrames(x, y);
    assert x.ID()[0] == y.ID()[0];
  }

  /** Handing out a transaction. */
  lemma PopKeeps(m: ManagerValue, c: nat)
    requires Core(m) && c < |m.chans| && m.chans[c].HasTxData()
    ensures Core(PopTx(m, Some(c)).0)
  {
    hide ChannelInv;
    hide ChansOk;
    hide IdsDistinct;
    hide QueueOk;
    hide Render;
    assert ChannelInv(m.chans[c]) by { ChanOk(m, c); }
    SendKeeps(m.chans[c]);
    var v, m' := NextTxData(m.chans[c]), PopTx(m, Some(c)).0;
    var k, m1 := m.chans[c].NextTx().Key(), Set(m, c, v);
    SetKeeps(m, c, v);
    CorePartsSame(m1, m');
    forall d | 0 <= d < |m.chans| && d != c
      ensures k !in m.chans[d].pending
    {
      if k in m.chans[d].pending {
        OtherKey(m1, c, d, k);
      }
    }
    PendKeepsIndex(m, m', c, k);
  }

  /** The id `k`, pending nowhere else, becomes pending in channel `c`. */
  lemma PendKeepsIndex(m: ManagerValue, m': ManagerValue, c: nat, k: string)
    requires IndexAgrees(m) && c < |m.chans| == |m'.chans| && m'.txChannels == m.txChannels[k := c]
    requires m'.chans[c].pending.Keys == m.chans[c].pending.Keys + {k}
    requires forall d :: 0 <= d < |m.chans| && d != c ==> m'.chans[d] == m.chans[d] && k !in m.chans[d].pending
    ensures IndexAgrees(m')
  {
    forall d, key | 0 <= d < |m'.chans| && key in m'.chans[d].pending
      ensures key in m'.txChannels && m'.txChannels[key] == d
    {
      assert key in m'.chans[d].pending.Keys;
    }
    assert forall key :: key in m.chans[c].pending ==> key in m'.chans[c].pending.Keys;
  }

  lemma ChanOk(m: ManagerValue, c: nat)
    requires ChansOk(m) && c < |m.chans|
    ensures ChannelInv(m.chans[c])
  {
  }

  lemma CorePartsSame(m: ManagerValue, m': ManagerValue)
    requires ChansOk(m) && IdsDistinct(m) && QueueOk(m)
    requires m'.chans == m.chans && m'.queue == m.queue && m'.current == m.current
    ensures ChansOk(m') && IdsDistinct(m') && QueueOk(m')
  {
    hide ChannelInv;
  }

  lemma OtherKey(m: ManagerValue, c: nat, d: nat, k: string)
    requires ChansOk(m) && IdsDistinct(m) && c < |m.chans| && d < |m.chans|
    requires k in m.chans[c].pending && k in m.chans[d].pending
    ensures c == d
  {
    hide Conserved;
    hide Segmented;
    hide Timed;
    hide Published;
    assert k in m.chans[c].sent && k in m.chans[d].sent;
    KeysDiffer(m.chans[c], m.chans[d], k);
  }

  /** The pending transaction `k` of channel `c` is removed from both the channel and the index. */
  lemma UnpendKeeps(m: ManagerValue, k: string, v: ChannelValue)
    requires Core(m) && k in m.txChannels && m.txChannels[k] < |m.chans|
    requires ChannelInv(v) && v.builder.co.id == m.chans[m.txChannels[k]].builder.co.id
    requires m.chans[m.txChannels[k]].builder.IsFull() ==> v.builder.IsFull()
    requires v.pending == m.chans[m.txChannels[k]].pending - {k}
    ensures Core(Set(m, m.txChannels[k], v).(txChannels := m.txChannels - {k}))
  {
    hide ChannelInv;
    hide ChansOk;
    hide IdsDistinct;
    hide QueueOk;
    var c := m.txChannels[k];
    SetKeeps(m, c, v);
    CorePartsSame(Set(m, c, v), Set(m, c, v).(txChannels := m.txChannels - {k}));
  }

  /** In the manager an indexed transaction is always known to its channel. */
  lemma KnownTx(m: ManagerValue, k: string)
    requires Core(m) && k in m.txChannels
    ensures m.txChannels[k] < |m.chans| && k in m.chans[m.txChannels[k]].pending
    ensures ChannelInv(m.chans[m.txChannels[k]])
  {
    hide ChannelInv;
  }

  lemma TxFailedKeeps(m: ManagerValue, k: string)
    requires Core(m) && m.Wf()
    ensures Core(ManagerSpec.TxFailed(m, k))
  {
    hide Core;
    hide ChannelInv;
    hide ManagerValue.Wf;
    if k in m.txChannels {
      KnownTx(m, k);
      var c := m.txChannels[k];
      FailKeeps(m.chans[c], k);
      UnpendKeeps(m, k, ChannelSpec.TxFailed(m.chans[c], k));
      RemoveKeeps(Set(m, c, ChannelSpec.TxFailed(m.chans[c], k)).(txChannels := m.txChannels - {k}), c);
      hide RemovePending;
    }
  }

  lemma TxConfirmedKeeps(m: ManagerValue, k: string, inclusion: BlockID)
    requires Core(m) && m.Wf()
    ensures Core(ManagerSpec.TxConfirmed(m, k, inclusion))
  {
    hide Core;
    hide ChannelInv;
    if k in m.txChannels {
      KnownTx(m, k);
      var c := m.txChannels[k];
      ConfirmKeeps(m.chans[c], k, inclusion);
      var v := Confirm(m.chans[c], k, inclusion);
      UnpendKeeps(m, k, v);
      var m1 := Set(m, c, v).(txChannels := m.txChannels - {k});
      var m2 := m1.(blocks := v.builder.blocks + m1.blocks, timedOut := m1.timedOut + {c});
      var m3 := m1.(done := m1.done + {c});
      CoreSame(m1, m2);
      CoreSame(m1, m3);
      RemoveKeeps(m2, c);
      RemoveKeeps(m3, c);
      hide RemovePending;
      hide ManagerValue.Wf;
    }
  }
}
