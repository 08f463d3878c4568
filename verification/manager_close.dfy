/** What Close leaves in the channel queue.  Removing from the queue while ranging over it skips the
    element after each removed one, except that the last element is always seen. */
module ManagerClose {
  import opened Bytes
  import opened ChannelSpec
  import opened ManagerSpec

  function Survivors(s: seq<nat>, idle: set<nat>): seq<nat> {
    if s == [] then []
    else if s[0] !in idle then [s[0]] + Survivors(s[1..], idle)
    else if |s| >= 3 then [s[1]] + Survivors(s[2..], idle)
    else Survivors(s[1..], idle)
  }

  ghost predicate Distinct(s: seq<nat>) {
    forall i, j :: 0 <= i < j < |s| ==> s[i] != s[j]
  }

  ghost predicate All(s: seq<nat>, x: nat) {
    forall i :: 0 <= i < |s| ==> s[i] == x
  }

  lemma HeadTail(s: seq<nat>)
    requires s != []
    ensures s == [s[0]] + s[1..]
    ensures forall x :: x in s <==> x == s[0] || x in s[1..]
  {
    assert s == [s[0]] + s[1..];
  }

  lemma {:induction false} WithoutAt(pre: seq<nat>, x: nat, post: seq<nat>)
    requires x !in pre
    ensures Without(pre + [x] + post, x) == pre + post
  {
    var q := pre + [x] + post;
    if pre == [] {
      assert q[1..] == post && q[0] == x;
      assert pre + post == post;
    } else {
      HeadTail(pre);
      assert q[0] == pre[0] && q[1..] == pre[1..] + [x] + post;
      WithoutAt(pre[1..], x, post);
      assert Without(q, x) == [pre[0]] + Without(q[1..], x);
      hide Without;
      assert [pre[0]] + (pre[1..] + post) == pre + post;
    }
  }

  /** Reading a stale copy of an element that is not there any more, or is not idle, does nothing. */
  lemma {:induction false} StaleReads(cur: Option<nat>, queue: seq<nat>, idle: set<nat>, arr: seq<nat>, i: nat, x: nat)
    requires |queue| <= i <= |arr| && queue <= arr && All(arr[i..], x)
    requires x !in idle || x !in queue
    ensures Sweep(Swept(cur, queue), idle, arr, i).queue == queue
    decreases |arr| - i
  {
    if i < |arr| {
      assert arr[i] == arr[i..][0] == x;
      assert arr[i + 1..] == arr[i..][1..];
      if x in idle {
        WithoutLength(queue, x);
        StaleReads(if cur == Some(x) then None else cur, queue, idle, arr, i + 1, x);
      } else {
        StaleReads(cur, queue, idle, arr, i + 1, x);
      }
    }
  }

  /** The last element is seen again after something was removed. */
  lemma StaleLast(cur: Option<nat>, pre: seq<nat>, x: nat, idle: set<nat>, arr: seq<nat>, i: nat)
    requires i == |pre| + 1 < |arr| && pre + [x] <= arr && All(arr[i..], x) && x !in pre
    ensures Sweep(Swept(cur, pre + [x]), idle, arr, i).queue == if x in idle then pre else pre + [x]
  {
    assert arr[i] == arr[i..][0] == x;
    if x in idle {
      WithoutAt(pre, x, []);
      assert pre + [x] + [] == pre + [x] && pre + [] == pre;
      var arr' := Shift(pre + [x], arr, x);
      assert arr' == pre + arr[i - 1..];
      assert arr'[i + 1..] == arr[i..][1..];
      StaleReads(if cur == Some(x) then None else cur, pre, idle, arr', i + 1, x);
    } else {
      StaleReads(cur, pre + [x], idle, arr, i, x);
    }
  }

  lemma {:induction false} SweepSurvivors(cur: Option<nat>, pre: seq<nat>, s: seq<nat>, idle: set<nat>, arr: seq<nat>, i: nat)
    requires i == |pre| && pre + s <= arr && Distinct(pre + s)
    requires if s == [] then arr == pre else All(arr[i + |s| - 1..], s[|s| - 1])
    ensures Sweep(Swept(cur, pre + s), idle, arr, i).queue == pre + Survivors(s, idle)
    decreases |s|
  {
    var q := pre + s;
    if s == [] {
      assert q == pre;
    } else if s[0] !in idle {
      PassOver(cur, pre, s, idle, arr, i);
    } else {
      Drop(cur, pre, s, idle, arr, i);
    }
  }

  lemma Regroup(pre: seq<nat>, s: seq<nat>, more: seq<nat>)
    requires s != []
    ensures (pre + [s[0]]) + s[1..] == pre + s
    ensures pre + ([s[0]] + more) == (pre + [s[0]]) + more
  {
  }

  lemma {:induction false} PassOver(cur: Option<nat>, pre: seq<nat>, s: seq<nat>, idle: set<nat>, arr: seq<nat>, i: nat)
    requires i == |pre| && pre + s <= arr && Distinct(pre + s)
    requires s != [] && All(arr[i + |s| - 1..], s[|s| - 1]) && s[0] !in idle
    ensures Sweep(Swept(cur, pre + s), idle, arr, i).queue == pre + Survivors(s, idle)
    decreases |s|, 0
  {
    var q, pre', rest := pre + s, pre + [s[0]], s[1..];
    assert Survivors(s, idle) == [s[0]] + Survivors(rest, idle);
    assert rest == [] ==> Survivors(rest, idle) == [];
    hide Survivors;
    assert arr[i] == q[i] == s[0];
    SweepStep(Swept(cur, q), idle, arr, i);
    hide Sweep;
    hide Distinct;
    Regroup(pre, s, Survivors(rest, idle));
    if rest == [] {
      assert q == pre' && pre' + [] == pre';
      assert arr[i..][1..] == arr[i + 1..];
      StaleReads(cur, q, idle, arr, i + 1, s[0]);
    } else {
      hide All;
      assert rest[|rest| - 1] == s[|s| - 1] && i + 1 + |rest| - 1 == i + |s| - 1;
      SweepSurvivors(cur, pre', rest, idle, arr, i + 1);
    }
  }

  lemma FirstIsNew(pre: seq<nat>, s: seq<nat>)
    requires s != [] && Distinct(pre + s)
    ensures s[0] !in pre
  {
    var q := pre + s;
    assert q[|pre|] == s[0];
    hide Distinct;
    forall j | 0 <= j < |pre|
      ensures pre[j] != s[0]
    {
      assert q[j] == pre[j];
      DistinctAt(q, j, |pre|);
    }
  }

  lemma DistinctAt(q: seq<nat>, i: nat, j: nat)
    requires Distinct(q) && i < j < |q|
    ensures q[i] != q[j]
  {
  }

  lemma StillDistinct(pre: seq<nat>, s: seq<nat>)
    requires s != [] && Distinct(pre + s)
    ensures Distinct(pre + s[1..])
  {
    var q, q', n := pre + s, pre + s[1..], |pre|;
    forall i, j | 0 <= i < j < |q'|
      ensures q'[i] != q'[j]
    {
      var i', j' := if i < n then i else i + 1, if j < n then j else j + 1;
      assert q'[i] == q[i'] && q'[j] == q[j'];
      hide Distinct;
      DistinctAt(q, i', j');
    }
  }

  lemma WithoutFirst(pre: seq<nat>, s: seq<nat>)
    requires s != [] && Distinct(pre + s)
    ensures s[0] !in pre && Without(pre + s, s[0]) == pre + s[1..] && Distinct(pre + s[1..])
  {
    hide Distinct;
    hide Without;
    FirstIsNew(pre, s);
    StillDistinct(pre, s);
    WithoutAt(pre, s[0], s[1..]);
    assert pre + [s[0]] + s[1..] == pre + s;
  }

  lemma {:induction false} Drop(cur: Option<nat>, pre: seq<nat>, s: seq<nat>, idle: set<nat>, arr: seq<nat>, i: nat)
    requires i == |pre| && pre + s <= arr && Distinct(pre + s)
    requires s != [] && All(arr[i + |s| - 1..], s[|s| - 1]) && s[0] in idle
    ensures Sweep(Swept(cur, pre + s), idle, arr, i).queue == pre + Survivors(s, idle)
    decreases |s|, 2
  {
    hide Survivors;
    hide All;
    hide Without;
    var q, q', x := pre + s, pre + s[1..], s[0];
    assert arr[i] == q[i] == x && x in q;
    WithoutFirst(pre, s);
    hide Distinct;
    SweepStep(Swept(cur, q), idle, arr, i);
    hide Sweep;
    var tail := arr[i + |s| - 1..];
    assert Shift(q, arr, x) == q' + tail;
    assert (q' + tail)[i + |s| - 1..] == tail;
    AfterDrop(if cur == Some(x) then None else cur, pre, s, idle, q' + tail, i);
  }

  lemma {:induction false} AfterDrop(cur: Option<nat>, pre: seq<nat>, s: seq<nat>, idle: set<nat>, arr: seq<nat>, i: nat)
    requires i == |pre| && s != [] && s[0] in idle && s[0] !in pre && pre + s[1..] <= arr && Distinct(pre + s[1..])
    requires |arr| > i + |s| - 1 && All(arr[i + |s| - 1..], s[|s| - 1])
    ensures Sweep(Swept(cur, pre + s[1..]), idle, arr, i + 1).queue == pre + Survivors(s, idle)
    decreases |s|, 1
  {
    var q := pre + s[1..];
    if |s| == 1 {
      assert q == pre;
      assert arr[i..][1..] == arr[i + 1..];
      StaleReads(cur, pre, idle, arr, i + 1, s[0]);
    } else if |s| == 2 {
      AfterDropOfTwo(cur, pre, s, idle, arr, i);
    } else {
      AfterDropOfMore(cur, pre, s, idle, arr, i);
    }
  }

  lemma {:induction false} AfterDropOfMore(cur: Option<nat>, pre: seq<nat>, s: seq<nat>, idle: set<nat>, arr: seq<nat>, i: nat)
    requires i == |pre| && |s| >= 3 && s[0] in idle && pre + s[1..] <= arr && Distinct(pre + s[1..])
    requires |arr| > i + |s| - 1 && All(arr[i + |s| - 1..], s[|s| - 1])
    ensures Sweep(Swept(cur, pre + s[1..]), idle, arr, i + 1).queue == pre + Survivors(s, idle)
    decreases |s|, 0
  {
    var q, pre', rest := pre + s[1..], pre + [s[1]], s[2..];
    assert q == pre' + rest;
    assert arr[i + |s| - 2] == q[i + |s| - 2] == s[|s| - 1];
    AllFrom(arr, i + |s| - 2, s[|s| - 1]);
    hide All;
    hide Sweep;
    SweepSurvivors(cur, pre', rest, idle, arr, i + 1);
    assert pre + Survivors(s, idle) == pre' + Survivors(rest, idle);
  }

  lemma AfterDropOfTwo(cur: Option<nat>, pre: seq<nat>, s: seq<nat>, idle: set<nat>, arr: seq<nat>, i: nat)
    requires i == |pre| && |s| == 2 && s[0] in idle && pre + s[1..] <= arr && Distinct(pre + s[1..])
    requires |arr| > i + 1 && All(arr[i + 1..], s[1])
    ensures Sweep(Swept(cur, pre + s[1..]), idle, arr, i + 1).queue == pre + Survivors(s, idle)
  {
    var q := pre + s[1..];
    assert q == pre + [s[1]] && s[1..] == [s[1]] && s[1..][1..] == [];
    assert s[1] == q[i] && forall j :: 0 <= j < i ==> q[j] == pre[j];
    StaleLast(cur, pre, s[1], idle, arr, i + 1);
    assert Survivors(s[1..], idle) == if s[1] in idle then [] else [s[1]];
    assert Survivors(s, idle) == Survivors(s[1..], idle);
    hide Sweep;
    hide Survivors;
  }

  lemma AllFrom(arr: seq<nat>, i: nat, x: nat)
    requires i < |arr| && arr[i] == x && All(arr[i + 1..], x)
    ensures All(arr[i..], x)
  {
    forall j | 0 <= j < |arr[i..]|
      ensures arr[i..][j] == x
    {
      assert j > 0 ==> arr[i..][j] == arr[i + 1..][j - 1];
    }
  }

  /** Two idle channels in a row, the second of which is not the last channel. */
  ghost predicate IdlePair(s: seq<nat>, idle: set<nat>) {
    exists e :: 0 <= e && e + 2 < |s| && s[e] in idle && s[e + 1] in idle
  }

  lemma {:induction false} SurvivorsInOrder(s: seq<nat>, idle: set<nat>)
    ensures forall c :: c in Survivors(s, idle) ==> c in s
    ensures forall c :: c in s && c !in idle ==> c in Survivors(s, idle)
    ensures (exists c :: c in Survivors(s, idle) && c in idle) <==> IdlePair(s, idle)
    decreases |s|
  {
    if s == [] {
    } else if s[0] in idle && |s| >= 3 {
      assert s[1..][1..] == s[2..];
      HeadTail(s);
      HeadTail(s[1..]);
      PairFurther(s, idle);
      PairFurther(s[1..], idle);
      hide IdlePair;
      SurvivorsInOrder(s[2..], idle);
    } else {
      HeadTail(s);
      PairFurther(s, idle);
      assert |s| <= 2 ==> !IdlePair(s, idle);
      hide IdlePair;
      SurvivorsInOrder(s[1..], idle);
    }
  }

  lemma PairFurther(s: seq<nat>, idle: set<nat>)
    requires s != []
    ensures IdlePair(s, idle) <==> (|s| >= 3 && s[0] in idle && s[1] in idle) || IdlePair(s[1..], idle)
  {
    if e :| 0 <= e && e + 2 < |s| && s[e] in idle && s[e + 1] in idle {
      if e > 0 {
        assert s[1..][e - 1] in idle && s[1..][e] in idle;
      }
    }
    if e :| 0 <= e && e + 2 < |s[1..]| && s[1..][e] in idle && s[1..][e + 1] in idle {
      assert s[e + 1] in idle && s[e + 2] in idle;
    }
  }

  /** A transaction of the channel is in flight or confirmed. */
  ghost predicate OnItsWay(v: ChannelValue) {
    v.pending != map[] || v.confirmed != map[]
  }

  /** Close keeps every channel with a transaction in flight or confirmed.  It drops all the others if
      and only if no two of them are neighbours before the last channel of the queue. */
  lemma CloseDropsIdle(m: ManagerValue)
    requires m.Wf() && Distinct(m.queue)
    ensures var q := DropIdle(m).queue;
            && q == Survivors(m.queue, Idle(m))
            && (forall c :: c in q ==> c in m.queue)
            && (forall c :: c in m.queue && OnItsWay(m.chans[c]) ==> c in q)
            && ((forall c :: c in q ==> c in m.queue && OnItsWay(m.chans[c])) <==> !IdlePair(m.queue, Idle(m)))
  {
    var q, idle := m.queue, Idle(m);
    DropIdleSurvivors(m);
    SurvivorsInOrder(q, idle);
    hide DropIdle;
    hide Survivors;
    hide IdlePair;
    hide Distinct;
    assert forall c :: c in q ==> (c in idle <==> !OnItsWay(m.chans[c]));
    hide Idle;
    hide OnItsWay;
  }

  lemma SweepAll(cur: Option<nat>, q: seq<nat>, idle: set<nat>)
    requires Distinct(q)
    ensures Sweep(Swept(cur, q), idle, q, 0).queue == Survivors(q, idle)
  {
    assert [] + q == q && [] + Survivors(q, idle) == Survivors(q, idle);
    hide Survivors;
    hide Sweep;
    SweepSurvivors(cur, [], q, idle, q, 0);
  }

  lemma DropIdleSurvivors(m: ManagerValue)
    requires m.Wf() && Distinct(m.queue)
    ensures DropIdle(m).queue == Survivors(m.queue, Idle(m))
  {
    hide Survivors;
    hide Sweep;
    hide Idle;
    hide Distinct;
    SweepAll(m.current, m.queue, Idle(m));
    hide ManagerValue.Wf;
  }
}
