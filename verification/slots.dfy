/** op-batcher/batcher/driver.go, the choice of the slots to publish in: elections won by this batcher
    are fetched once an epoch, and slots that have passed are popped from the front. */
module Slots {
  import opened Bytes

  const SLOT_TIME := 12

  datatype L1Ref = L1Ref(hash: nat, number: nat, time: nat)

  const NO_REF := L1Ref(0, 0, 0)

  datatype Winner = Winner(address: nat, time: nat)

  datatype SlotState = SlotState(lastL1Tip: L1Ref, lastSubmit: L1Ref, nextEpochToCheck: nat, targets: seq<nat>)

  /** What the L1 node, the rollup node and the beacon node answer during one poll; None is an error. */
  datatype Poll = Poll(tip: Option<L1Ref>, head: Option<L1Ref>, epoch: Option<nat>, winners: Option<seq<Winner>>)

  function Won(winners: seq<Winner>, me: nat): seq<nat> {
    if winners == [] then []
    else
      var w := winners[|winners| - 1];
      Won(winners[..|winners| - 1], me) + if w.address == me then [w.time] else []
  }

  function Pop(targets: seq<nat>, slot: nat): seq<nat> {
    if targets != [] && slot > targets[0] then Pop(targets[1..], slot) else targets
  }

  /** The slot to publish in, if any. */
  function ShouldPublish(s: SlotState, me: nat, p: Poll): (SlotState, Option<nat>) {
    if p.tip.None? then (s, None)
    else
      var s1 := s.(lastL1Tip := p.tip.value);
      if s1.lastL1Tip == s1.lastSubmit || p.head.None? || p.head.value == NO_REF || p.epoch.None? then (s1, None)
      else
        var slot := p.head.value.time + SLOT_TIME;
        var stale := p.epoch.value >= s1.nextEpochToCheck;
        if stale && p.winners.None? then (s1, None)
        else
          var s2 := if stale then s1.(targets := Won(p.winners.value, me), nextEpochToCheck := p.epoch.value + 1) else s1;
          var s3 := s2.(targets := Pop(s2.targets, slot));
          (s3, if s3.targets != [] && s3.targets[0] == slot then Some(slot) else None)
  }

  /** After a transaction was handed over, the tip is not used again. */
  function Submitted(s: SlotState): SlotState {
    s.(lastSubmit := s.lastL1Tip)
  }

  ghost predicate Ascending(ts: seq<nat>) {
    forall i, j :: 0 <= i < j < |ts| ==> ts[i] <= ts[j]
  }

  ghost predicate AscendingWinners(ws: seq<Winner>) {
    forall i, j :: 0 <= i < j < |ws| ==> ws[i].time <= ws[j].time
  }

  /** This batcher won the slot in the election of the epoch. */
  ghost predicate WonSlot(ws: seq<Winner>, me: nat, slot: nat) {
    exists i :: 0 <= i < |ws| && ws[i] == Winner(me, slot)
  }

  /** The targets are exactly the winning times of this batcher, in order. */
  lemma {:induction false} WonIsMembership(ws: seq<Winner>, me: nat)
    requires AscendingWinners(ws)
    ensures Ascending(Won(ws, me))
    ensures forall t :: t in Won(ws, me) <==> WonSlot(ws, me, t)
    ensures forall t :: t in Won(ws, me) ==> ws != [] && t <= ws[|ws| - 1].time
  {
    if ws != [] {
      var init, w := ws[..|ws| - 1], ws[|ws| - 1];
      WonIsMembership(init, me);
      forall t: nat
        ensures WonSlot(ws, me, t) <==> WonSlot(init, me, t) || w == Winner(me, t)
      {
        if i :| 0 <= i < |init| && init[i] == Winner(me, t) {
          assert ws[i] == Winner(me, t);
        }
        if i :| 0 <= i < |ws| && ws[i] == Winner(me, t) {
          assert i < |init| ==> init[i] == ws[i];
        }
      }
      AppendAscending(Won(init, me), w.time);
    }
  }

  lemma AppendAscending(ts: seq<nat>, t: nat)
    requires Ascending(ts) && forall x :: x in ts ==> x <= t
    ensures Ascending(ts + [t]) && ts + [] == ts
  {
    assert forall i :: 0 <= i < |ts| ==> ts[i] in ts;
  }

  /** Popping discards exactly the targets before the slot. */
  lemma {:induction false} PopDropsThePast(ts: seq<nat>, slot: nat)
    requires Ascending(ts)
    ensures var r := Pop(ts, slot);
            && Ascending(r) && (r != [] ==> slot <= r[0])
            && forall t :: t >= slot ==> (t in r <==> t in ts)
  {
    if ts != [] && slot > ts[0] {
      var rest := ts[1..];
      assert ts == [ts[0]] + rest;
      PopDropsThePast(rest, slot);
    }
  }

  /** The targets kept since `slot` are what popping leaves of the winning times of the last epoch asked
      for: no later slot has been lost. */
  ghost predicate Tracks(s: SlotState, me: nat, elections: nat -> seq<Winner>, slot: nat) {
    s.nextEpochToCheck > 0 ==>
      Pop(s.targets, slot) == Pop(Won(elections(s.nextEpochToCheck - 1), me), slot)
  }

  /** The poll gets past the tip and status checks and is answered with the epoch's election. */
  ghost predicate Answered(s: SlotState, elections: nat -> seq<Winner>, p: Poll) {
    && p.tip.Some? && p.tip.value != s.lastSubmit && p.head.Some? && p.head.value != NO_REF && p.epoch.Some?
    && (p.epoch.value >= s.nextEpochToCheck ==> p.winners == Some(elections(p.epoch.value)))
  }

  /** The slot occurs, with only earlier times before its first occurrence. */
  ghost predicate Leads(ts: seq<nat>, slot: nat) {
    exists i :: 0 <= i < |ts| && ts[i] == slot && forall j :: 0 <= j < i ==> ts[j] < slot
  }

  lemma {:induction false} PopFindsLeader(ts: seq<nat>, slot: nat)
    ensures Pop(ts, slot) != [] && Pop(ts, slot)[0] == slot <==> Leads(ts, slot)
  {
    if ts != [] && slot > ts[0] {
      PopFindsLeader(ts[1..], slot);
      if i :| 0 <= i < |ts[1..]| && ts[1..][i] == slot && forall j :: 0 <= j < i ==> ts[1..][j] < slot {
        assert ts[i + 1] == slot && forall j :: 0 < j < i + 1 ==> ts[j] == ts[1..][j - 1];
        assert Leads(ts, slot);
      }
      if i :| 0 <= i < |ts| && ts[i] == slot && forall j :: 0 <= j < i ==> ts[j] < slot {
        assert ts[1..][i - 1] == slot && forall j :: 0 <= j < i - 1 ==> ts[1..][j] == ts[j + 1];
        assert Leads(ts[1..], slot);
      }
    } else if ts != [] {
      assert ts[0] == slot ==> Leads(ts, slot);
    }
  }

  /** Popping for an earlier slot first makes no difference. */
  lemma {:induction false} PopTwice(ts: seq<nat>, early: nat, slot: nat)
    requires early <= slot
    ensures Pop(Pop(ts, early), slot) == Pop(ts, slot)
  {
    if ts != [] && early > ts[0] {
      PopTwice(ts[1..], early, slot);
    }
  }

  /** One poll, for any election results: with slot and epoch not going back, the batcher publishes for
      the next slot if and only if it is among its winning times with only earlier ones before it. */
  lemma PollPublishesLeader(s: SlotState, me: nat, elections: nat -> seq<Winner>, last: nat, p: Poll)
    requires Tracks(s, me, elections, last) && Answered(s, elections, p)
    requires p.head.value.time + SLOT_TIME >= last && p.epoch.value + 1 >= s.nextEpochToCheck
    ensures var slot := p.head.value.time + SLOT_TIME;
            var (s', r) := ShouldPublish(s, me, p);
            && r == (if Leads(Won(elections(p.epoch.value), me), slot) then Some(slot) else None)
            && Tracks(s', me, elections, slot) && s'.nextEpochToCheck == p.epoch.value + 1
  {
    hide Won;
    hide Pop;
    hide Leads;
    var slot := p.head.value.time + SLOT_TIME;
    var won := Won(elections(p.epoch.value), me);
    PopFindsLeader(won, slot);
    if p.epoch.value < s.nextEpochToCheck {
      PopTwice(s.targets, last, slot);
      PopTwice(won, last, slot);
    }
    PopTwice(won, slot, slot);
  }

  /** Whoever sees only the leading times sees every slot won if and only if no winning time comes after
      a later one, except one that was there before already. */
  lemma AllSlotsSeenIff(ws: seq<Winner>, me: nat)
    ensures (forall slot: nat :: Leads(Won(ws, me), slot) <==> WonSlot(ws, me, slot))
        <==> var ts := Won(ws, me); forall i, j :: 0 <= i < j < |ts| ==> ts[i] <= ts[j] || ts[j] in ts[..i]
  {
    var ts := Won(ws, me);
    forall slot: nat
      ensures WonSlot(ws, me, slot) <==> slot in ts
    {
      WonIsWon(ws, me, slot);
    }
    hide Won;
    hide WonSlot;
    if forall slot: nat :: Leads(ts, slot) <==> slot in ts {
      forall i, j | 0 <= i < j < |ts|
        ensures ts[i] <= ts[j] || ts[j] in ts[..i]
      {
        assert Leads(ts, ts[j]);
        var k :| 0 <= k < |ts| && ts[k] == ts[j] && forall l :: 0 <= l < k ==> ts[l] < ts[j];
        assert k < i ==> ts[..i][k] == ts[j];
      }
    }
    if forall i, j :: 0 <= i < j < |ts| ==> ts[i] <= ts[j] || ts[j] in ts[..i] {
      forall slot: nat
        ensures Leads(ts, slot) <==> slot in ts
      {
        if slot in ts {
          FirstOccurrenceLeads(ts, slot);
        }
      }
    }
  }

  lemma FirstOccurrenceLeads(ts: seq<nat>, slot: nat)
    requires slot in ts && forall i, j :: 0 <= i < j < |ts| ==> ts[i] <= ts[j] || ts[j] in ts[..i]
    ensures Leads(ts, slot)
  {
    var k := FirstOccurrence(ts, slot);
    forall l | 0 <= l < k
      ensures ts[l] < slot
    {
      assert forall m :: 0 <= m < l ==> ts[..l][m] == ts[m] != slot;
      assert slot !in ts[..l];
      assert ts[l] <= ts[k];
    }
  }

  lemma {:induction false} FirstOccurrence(ts: seq<nat>, slot: nat) returns (k: nat)
    requires slot in ts
    ensures k < |ts| && ts[k] == slot && forall l :: 0 <= l < k ==> ts[l] != slot
  {
    if ts[0] == slot {
      k := 0;
    } else {
      k := FirstOccurrence(ts[1..], slot);
      k := k + 1;
      assert forall l :: 0 < l < k ==> ts[l] == ts[1..][l - 1];
    }
  }

  lemma {:induction false} WonIsWon(ws: seq<Winner>, me: nat, slot: nat)
    ensures slot in Won(ws, me) <==> WonSlot(ws, me, slot)
  {
    if ws != [] {
      var init, w := ws[..|ws| - 1], ws[|ws| - 1];
      WonIsWon(init, me, slot);
      if i :| 0 <= i < |init| && init[i] == Winner(me, slot) {
        assert ws[i] == Winner(me, slot);
      }
      if i :| 0 <= i < |ws| && ws[i] == Winner(me, slot) {
        assert i < |init| ==> init[i] == ws[i];
      }
    }
  }

  /** With ascending winners every slot won is seen. */
  lemma AscendingLeads(ws: seq<Winner>, me: nat, slot: nat)
    requires AscendingWinners(ws)
    ensures Leads(Won(ws, me), slot) <==> WonSlot(ws, me, slot)
  {
    WonIsMembership(ws, me);
    hide Won;
    hide WonSlot;
    hide AscendingWinners;
    if slot in Won(ws, me) {
      FirstOccurrenceLeads(Won(ws, me), slot);
    }
  }

  /** One poll, with ascending winners: the batcher publishes for the next slot if and only if it won it. */
  lemma PollIsMembership(s: SlotState, me: nat, elections: nat -> seq<Winner>, last: nat, p: Poll)
    requires Tracks(s, me, elections, last) && Answered(s, elections, p) && AscendingWinners(elections(p.epoch.value))
    requires p.head.value.time + SLOT_TIME >= last && p.epoch.value + 1 >= s.nextEpochToCheck
    ensures var slot := p.head.value.time + SLOT_TIME;
            ShouldPublish(s, me, p).1 == if WonSlot(elections(p.epoch.value), me, slot) then Some(slot) else None
  {
    PollPublishesLeader(s, me, elections, last, p);
    AscendingLeads(elections(p.epoch.value), me, p.head.value.time + SLOT_TIME);
    hide ShouldPublish;
  }

  /** A poll that does not get that far changes no target and publishes nothing; no poll publishes
      on the tip last submitted on. */
  lemma OtherPollsAreIdle(s: SlotState, me: nat, p: Poll)
    ensures var (s', r) := ShouldPublish(s, me, p);
            && s'.lastSubmit == s.lastSubmit
            && (r.Some? ==> s'.lastL1Tip != s'.lastSubmit && p.tip == Some(s'.lastL1Tip))
            && (p.tip.None? || p.tip.value == s.lastSubmit || p.head.None? || p.head.value == NO_REF || p.epoch.None?
                || (p.epoch.value >= s.nextEpochToCheck && p.winners.None?) ==>
                  r == None && s'.targets == s.targets && s'.nextEpochToCheck == s.nextEpochToCheck)
  {
    hide Pop;
    hide Won;
  }

  datatype Tick = Tick(poll: Poll, submits: bool)

  function AfterTick(s: SlotState, me: nat, t: Tick): SlotState {
    var (s', r) := ShouldPublish(s, me, t.poll);
    if r.Some? && t.submits then Submitted(s') else s'
  }

  function AfterTicks(s: SlotState, me: nat, ticks: seq<Tick>): SlotState {
    if ticks == [] then s else AfterTick(AfterTicks(s, me, ticks[..|ticks| - 1]), me, ticks[|ticks| - 1])
  }

  /** Each turn was decided in the state after the turns before it. */
  ghost predicate Decided(s: SlotState, me: nat, ticks: seq<Tick>, decisions: seq<Option<nat>>) {
    && |decisions| <= |ticks|
    && forall i :: 0 <= i < |decisions| ==>
         decisions[i] == ShouldPublish(AfterTicks(s, me, ticks[..i]), me, ticks[i].poll).1
  }

  lemma NoTicks(s: SlotState, me: nat, ticks: seq<Tick>)
    ensures AfterTicks(s, me, ticks[..0]) == s && Decided(s, me, ticks, [])
  {
  }

  lemma OneMoreTick(s: SlotState, me: nat, ticks: seq<Tick>, decisions: seq<Option<nat>>)
    requires |decisions| < |ticks| && Decided(s, me, ticks, decisions)
    ensures var before, tick := AfterTicks(s, me, ticks[..|decisions|]), ticks[|decisions|];
            && AfterTicks(s, me, ticks[..|decisions| + 1]) == AfterTick(before, me, tick)
            && Decided(s, me, ticks, decisions + [ShouldPublish(before, me, tick.poll).1])
  {
    hide ShouldPublish;
    hide AfterTick;
    var i := |decisions|;
    assert ticks[..i + 1][..i] == ticks[..i];
  }

  /** Polls either fail early, or are answered; among those, slots and epochs do not go back. */
  ghost predicate Timeline(s: SlotState, me: nat, elections: nat -> seq<Winner>, last: nat, ticks: seq<Tick>)
    decreases |ticks|
  {
    ticks == [] ||
    var p := ticks[0].poll;
    if Answered(s, elections, p) then
      && p.head.value.time + SLOT_TIME >= last && p.epoch.value + 1 >= s.nextEpochToCheck
      && Timeline(AfterTick(s, me, ticks[0]), me, elections, p.head.value.time + SLOT_TIME, ticks[1..])
    else
      && (p.tip.None? || p.tip.value == s.lastSubmit || p.head.None? || p.head.value == NO_REF || p.epoch.None?
          || (p.epoch.value >= s.nextEpochToCheck && p.winners.None?))
      && Timeline(AfterTick(s, me, ticks[0]), me, elections, last, ticks[1..])
  }

  /** Every answered poll of the run publishes exactly in the slots that lead their epoch's winning
      times, which are the slots won if the winners are ascending, and never on the tip of the submission
      before it. */
  ghost predicate PublishesWonSlots(s: SlotState, me: nat, elections: nat -> seq<Winner>, ticks: seq<Tick>)
    decreases |ticks|
  {
    ticks == [] ||
    var p := ticks[0].poll;
    var r := ShouldPublish(s, me, p).1;
    && (Answered(s, elections, p) ==>
         var slot := p.head.value.time + SLOT_TIME;
         && r == (if Leads(Won(elections(p.epoch.value), me), slot) then Some(slot) else None)
         && (AscendingWinners(elections(p.epoch.value)) ==>
              r == if WonSlot(elections(p.epoch.value), me, slot) then Some(slot) else None))
    && (r.Some? ==> Answered(s, elections, p) && p.tip.value != s.lastSubmit)
    && PublishesWonSlots(AfterTick(s, me, ticks[0]), me, elections, ticks[1..])
  }

  lemma {:induction false} RunPublishesWonSlots(s: SlotState, me: nat, elections: nat -> seq<Winner>, last: nat, ticks: seq<Tick>)
    requires Tracks(s, me, elections, last) && Timeline(s, me, elections, last, ticks)
    ensures PublishesWonSlots(s, me, elections, ticks)
    decreases |ticks|
  {
    hide AscendingWinners;
    hide WonSlot;
    hide Leads;
    hide Won;
    if ticks != [] {
      var p := ticks[0].poll;
      OtherPollsAreIdle(s, me, p);
      if Answered(s, elections, p) {
        PollPublishesLeader(s, me, elections, last, p);
        if AscendingWinners(elections(p.epoch.value)) {
          PollIsMembership(s, me, elections, last, p);
        }
        hide ShouldPublish;
        RunPublishesWonSlots(AfterTick(s, me, ticks[0]), me, elections, p.head.value.time + SLOT_TIME, ticks[1..]);
      } else {
        hide ShouldPublish;
        RunPublishesWonSlots(AfterTick(s, me, ticks[0]), me, elections, last, ticks[1..]);
      }
    }
  }

  /** From the initial state of the driver, for any election results. */
  lemma SlotsFromStart(me: nat, elections: nat -> seq<Winner>, ticks: seq<Tick>)
    requires Timeline(SlotState(NO_REF, NO_REF, 0, []), me, elections, 0, ticks)
    ensures PublishesWonSlots(SlotState(NO_REF, NO_REF, 0, []), me, elections, ticks)
  {
    RunPublishesWonSlots(SlotState(NO_REF, NO_REF, 0, []), me, elections, 0, ticks);
  }

  /** The loop's state after `i` turns, in which turn `i` is decided, publishes the slots won from there on. */
  lemma {:induction false} EveryTurnPublishesWonSlots(s: SlotState, me: nat, elections: nat -> seq<Winner>, ticks: seq<Tick>, i: nat)
    requires PublishesWonSlots(s, me, elections, ticks) && i <= |ticks|
    ensures PublishesWonSlots(AfterTicks(s, me, ticks[..i]), me, elections, ticks[i..])
  {
    hide AfterTick;
    hide ShouldPublish;
    hide Won;
    hide WonSlot;
    hide Leads;
    hide Answered;
    hide AscendingWinners;
    if i == 0 {
      assert ticks[0..] == ticks;
    } else {
      EveryTurnPublishesWonSlots(s, me, elections, ticks, i - 1);
      assert ticks[..i][..i - 1] == ticks[..i - 1];
      assert ticks[i - 1..][1..] == ticks[i..];
    }
  }

  /** The decisions of the main loop: an answered turn publishes exactly in a slot that leads its epoch's
      winning times, which is a slot won if the winners are ascending, and no other turn publishes. */
  lemma LoopPublishesWonSlots(me: nat, elections: nat -> seq<Winner>, ticks: seq<Tick>, decisions: seq<Option<nat>>, i: nat)
    requires Timeline(SlotState(NO_REF, NO_REF, 0, []), me, elections, 0, ticks)
    requires Decided(SlotState(NO_REF, NO_REF, 0, []), me, ticks, decisions) && i < |decisions|
    ensures var s, p := AfterTicks(SlotState(NO_REF, NO_REF, 0, []), me, ticks[..i]), ticks[i].poll;
            && (Answered(s, elections, p) ==>
                 var slot := p.head.value.time + SLOT_TIME;
                 && (decisions[i] == if Leads(Won(elections(p.epoch.value), me), slot) then Some(slot) else None)
                 && (AscendingWinners(elections(p.epoch.value)) ==>
                      decisions[i] == if WonSlot(elections(p.epoch.value), me, slot) then Some(slot) else None))
            && (decisions[i].Some? ==> Answered(s, elections, p) && p.tip.value != s.lastSubmit)
  {
    SlotsFromStart(me, elections, ticks);
    hide ShouldPublish;
    hide AfterTicks;
    hide Timeline;
    hide WonSlot;
    hide Leads;
    hide Won;
    hide Answered;
    hide AscendingWinners;
    EveryTurnPublishesWonSlots(SlotState(NO_REF, NO_REF, 0, []), me, elections, ticks, i);
    assert ticks[i..][0] == ticks[i];
  }

  /** Turn `k` decided to publish, and a transaction was handed over. */
  ghost predicate HandedOver(ticks: seq<Tick>, decisions: seq<Option<nat>>, k: int)
    requires |decisions| <= |ticks|
  {
    0 <= k < |decisions| && decisions[k].Some? && ticks[k].submits
  }

  /** Of the turns before `j`, turn `i` is the last one that handed a transaction over. */
  ghost predicate LastHandedOver(ticks: seq<Tick>, decisions: seq<Option<nat>>, i: int, j: int)
    requires |decisions| <= |ticks|
  {
    0 <= i < j && HandedOver(ticks, decisions, i) && forall k :: i < k < j ==> !HandedOver(ticks, decisions, k)
  }

  lemma TickSubmits(s: SlotState, me: nat, t: Tick)
    ensures var r := ShouldPublish(s, me, t.poll).1;
            && (r.Some? ==> t.poll.tip.Some? && t.poll.tip.value != s.lastSubmit)
            && AfterTick(s, me, t).lastSubmit == if r.Some? && t.submits then t.poll.tip.value else s.lastSubmit
  {
  }

  lemma OneTurnLater(ticks: seq<Tick>, decisions: seq<Option<nat>>, i: int, j: nat)
    requires 0 < j <= |decisions| <= |ticks| && LastHandedOver(ticks, decisions, i, j)
    ensures if HandedOver(ticks, decisions, j - 1) then i == j - 1 else LastHandedOver(ticks, decisions, i, j - 1)
  {
    assert i < j - 1 ==> !HandedOver(ticks, decisions, j - 1);
    hide HandedOver;
  }

  /** What the loop remembers after `j` turns: the tip of the last turn that handed a transaction over. */
  ghost predicate RemembersLast(start: L1Ref, last: L1Ref, ticks: seq<Tick>, decisions: seq<Option<nat>>, j: nat)
    requires |decisions| <= |ticks|
  {
    && (forall i :: LastHandedOver(ticks, decisions, i, j) ==> Some(last) == ticks[i].poll.tip)
    && ((forall i :: 0 <= i < j ==> !HandedOver(ticks, decisions, i)) ==> last == start)
  }

  lemma RemembersNext(start: L1Ref, last: L1Ref, last': L1Ref, ticks: seq<Tick>, decisions: seq<Option<nat>>, j: nat)
    requires 0 < j <= |decisions| <= |ticks| && RemembersLast(start, last, ticks, decisions, j - 1)
    requires if HandedOver(ticks, decisions, j - 1) then Some(last') == ticks[j - 1].poll.tip else last' == last
    ensures RemembersLast(start, last', ticks, decisions, j)
  {
    hide HandedOver;
    forall i | LastHandedOver(ticks, decisions, i, j)
      ensures Some(last') == ticks[i].poll.tip
    {
      OneTurnLater(ticks, decisions, i, j);
    }
    if forall i :: 0 <= i < j ==> !HandedOver(ticks, decisions, i) {
      assert !HandedOver(ticks, decisions, j - 1);
    }
  }

  lemma {:induction false} LastSubmitIs(s: SlotState, me: nat, ticks: seq<Tick>, decisions: seq<Option<nat>>, j: nat)
    requires Decided(s, me, ticks, decisions) && j <= |decisions|
    ensures RemembersLast(s.lastSubmit, AfterTicks(s, me, ticks[..j]).lastSubmit, ticks, decisions, j)
  {
    hide ShouldPublish;
    hide AfterTick;
    if j > 0 {
      LastSubmitIs(s, me, ticks, decisions, j - 1);
      hide RemembersLast;
      var before := AfterTicks(s, me, ticks[..j - 1]);
      assert ticks[..j][..j - 1] == ticks[..j - 1];
      assert AfterTicks(s, me, ticks[..j]) == AfterTick(before, me, ticks[j - 1]);
      hide AfterTicks;
      assert decisions[j - 1] == ShouldPublish(before, me, ticks[j - 1].poll).1;
      hide Decided;
      TickSubmits(before, me, ticks[j - 1]);
      RemembersNext(s.lastSubmit, before.lastSubmit, AfterTick(before, me, ticks[j - 1]).lastSubmit, ticks, decisions, j);
    }
  }

  lemma {:induction false} SomeLastHandedOver(ticks: seq<Tick>, decisions: seq<Option<nat>>, i: nat, j: nat) returns (l: nat)
    requires |decisions| <= |ticks| && i < j && HandedOver(ticks, decisions, i)
    ensures LastHandedOver(ticks, decisions, l, j)
    decreases j - i
  {
    hide HandedOver;
    if k :| i < k < j && HandedOver(ticks, decisions, k) {
      l := SomeLastHandedOver(ticks, decisions, k, j);
    } else {
      l := i;
    }
  }

  /** No transaction was handed over on the tip of turn `j` without one on another tip after it. */
  ghost predicate FreshTip(start: SlotState, ticks: seq<Tick>, decisions: seq<Option<nat>>, j: nat)
    requires |decisions| <= |ticks| && j < |decisions|
  {
    && (forall i :: LastHandedOver(ticks, decisions, i, j) ==> ticks[i].poll.tip != ticks[j].poll.tip)
    && ((forall i :: 0 <= i < j ==> !HandedOver(ticks, decisions, i)) ==> ticks[j].poll.tip != Some(start.lastSubmit))
  }

  lemma FreshIff(s: SlotState, me: nat, ticks: seq<Tick>, decisions: seq<Option<nat>>, j: nat)
    requires Decided(s, me, ticks, decisions) && j < |decisions|
    ensures FreshTip(s, ticks, decisions, j) <==> ticks[j].poll.tip != Some(AfterTicks(s, me, ticks[..j]).lastSubmit)
  {
    LastSubmitIs(s, me, ticks, decisions, j);
    if i: nat :| 0 <= i < j && HandedOver(ticks, decisions, i) {
      var l := SomeLastHandedOver(ticks, decisions, i, j);
    }
    hide AfterTicks;
    hide HandedOver;
  }

  /** The loop, from any state: once a transaction was handed over, no turn with the same tip publishes
      until one was handed over on another tip. */
  lemma NotTwiceOnOneTip(s: SlotState, me: nat, ticks: seq<Tick>, decisions: seq<Option<nat>>, i: nat, j: nat)
    requires Decided(s, me, ticks, decisions) && j < |decisions|
    requires LastHandedOver(ticks, decisions, i, j) && ticks[j].poll.tip == ticks[i].poll.tip
    ensures decisions[j] == None
  {
    LastSubmitIs(s, me, ticks, decisions, j);
    TickSubmits(AfterTicks(s, me, ticks[..j]), me, ticks[j]);
    hide ShouldPublish;
    hide AfterTick;
    hide AfterTicks;
  }

  /** Epochs and head times do not go back, and the beacon node gives the winners of the epoch or fails. */
  ghost predicate Forward(elections: nat -> seq<Winner>, ticks: seq<Tick>) {
    && (forall i :: 0 <= i < |ticks| && ticks[i].poll.epoch.Some? && ticks[i].poll.winners.Some? ==>
         ticks[i].poll.winners.value == elections(ticks[i].poll.epoch.value))
    && (forall i, j :: 0 <= i <= j < |ticks| && ticks[i].poll.head.Some? && ticks[j].poll.head.Some? ==>
         ticks[i].poll.head.value.time <= ticks[j].poll.head.value.time)
    && (forall i, j :: 0 <= i <= j < |ticks| && ticks[i].poll.epoch.Some? && ticks[j].poll.epoch.Some? ==>
         ticks[i].poll.epoch.value <= ticks[j].poll.epoch.value)
  }

  /** Everything still to come is at or after the slot `last` and the last epoch asked for. */
  ghost predicate NotBehind(s: SlotState, last: nat, ticks: seq<Tick>) {
    forall i :: 0 <= i < |ticks| ==>
      && (ticks[i].poll.head.Some? ==> ticks[i].poll.head.value.time + SLOT_TIME >= last)
      && (ticks[i].poll.epoch.Some? ==> ticks[i].poll.epoch.value + 1 >= s.nextEpochToCheck)
  }

  lemma {:induction false} ForwardTimeline(s: SlotState, me: nat, elections: nat -> seq<Winner>, last: nat, ticks: seq<Tick>)
    requires Forward(elections, ticks) && NotBehind(s, last, ticks)
    ensures Timeline(s, me, elections, last, ticks)
    decreases |ticks|
  {
    if ticks != [] {
      var p, s', rest := ticks[0].poll, AfterTick(s, me, ticks[0]), ticks[1..];
      NextEpochIs(s, me, ticks[0]);
      hide AfterTick;
      assert Forward(elections, rest) by { assert forall i :: 0 <= i < |rest| ==> rest[i] == ticks[i + 1]; }
      if Answered(s, elections, p) {
        assert NotBehind(s', p.head.value.time + SLOT_TIME, rest);
        ForwardTimeline(s', me, elections, p.head.value.time + SLOT_TIME, rest);
      } else {
        assert NotBehind(s', last, rest);
        ForwardTimeline(s', me, elections, last, rest);
      }
    }
  }

  lemma NextEpochIs(s: SlotState, me: nat, t: Tick)
    ensures var n := AfterTick(s, me, t).nextEpochToCheck;
            n == s.nextEpochToCheck || (t.poll.epoch.Some? && n == t.poll.epoch.value + 1)
  {
  }

  /** The whole loop in terms of its turns: a turn whose requests are all answered publishes if and only if
      its tip is fresh and its slot leads the winning times of the epoch; one with an old tip never does. */
  lemma LoopPublishesOncePerTip(me: nat, elections: nat -> seq<Winner>, ticks: seq<Tick>, decisions: seq<Option<nat>>, j: nat)
    requires Forward(elections, ticks) && Decided(SlotState(NO_REF, NO_REF, 0, []), me, ticks, decisions) && j < |decisions|
    ensures var p, unused := ticks[j].poll, FreshTip(SlotState(NO_REF, NO_REF, 0, []), ticks, decisions, j);
            && (!unused ==> decisions[j] == None)
            && (p.tip.Some? && p.head.Some? && p.head.value != NO_REF && p.epoch.Some? && p.winners.Some? ==>
                 var slot := p.head.value.time + SLOT_TIME;
                 decisions[j] == if unused && Leads(Won(elections(p.epoch.value), me), slot) then Some(slot) else None)
  {
    var start := SlotState(NO_REF, NO_REF, 0, []);
    ForwardTimeline(start, me, elections, 0, ticks);
    LoopPublishesWonSlots(me, elections, ticks, decisions, j);
    FreshIff(start, me, ticks, decisions, j);
    hide FreshTip;
    hide Timeline;
    hide Decided;
    hide AfterTicks;
    hide Leads;
    hide Won;
    hide AscendingWinners;
    hide WonSlot;
  }

  /** The order of the winners matters: behind a later slot, an earlier one is not seen. */
  lemma UnorderedWinnersHideASlot(s: SlotState, me: nat, p: Poll, slot: nat)
    requires p.tip.Some? && p.tip.value != s.lastSubmit && p.head.Some? && p.head.value != NO_REF
    requires p.head.value.time + SLOT_TIME == slot && p.epoch == Some(s.nextEpochToCheck)
    requires p.winners == Some([Winner(me, slot + SLOT_TIME), Winner(me, slot)])
    ensures WonSlot(p.winners.value, me, slot) && ShouldPublish(s, me, p).1 == None
  {
    var ws := p.winners.value;
    assert ws[1] == Winner(me, slot);
    assert ws[..1] == [Winner(me, slot + SLOT_TIME)] && ws[..1][..0] == [];
    assert Won(ws[..1], me) == [slot + SLOT_TIME];
    assert Won(ws, me) == [slot + SLOT_TIME, slot];
  }
}
