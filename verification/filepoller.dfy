/** op-preimage/filepoller.go: reads and writes that are repeated until the buffer is full or empty, or
    the context ends during a timeout. */
module FilePollers {
  import opened Bytes

  datatype IoError = NoError | DeadlineExceeded(contextEnded: bool) | Failed

  /** What one round of the read loop meets: the deadline cannot be set, or the file delivers some
      bytes and perhaps an error. */
  datatype Event = DeadlineNotSet | Delivered(bytes: seq<byte>, err: IoError)

  datatype Result = Polling | Returned(n: nat, err: IoError)

  function Joined(events: seq<Event>): seq<byte> {
    if events == [] then []
    else
      var e := events[|events| - 1];
      Joined(events[..|events| - 1]) + if e.Delivered? then e.bytes else []
  }

  /** How the loop ends after these rounds, with room for `size` bytes. */
  function Ended(size: nat, events: seq<Event>): Result {
    if events == [] then Polling
    else
      var e := events[|events| - 1];
      match e
      case DeadlineNotSet => Returned(0, Failed)
      case Delivered(_, err) =>
        if err.DeadlineExceeded? then
          if err.contextEnded then Returned(|Joined(events)|, err) else Polling
        else if |Joined(events)| >= size then Returned(|Joined(events)|, err)
        else Polling
  }

  /** The file delivers no more than it is asked for. */
  ghost predicate Fits(size: nat, events: seq<Event>) {
    forall i :: 0 <= i < |events| && events[i].Delivered? ==> |Joined(events[..i])| + |events[i].bytes| <= size
  }

  lemma OneMore(size: nat, events: seq<Event>, i: nat)
    requires i < |events| && Fits(size, events)
    ensures events[i].Delivered? ==> |Joined(events[..i])| + |events[i].bytes| <= size
    ensures Joined(events[..i + 1]) == Joined(events[..i]) + if events[i].Delivered? then events[i].bytes else []
    ensures Ended(size, events[..i + 1])
         == if events[i].DeadlineNotSet? then Returned(0, Failed)
            else if events[i].err.DeadlineExceeded? && !events[i].err.contextEnded then Polling
            else if events[i].err.DeadlineExceeded? || |Joined(events[..i + 1])| >= size
            then Returned(|Joined(events[..i + 1])|, events[i].err)
            else Polling
  {
    assert events[..i + 1][..i] == events[..i];
  }

  /** A buffer whose beginning was overwritten. */
  function Patched(buffer: seq<byte>, start: seq<byte>): seq<byte>
    requires |start| <= |buffer|
  {
    start + buffer[|start|..]
  }

  lemma PatchedFurther(buffer: seq<byte>, start: seq<byte>, more: seq<byte>)
    requires |start| + |more| <= |buffer|
    ensures var p := Patched(buffer, start);
            p[..|start|] + more + p[|start| + |more|..] == Patched(buffer, start + more)
  {
  }

  /** The buffer holds `bytes`, and behind them what it held originally. */
  ghost predicate Holds(b: array<byte>, original: seq<byte>, bytes: seq<byte>)
    reads b
  {
    |bytes| <= |original| == b.Length && b[..] == Patched(original, bytes)
  }

  /** None of the first `n` rounds ends the loop. */
  ghost predicate PollsOn(size: nat, events: seq<Event>, n: nat) {
    forall k :: 0 <= k <= n && k <= |events| ==> Ended(size, events[..k]) == Polling
  }

  lemma PollsOnStart(size: nat, events: seq<Event>)
    ensures PollsOn(size, events, 0) && Ended(size, events[..0]) == Polling && Joined(events[..0]) == []
  {
  }

  lemma PollsOnStep(size: nat, events: seq<Event>, n: nat)
    requires n < |events| && PollsOn(size, events, n)
    ensures PollsOn(size, events, n + 1) <==> Ended(size, events[..n + 1]) == Polling
  {
    hide Ended;
  }

  /** Polls through the events until the loop returns or none is left. */
  method Read(b: array<byte>, events: seq<Event>) returns (result: Result, rounds: nat)
    requires Fits(b.Length, events)
    modifies b
    ensures rounds <= |events| && Holds(b, old(b[..]), Joined(events[..rounds]))
    ensures rounds > 0 ==> PollsOn(b.Length, events, rounds - 1)
    ensures result == Ended(b.Length, events[..rounds])
    ensures result == Polling ==> rounds == |events|
  {
    assert Patched(b[..], []) == b[..];
    PollsOnStart(b.Length, events);
    hide *;
    ghost var original := b[..];
    result, rounds := Polling, 0;
    var read := 0;
    while rounds < |events|
      invariant rounds <= |events| && read == |Joined(events[..rounds])|
      invariant Holds(b, original, Joined(events[..rounds]))
      invariant PollsOn(b.Length, events, rounds) && result == Polling == Ended(b.Length, events[..rounds])
    {
      PollsOnStep(b.Length, events, rounds);
      result, read := Round(b, events, rounds, read, original);
      rounds := rounds + 1;
      if result != Polling {
        return;
      }
    }
  }

  // one round of the loop of Read
  method Round(b: array<byte>, events: seq<Event>, i: nat, read: nat, ghost original: seq<byte>)
      returns (result: Result, read': nat)
    requires i < |events| && Fits(b.Length, events)
    requires read == |Joined(events[..i])| && Holds(b, original, Joined(events[..i]))
    modifies b
    ensures read' == |Joined(events[..i + 1])| && Holds(b, original, Joined(events[..i + 1]))
    ensures result == Ended(b.Length, events[..i + 1])
  {
    var e := events[i];
    OneMore(b.Length, events, i);
    hide *;
    read' := read;
    if e.DeadlineNotSet? {
      assert Joined(events[..i]) + [] == Joined(events[..i]);
      return Returned(0, Failed), read';
    }
    PatchedFurther(original, Joined(events[..i]), e.bytes);
    Fill(b, read, e.bytes);
    read' := read + |e.bytes|;
    if e.err.DeadlineExceeded? {
      return if e.err.contextEnded then Returned(read', e.err) else Polling, read';
    }
    return if read' >= b.Length then Returned(read', e.err) else Polling, read';
  }

  // the file puts the bytes it delivers into the rest of the buffer
  method Fill(b: array<byte>, at: nat, bytes: seq<byte>)
    requires at + |bytes| <= b.Length
    modifies b
    ensures b[..] == old(b[..])[..at] + bytes + old(b[..])[at + |bytes|..]
  {
    for i := 0 to |bytes|
      invariant forall k :: 0 <= k < at || at + i <= k < b.Length ==> b[k] == old(b[k])
      invariant forall k :: 0 <= k < i ==> b[at + k] == bytes[k]
    {
      b[at + i] := bytes[i];
    }
    Pieces(old(b[..]), b[..], at, bytes);
  }

  lemma Pieces(before: seq<byte>, after: seq<byte>, at: nat, bytes: seq<byte>)
    requires at + |bytes| <= |before| == |after|
    requires forall k :: 0 <= k < at || at + |bytes| <= k < |before| ==> after[k] == before[k]
    requires forall k :: 0 <= k < |bytes| ==> after[at + k] == bytes[k]
    ensures after == before[..at] + bytes + before[at + |bytes|..]
  {
    assert after[at..at + |bytes|] == bytes;
    assert after[at + |bytes|..] == before[at + |bytes|..];
  }

  /** A read that is not cut short by the context fills the whole buffer, with the bytes delivered. */
  lemma ReadIsFull(size: nat, events: seq<Event>)
    requires Fits(size, events) && Ended(size, events).Returned?
    ensures events != []
    ensures events[|events| - 1].Delivered? && !events[|events| - 1].err.DeadlineExceeded? ==>
              Ended(size, events).n == size == |Joined(events)|
  {
    var k := |events| - 1;
    assert events[..k + 1] == events;
  }

  /** The count returned is that of the bytes put into the buffer, unless the deadline could not be set. */
  lemma CountIsExactIff(size: nat, events: seq<Event>)
    requires Ended(size, events).Returned?
    ensures Ended(size, events).n == |Joined(events)| <==> events[|events| - 1].Delivered? || Joined(events) == []
    ensures events[|events| - 1].Delivered? ==> Ended(size, events).err == events[|events| - 1].err
  {
  }

  lemma {:induction false} TimeoutAddsNothing(events: seq<Event>, more: seq<Event>)
    ensures Joined(events + [Delivered([], DeadlineExceeded(false))] + more) == Joined(events + more)
    decreases |more|
  {
    var all := events + [Delivered([], DeadlineExceeded(false))] + more;
    if more == [] {
      assert all[..|all| - 1] == events && events + more == events;
      assert Joined(all) == Joined(events) + [];
    } else {
      assert all[..|all| - 1] == events + [Delivered([], DeadlineExceeded(false))] + more[..|more| - 1];
      assert (events + more)[..|events + more| - 1] == events + more[..|more| - 1];
      TimeoutAddsNothing(events, more[..|more| - 1]);
    }
  }

  /** A deadline that passes while the context goes on never ends the loop, and makes no difference to what it
      does later. */
  lemma TimeoutsDoNotMatter(size: nat, events: seq<Event>, more: seq<Event>)
    ensures Ended(size, events + [Delivered([], DeadlineExceeded(false))]) == Polling
    ensures more != [] ==> Ended(size, events + [Delivered([], DeadlineExceeded(false))] + more) == Ended(size, events + more)
  {
    TimeoutAddsNothing(events, more);
    hide Joined;
  }

  lemma {:induction false} NothingMore(events: seq<Event>, more: seq<Event>)
    requires forall i :: 0 <= i < |more| ==> more[i] == Delivered([], Failed)
    ensures Joined(events + more) == Joined(events)
    decreases |more|
  {
    if more == [] {
      assert events + more == events;
    } else {
      var k := |more| - 1;
      assert (events + more)[..|events| + k] == events + more[..k];
      NothingMore(events, more[..k]);
    }
  }

  /** Rounds that meet the end of the file, after any others: the loop goes on polling, however many
      there are, if and only if the buffer is not full; with a full buffer it returns at the first. */
  lemma EndOfFileReturnsIffFull(size: nat, events: seq<Event>, more: seq<Event>)
    requires more != [] && forall i :: 0 <= i < |more| ==> more[i] == Delivered([], Failed)
    ensures Ended(size, events + more) == Polling <==> |Joined(events)| < size
    ensures |Joined(events)| >= size ==> Ended(size, events + more) == Returned(|Joined(events)|, Failed)
  {
    NothingMore(events, more);
  }

  /** What the file takes in one round of the write loop. */
  datatype Taken = WriteDeadlineNotSet | Taken(n: nat, err: IoError)

  function Total(takes: seq<Taken>): nat {
    if takes == [] then 0
    else
      var t := takes[|takes| - 1];
      Total(takes[..|takes| - 1]) + if t.Taken? then t.n else 0
  }

  function WriteEnded(size: nat, takes: seq<Taken>): Result {
    if takes == [] then Polling
    else
      match takes[|takes| - 1]
      case WriteDeadlineNotSet => Returned(0, Failed)
      case Taken(_, err) =>
        if err.DeadlineExceeded? then
          if err.contextEnded then Returned(Total(takes), err) else Polling
        else if Total(takes) >= size then Returned(Total(takes), err)
        else Polling
  }

  ghost predicate WriteFits(size: nat, takes: seq<Taken>) {
    forall i :: 0 <= i < |takes| && takes[i].Taken? ==> Total(takes[..i]) + takes[i].n <= size
  }

  /** None of the first `n` rounds ends the loop. */
  ghost predicate WritesOn(size: nat, takes: seq<Taken>, n: nat) {
    forall k :: 0 <= k <= n && k <= |takes| ==> WriteEnded(size, takes[..k]) == Polling
  }

  lemma WritesOnStart(size: nat, takes: seq<Taken>)
    ensures WritesOn(size, takes, 0) && WriteEnded(size, takes[..0]) == Polling && Total(takes[..0]) == 0
  {
  }

  lemma OneMoreTaken(size: nat, takes: seq<Taken>, i: nat)
    requires i < |takes| && WriteFits(size, takes)
    ensures takes[i].Taken? ==> Total(takes[..i]) + takes[i].n <= size
    ensures Total(takes[..i + 1]) == Total(takes[..i]) + if takes[i].Taken? then takes[i].n else 0
    ensures WriteEnded(size, takes[..i + 1])
         == if takes[i].WriteDeadlineNotSet? then Returned(0, Failed)
            else if takes[i].err.DeadlineExceeded? && !takes[i].err.contextEnded then Polling
            else if takes[i].err.DeadlineExceeded? || Total(takes[..i + 1]) >= size
            then Returned(Total(takes[..i + 1]), takes[i].err)
            else Polling
    ensures WritesOn(size, takes, i) ==> (WritesOn(size, takes, i + 1) <==> WriteEnded(size, takes[..i + 1]) == Polling)
  {
    assert takes[..i + 1][..i] == takes[..i];
  }

  lemma PrefixGrows(b: seq<byte>, i: nat, n: nat)
    requires i + n <= |b|
    ensures b[..i] + b[i..i + n] == b[..i + n]
    ensures i + n == |b| ==> b[..i + n] == b
  {
  }

  /** What reaches the file is always the beginning of the buffer, and all of it when the loop returns
      without the context having ended. */
  method Write(b: seq<byte>, takes: seq<Taken>) returns (result: Result, file: seq<byte>, rounds: nat)
    requires WriteFits(|b|, takes)
    ensures rounds <= |takes| && Total(takes[..rounds]) <= |b| && file == b[..Total(takes[..rounds])]
    ensures rounds > 0 ==> WritesOn(|b|, takes, rounds - 1)
    ensures result == WriteEnded(|b|, takes[..rounds])
    ensures result == Polling ==> rounds == |takes|
    ensures result.Returned? && !result.err.DeadlineExceeded? && takes[rounds - 1].Taken? ==> file == b
  {
    WritesOnStart(|b|, takes);
    hide *;
    var written := 0;
    result, file, rounds := Polling, [], 0;
    while rounds < |takes|
      invariant rounds <= |takes| && written == Total(takes[..rounds]) <= |b| && file == b[..written]
      invariant WritesOn(|b|, takes, rounds) && result == Polling == WriteEnded(|b|, takes[..rounds])
    {
      var t := takes[rounds];
      OneMoreTaken(|b|, takes, rounds);
      rounds := rounds + 1;
      if t.WriteDeadlineNotSet? {
        result := Returned(0, Failed);
        return;
      }
      PrefixGrows(b, written, t.n);
      file := file + b[written..written + t.n];
      written := written + t.n;
      if t.err.DeadlineExceeded? {
        if t.err.contextEnded {
          result := Returned(written, t.err);
          return;
        }
      } else if written >= |b| {
        result := Returned(written, t.err);
        return;
      }
    }
  }

  /** The count returned is that of the bytes that reached the file, unless the deadline could not be set. */
  lemma WriteCountIsExactIff(size: nat, takes: seq<Taken>)
    requires WriteEnded(size, takes).Returned?
    ensures WriteEnded(size, takes).n == Total(takes) <==> takes[|takes| - 1].Taken? || Total(takes) == 0
    ensures takes[|takes| - 1].Taken? ==> WriteEnded(size, takes).err == takes[|takes| - 1].err
  {
  }

  lemma {:induction false} TimeoutTakesNothing(takes: seq<Taken>, more: seq<Taken>)
    ensures Total(takes + [Taken(0, DeadlineExceeded(false))] + more) == Total(takes + more)
    decreases |more|
  {
    var all := takes + [Taken(0, DeadlineExceeded(false))] + more;
    if more == [] {
      assert all[..|all| - 1] == takes && takes + more == takes;
    } else {
      assert all[..|all| - 1] == takes + [Taken(0, DeadlineExceeded(false))] + more[..|more| - 1];
      assert (takes + more)[..|takes + more| - 1] == takes + more[..|more| - 1];
      TimeoutTakesNothing(takes, more[..|more| - 1]);
    }
  }

  lemma WriteTimeoutsDoNotMatter(size: nat, takes: seq<Taken>, more: seq<Taken>)
    ensures WriteEnded(size, takes + [Taken(0, DeadlineExceeded(false))]) == Polling
    ensures more != [] ==> WriteEnded(size, takes + [Taken(0, DeadlineExceeded(false))] + more) == WriteEnded(size, takes + more)
  {
    TimeoutTakesNothing(takes, more);
    hide Total;
  }
}
