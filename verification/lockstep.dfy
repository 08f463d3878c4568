/** Two parties over a pair of byte pipes: the client writes a request and reads a reply, the server
    reads a request, serves it and writes the reply.  Reads and writes move any number of bytes at a
    time; a read never asks for more than the message read so far still wants. */
module Lockstep {
  import opened Bytes

  /** How many more bytes a reader asks for, given what it has; 0 when the message is complete. */
  datatype Protocol = Protocol(
    wantRequest: seq<byte> -> nat, wantReply: seq<byte> -> nat, reply: seq<byte> -> seq<byte>)

  /** The reader of this message stops exactly at its end. */
  ghost predicate Framed(want: seq<byte> -> nat, msg: seq<byte>) {
    && msg != [] && want(msg) == 0
    && forall k :: 0 <= k < |msg| ==> 0 < want(msg[..k]) <= |msg| - k
  }

  ghost predicate AllFramed(p: Protocol, requests: seq<seq<byte>>) {
    forall i :: 0 <= i < |requests| ==>
      Framed(p.wantRequest, requests[i]) && Framed(p.wantReply, p.reply(requests[i]))
  }

  /** The client has received `replies`, has `sending` of its request still to write and `got` of the
      reply; the server has `heard` of a request, `answering` still to write, and has `served`. */
  datatype Wire = Wire(
    replies: seq<seq<byte>>, sending: seq<byte>, got: seq<byte>,
    toServer: seq<byte>, toClient: seq<byte>,
    heard: seq<byte>, answering: seq<byte>, served: seq<seq<byte>>)

  datatype Step = ClientWrites(n: nat) | ServerReads(n: nat) | Serves | ServerWrites(n: nat) | ClientReads(n: nat)

  function Request(requests: seq<seq<byte>>, i: nat): seq<byte> {
    if i < |requests| then requests[i] else []
  }

  function Start(requests: seq<seq<byte>>): Wire {
    Wire([], Request(requests, 0), [], [], [], [], [], [])
  }

  predicate Enabled(p: Protocol, requests: seq<seq<byte>>, w: Wire, s: Step) {
    match s
    case ClientWrites(n) => 0 < n <= |w.sending|
    case ServerReads(n) => w.answering == [] && 0 < n <= |w.toServer| && n <= p.wantRequest(w.heard)
    case Serves => w.answering == [] && w.heard != [] && p.wantRequest(w.heard) == 0
    case ServerWrites(n) => 0 < n <= |w.answering|
    case ClientReads(n) => |w.replies| < |requests| && w.sending == [] && 0 < n <= |w.toClient| && n <= p.wantReply(w.got)
  }

  function Next(p: Protocol, requests: seq<seq<byte>>, w: Wire, s: Step): Wire
    requires Enabled(p, requests, w, s)
  {
    match s
    case ClientWrites(n) => w.(toServer := w.toServer + w.sending[..n], sending := w.sending[n..])
    case ServerReads(n) => w.(heard := w.heard + w.toServer[..n], toServer := w.toServer[n..])
    case Serves => w.(answering := p.reply(w.heard), served := w.served + [w.heard], heard := [])
    case ServerWrites(n) => w.(toClient := w.toClient + w.answering[..n], answering := w.answering[n..])
    case ClientReads(n) =>
      var got, rest := w.got + w.toClient[..n], w.toClient[n..];
      if p.wantReply(got) > 0 then w.(got := got, toClient := rest)
      else w.(replies := w.replies + [got], got := [], toClient := rest, sending := Request(requests, |w.replies| + 1))
  }

  /** The request is under way: each of its bytes is unsent, in the pipe or heard. */
  ghost predicate Asking(w: Wire, requests: seq<seq<byte>>, request: seq<byte>)
    requires |w.replies| < |requests|
  {
    && w.served == requests[..|w.replies|] && w.heard + w.toServer + w.sending == request
    && w.got == w.toClient == w.answering == []
  }

  /** The reply is under way. */
  ghost predicate Replying(p: Protocol, w: Wire, requests: seq<seq<byte>>, request: seq<byte>)
    requires |w.replies| < |requests|
  {
    && w.served == requests[..|w.replies| + 1] && w.heard == w.toServer == w.sending == []
    && w.got + w.toClient + w.answering == p.reply(request) && |w.got| < |p.reply(request)|
  }

  ghost predicate Quiet(w: Wire) {
    w.sending == w.got == w.toServer == w.toClient == w.heard == w.answering == []
  }

  ghost predicate Inv(p: Protocol, requests: seq<seq<byte>>, w: Wire) {
    && |w.replies| <= |requests|
    && (forall j :: 0 <= j < |w.replies| ==> w.replies[j] == p.reply(requests[j]))
    && if |w.replies| == |requests| then Quiet(w) && w.served == requests
       else Asking(w, requests, requests[|w.replies|]) || Replying(p, w, requests, requests[|w.replies|])
  }

  lemma StartInv(p: Protocol, requests: seq<seq<byte>>)
    ensures Inv(p, requests, Start(requests))
  {
  }

  lemma Split(a: seq<byte>, b: seq<byte>, n: nat)
    requires n <= |b|
    ensures a + b[..n] + b[n..] == a + b
  {
  }

  lemma WriteKeeps(p: Protocol, requests: seq<seq<byte>>, w: Wire, n: nat)
    requires Inv(p, requests, w) && Enabled(p, requests, w, ClientWrites(n))
    ensures Inv(p, requests, Next(p, requests, w, ClientWrites(n)))
  {
    Split(w.heard + w.toServer, w.sending, n);
    assert w.heard + (w.toServer + w.sending[..n]) == w.heard + w.toServer + w.sending[..n];
  }

  lemma HearKeeps(p: Protocol, requests: seq<seq<byte>>, w: Wire, n: nat)
    requires Inv(p, requests, w) && Enabled(p, requests, w, ServerReads(n))
    ensures Inv(p, requests, Next(p, requests, w, ServerReads(n)))
  {
    Split(w.heard, w.toServer, n);
  }

  /** A request that wants no more bytes is the whole request. */
  lemma ServeKeeps(p: Protocol, requests: seq<seq<byte>>, w: Wire)
    requires Inv(p, requests, w) && Enabled(p, requests, w, Serves) && AllFramed(p, requests)
    ensures Inv(p, requests, Next(p, requests, w, Serves))
  {
    var i := |w.replies|;
    var r := requests[i];
    assert Framed(p.wantRequest, r) && Framed(p.wantReply, p.reply(r));
    assert r[..|w.heard|] == w.heard;
    assert |w.heard| == |r|;
    assert requests[..i] + [r] == requests[..i + 1];
  }

  lemma AnswerKeeps(p: Protocol, requests: seq<seq<byte>>, w: Wire, n: nat)
    requires Inv(p, requests, w) && Enabled(p, requests, w, ServerWrites(n))
    ensures Inv(p, requests, Next(p, requests, w, ServerWrites(n)))
  {
    Split(w.got + w.toClient, w.answering, n);
    assert w.got + (w.toClient + w.answering[..n]) == w.got + w.toClient + w.answering[..n];
  }

  lemma ReceiveKeeps(p: Protocol, requests: seq<seq<byte>>, w: Wire, n: nat)
    requires Inv(p, requests, w) && Enabled(p, requests, w, ClientReads(n)) && AllFramed(p, requests)
    ensures Inv(p, requests, Next(p, requests, w, ClientReads(n)))
  {
    var i := |w.replies|;
    var v := p.reply(requests[i]);
    assert Framed(p.wantReply, v);
    Split(w.got, w.toClient, n);
    var got := w.got + w.toClient[..n];
    assert v[..|got|] == got;
    if p.wantReply(got) == 0 {
      assert got == v;
      assert requests[..|requests|] == requests;
    }
  }

  /** Every step keeps the exchange consistent, however the bytes are cut. */
  lemma NextKeeps(p: Protocol, requests: seq<seq<byte>>, w: Wire, s: Step)
    requires Inv(p, requests, w) && Enabled(p, requests, w, s) && AllFramed(p, requests)
    ensures Inv(p, requests, Next(p, requests, w, s))
  {
    hide Inv;
    hide AllFramed;
    match s
    case ClientWrites(n) => WriteKeeps(p, requests, w, n);
    case ServerReads(n) => HearKeeps(p, requests, w, n);
    case Serves => ServeKeeps(p, requests, w);
    case ServerWrites(n) => AnswerKeeps(p, requests, w, n);
    case ClientReads(n) => ReceiveKeeps(p, requests, w, n);
  }

  /** Byte movements of complete exchanges, and of the one under way. */
  function Cost(p: Protocol, requests: seq<seq<byte>>): nat {
    if requests == [] then 0
    else
      var r := requests[|requests| - 1];
      Cost(p, requests[..|requests| - 1]) + 2 * |r| + 1 + 2 * |p.reply(r)|
  }

  function Progress(p: Protocol, requests: seq<seq<byte>>, w: Wire): int {
    if |w.replies| >= |requests| then Cost(p, requests)
    else
      var r := requests[|w.replies|];
      Cost(p, requests[..|w.replies|])
      + if |w.served| == |w.replies| then |r| - |w.sending| + |w.heard|
        else 2 * |r| + 1 + |p.reply(r)| - |w.answering| + |w.got|
  }

  lemma {:induction false} CostGrows(p: Protocol, requests: seq<seq<byte>>, i: nat)
    requires i < |requests|
    ensures Cost(p, requests[..i + 1]) == Cost(p, requests[..i]) + 2 * |requests[i]| + 1 + 2 * |p.reply(requests[i])|
    ensures Cost(p, requests[..i + 1]) <= Cost(p, requests)
    decreases |requests| - i
  {
    assert requests[..i + 1][..i] == requests[..i];
    if i + 1 < |requests| {
      CostGrows(p, requests, i + 1);
    } else {
      assert requests[..i + 1] == requests;
    }
  }

  /** Each step moves bytes or serves: a run has at most Cost steps. */
  lemma StepsAreBounded(p: Protocol, requests: seq<seq<byte>>, w: Wire, s: Step)
    requires Inv(p, requests, w) && Enabled(p, requests, w, s) && AllFramed(p, requests)
    ensures Progress(p, requests, w) < Progress(p, requests, Next(p, requests, w, s)) <= Cost(p, requests)
  {
    hide Cost;
    NextKeeps(p, requests, w, s);
    ProgressBound(p, requests, Next(p, requests, w, s));
    if |w.replies| < |requests| {
      CostGrows(p, requests, |w.replies|);
      if s.ClientReads? {
        ReceiveAdvances(p, requests, w, s.n);
      } else {
        var i := |w.replies|;
        assert |w.heard + w.toServer + w.sending| == |w.heard| + |w.toServer| + |w.sending|;
        assert |w.got + w.toClient + w.answering| == |w.got| + |w.toClient| + |w.answering|;
        if s.Serves? {
          ServeAdvances(p, requests, w);
        }
      }
    }
  }

  lemma ServeAdvances(p: Protocol, requests: seq<seq<byte>>, w: Wire)
    requires Inv(p, requests, w) && Enabled(p, requests, w, Serves) && AllFramed(p, requests)
    ensures Progress(p, requests, w) < Progress(p, requests, Next(p, requests, w, Serves))
  {
    hide Cost;
    var r := requests[|w.replies|];
    assert Framed(p.wantRequest, r);
    assert r[..|w.heard|] == w.heard;
    assert |w.heard| == |r|;
  }

  lemma ReceiveAdvances(p: Protocol, requests: seq<seq<byte>>, w: Wire, n: nat)
    requires Inv(p, requests, w) && Enabled(p, requests, w, ClientReads(n)) && AllFramed(p, requests)
    ensures Progress(p, requests, w) < Progress(p, requests, Next(p, requests, w, ClientReads(n)))
  {
    hide Cost;
    var i := |w.replies|;
    var w' := Next(p, requests, w, ClientReads(n));
    CostGrows(p, requests, i);
    ReceiveKeeps(p, requests, w, n);
    assert |w.got + w.toClient + w.answering| == |w.got| + |w.toClient| + |w.answering|;
    if |w'.replies| > i {
      assert w'.replies[i] == p.reply(requests[i]);
      assert |w'.replies| == |requests| ==> requests[..i + 1] == requests;
    }
  }

  lemma ProgressBound(p: Protocol, requests: seq<seq<byte>>, w: Wire)
    requires Inv(p, requests, w)
    ensures 0 <= Progress(p, requests, w) <= Cost(p, requests)
  {
    hide Cost;
    if |w.replies| < |requests| {
      CostGrows(p, requests, |w.replies|);
      assert |w.heard + w.toServer + w.sending| == |w.heard| + |w.toServer| + |w.sending|;
      assert |w.got + w.toClient + w.answering| == |w.got| + |w.toClient| + |w.answering|;
    }
  }

  /** Until the last reply is in, some party can move. */
  lemma NoDeadlock(p: Protocol, requests: seq<seq<byte>>, w: Wire)
    requires Inv(p, requests, w) && AllFramed(p, requests) && |w.replies| < |requests|
    ensures exists s :: Enabled(p, requests, w, s)
  {
    var r := requests[|w.replies|];
    assert Framed(p.wantRequest, r) && Framed(p.wantReply, p.reply(r));
    if Asking(w, requests, r) {
      assert r[..|w.heard|] == w.heard;
      if w.sending != [] {
        assert Enabled(p, requests, w, ClientWrites(1));
      } else if w.toServer != [] {
        assert Enabled(p, requests, w, ServerReads(1));
      } else {
        assert w.heard == r;
        assert Enabled(p, requests, w, Serves);
      }
    } else {
      assert p.reply(r)[..|w.got|] == w.got;
      if w.answering != [] {
        assert Enabled(p, requests, w, ServerWrites(1));
      } else {
        assert Enabled(p, requests, w, ClientReads(1));
      }
    }
  }

  ghost predicate CanRun(p: Protocol, requests: seq<seq<byte>>, w: Wire, steps: seq<Step>)
    decreases |steps|
  {
    steps == [] || (Enabled(p, requests, w, steps[0]) && CanRun(p, requests, Next(p, requests, w, steps[0]), steps[1..]))
  }

  ghost function Run(p: Protocol, requests: seq<seq<byte>>, w: Wire, steps: seq<Step>): Wire
    requires CanRun(p, requests, w, steps)
    decreases |steps|
  {
    if steps == [] then w else Run(p, requests, Next(p, requests, w, steps[0]), steps[1..])
  }

  lemma {:induction false} RunKeeps(p: Protocol, requests: seq<seq<byte>>, w: Wire, steps: seq<Step>)
    requires Inv(p, requests, w) && AllFramed(p, requests) && CanRun(p, requests, w, steps)
    ensures Inv(p, requests, Run(p, requests, w, steps))
    ensures Progress(p, requests, w) + |steps| <= Progress(p, requests, Run(p, requests, w, steps))
    decreases |steps|
  {
    hide Inv;
    hide AllFramed;
    hide Enabled;
    hide Progress;
    if steps != [] {
      NextKeeps(p, requests, w, steps[0]);
      StepsAreBounded(p, requests, w, steps[0]);
      hide Next;
      RunKeeps(p, requests, Next(p, requests, w, steps[0]), steps[1..]);
    }
  }

  /** For every run: the replies received so far are those to the requests, in order; the server has
      served each answered request and at most the one under way; a run is at most Cost steps long,
      and one that cannot go on has received every reply and left both pipes empty. */
  lemma LockstepIsCorrect(p: Protocol, requests: seq<seq<byte>>, steps: seq<Step>)
    requires AllFramed(p, requests) && CanRun(p, requests, Start(requests), steps)
    ensures var w := Run(p, requests, Start(requests), steps);
            && |w.replies| <= |requests|
            && (forall j :: 0 <= j < |w.replies| ==> w.replies[j] == p.reply(requests[j]))
            && |w.replies| <= |w.served| <= |w.replies| + 1 && w.served <= requests
            && |steps| <= Cost(p, requests)
            && ((forall s :: !Enabled(p, requests, w, s)) ==>
                 |w.replies| == |requests| && Quiet(w) && w.served == requests)
  {
    hide Cost;
    StartInv(p, requests);
    RunKeeps(p, requests, Start(requests), steps);
    var w := Run(p, requests, Start(requests), steps);
    ProgressBound(p, requests, w);
    ProgressBound(p, requests, Start(requests));
    hide Run;
    hide CanRun;
    if |w.replies| < |requests| {
      NoDeadlock(p, requests, w);
    }
    hide AllFramed;
    hide Progress;
    hide Enabled;
  }
}
