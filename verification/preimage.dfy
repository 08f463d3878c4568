/** op-preimage/oracle.go and op-preimage/hints.go: the messages of the pre-image and hint protocols,
    and both protocols as instances of the lockstep exchange. */
module Preimage {
  import opened Bytes
  import Lockstep

  const MAX_UINT32 := 0xFFFF_FFFF

  function Power256(k: nat): nat {
    if k == 0 then 1 else 256 * Power256(k - 1)
  }

  /** `n` in `k` bytes, the highest first; what does not fit is cut off. */
  function BigEndian(n: nat, k: nat): (s: seq<byte>)
    ensures |s| == k
  {
    if k == 0 then [] else BigEndian(n / 256, k - 1) + [n % 256]
  }

  function Number(s: seq<byte>): nat {
    if s == [] then 0 else 256 * Number(s[..|s| - 1]) + s[|s| - 1]
  }

  /** The number survives if and only if it fits. */
  lemma {:induction false} NumberOfBigEndian(n: nat, k: nat)
    ensures Number(BigEndian(n, k)) < Power256(k)
    ensures Number(BigEndian(n, k)) == n <==> n < Power256(k)
    ensures n < Power256(k) ==> Number(BigEndian(n, k)) == n
  {
    if k > 0 {
      NumberOfBigEndian(n / 256, k - 1);
      assert BigEndian(n, k)[..k - 1] == BigEndian(n / 256, k - 1);
    }
  }

  /** The first byte has the highest place value. */
  lemma {:induction false} FirstByteIsHighest(s: seq<byte>)
    requires s != []
    ensures Number(s) == s[0] * Power256(|s| - 1) + Number(s[1..])
    decreases |s|
  {
    var k := |s| - 1;
    var first: int := s[0];
    if k == 0 {
      assert s[..0] == [] && s[1..] == [];
    } else {
      FirstByteIsHighest(s[..k]);
      assert s[1..][..k - 1] == s[..k][1..] && s[1..][k - 1] == s[k];
      assert first * Power256(k) == 256 * (first * Power256(k - 1));
    }
  }

  lemma Widths()
    ensures Power256(4) == MAX_UINT32 + 1 && Power256(8) == 0x1_0000_0000_0000_0000
  {
    assert Power256(2) == 0x1_0000;
    assert Power256(4) == 0x1_0000 * 0x1_0000;
    assert Power256(6) == 0x1_0000 * 0x1_0000 * 0x1_0000;
  }

  /** A message of fixed size, as io.ReadFull asks for it. */
  function WantFixed(size: nat, got: seq<byte>): nat {
    if |got| < size then size - |got| else 0
  }

  /** A length in `k` bytes, then that many bytes: first the rest of the length, then the rest of the
      payload. */
  function WantPrefixed(k: nat, got: seq<byte>): nat {
    if |got| < k then k - |got| else WantFixed(k + Number(got[..k]), got)
  }

  function Prefixed(k: nat, payload: seq<byte>): seq<byte> {
    BigEndian(|payload|, k) + payload
  }

  lemma FixedFramed(msg: seq<byte>)
    requires msg != []
    ensures Lockstep.Framed(got => WantFixed(|msg|, got), msg)
  {
  }

  lemma PrefixedFramed(k: nat, payload: seq<byte>)
    requires 0 < k && |payload| < Power256(k)
    ensures Lockstep.Framed(got => WantPrefixed(k, got), Prefixed(k, payload))
  {
    var msg := Prefixed(k, payload);
    NumberOfBigEndian(|payload|, k);
    forall i | 0 <= i < |msg|
      ensures 0 < WantPrefixed(k, msg[..i]) <= |msg| - i
    {
      if i >= k {
        assert msg[..i][..k] == BigEndian(|payload|, k);
      }
    }
    assert msg[..k] == BigEndian(|payload|, k);
  }

  /** The client writes a 32-byte key and reads a length in eight bytes and the value. */
  ghost function Oracle(getter: seq<byte> -> seq<byte>): Lockstep.Protocol {
    Lockstep.Protocol(got => WantFixed(32, got), got => WantPrefixed(8, got), key => Prefixed(8, getter(key)))
  }

  /** Get returns what follows the length. */
  function Payload(k: nat, message: seq<byte>): seq<byte> {
    if |message| < k then [] else message[k..]
  }

  lemma OracleFramed(getter: seq<byte> -> seq<byte>, keys: seq<seq<byte>>)
    requires forall i :: 0 <= i < |keys| ==> |keys[i]| == 32 && |getter(keys[i])| < Power256(8)
    ensures Lockstep.AllFramed(Oracle(getter), keys)
  {
    forall i | 0 <= i < |keys|
      ensures Lockstep.Framed(Oracle(getter).wantRequest, keys[i]) && Lockstep.Framed(Oracle(getter).wantReply, Oracle(getter).reply(keys[i]))
    {
      FixedFramed(keys[i]);
      PrefixedFramed(8, getter(keys[i]));
    }
  }

  /** For any keys, any getter that does not fail and any cutting of reads and writes: the i-th Get
      returns the getter's value for the i-th key, the run ends, and then both pipes are empty. */
  lemma GetReturnsThePreimage(getter: seq<byte> -> seq<byte>, keys: seq<seq<byte>>, steps: seq<Lockstep.Step>)
    requires forall i :: 0 <= i < |keys| ==> |keys[i]| == 32 && |getter(keys[i])| < Power256(8)
    requires Lockstep.CanRun(Oracle(getter), keys, Lockstep.Start(keys), steps)
    ensures var w := Lockstep.Run(Oracle(getter), keys, Lockstep.Start(keys), steps);
            && |w.replies| <= |keys|
            && (forall i :: 0 <= i < |w.replies| ==> Payload(8, w.replies[i]) == getter(keys[i]))
            && |steps| <= Lockstep.Cost(Oracle(getter), keys)
            && ((forall s :: !Lockstep.Enabled(Oracle(getter), keys, w, s)) ==>
                 |w.replies| == |keys| && w.toServer == w.toClient == [])
  {
    OracleFramed(getter, keys);
    Lockstep.LockstepIsCorrect(Oracle(getter), keys, steps);
    hide Lockstep.Run;
    hide Lockstep.CanRun;
    hide Lockstep.Enabled;
    hide Lockstep.Cost;
    hide BigEndian;
  }

  /** What HintWriter writes: the length is cut to 32 bits. */
  function HintMessage(hint: seq<byte>): seq<byte> {
    Prefixed(4, hint)
  }

  /** The writer waits for a single byte; the reader hands the payload to the router and then sends it. */
  ghost function Hints(): Lockstep.Protocol {
    Lockstep.Protocol(got => WantPrefixed(4, got), got => WantFixed(1, got), message => [0])
  }

  ghost function Messages(hints: seq<seq<byte>>): seq<seq<byte>> {
    seq(|hints|, i requires 0 <= i < |hints| => HintMessage(hints[i]))
  }

  lemma HintsFramed(hints: seq<seq<byte>>)
    requires forall i :: 0 <= i < |hints| ==> |hints[i]| <= MAX_UINT32
    ensures Lockstep.AllFramed(Hints(), Messages(hints))
  {
    hide Power256;
    Widths();
    forall i | 0 <= i < |hints|
      ensures Lockstep.Framed(Hints().wantRequest, Messages(hints)[i]) && Lockstep.Framed(Hints().wantReply, [0])
    {
      PrefixedFramed(4, hints[i]);
      FixedFramed([0]);
    }
  }

  /** Hints shorter than 2^32 bytes reach the router unchanged and in order, and each call of Hint
      returns only after the router is done with its hint. */
  lemma HintsReachTheRouter(hints: seq<seq<byte>>, steps: seq<Lockstep.Step>)
    requires forall i :: 0 <= i < |hints| ==> |hints[i]| <= MAX_UINT32
    requires Lockstep.CanRun(Hints(), Messages(hints), Lockstep.Start(Messages(hints)), steps)
    ensures var w := Lockstep.Run(Hints(), Messages(hints), Lockstep.Start(Messages(hints)), steps);
            && |w.replies| <= |w.served| <= |hints|
            && (forall i :: 0 <= i < |w.served| ==> Payload(4, w.served[i]) == hints[i])
            && |steps| <= Lockstep.Cost(Hints(), Messages(hints))
            && ((forall s :: !Lockstep.Enabled(Hints(), Messages(hints), w, s)) ==>
                 |w.replies| == |w.served| == |hints| && w.toServer == w.toClient == [])
  {
    HintsFramed(hints);
    Lockstep.LockstepIsCorrect(Hints(), Messages(hints), steps);
    hide Lockstep.Run;
    hide Lockstep.CanRun;
    hide Lockstep.Enabled;
    hide Lockstep.Cost;
    hide BigEndian;
  }

  /** The payload that NextHint reads off a stream that starts with one hint message, and what it
      leaves behind for the next hint. */
  function NextHint(stream: seq<byte>): (r: (seq<byte>, seq<byte>))
    requires |stream| >= 4 && |stream| >= 4 + Number(stream[..4])
  {
    var n := Number(stream[..4]);
    (stream[4..4 + n], stream[4 + n..])
  }

  /** A hint of any length: the router gets it unchanged, and nothing of it is left in the stream, if
      and only if its length fits 32 bits. */
  lemma HintUnchangedIffShort(hint: seq<byte>)
    ensures |HintMessage(hint)| >= 4 + Number(HintMessage(hint)[..4])
    ensures NextHint(HintMessage(hint)) == (hint, []) <==> |hint| <= MAX_UINT32
    ensures |hint| > MAX_UINT32 ==> |NextHint(HintMessage(hint)).1| > 0
  {
    hide Power256;
    Widths();
    NumberOfBigEndian(|hint|, 4);
    NumberAtMost(|hint|, 4);
    var m := HintMessage(hint);
    assert m[..4] == BigEndian(|hint|, 4) && m[4..] == hint;
    var n := Number(m[..4]);
    assert n <= MAX_UINT32 && (n == |hint| <==> |hint| <= MAX_UINT32);
    assert m[4..4 + n] == hint[..n] && m[4 + n..] == hint[n..];
    hide HintMessage;
    hide BigEndian;
    hide Number;
    assert |hint[..n]| == n;
    if |hint| <= MAX_UINT32 {
      assert hint[..n] == hint && hint[n..] == [];
    }
  }

  lemma {:induction false} NumberAtMost(n: nat, k: nat)
    ensures Number(BigEndian(n, k)) <= n
  {
    if k > 0 {
      NumberAtMost(n / 256, k - 1);
      assert BigEndian(n, k)[..k - 1] == BigEndian(n / 256, k - 1);
    }
  }
}
