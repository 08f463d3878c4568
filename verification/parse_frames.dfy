/** op-node/rollup/derive/frame.go: how the data of a transaction on L1 is read back into frames, and that
    this undoes what the batcher sends. */
module FrameParsing {
  import opened Bytes
  import opened TxDatas
  import opened BuilderSpec
  import opened Segmentation
  import opened Deadlines
  import opened ChannelSpec
  import opened FrameConservation
  import opened ManagerSpec
  import opened ManagerIndex
  import opened ManagerRuns
  import opened ManagerBlocks
  import opened ManagerDone
  import opened ManagerResults

  const MAX_FRAME_LEN := 1_000_000

  /** Two bytes, the higher one first. */
  function Uint16(s: seq<byte>): nat
    requires |s| == 2
  {
    var high: nat := s[0];
    256 * high + s[1]
  }

  /** Four bytes, the highest one first. */
  function Uint32(s: seq<byte>): nat
    requires |s| == 4
  {
    0x1_0000 * Uint16(s[..2]) + Uint16(s[2..])
  }

  /** One frame from the beginning of the data, and what follows it; None is an error. */
  function Unmarshal(r: seq<byte>): Option<(Frame, seq<byte>)> {
    if |r| < 22 then None
    else
      var n := Uint32(r[18..22]);
      if n > MAX_FRAME_LEN || |r| < 22 + n + 1 || r[22 + n] > 1 then None
      else Some((Frame(FrameID(r[..16], Uint16(r[16..18])), r[22..22 + n], r[22 + n] == 1), r[22 + n + 1..]))
  }

  /** The frame can be sent: its number fits 16 bits and its payload the limit. */
  predicate Fits(f: Frame) {
    f.id.frameNumber <= MAX_UINT16 && |f.payload| <= MAX_FRAME_LEN
  }

  lemma Uint16Of(n: nat)
    requires n <= MAX_UINT16
    ensures Uint16([n / 256 % 256, n % 256]) == n
  {
  }

  lemma Uint32Of(n: nat)
    requires n <= MAX_FRAME_LEN
    ensures Uint32([n / 0x100_0000 % 256, n / 0x1_0000 % 256, n / 256 % 256, n % 256]) == n
  {
    var s: seq<byte> := [n / 0x100_0000 % 256, n / 0x1_0000 % 256, n / 256 % 256, n % 256];
    assert s[..2] == [n / 0x100_0000 % 256, n / 0x1_0000 % 256] && s[2..] == [n / 256 % 256, n % 256];
    assert n / 256 == 256 * (n / 0x1_0000) + n / 256 % 256;
  }

  /** Where the parts of a frame stand in the data. */
  lemma MarshalPlaces(f: Frame, rest: seq<byte>)
    ensures var r, n := f.Marshal() + rest, |f.payload|;
            && |r| == n + FRAME_OVERHEAD + |rest| && r[..16] == f.id.chID
            && r[16..18] == [f.id.frameNumber / 256 % 256, f.id.frameNumber % 256]
            && r[18..22] == [n / 0x100_0000 % 256, n / 0x1_0000 % 256, n / 256 % 256, n % 256]
            && r[22..22 + n] == f.payload && r[22 + n] == (if f.isLast then 1 else 0) && r[22 + n + 1..] == rest
  {
  }

  lemma UnmarshalMarshal(f: Frame, rest: seq<byte>)
    requires Fits(f)
    ensures Unmarshal(f.Marshal() + rest) == Some((f, rest))
  {
    MarshalPlaces(f, rest);
    hide Frame.Marshal;
    Uint16Of(f.id.frameNumber);
    Uint32Of(|f.payload|);
    hide Uint16;
    hide Uint32;
  }

  lemma BytesOf16(s: seq<byte>)
    requires |s| == 2
    ensures var n := Uint16(s); n <= MAX_UINT16 && s == [n / 256 % 256, n % 256]
  {
  }

  lemma BytesOf32(s: seq<byte>)
    requires |s| == 4
    ensures var n := Uint32(s); s == [n / 0x100_0000 % 256, n / 0x1_0000 % 256, n / 256 % 256, n % 256]
  {
    var n, high, low := Uint32(s), Uint16(s[..2]), Uint16(s[2..]);
    BytesOf16(s[..2]);
    BytesOf16(s[2..]);
    assert s == s[..2] + s[2..];
    assert n == 0x1_0000 * high + low && low <= MAX_UINT16 && high <= MAX_UINT16;
    hide Uint32;
    hide Uint16;
    assert n / 0x1_0000 == high && n % 0x1_0000 == low;
    assert n / 0x100_0000 == high / 256;
    assert n / 256 % 256 == low / 256 % 256;
  }

  /** Only the wire form of a frame is read as that frame. */
  lemma MarshalUnmarshal(r: seq<byte>)
    requires Unmarshal(r).Some?
    ensures var (f, rest) := Unmarshal(r).value; Fits(f) && r == f.Marshal() + rest
  {
    var (f, rest) := Unmarshal(r).value;
    var n := |f.payload|;
    BytesOf16(r[16..18]);
    BytesOf32(r[18..22]);
    hide Uint16;
    hide Uint32;
    assert r == r[..16] + r[16..18] + r[18..22] + r[22..22 + n] + [r[22 + n]] + r[22 + n + 1..];
    hide Unmarshal;
  }

  /** The frames in the data; None if they do not fill it exactly. */
  function Parse(buf: seq<byte>): Option<seq<Frame>>
    decreases |buf|
  {
    if buf == [] then Some([])
    else
      match Unmarshal(buf)
      case None => None
      case Some((f, rest)) =>
        match Parse(rest)
        case None => None
        case Some(fs) => Some([f] + fs)
  }

  ghost predicate AllFit(fs: seq<Frame>) {
    forall i :: 0 <= i < |fs| ==> Fits(fs[i])
  }

  lemma {:induction false} ConcatenatedHead(f: Frame, fs: seq<Frame>)
    ensures Concatenated([f] + fs) == f.Marshal() + Concatenated(fs)
    decreases |fs|
  {
    hide Frame.Marshal;
    if fs == [] {
      assert [f] + fs == [f] && [f][..0] == [];
    } else {
      var k := |fs| - 1;
      assert ([f] + fs)[..k + 1] == [f] + fs[..k];
      ConcatenatedHead(f, fs[..k]);
    }
  }

  /** The data is read as these frames exactly if it is their wire forms, one after the other. */
  lemma {:induction false} ParseIff(buf: seq<byte>, fs: seq<Frame>)
    ensures Parse(buf) == Some(fs) <==> AllFit(fs) && buf == Concatenated(fs)
    decreases |buf|
  {
    hide Frame.Marshal;
    hide Fits;
    hide Unmarshal;
    if Parse(buf) == Some(fs) && buf != [] {
      var (f, rest) := Unmarshal(buf).value;
      MarshalUnmarshal(buf);
      Shorter(buf);
      assert fs[1..] == Parse(rest).value && fs == [f] + fs[1..];
      ParseIff(rest, fs[1..]);
      ConcatenatedHead(f, fs[1..]);
    }
    if AllFit(fs) && buf == Concatenated(fs) && fs != [] {
      var f, more := fs[0], fs[1..];
      assert fs == [f] + more;
      ConcatenatedHead(f, more);
      UnmarshalMarshal(f, Concatenated(more));
      assert |buf| > |Concatenated(more)| by { MarshalParts(f); }
      ParseIff(Concatenated(more), more);
    }
  }

  /** The data of a transaction is accepted exactly if it is the version byte 0 and the wire forms of one or more
      frames, and then these are the result. */
  method ParseFrames(data: seq<byte>) returns (r: Option<seq<Frame>>)
    ensures r.Some? ==> r.value != [] && AllFit(r.value) && data == [0] + Concatenated(r.value)
    ensures r.None? ==> forall fs :: fs != [] && AllFit(fs) ==> data != [0] + Concatenated(fs)
  {
    hide Unmarshal;
    hide Concatenated;
    hide AllFit;
    forall fs
      ensures Parse(if data == [] then [] else data[1..]) == Some(fs) <==>
                AllFit(fs) && (if data == [] then [] else data[1..]) == Concatenated(fs)
    {
      ParseIff(if data == [] then [] else data[1..], fs);
    }
    if |data| == 0 || data[0] != 0 {
      assert forall fs :: ([0] + Concatenated(fs))[0] == 0;
      return None;
    }
    var buf, frames := data[1..], [];
    assert forall fs: seq<Frame> :: [] + fs == fs;
    while |buf| > 0
      invariant Parse(data[1..])
             == match Parse(buf) case None => None case Some(fs) => Some(frames + fs)
      decreases |buf|
    {
      var next := Unmarshal(buf);
      if next.None? {
        assert forall fs :: ([0] + Concatenated(fs))[1..] == Concatenated(fs);
        return None;
      }
      assert |next.value.1| < |buf| by { Shorter(buf); }
      assert forall fs :: frames + ([next.value.0] + fs) == frames + [next.value.0] + fs;
      frames := frames + [next.value.0];
      buf := next.value.1;
    }
    assert frames + [] == frames;
    assert data == [0] + data[1..];
    if |frames| == 0 {
      assert forall fs :: ([0] + Concatenated(fs))[1..] == Concatenated(fs);
      return None;
    }
    return Some(frames);
  }

  lemma Shorter(buf: seq<byte>)
    requires Unmarshal(buf).Some?
    ensures |Unmarshal(buf).value.1| < |buf|
  {
  }

  /** Every transaction handed out on any run of the manager is read back on L1 as the frames it was made of, if
      and only if no payload exceeds the limit on a frame. */
  lemma SentDataIsReadBackIff(l1Origin: BlockID, steps: seq<ManagerRuns.Step>, c: nat, k: string)
    requires CanRun(Cleared(l1Origin), steps) && c < |Run(Cleared(l1Origin), steps).chans|
    requires k in Run(Cleared(l1Origin), steps).chans[c].sent
    ensures var v := Run(Cleared(l1Origin), steps).chans[c];
            var fs := v.sent[k].frames;
            && fs != []
            && (Parse(Concatenated(fs)) == Some(fs) <==> forall i :: 0 <= i < |fs| ==> |fs[i].payload| <= MAX_FRAME_LEN)
            && (v.builder.cfg.maxFrameSize <= MAX_FRAME_LEN + FRAME_OVERHEAD ==> Parse(Concatenated(fs)) == Some(fs))
  {
    Reachable(l1Origin, steps);
    CoreChan(Run(Cleared(l1Origin), steps), c);
    ReadBackIff(Run(Cleared(l1Origin), steps).chans[c], k);
    hide *;
  }

  lemma ReadBackIff(v: ChannelValue, k: string)
    requires ChannelInv(v) && k in v.sent
    ensures var fs := v.sent[k].frames;
            && fs != []
            && (Parse(Concatenated(fs)) == Some(fs) <==> forall i :: 0 <= i < |fs| ==> |fs[i].payload| <= MAX_FRAME_LEN)
            && (v.builder.cfg.maxFrameSize <= MAX_FRAME_LEN + FRAME_OVERHEAD ==> Parse(Concatenated(fs)) == Some(fs))
  {
    SentFrames(v, k);
    hide ChannelInv;
    ParseIff(Concatenated(v.sent[k].frames), v.sent[k].frames);
    hide Parse;
    hide Concatenated;
  }

  lemma SentFrames(v: ChannelValue, k: string)
    requires ChannelInv(v) && k in v.sent
    ensures v.sent[k].frames != []
    ensures forall i :: 0 <= i < |v.sent[k].frames| ==>
              var f := v.sent[k].frames[i];
              f.id.frameNumber <= MAX_UINT16 && |f.payload| + FRAME_OVERHEAD <= v.builder.cfg.maxFrameSize
  {
    hide Payloads;
    hide Accounted;
    hide Timed;
    hide Published;
    hide Render;
    hide InQueue;
    hide Carries;
    hide Unrepeated;
    assert GoodTx(v.builder, k, v.sent[k]);
  }
}
