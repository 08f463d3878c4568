/** op-batcher/batcher/tx_data.go: frames, the transactions that carry them, and the printed
    transaction id that the batcher uses as a map key. */
module TxDatas {
  import opened Bytes

  type ChannelID = id: seq<byte> | |id| == 16 witness [0, 0, 0, 0, 0, 0, 0, 0, 0, 0, 0, 0, 0, 0, 0, 0]

  const ZeroChannelID: ChannelID := [0, 0, 0, 0, 0, 0, 0, 0, 0, 0, 0, 0, 0, 0, 0, 0]

  const MAX_UINT16 := 0xFFFF
  const FRAME_OVERHEAD := 23

  datatype FrameID = FrameID(chID: ChannelID, frameNumber: nat)

  /** A frame: its id, the compressed bytes it carries, and whether it ends the channel. */
  datatype Frame = Frame(id: FrameID, payload: seq<byte>, isLast: bool) {
    /** channel id, frame number, payload length, payload, last-flag; see "Frame Format". */
    function Marshal(): seq<byte> {
      id.chID
      + [id.frameNumber / 256 % 256, id.frameNumber % 256]
      + [|payload| / 0x100_0000 % 256, |payload| / 0x1_0000 % 256, |payload| / 256 % 256, |payload| % 256]
      + payload
      + [if isLast then 1 else 0]
    }
  }

  /** On the wire a frame is its payload and a fixed overhead, and nothing of it is lost as long as
      the number fits 16 bits and the length 32. */
  lemma MarshalDetermines(f: Frame, g: Frame)
    requires f.id.frameNumber <= MAX_UINT16 && g.id.frameNumber <= MAX_UINT16
    requires f.Marshal() == g.Marshal()
    ensures |f.Marshal()| == |f.payload| + FRAME_OVERHEAD
    ensures f == g
  {
    MarshalParts(f);
    MarshalParts(g);
    hide Frame.Marshal;
    SameNumber(f.id.frameNumber, g.id.frameNumber);
  }

  lemma MarshalParts(f: Frame)
    ensures var a := f.Marshal();
            && |a| == |f.payload| + FRAME_OVERHEAD && a[..16] == f.id.chID && a[22..|a| - 1] == f.payload
            && a[16] == f.id.frameNumber / 256 % 256 && a[17] == f.id.frameNumber % 256
            && a[|a| - 1] == if f.isLast then 1 else 0
  {
  }

  lemma SameNumber(m: nat, n: nat)
    requires m <= MAX_UINT16 && n <= MAX_UINT16 && m / 256 % 256 == n / 256 % 256 && m % 256 == n % 256
    ensures m == n
  {
  }

  function IDs(frames: seq<Frame>): (ids: seq<FrameID>)
    ensures |ids| == |frames| && forall i :: 0 <= i < |ids| ==> ids[i] == frames[i].id
  {
    seq(|frames|, i requires 0 <= i < |frames| => frames[i].id)
  }

  datatype TxData = TxData(frames: seq<Frame>, asBlob: bool) {
    function ID(): seq<FrameID> {
      IDs(frames)
    }

    function Key(): string {
      Render(ID(), ZeroChannelID)
    }
  }

  /** The text of the frames that follow a frame of channel `cur`: frames of one channel are joined
      by "+", channels by "|", and the channel id is printed once per group. */
  function Render(ids: seq<FrameID>, cur: ChannelID): string {
    if ids == [] then ""
    else if ids[0].chID == cur then "+" + Decimal(ids[0].frameNumber) + Render(ids[1..], cur)
    else (if cur != ZeroChannelID then "|" else "")
         + Hex(ids[0].chID) + ":" + Decimal(ids[0].frameNumber) + Render(ids[1..], ids[0].chID)
  }

  /** One frame of the text. */
  function Piece(f: FrameID, cur: ChannelID): string {
    if f.chID == cur then "+" + Decimal(f.frameNumber)
    else (if cur != ZeroChannelID then "|" else "") + (Hex(f.chID) + ":" + Decimal(f.frameNumber))
  }

  lemma RenderStep(s: string, ids: seq<FrameID>, i: nat, cur: ChannelID)
    requires i < |ids|
    ensures (s + Piece(ids[i], cur)) + Render(ids[i + 1..], ids[i].chID) == s + Render(ids[i..], cur)
  {
    hide Hex;
    hide Decimal;
    var f, rest := ids[i], Render(ids[i + 1..], ids[i].chID);
    assert ids[i..][1..] == ids[i + 1..];
    assert Render(ids[i..], cur) == Piece(f, cur) + rest by {
      if f.chID != cur {
        Grouped(if cur != ZeroChannelID then "|" else "", Hex(f.chID), Decimal(f.frameNumber));
      }
    }
    hide Piece;
    hide Render;
    assert (s + Piece(f, cur)) + rest == s + (Piece(f, cur) + rest);
  }

  lemma Grouped(separator: string, name: string, number: string)
    ensures separator + name + ":" + number == separator + (name + ":" + number)
  {
  }

  method TxIdString(ids: seq<FrameID>) returns (s: string)
    ensures s == Render(ids, ZeroChannelID)
  {
    hide Hex;
    hide Decimal;
    var curChID := ZeroChannelID;
    s := "";
    for i := 0 to |ids|
      invariant s + Render(ids[i..], curChID) == Render(ids, ZeroChannelID)
    {
      var f := ids[i];
      RenderStep(s, ids, i, curChID);
      ghost var before, piece := s, Piece(f, curChID);
      if f.chID == curChID {
        s := s + "+" + Decimal(f.frameNumber);
      } else {
        if curChID != ZeroChannelID {
          s := s + "|";
        }
        curChID := f.chID;
        s := s + (Hex(f.chID) + ":" + Decimal(f.frameNumber));
      }
      assert s == before + piece;
      hide Render;
    }
    assert ids[|ids|..] == [];
  }

  /** The version byte 0 followed by the frames. */
  function Concatenated(frames: seq<Frame>): seq<byte> {
    if frames == [] then [] else Concatenated(frames[..|frames| - 1]) + frames[|frames| - 1].Marshal()
  }

  method CallData(td: TxData) returns (data: seq<byte>)
    ensures data == [0] + Concatenated(td.frames)
  {
    data := [0];
    for i := 0 to |td.frames|
      invariant data == [0] + Concatenated(td.frames[..i])
    {
      assert td.frames[..i + 1][..i] == td.frames[..i];
      data := data + td.frames[i].Marshal();
    }
    assert td.frames[..|td.frames|] == td.frames;
  }

  /** Total frame size without the version byte, so that CallData is one byte longer. */
  method Len(td: TxData) returns (l: nat)
    ensures l == |Concatenated(td.frames)|
  {
    l := 0;
    for i := 0 to |td.frames|
      invariant l == |Concatenated(td.frames[..i])|
    {
      assert td.frames[..i + 1][..i] == td.frames[..i];
      l := l + |td.frames[i].Marshal()|;
    }
    assert td.frames[..|td.frames|] == td.frames;
  }

  ghost predicate NonZero(ids: seq<FrameID>) {
    forall i :: 0 <= i < |ids| ==> ids[i].chID != ZeroChannelID
  }

  /** After a frame of a real channel the text goes on with "+", "|" or not at all. */
  lemma RenderStart(ids: seq<FrameID>, cur: ChannelID)
    ensures cur != ZeroChannelID ==> StartsWithNonDigit(Render(ids, cur))
    ensures ids != [] ==> Render(ids, cur) != ""
    ensures ids != [] && ids[0].chID == cur ==> Render(ids, cur)[0] == '+'
    ensures ids != [] && ids[0].chID != cur && cur != ZeroChannelID ==> Render(ids, cur)[0] == '|'
  {
    hide Hex;
    hide Decimal;
  }

  /** What stands between the separator and the rest of the text: channel and number, or number. */
  lemma NamedTokenUnique(a: ChannelID, m: nat, r: string, b: ChannelID, n: nat, s: string)
    requires Hex(a) + ":" + Decimal(m) + r == Hex(b) + ":" + Decimal(n) + s
    requires StartsWithNonDigit(r) && StartsWithNonDigit(s)
    ensures a == b && m == n && r == s
  {
    assert |Hex(a)| == 32 && |Hex(b)| == 32;
    hide Hex;
    hide Decimal;
    hide StartsWithNonDigit;
    TokenParts(Hex(a), Decimal(m), r);
    TokenParts(Hex(b), Decimal(n), s);
    HexInjective(a, b);
    DecimalPrefixUnique(m, r, n, s);
  }

  lemma TokenParts(name: string, number: string, rest: string)
    ensures var text := name + ":" + number + rest;
            text[..|name|] == name && text[|name| + 1..] == number + rest
  {
  }

  /** Grouping runs of one channel loses nothing: the text determines the frame ids. */
  lemma {:induction false} RenderInjective(a: seq<FrameID>, b: seq<FrameID>, cur: ChannelID)
    requires NonZero(a) && NonZero(b) && Render(a, cur) == Render(b, cur)
    ensures a == b
  {
    hide Hex;
    hide Decimal;
    RenderStart(a, cur);
    RenderStart(b, cur);
    if a != [] && b != [] {
      var r, s := Render(a[1..], a[0].chID), Render(b[1..], b[0].chID);
      RenderStart(a[1..], a[0].chID);
      RenderStart(b[1..], b[0].chID);
      if a[0].chID == cur {
        assert b[0].chID == cur;
        assert Render(a, cur)[1..] == Decimal(a[0].frameNumber) + r;
        assert Render(b, cur)[1..] == Decimal(b[0].frameNumber) + s;
        DecimalPrefixUnique(a[0].frameNumber, r, b[0].frameNumber, s);
      } else {
        NamedStart(a, cur);
        NamedStart(b, cur);
        NamedTokenUnique(a[0].chID, a[0].frameNumber, r, b[0].chID, b[0].frameNumber, s);
      }
      RenderInjective(a[1..], b[1..], a[0].chID);
      assert a == [a[0]] + a[1..] && b == [b[0]] + b[1..];
    }
  }

  lemma NamedStart(ids: seq<FrameID>, cur: ChannelID)
    requires ids != [] && ids[0].chID != cur
    ensures Render(ids, cur)[if cur != ZeroChannelID then 1 else 0..]
         == Hex(ids[0].chID) + ":" + Decimal(ids[0].frameNumber) + Render(ids[1..], ids[0].chID)
  {
    hide Hex;
    hide Decimal;
  }

  /** Transactions with frames of real channels have equal keys only if they carry the same frame
      ids; only a transaction without frames has the empty key. */
  lemma KeyDeterminesFrames(x: TxData, y: TxData)
    requires NonZero(x.ID()) && NonZero(y.ID())
    ensures x.Key() == y.Key() <==> x.ID() == y.ID()
    ensures x.Key() == "" <==> x.frames == []
  {
    hide Render;
    if x.Key() == y.Key() {
      RenderInjective(x.ID(), y.ID(), ZeroChannelID);
    }
    RenderStart(x.ID(), ZeroChannelID);
    EmptyRender();
  }

  lemma EmptyRender()
    ensures Render([], ZeroChannelID) == ""
  {
  }
}
