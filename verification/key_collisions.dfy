/** Between which kinds of commitments the key of the challenge index is injective: exactly those of one
    encoded length. */
module KeyCollisions {
  import opened Bytes
  import opened Commitments

  function TypeByte(t: CommitmentType): byte {
    if t.Keccak256CommitmentType? then 0 else 1
  }

  /** Encoded lengths of well-formed commitments. */
  predicate HasLength(t: CommitmentType, length: nat) {
    if t.Keccak256CommitmentType? then length == 33 else length >= 2
  }

  ghost predicate Kind(c: CommitmentData, t: CommitmentType, length: nat) {
    c.Type() == t && c.WellFormed() && |c.Encode()| == length
  }

  /** No two different pairs of a block number and a commitment of these kinds have one key. */
  ghost predicate KeysDetermine(t: CommitmentType, p: nat, u: CommitmentType, q: nat) {
    forall a: CommitmentData, m: nat, b: CommitmentData, n: nat ::
      Kind(a, t, p) && Kind(b, u, q) && ChallengeKey(a, m) == ChallengeKey(b, n) ==> a == b && m == n
  }

  function Zeros(k: nat): (z: seq<byte>)
    ensures |z| == k
  {
    if k == 0 then [] else Zeros(k - 1) + [0]
  }

  /** The number whose digits are 1, the hexadecimal type byte, and `k` zero bytes. */
  function Padded(t: CommitmentType, k: nat): (m: nat)
    ensures m > 0
  {
    if k == 0 then 100 + TypeByte(t) else 100 * Padded(t, k - 1)
  }

  lemma DecimalHundredfold(x: nat)
    requires x > 0
    ensures Decimal(100 * x) == Decimal(x) + "00"
  {
    assert (100 * x) / 10 == 10 * x && (100 * x) % 10 == 0 && (10 * x) / 10 == x && (10 * x) % 10 == 0;
    assert Decimal(10 * x) == Decimal(x) + "0";
    hide Decimal;
    assert Decimal(100 * x) == Decimal(10 * x) + "0" by { DecimalStep(100 * x); }
    assert Decimal(x) + "0" + "0" == Decimal(x) + "00";
  }

  lemma DecimalStep(n: nat)
    requires n >= 10
    ensures Decimal(n) == Decimal(n / 10) + [Digit(n % 10)]
  {
  }

  lemma SmallPadded(t: CommitmentType)
    ensures Decimal(Padded(t, 0)) == "1" + Hex([TypeByte(t)])
  {
    assert Decimal(1) == "1" && Decimal(10) == "10";
    assert Hex([0]) == "00" && Hex([1]) == "01";
  }

  lemma {:induction false} PaddedText(t: CommitmentType, k: nat)
    ensures Decimal(Padded(t, k)) == "1" + Hex([TypeByte(t)] + Zeros(k))
  {
    hide Decimal;
    if k == 0 {
      SmallPadded(t);
      assert [TypeByte(t)] + Zeros(0) == [TypeByte(t)];
    } else {
      PaddedText(t, k - 1);
      DecimalHundredfold(Padded(t, k - 1));
      var before := [TypeByte(t)] + Zeros(k - 1);
      HexConcat(before, [0]);
      assert Hex([0]) == "00";
      hide Hex;
      assert [TypeByte(t)] + Zeros(k) == before + [0];
      assert "1" + Hex(before) + "00" == "1" + (Hex(before) + "00");
    }
  }

  function Make(t: CommitmentType, body: seq<byte>): CommitmentData {
    if t.Keccak256CommitmentType? then Keccak256Commitment(body) else GenericCommitment(body)
  }

  /** Every commitment shares its key with one of any greater encoded length. */
  lemma LongerKeyCollides(a: CommitmentData, u: CommitmentType, q: nat) returns (m: nat, b: CommitmentData)
    requires |a.Encode()| < q && HasLength(u, q)
    ensures Kind(b, u, q) && ChallengeKey(a, m) == ChallengeKey(b, 1)
  {
    hide Decimal;
    hide Hex;
    var k := q - 1 - |a.Encode()|;
    b := Make(u, Zeros(k) + a.Encode());
    m := Padded(u, k);
    PaddedText(u, k);
    EncodedInFront(u, Zeros(k), a);
    var front := [TypeByte(u)] + Zeros(k);
    hide CommitmentData.Encode;
    HexConcat(front, a.Encode());
    DecimalOne();
    assert "1" + (Hex(front) + Hex(a.Encode())) == "1" + Hex(front) + Hex(a.Encode());
  }

  lemma DecimalOne()
    ensures Decimal(1) == "1"
  {
  }

  lemma EncodedInFront(u: CommitmentType, zeros: seq<byte>, a: CommitmentData)
    requires HasLength(u, 1 + |zeros| + |a.Encode()|)
    ensures var b := Make(u, zeros + a.Encode());
            b.Encode() == [TypeByte(u)] + zeros + a.Encode() && Kind(b, u, 1 + |zeros| + |a.Encode()|)
  {
  }

  lemma ShortestOf(t: CommitmentType, p: nat) returns (a: CommitmentData)
    requires HasLength(t, p)
    ensures Kind(a, t, p)
  {
    a := Make(t, Zeros(p - 1));
  }

  /** For all kinds of commitments that exist: the key determines block number and commitment if and only
      if their encoded lengths are equal. */
  lemma KeysDetermineIffSameLength(t: CommitmentType, p: nat, u: CommitmentType, q: nat)
    requires HasLength(t, p) && HasLength(u, q)
    ensures KeysDetermine(t, p, u, q) <==> p == q
  {
    hide ChallengeKey;
    if p == q {
      forall a: CommitmentData, m: nat, b: CommitmentData, n: nat |
        Kind(a, t, p) && Kind(b, u, q) && ChallengeKey(a, m) == ChallengeKey(b, n)
        ensures a == b && m == n
      {
        ChallengeKeyInjective(a, m, b, n);
      }
    } else if p < q {
      var a := ShortestOf(t, p);
      var m, b := LongerKeyCollides(a, u, q);
      assert a != b;
    } else {
      var b := ShortestOf(u, q);
      var n, a := LongerKeyCollides(b, t, p);
      assert a != b;
    }
  }
}
