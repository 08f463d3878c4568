/** op-alt-da/commitment.go: commitments, their wire form, and the text key under which a
    challenge against a commitment is indexed. */
module Commitments {
  import opened Bytes

  datatype CommitmentType = Keccak256CommitmentType | GenericCommitmentType

  datatype CommitmentData =
    | Keccak256Commitment(hash: seq<byte>)
    | GenericCommitment(raw: seq<byte>)
  {
    function Type(): CommitmentType {
      if Keccak256Commitment? then Keccak256CommitmentType else GenericCommitmentType
    }

    function Encode(): seq<byte> {
      match this
      case Keccak256Commitment(hash) => [0] + hash
      case GenericCommitment(raw) => [1] + raw
    }

    /** A generic commitment is never opened, so it accepts every input. */
    predicate Verify(keccak: seq<byte> -> seq<byte>, input: seq<byte>) {
      Keccak256Commitment? ==> hash == keccak(input)
    }

    /** What `Decode` lets through: 32-byte hashes and non-empty opaque strings. */
    predicate WellFormed() {
      match this
      case Keccak256Commitment(hash) => |hash| == 32
      case GenericCommitment(raw) => |raw| > 0
    }
  }

  function Decode(input: seq<byte>): Option<CommitmentData> {
    if |input| == 0 then None
    else if input[0] == 0 then
      if |input[1..]| != 32 then None else Some(Keccak256Commitment(input[1..]))
    else if input[0] == 1 then
      if |input[1..]| == 0 then None else Some(GenericCommitment(input[1..]))
    else None
  }

  /** The decoder inverts the encoder exactly on well-formed commitments. */
  lemma DecodeEncode(c: CommitmentData)
    ensures Decode(c.Encode()) == Some(c) <==> c.WellFormed()
  {
    match c
    case Keccak256Commitment(hash) => assert c.Encode()[1..] == hash;
    case GenericCommitment(raw) => assert c.Encode()[1..] == raw;
  }

  lemma EncodeDecode(input: seq<byte>)
    ensures Decode(input).Some? ==> Decode(input).value.Encode() == input && Decode(input).value.WellFormed()
  {
    if |input| > 0 {
      assert input == [input[0]] + input[1..];
    }
  }

  /** The index key: the inclusion block number immediately followed by the encoded commitment. */
  function ChallengeKey(comm: CommitmentData, inclusionBlockNumber: nat): string {
    Decimal(inclusionBlockNumber) + Hex(comm.Encode())
  }

  /** The key has no separator, yet it determines block number and commitment among
      commitments of one encoded length. */
  lemma ChallengeKeyInjective(a: CommitmentData, m: nat, b: CommitmentData, n: nat)
    requires |a.Encode()| == |b.Encode()|
    ensures ChallengeKey(a, m) == ChallengeKey(b, n) <==> (a == b && m == n)
  {
    if ChallengeKey(a, m) == ChallengeKey(b, n) {
      var ha, hb := Hex(a.Encode()), Hex(b.Encode());
      var k := ChallengeKey(a, m);
      assert Decimal(m) == k[..|k| - |ha|] == Decimal(n);
      assert ha == k[|k| - |ha|..] == hb;
      DecimalInjective(m, n);
      HexInjective(a.Encode(), b.Encode());
      assert a.Encode()[0] == b.Encode()[0];
      assert a.Encode()[1..] == b.Encode()[1..];
      match a {
        case Keccak256Commitment(hash) => assert a.Encode()[1..] == hash && b.Encode()[1..] == b.hash;
        case GenericCommitment(raw) => assert a.Encode()[1..] == raw && b.Encode()[1..] == b.raw;
      }
    }
  }
}
