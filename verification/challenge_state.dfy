/** op-alt-da/dastate.go as functions on values: the commitment queues, and every challenge
    created since the last `Reset` in one table. */
module ChallengeState {
  import opened Bytes
  import opened Commitments

  datatype BlockRef = BlockRef(hash: nat, number: nat)

  datatype Config = Config(commitmentType: CommitmentType, challengeWindow: nat, resolveWindow: nat)

  datatype Status = Uninitialized | Active | Resolved | Expired

  datatype Commitment = Commitment(data: CommitmentData, inclusionBlock: BlockRef, challengeWindowEnd: nat) {
    function Key(): string {
      ChallengeKey(data, inclusionBlock.number)
    }
  }

  datatype ChallengeValue = ChallengeValue(
    commData: CommitmentData, commInclusionBlockNumber: nat, resolveWindowEnd: nat,
    input: seq<byte>, status: Status)
  {
    function Key(): string {
      ChallengeKey(commData, commInclusionBlockNumber)
    }
  }

  /** Every challenge created since the last reset, oldest first.  `expiredChallenges` is the window
      [pruned, expired) of the table, `challenges` is [expired, |table|), and `index` says which
      entry a key currently leads to. */
  datatype Challenges = Challenges(table: seq<ChallengeValue>, pruned: nat, expired: nat, index: map<string, nat>) {

    ghost predicate Wf() {
      && pruned <= expired <= |table|
      && forall k :: k in index ==> pruned <= index[k] < |table| && table[index[k]].Key() == k
    }

    function Lookup(key: string): Option<ChallengeValue> {
      if key in index && index[key] < |table| then Some(table[index[key]]) else None
    }

    function StatusOf(key: string): Status {
      match Lookup(key)
      case None => Uninitialized
      case Some(c) => c.status
    }

    /** The block at which a commitment expires: the end of its resolve window once challenged,
        the end of its challenge window until then. */
    function Deadline(c: Commitment): nat {
      match Lookup(c.Key())
      case None => c.challengeWindowEnd
      case Some(ch) => ch.resolveWindowEnd
    }

    predicate ChallengedUnresolved(c: Commitment) {
      Lookup(c.Key()).Some? && Lookup(c.Key()).value.status != Resolved
    }

    /** Length of the longest prefix of `cs` whose deadlines are all at or before block `n`. */
    function DuePrefix(cs: seq<Commitment>, n: nat): (k: nat)
      ensures k <= |cs|
      ensures forall i :: 0 <= i < k ==> Deadline(cs[i]) <= n
      ensures k < |cs| ==> Deadline(cs[k]) > n
    {
      if cs != [] && Deadline(cs[0]) <= n then 1 + DuePrefix(cs[1..], n) else 0
    }

    function Create(comm: CommitmentData, commBlockNumber: nat, resolveWindowEnd: nat): Challenges {
      var c := ChallengeValue(comm, commBlockNumber, resolveWindowEnd, [], Active);
      this.(table := table + [c], index := index[c.Key() := |table|])
    }

    function Resolve(key: string, input: seq<byte>): Challenges {
      if key in index && index[key] < |table| then
        this.(table := table[index[key] := table[index[key]].(input := input, status := Resolved)])
      else this
    }

    /** The challenges before position `e` are expired, and those of them that were active marked so. */
    function ExpireTo(e: nat): Challenges
      requires expired <= e <= |table|
    {
      this.(table := MarkExpired(table, expired, e), expired := e)
    }

    function Expire(n: nat): Challenges
      requires expired <= |table|
    {
      ExpireTo(FirstOpen(table, expired, n))
    }

    /** Expiring goes on from `e` exactly if there is a challenge there whose window is over. */
    lemma ExpireGoesOn(e: nat, n: nat)
      requires expired <= |table| && expired <= e <= FirstOpen(table, expired, n)
      ensures e < FirstOpen(table, expired, n) <==> e < |table| && table[e].resolveWindowEnd <= n
    {
      hide FirstOpen;
    }

    lemma ExpireToStart()
      requires expired <= |table|
      ensures ExpireTo(expired) == this
    {
      assert MarkExpired(table, expired, expired) == table;
    }

    lemma ExpireToStep(e: nat)
      requires expired <= e < |table|
      ensures var before := ExpireTo(e);
              && |before.table| == |table| && before.table[e] == table[e]
              && ExpireTo(e + 1) == before.(table := before.table[e := ExpireOne(table[e])], expired := e + 1)
    {
      assert MarkExpired(table, expired, e + 1) == MarkExpired(table, expired, e)[e := ExpireOne(table[e])];
    }

    /** The challenges before position `p` are dropped, with the index entries of their keys. */
    function PruneTo(p: nat): Challenges
      requires pruned <= p <= |table|
    {
      this.(pruned := p, index := index - KeysOf(table[pruned..p]))
    }

    /** Where pruning stops: at the first expired challenge whose window is still open at block `n`. */
    function PruneEnd(n: nat): (p: nat)
      requires pruned <= expired <= |table|
      ensures pruned <= p <= expired
    {
      FirstOpen(table[..expired], pruned, n)
    }

    function Prune(n: nat): Challenges
      requires pruned <= expired <= |table|
    {
      PruneTo(PruneEnd(n))
    }

    /** Pruning goes on from `p` exactly if there is a challenge there whose window is over. */
    lemma PruneGoesOn(p: nat, n: nat)
      requires pruned <= expired <= |table| && pruned <= p <= PruneEnd(n)
      ensures p < PruneEnd(n) <==> p < expired && table[p].resolveWindowEnd <= n
    {
    }

    lemma PruneToStart()
      requires pruned <= |table|
      ensures PruneTo(pruned) == this
    {
      hide ChallengeKey;
      assert table[pruned..pruned] == [];
    }

    lemma PruneToStep(p: nat)
      requires pruned <= p < |table|
      ensures var before := PruneTo(p);
              PruneTo(p + 1) == before.(pruned := p + 1, index := before.index - {table[p].Key()})
    {
      KeysOfStep(index, table, pruned, p);
      hide KeysOf;
    }

    /** Expiring goes on from position `k` of `cs` exactly if the commitment there is due. */
    lemma DueGoesOn(cs: seq<Commitment>, k: nat, n: nat)
      requires k <= DuePrefix(cs, n)
      ensures k < DuePrefix(cs, n) <==> k < |cs| && Deadline(cs[k]) <= n
    {
      hide DuePrefix;
      hide Deadline;
    }

    ghost predicate AnyUnresolved(cs: seq<Commitment>) {
      exists i :: 0 <= i < |cs| && ChallengedUnresolved(cs[i])
    }

    lemma AnyUnresolvedStep(cs: seq<Commitment>, k: nat)
      requires k < |cs|
      ensures AnyUnresolved(cs[..k + 1]) <==> AnyUnresolved(cs[..k]) || ChallengedUnresolved(cs[k])
    {
      hide ChallengedUnresolved;
      var before, after := cs[..k], cs[..k + 1];
      assert after[k] == cs[k] && forall i :: 0 <= i < k ==> after[i] == before[i];
    }
  }

  const NoChallenges := Challenges([], 0, 0, map[])

  /** First position at or after `from` whose resolve window is still open at block `n`. */
  function FirstOpen(table: seq<ChallengeValue>, from: nat, n: nat): (e: nat)
    requires from <= |table|
    ensures from <= e <= |table|
    ensures forall i :: from <= i < e ==> table[i].resolveWindowEnd <= n
    ensures e < |table| ==> table[e].resolveWindowEnd > n
    decreases |table| - from
  {
    if from < |table| && table[from].resolveWindowEnd <= n then FirstOpen(table, from + 1, n) else from
  }

  function ExpireOne(c: ChallengeValue): ChallengeValue {
    if c.status == Active then c.(status := Expired) else c
  }

  function MarkExpired(table: seq<ChallengeValue>, from: nat, to: nat): (t: seq<ChallengeValue>)
    requires from <= to <= |table|
    ensures |t| == |table|
    ensures forall i {:trigger t[i]} :: 0 <= i < |t| ==> t[i] == if from <= i < to then ExpireOne(table[i]) else table[i]
  {
    seq(|table|, i requires 0 <= i < |table| => if from <= i < to then ExpireOne(table[i]) else table[i])
  }

  function KeysOf(cs: seq<ChallengeValue>): set<string> {
    set c | c in cs :: c.Key()
  }

  lemma KeysOfStep(index: map<string, nat>, table: seq<ChallengeValue>, from: nat, to: nat)
    requires from <= to < |table|
    ensures index - KeysOf(table[from..to + 1]) == (index - KeysOf(table[from..to])) - {table[to].Key()}
  {
    hide ChallengeKey;
    assert table[from..to + 1] == table[from..to] + [table[to]];
    forall k ensures k in KeysOf(table[from..to + 1]) <==> k in KeysOf(table[from..to]) + {table[to].Key()} {
      if k in KeysOf(table[from..to]) {
        var d :| d in table[from..to] && d.Key() == k;
        assert d in table[from..to + 1];
      }
      assert table[to] in table[from..to + 1];
    }
  }

  datatype StateValue = StateValue(
    commitments: seq<Commitment>, expiredCommitments: seq<Commitment>, db: Challenges,
    lastPrunedCommitment: BlockRef)

  const EmptyState := StateValue([], [], NoChallenges, BlockRef(0, 0))

  function ClearCommitments(s: StateValue): StateValue {
    s.(commitments := [], expiredCommitments := [])
  }

  /** Everything but `lastPrunedCommitment` is dropped. */
  function Reset(s: StateValue): StateValue {
    StateValue([], [], NoChallenges, s.lastPrunedCommitment)
  }

  function TrackCommitment(s: StateValue, cfg: Config, comm: CommitmentData, inclusion: BlockRef): StateValue {
    s.(commitments := s.commitments + [Commitment(comm, inclusion, inclusion.number + cfg.challengeWindow)])
  }

  function NoCommitments(s: StateValue): bool {
    s.db.pruned >= |s.db.table| && s.commitments == [] && s.expiredCommitments == []
  }

  function ExpireCommitments(s: StateValue, n: nat): StateValue {
    var k := s.db.DuePrefix(s.commitments, n);
    s.(commitments := s.commitments[k..], expiredCommitments := s.expiredCommitments + s.commitments[..k])
  }

  ghost predicate ReorgRequired(s: StateValue, n: nat) {
    exists i :: 0 <= i < s.db.DuePrefix(s.commitments, n) && s.db.ChallengedUnresolved(s.commitments[i])
  }

  lemma ReorgRequiredIff(s: StateValue, n: nat)
    ensures ReorgRequired(s, n) <==> s.db.AnyUnresolved(s.commitments[..s.db.DuePrefix(s.commitments, n)])
  {
    hide Challenges.DuePrefix;
    hide Challenges.ChallengedUnresolved;
    var k := s.db.DuePrefix(s.commitments, n);
    assert forall i :: 0 <= i < k ==> s.commitments[..k][i] == s.commitments[i];
  }

  function PruneCommitments(s: StateValue, n: nat): StateValue {
    var k := s.db.DuePrefix(s.expiredCommitments, n);
    s.(expiredCommitments := s.expiredCommitments[k..],
       lastPrunedCommitment := if k == 0 then s.lastPrunedCommitment else s.expiredCommitments[k - 1].inclusionBlock)
  }

  function Prune(s: StateValue, n: nat): StateValue
    requires s.db.pruned <= s.db.expired <= |s.db.table|
  {
    var s' := PruneCommitments(s, n);
    s'.(db := s'.db.Prune(n))
  }
}
