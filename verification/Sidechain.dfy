/**
 Sidechain blocks and ommers, the score of a chain, the mainchain data a chain has collected and the
 withdrawal epoch it has reached.
 */
module Sidechain {
  import opened Mainchain

  /** The part of a block header the ommer rules look at.  `slot` is the absolute consensus slot. */
  datatype Header = Header(id: nat, parentId: nat, slot: nat, ommersScore: nat)

  /** What is kept of a block that left the active chain: no transactions, and of the reference data
      only the Merkle root, for which the list of hashes stands. */
  datatype Ommer = Ommer(header: Header, refDataRoot: seq<McBlock>, headers: seq<McBlock>, ommers: seq<Ommer>)

  datatype ScBlock = ScBlock(
    header: Header,
    headers: seq<McBlock>,
    refData: seq<McBlock>,
    txs: seq<nat>,
    ommers: seq<Ommer>)

  /** The genesis block references the mainchain block that created the sidechain. */
  const GENESIS := ScBlock(Header(0, 0, 0, 0), [Creation], [Creation], [], [])

  function ToOmmer(b: ScBlock): Ommer {
    Ommer(b.header, b.refData, b.headers, b.ommers)
  }

  function ToOmmers(chain: seq<ScBlock>): (os: seq<Ommer>)
    ensures |os| == |chain|
    ensures forall i :: 0 <= i < |chain| ==> os[i] == ToOmmer(chain[i])
  {
    seq(|chain|, i requires 0 <= i < |chain| => ToOmmer(chain[i]))
  }

  // ---------------------------------------------------------------- score

  function OmmerScore(o: Ommer): nat
    decreases o, 1
  {
    1 + OmmersScore(o.ommers)
  }

  function OmmersScore(os: seq<Ommer>): nat
    decreases os, 0
  {
    if os == [] then 0 else OmmerScore(os[0]) + OmmersScore(os[1..])
  }

  function BlockScore(b: ScBlock): nat {
    1 + OmmersScore(b.ommers)
  }

  function ChainScore(chain: seq<ScBlock>): nat {
    if chain == [] then 0 else ChainScore(chain[..|chain| - 1]) + BlockScore(chain[|chain| - 1])
  }

  // ---------------------------------------------------------------- everything a chain remembers

  /** An ommer with everything nested in it, sub-ommers first. */
  function FlattenOmmer(o: Ommer): seq<Ommer>
    decreases o, 1
  {
    FlattenOmmers(o.ommers) + [o]
  }

  function FlattenOmmers(os: seq<Ommer>): seq<Ommer>
    decreases os, 0
  {
    if os == [] then [] else FlattenOmmer(os[0]) + FlattenOmmers(os[1..])
  }

  /** Every block a chain remembers, on the chain or as an ommer at any depth. */
  function Flatten(chain: seq<ScBlock>): seq<Ommer> {
    FlattenOmmers(ToOmmers(chain))
  }

  lemma {:induction false} FlattenOmmersConcat(a: seq<Ommer>, b: seq<Ommer>)
    ensures FlattenOmmers(a + b) == FlattenOmmers(a) + FlattenOmmers(b)
  {
    if a == [] {
      assert a + b == b;
    } else {
      assert (a + b)[1..] == a[1..] + b;
      FlattenOmmersConcat(a[1..], b);
      assert FlattenOmmers(a + b) == FlattenOmmer(a[0]) + (FlattenOmmers(a[1..]) + FlattenOmmers(b));
    }
  }

  lemma {:induction false} ScoreIsFlattenLength(os: seq<Ommer>)
    ensures OmmersScore(os) == |FlattenOmmers(os)|
    decreases os
  {
    if os != [] {
      ScoreIsFlattenLength(os[0].ommers);
      ScoreIsFlattenLength(os[1..]);
    }
  }

  /** A chain's score counts the blocks it remembers. */
  lemma {:induction false} ChainScoreIsFlattenLength(chain: seq<ScBlock>)
    ensures ChainScore(chain) == |Flatten(chain)|
  {
    if chain != [] {
      var n := |chain| - 1;
      ChainScoreIsFlattenLength(chain[..n]);
      FlattenSnoc(chain[..n], chain[n]);
      assert chain == chain[..n] + [chain[n]];
      ScoreIsFlattenLength(chain[n].ommers);
    }
  }

  lemma {:induction false} FlattenConcat(a: seq<ScBlock>, b: seq<ScBlock>)
    ensures Flatten(a + b) == Flatten(a) + Flatten(b)
  {
    assert ToOmmers(a + b) == ToOmmers(a) + ToOmmers(b);
    FlattenOmmersConcat(ToOmmers(a), ToOmmers(b));
  }

  /** Appending a block adds its ommers and then the block itself. */
  lemma {:induction false} FlattenSnoc(chain: seq<ScBlock>, b: ScBlock)
    ensures Flatten(chain + [b]) == Flatten(chain) + FlattenOmmers(b.ommers) + [ToOmmer(b)]
  {
    FlattenConcat(chain, [b]);
    assert ToOmmers([b]) == [ToOmmer(b)];
    assert FlattenOmmers([ToOmmer(b)]) == FlattenOmmer(ToOmmer(b)) + FlattenOmmers([]);
  }

  // ---------------------------------------------------------------- mainchain data of a chain

  /** All mainchain headers along a chain, oldest first. */
  function HeadersOf(chain: seq<ScBlock>): seq<McBlock> {
    if chain == [] then [] else HeadersOf(chain[..|chain| - 1]) + chain[|chain| - 1].headers
  }

  /** All mainchain blocks whose reference data a chain carries, oldest first. */
  function RefsOf(chain: seq<ScBlock>): seq<McBlock> {
    if chain == [] then [] else RefsOf(chain[..|chain| - 1]) + chain[|chain| - 1].refData
  }

  lemma {:induction false} HeadersOfConcat(a: seq<ScBlock>, b: seq<ScBlock>)
    ensures HeadersOf(a + b) == HeadersOf(a) + HeadersOf(b)
  {
    if b == [] {
      assert a + b == a;
    } else {
      var n := |b| - 1;
      assert (a + b)[..|a + b| - 1] == a + b[..n];
      HeadersOfConcat(a, b[..n]);
    }
  }

  lemma {:induction false} HeadersOfSnoc(chain: seq<ScBlock>, b: ScBlock)
    ensures HeadersOf(chain + [b]) == HeadersOf(chain) + b.headers
    ensures RefsOf(chain + [b]) == RefsOf(chain) + b.refData
  {
    assert (chain + [b])[..|chain|] == chain;
  }

  /** A first part of a chain carries a first part of its headers and reference data. */
  lemma {:induction false} RefsOfPrefix(chain: seq<ScBlock>, n: nat)
    requires n <= |chain|
    ensures RefsOf(chain[..n]) <= RefsOf(chain)
    ensures HeadersOf(chain[..n]) <= HeadersOf(chain)
    decreases |chain|
  {
    if n == |chain| {
      assert chain[..n] == chain;
    } else {
      var m := |chain| - 1;
      RefsOfPrefix(chain[..m], n);
      assert chain[..m][..n] == chain[..n];
    }
  }

  // ---------------------------------------------------------------- withdrawal epochs

  /** Withdrawal epoch number and the index, in that epoch, of the last mainchain block referenced. */
  datatype EpochInfo = EpochInfo(epoch: nat, lastIndex: nat)

  /** Length of a withdrawal epoch in mainchain blocks. */
  type Length = n: nat | n >= 1 witness 1

  /** Epochs long enough for a submission window and for shares of the withdrawal slots. */
  type EpochLength = n: Length | n >= 2 witness 2

  /** Epoch after a block with `refs` references, following a block with epoch `parent`. */
  function NextEpoch(refs: nat, parent: EpochInfo, len: Length): EpochInfo {
    var epoch :=
      if parent.lastIndex == len then parent.epoch + 1
      else if parent.lastIndex + refs > len then parent.epoch + 1
      else parent.epoch;
    var index :=
      if epoch > parent.epoch then
        if refs == len && parent.lastIndex == len then refs else (parent.lastIndex + refs) % len
      else
        parent.lastIndex + refs;
    EpochInfo(epoch, index)
  }

  /** Mainchain blocks that may still be referenced in the epoch a next block belongs to. */
  function BlocksLeft(info: EpochInfo, len: Length): nat {
    if info.lastIndex < len then len - info.lastIndex else len
  }

  function EpochOf(chain: seq<ScBlock>, len: Length): EpochInfo {
    if chain == [] then EpochInfo(0, 0)
    else NextEpoch(|chain[|chain| - 1].refData|, EpochOf(chain[..|chain| - 1], len), len)
  }

  /** No block reaches over the end of an epoch. */
  predicate EpochsAligned(chain: seq<ScBlock>, len: Length) {
    forall i {:trigger EpochOf(chain[..i], len)} :: 0 <= i < |chain| ==>
      |chain[i].refData| <= BlocksLeft(EpochOf(chain[..i], len), len)
  }

  /** Inside one epoch the step is plain counting; after a full epoch counting starts again. */
  lemma {:induction false} NextEpochAligned(refs: nat, e: EpochInfo, len: Length)
    requires e.lastIndex <= len && refs <= BlocksLeft(e, len)
    ensures NextEpoch(refs, e, len)
         == if e.lastIndex == len then EpochInfo(e.epoch + 1, refs) else EpochInfo(e.epoch, e.lastIndex + refs)
  {
    if e.lastIndex == len && refs < len {
      AddModulus(len, refs);
    }
  }

  lemma {:induction false} AddModulus(len: Length, refs: nat)
    requires refs < len
    ensures (len + refs) % len == refs
  {
  }

  /** References counted by an epoch number and an index in it. */
  function CountOf(e: EpochInfo, len: Length): int {
    e.epoch * len + e.lastIndex
  }

  lemma {:induction false} NextEpochCounts(refs: nat, e: EpochInfo, len: Length)
    requires e.lastIndex <= len && refs <= BlocksLeft(e, len)
    ensures CountOf(NextEpoch(refs, e, len), len) == CountOf(e, len) + refs
  {
    NextEpochAligned(refs, e, len);
    assert (e.epoch + 1) * len == e.epoch * len + len;
  }

  lemma {:induction false} EpochsAlignedPrefix(chain: seq<ScBlock>, n: nat, len: Length)
    requires EpochsAligned(chain, len) && n <= |chain|
    ensures EpochsAligned(chain[..n], len)
  {
    forall i | 0 <= i < n
      ensures |chain[..n][i].refData| <= BlocksLeft(EpochOf(chain[..n][..i], len), len)
    {
      assert chain[..n][..i] == chain[..i];
    }
  }

  /** The (epoch, index) pair is a positional count of all references: nothing is skipped and nothing
      is counted twice when epochs change. */
  lemma {:induction false} EpochCountsReferences(chain: seq<ScBlock>, len: Length)
    requires EpochsAligned(chain, len)
    ensures EpochOf(chain, len).lastIndex <= len
    ensures CountOf(EpochOf(chain, len), len) == |RefsOf(chain)|
  {
    if chain != [] {
      var n := |chain| - 1;
      EpochsAlignedPrefix(chain, n, len);
      EpochCountsReferences(chain[..n], len);
      NextEpochAligned(|chain[n].refData|, EpochOf(chain[..n], len), len);
      NextEpochCounts(|chain[n].refData|, EpochOf(chain[..n], len), len);
    }
  }
}
