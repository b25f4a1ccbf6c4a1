/**
 The mainchain as a sidechain node sees it: the blocks from the one that holds the sidechain
 creation transaction onwards.

 A block hash commits to the parent hash, so a block value carries its whole history: two blocks
 are equal exactly when their hashes are.  The creation block is the root of every branch, which is
 the standing assumption that it is never disconnected.
 */
module Mainchain {

  /** `commitment` is the block's hashScTxsCommitment; `salt` stands for the rest of the header, so
      that two different blocks may share parent and commitment. */
  datatype McBlock = Creation | Mined(parent: McBlock, commitment: nat, salt: nat)

  /** Height above the creation block. */
  function Height(b: McBlock): nat {
    match b
    case Creation => 0
    case Mined(p, _, _) => 1 + Height(p)
  }

  /** All blocks from the creation block to `b`. */
  function Path(b: McBlock): (path: seq<McBlock>)
    ensures |path| == Height(b) + 1
  {
    match b
    case Creation => [b]
    case Mined(p, _, _) => Path(p) + [b]
  }

  /** Each block is the parent of the next one. */
  predicate Chained(blocks: seq<McBlock>) {
    forall i :: 1 <= i < |blocks| ==> blocks[i].Mined? && blocks[i].parent == blocks[i - 1]
  }

  /** The blocks of one branch, from the creation block on. */
  predicate IsBranch(blocks: seq<McBlock>) {
    blocks != [] && blocks[0] == Creation && Chained(blocks)
  }

  lemma {:induction false} PathIsBranch(b: McBlock)
    ensures IsBranch(Path(b)) && Path(b)[Height(b)] == b
  {
    if b.Mined? {
      PathIsBranch(b.parent);
    }
  }

  lemma {:induction false} BranchIsPath(blocks: seq<McBlock>)
    requires IsBranch(blocks)
    ensures blocks == Path(blocks[|blocks| - 1])
  {
    var n := |blocks| - 1;
    if n > 0 {
      BranchIsPath(blocks[..n]);
      assert blocks == blocks[..n] + [blocks[n]];
    }
  }

  /** A block stands at its height. */
  lemma {:induction false} BranchHeight(blocks: seq<McBlock>, i: nat)
    requires IsBranch(blocks) && i < |blocks|
    ensures Height(blocks[i]) == i
  {
    if i > 0 {
      BranchHeight(blocks, i - 1);
    }
  }

  predicate NoRepeats(blocks: seq<McBlock>) {
    forall i, k :: 0 <= i < k < |blocks| ==> blocks[i] != blocks[k]
  }

  lemma {:induction false} BranchHasNoRepeats(blocks: seq<McBlock>)
    requires IsBranch(blocks)
    ensures NoRepeats(blocks)
  {
    forall i, k | 0 <= i < k < |blocks| ensures blocks[i] != blocks[k] {
      BranchHeight(blocks, i);
      BranchHeight(blocks, k);
    }
  }

  /** Two branches that share a block share everything below it. */
  lemma {:induction false} SharedBlock(a: seq<McBlock>, b: seq<McBlock>, i: nat, k: nat)
    requires IsBranch(a) && IsBranch(b) && i < |a| && k < |b| && a[i] == b[k]
    ensures i == k && a[..i + 1] == b[..i + 1]
  {
    BranchHeight(a, i);
    BranchHeight(b, k);
    BranchIsPath(a[..i + 1]);
    BranchIsPath(b[..k + 1]);
  }

  // ---------------------------------------------------------------- common part of two branches

  /** Number of leading blocks two branches share.  This is the reference definition the node's
      locator search is compared with. */
  function Common(a: seq<McBlock>, b: seq<McBlock>): (k: nat)
    ensures k <= |a| && k <= |b|
  {
    if a == [] || b == [] || a[0] != b[0] then 0 else 1 + Common(a[1..], b[1..])
  }

  lemma {:induction false} CommonAgrees(a: seq<McBlock>, b: seq<McBlock>)
    ensures a[..Common(a, b)] == b[..Common(a, b)]
    ensures Common(a, b) < |a| && Common(a, b) < |b| ==> a[Common(a, b)] != b[Common(a, b)]
  {
    if a != [] && b != [] && a[0] == b[0] {
      var k := Common(a[1..], b[1..]);
      CommonAgrees(a[1..], b[1..]);
      assert a[..k + 1] == [a[0]] + a[1..][..k];
      assert b[..k + 1] == [b[0]] + b[1..][..k];
    }
  }

  /** Any shared first part lies inside the common part. */
  lemma {:induction false} CommonIsLongest(a: seq<McBlock>, b: seq<McBlock>, n: nat)
    requires n <= |a| && n <= |b| && a[..n] == b[..n]
    ensures n <= Common(a, b)
  {
    if n > 0 {
      assert a[0] == a[..n][0] == b[..n][0] == b[0];
      assert a[1..][..n - 1] == a[..n][1..] == b[..n][1..] == b[1..][..n - 1];
      CommonIsLongest(a[1..], b[1..], n - 1);
    }
  }

  /** Where two branches differ first is where their common part ends. */
  lemma {:induction false} CommonEnds(a: seq<McBlock>, b: seq<McBlock>, n: nat)
    requires n < |a| && n < |b| && a[..n] == b[..n] && a[n] != b[n]
    ensures Common(a, b) == n
  {
    if n > 0 {
      assert a[0] == a[..n][0] == b[..n][0] == b[0];
      assert a[1..][..n - 1] == a[..n][1..] == b[..n][1..] == b[1..][..n - 1];
      CommonEnds(a[1..], b[1..], n - 1);
    }
  }

  lemma {:induction false} CommonSymmetric(a: seq<McBlock>, b: seq<McBlock>)
    ensures Common(a, b) == Common(b, a)
  {
    if a != [] && b != [] && a[0] == b[0] {
      CommonSymmetric(a[1..], b[1..]);
    }
  }

  // ---------------------------------------------------------------- cumulative commitment

  /** The cumulative commitment-tree hash: each block hashes its parent's value and its own
      commitment.  A free constructor stands for a collision-resistant hash. */
  datatype Digest = Initial | Chain(prev: Digest, commitment: nat)

  /** The value the mainchain itself records for a block. */
  function CumulativeHash(b: McBlock): Digest {
    match b
    case Creation => Initial
    case Mined(p, c, _) => Chain(CumulativeHash(p), c)
  }
}
