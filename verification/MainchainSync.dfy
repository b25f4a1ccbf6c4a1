/**
 Finding the last common block with the mainchain node: a Bitcoin-style locator that skips
 exponentially, then a second look between the last orphaned and the first active entry.
 */
module MainchainSync {
  import opened Mainchain
  import opened Forger

  function Pow2(n: nat): nat {
    if n == 0 then 1 else 2 * Pow2(n - 1)
  }

  predicate Descending(indexes: seq<nat>) {
    forall i, k :: 0 <= i < k < |indexes| ==> indexes[i] > indexes[k]
  }

  /** Heights for the locator: from `best` down to the creation block, the first ten in a row, then in
      doubling steps, so their number is logarithmic. */
  method LocatorIndexes(best: nat) returns (indexes: seq<nat>)
    ensures |indexes| >= 1 && indexes[0] == best && indexes[|indexes| - 1] == 0
    ensures Descending(indexes)
    ensures forall i :: 0 <= i < |indexes| - 1 && i < 9 ==> indexes[i] == best - i
    ensures |indexes| >= 11 ==> 7 + Pow2(|indexes| - 10) < best
  {
    indexes := [];
    var step: nat := 1;
    var index: int := best;
    while index > 0
      invariant Descending(indexes)
      invariant forall i :: 0 <= i < |indexes| ==> 0 < indexes[i] <= best && index < indexes[i]
      invariant forall i :: 0 <= i < |indexes| && i < 9 ==> indexes[i] == best - i
      invariant if indexes == [] then index == best else indexes[0] == best
      invariant step == if |indexes| < 10 then 1 else Pow2(|indexes| - 9)
      invariant best - index == if |indexes| < 10 then |indexes| else 7 + Pow2(|indexes| - 8)
      invariant |indexes| >= 10 ==> 7 + Pow2(|indexes| - 9) < best
      decreases index
    {
      indexes := indexes + [index];
      if |indexes| >= 10 {
        step := step * 2;
      }
      index := index - step;
      StepIsPositive(step, |indexes|);
    }
    indexes := indexes + [0];
  }

  lemma {:induction false} StepIsPositive(step: nat, n: nat)
    requires step == if n < 10 then 1 else Pow2(n - 9)
    ensures step >= 1
  {
    if n >= 10 {
      Pow2IsPositive(n - 9);
    }
  }

  lemma {:induction false} Pow2IsPositive(n: nat)
    ensures Pow2(n) >= 1
  {
    if n > 0 {
      Pow2IsPositive(n - 1);
    }
  }

  /** The mainchain node answers with the first locator entry on its active branch. */
  function FirstActive(locator: seq<McBlock>, path: seq<McBlock>): (k: nat)
    ensures k <= |locator|
    ensures k < |locator| ==> locator[k] in path
    ensures forall i :: 0 <= i < k ==> locator[i] !in path
  {
    if locator == [] || locator[0] in path then 0 else 1 + FirstActive(locator[1..], path)
  }

  /** A block of the sidechain's header list is active exactly below the common length. */
  lemma {:induction false} ActiveBelowCommon(h: seq<McBlock>, path: seq<McBlock>, i: nat)
    requires IsBranch(h) && IsBranch(path) && i < |h|
    ensures h[i] in path <==> i < Common(h, path)
  {
    var c := Common(h, path);
    CommonAgrees(h, path);
    if i < c {
      assert h[i] == h[..c][i] == path[..c][i] == path[i];
    }
    if h[i] in path {
      var k :| 0 <= k < |path| && path[k] == h[i];
      SharedBlock(h, path, i, k);
      CommonIsLongest(h, path, i + 1);
    }
  }

  function Select(h: seq<McBlock>, indexes: seq<nat>): (blocks: seq<McBlock>)
    requires forall i :: 0 <= i < |indexes| ==> indexes[i] < |h|
    ensures |blocks| == |indexes|
    ensures forall i :: 0 <= i < |indexes| ==> blocks[i] == h[indexes[i]]
  {
    seq(|indexes|, i requires 0 <= i < |indexes| => h[indexes[i]])
  }

  /** Height of the last common block of the sidechain's headers and the active branch. */
  method CommonPoint(h: seq<McBlock>, path: seq<McBlock>) returns (height: nat)
    requires IsBranch(h) && IsBranch(path)
    ensures height + 1 == Common(h, path)
  {
    CommonIsLongest(h, path, 1);
    forall i | 0 <= i < |h| ensures h[i] in path <==> i < Common(h, path) {
      ActiveBelowCommon(h, path, i);
    }
    var indexes := LocatorIndexes(|h| - 1);
    var k := FirstActive(Select(h, indexes), path);
    assert h[indexes[|indexes| - 1]] in path;
    if k == 0 {
      height := indexes[0];
    } else {
      // every height from the last orphaned entry down to the first active one
      var low, high := indexes[k], indexes[k - 1];
      var dense := seq(high - low + 1, i requires 0 <= i <= high - low => high - i);
      var j := FirstActive(Select(h, dense), path);
      assert dense[high - low] == low;
      assert j > 0 ==> dense[j - 1] == dense[j] + 1;
      height := dense[j];
    }
  }

  /** The common block and the active blocks after it, at most `limit` in all. */
  method DivergentSuffix(h: seq<McBlock>, path: seq<McBlock>, limit: nat) returns (height: nat, hashes: seq<McBlock>)
    requires IsBranch(h) && IsBranch(path) && limit >= 1
    ensures height + 1 == Common(h, path)
    ensures 1 <= |hashes| <= limit && height + |hashes| <= |path|
    ensures hashes == path[height..height + |hashes|]
    ensures |hashes| < limit ==> height + |hashes| == |path|
  {
    height := CommonPoint(h, path);
    var end := if height + limit <= |path| then height + limit else |path|;
    hashes := path[height..end];
  }
}
