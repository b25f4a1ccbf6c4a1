/**
 The check of a received block's reference data: walk back through the chain to find the headers that
 still wait for their data, and compare.
 */
module ReferenceValidation {
  import opened Mainchain
  import opened Sidechain
  import opened OmmersValidation
  import opened Forger
  import opened ForgerSteps

  lemma {:induction false} RefsOfConcat(a: seq<ScBlock>, b: seq<ScBlock>)
    ensures RefsOf(a + b) == RefsOf(a) + RefsOf(b)
  {
    if b == [] {
      assert a + b == a;
    } else {
      assert (a + b)[..|a + b| - 1] == a + b[..|b| - 1];
      RefsOfConcat(a, b[..|b| - 1]);
    }
  }

  /** Position of a block in a list. */
  method IndexWhere(blocks: seq<McBlock>, b: McBlock) returns (k: nat, found: bool)
    ensures found <==> b in blocks
    ensures found ==> k < |blocks| && blocks[k] == b
  {
    for i := 0 to |blocks|
      invariant b !in blocks[..i]
    {
      if blocks[i] == b {
        return i, true;
      }
    }
    return 0, false;
  }

  /** Headers and reference data from position `i` on, one block at a time. */
  lemma {:induction false} SuffixStep(chain: seq<ScBlock>, i: nat)
    requires i < |chain|
    ensures HeadersOf(chain[i..]) == chain[i].headers + HeadersOf(chain[i + 1..])
    ensures RefsOf(chain[i..]) == chain[i].refData + RefsOf(chain[i + 1..])
  {
    assert chain[i..] == [chain[i]] + chain[i + 1..];
    HeadersOfConcat([chain[i]], chain[i + 1..]);
    RefsOfConcat([chain[i]], chain[i + 1..]);
    HeadersOfSnoc([], chain[i]);
    assert [] + [chain[i]] == [chain[i]];
  }

  lemma {:induction false} RefsSuffix(chain: seq<ScBlock>, i: nat)
    requires i <= |chain|
    ensures |RefsOf(chain[i..])| <= |RefsOf(chain)|
    ensures RefsOf(chain)[|RefsOf(chain)| - |RefsOf(chain[i..])|..] == RefsOf(chain[i..])
  {
    assert chain == chain[..i] + chain[i..];
    RefsOfConcat(chain[..i], chain[i..]);
  }

  /** What follows the last header with data is what was missed. */
  lemma {:induction false} FoundIsMissed(h: seq<McBlock>, m: nat, r: nat, k: nat)
    requires NoRepeats(h) && m <= |h| && 1 <= r <= |h| && k < |h| - m && h[m..][k] == h[r - 1]
    ensures h[m..][k + 1..] == h[r..]
  {
    assert h[m + k] == h[r - 1];
  }

  /** Data collected on the way back: the headers from block i on, and the last header with data. */
  predicate Collected(chain: seq<ScBlock>, i: nat, list: seq<McBlock>, best: seq<McBlock>)
    requires i <= |chain|
  {
    && list == HeadersOf(chain[i..])
    && best == if RefsOf(chain[i..]) == [] || RefsOf(chain) == [] then [] else [RefsOf(chain)[|RefsOf(chain)| - 1]]
  }

  lemma {:induction false} CollectStep(chain: seq<ScBlock>, i: nat, list: seq<McBlock>, best: seq<McBlock>)
    requires i < |chain| && Collected(chain, i + 1, list, best)
    ensures RefsOf(chain[i..]) != [] ==> RefsOf(chain) != []
    ensures Collected(chain, i, chain[i].headers + list,
                      if best == [] && chain[i].refData != [] then [chain[i].refData[|chain[i].refData| - 1]] else best)
  {
    SuffixStep(chain, i);
    RefsSuffix(chain, i);
    RefsSuffix(chain, i + 1);
    var all, part := RefsOf(chain), RefsOf(chain[i..]);
    if part != [] {
      assert all[|all| - |part|..][|part| - 1] == part[|part| - 1];
    }
  }

  lemma {:induction false} GenesisHasData(chain: seq<ScBlock>)
    requires |chain| >= 1 && chain[0] == GENESIS
    ensures RefsOf(chain) != []
  {
    assert chain[0..] == chain;
    SuffixStep(chain, 0);
  }

  /** The list is the end of the chain's headers, and the last header with data is where the reference
      data ends. */
  lemma {:induction false} InSight(chain: seq<ScBlock>, i: nat, list: seq<McBlock>, best: seq<McBlock>)
    requires RefsOf(chain) <= HeadersOf(chain) && i < |chain| && Collected(chain, i, list, best) && best != []
    ensures var h, r, m := HeadersOf(chain), |RefsOf(chain)|, |HeadersOf(chain[..i])|;
      m <= |h| && list == h[m..] && 1 <= r <= |h| && best[0] == h[r - 1]
  {
    HeadersSplit(chain, i);
  }

  lemma {:induction false} FoundEndsWalk(chain: seq<ScBlock>, i: nat, list: seq<McBlock>, best: seq<McBlock>, k: nat)
    requires IsBranch(HeadersOf(chain)) && RefsOf(chain) <= HeadersOf(chain)
    requires i < |chain| && Collected(chain, i, list, best) && best != [] && k < |list| && list[k] == best[0]
    ensures list[k + 1..] == Missed(chain)
  {
    InSight(chain, i, list, best);
    BranchHasNoRepeats(HeadersOf(chain));
    FoundIsMissed(HeadersOf(chain), |HeadersOf(chain[..i])|, |RefsOf(chain)|, k);
  }

  /** The walk ends at the genesis block at the latest. */
  lemma {:induction false} WalkEnds(chain: seq<ScBlock>, list: seq<McBlock>, best: seq<McBlock>)
    requires |chain| >= 1 && chain[0] == GENESIS && RefsOf(chain) <= HeadersOf(chain) && Collected(chain, 0, list, best)
    ensures best != [] && best[0] in list
  {
    GenesisHasData(chain);
    assert chain[0..] == chain;
    InSight(chain, 0, list, best);
    assert chain[..0] == [] && HeadersOf([]) == [];
  }

  /** The node's walk back from the parent. */
  method MissedByWalkingBack(chain: seq<ScBlock>) returns (missed: seq<McBlock>)
    requires FollowsBranch(chain) && RefsOf(chain) <= HeadersOf(chain)
    ensures missed == Missed(chain)
  {
    var i: nat, list: seq<McBlock>, best: seq<McBlock> := |chain|, [], [];
    while true
      invariant 1 <= i <= |chain| && Collected(chain, i, list, best)
      decreases i
    {
      i := i - 1;
      CollectStep(chain, i, list, best);
      list := chain[i].headers + list;
      if best == [] && chain[i].refData != [] {
        best := [chain[i].refData[|chain[i].refData| - 1]];
      }
      if best != [] {
        var k, found := IndexWhere(list, best[0]);
        if found {
          FoundEndsWalk(chain, i, list, best, k);
          return list[k + 1..];
        }
      }
      if i == 0 {
        WalkEnds(chain, list, best);
      }
    }
  }

  /** The check as a whole. */
  method ValidateReferences(chain: seq<ScBlock>, b: ScBlock) returns (ok: bool)
    requires FollowsBranch(chain) && RefsOf(chain) <= HeadersOf(chain)
    ensures ok == ValidRefData(chain, b)
    ensures ok <==> RefsOf(chain + [b]) <= HeadersOf(chain + [b])
  {
    ValidRefDataKeepsPrefix(chain, b);
    if b.refData == [] {
      return true;
    }
    var missed := MissedByWalkingBack(chain);
    var expected := missed + b.headers;
    if |b.refData| > |expected| {
      return false;
    }
    for n := 0 to |b.refData|
      invariant forall i :: 0 <= i < n ==> b.refData[i] == expected[i]
    {
      if b.refData[n] != expected[n] {
        return false;
      }
    }
    return true;
  }
}
