/**
 The cumulative commitment-tree hash a node records for every mainchain header it meets, block by
 block, and why it does not depend on how headers are grouped into sidechain blocks.
 */
module CommitmentHashes {
  import opened Mainchain
  import opened Sidechain
  import opened Forger
  import opened ForgerSteps
  import opened ForgerRuns

  /** Hashes for the headers of one block, starting from the last recorded one. */
  function Digests(prev: Digest, headers: seq<McBlock>): (ds: seq<Digest>)
    ensures |ds| == |headers|
    decreases |headers|
  {
    if headers == [] then []
    else
      var d := Digest.Chain(prev, CommitmentOf(headers[0]));
      [d] + Digests(d, headers[1..])
  }

  function CommitmentOf(b: McBlock): nat {
    if b.Mined? then b.commitment else 0
  }

  /** The loop a node runs over the headers of a received block. */
  method RecordHeaders(initial: Digest, headers: seq<McBlock>) returns (ds: seq<Digest>)
    ensures ds == Digests(initial, headers)
  {
    ds := [];
    var prev := initial;
    for i := 0 to |headers|
      invariant |ds| == i
      invariant ds + Digests(prev, headers[i..]) == Digests(initial, headers)
    {
      prev := Digest.Chain(prev, CommitmentOf(headers[i]));
      assert headers[i..][1..] == headers[i + 1..];
      ds := ds + [prev];
    }
  }

  /** The last hash recorded so far. */
  function LastRecorded(infos: seq<seq<Digest>>): Digest {
    if infos == [] then Initial
    else
      var last := infos[|infos| - 1];
      if last != [] then last[|last| - 1] else LastRecorded(infos[..|infos| - 1])
  }

  /** The walk back from the parent to the last block that included a mainchain header. */
  method FindLastRecorded(infos: seq<seq<Digest>>) returns (d: Digest)
    ensures d == LastRecorded(infos)
  {
    var n: nat := |infos|;
    assert infos[..n] == infos;
    while n > 0 && infos[n - 1] == []
      invariant n <= |infos|
      invariant LastRecorded(infos[..n]) == LastRecorded(infos)
    {
      assert infos[..n][..n - 1] == infos[..n - 1];
      n := n - 1;
    }
    if n == 0 {
      d := Initial;
    } else {
      var last := infos[n - 1];
      assert infos[..n][n - 1] == last;
      d := last[|last| - 1];
    }
  }

  /** What the node has recorded along a chain; the genesis block's hash is a network parameter. */
  function Recorded(chain: seq<ScBlock>): (infos: seq<seq<Digest>>)
    ensures |infos| == |chain|
  {
    if chain == [] then []
    else if |chain| == 1 then [[Initial]]
    else
      var before := Recorded(chain[..|chain| - 1]);
      before + [Digests(LastRecorded(before), chain[|chain| - 1].headers)]
  }

  /** The hashes of linked headers, started with the hash of their predecessor, are the mainchain's. */
  lemma {:induction false} DigestsAreCumulative(prev: McBlock, headers: seq<McBlock>, k: nat)
    requires Chained([prev] + headers) && k < |headers|
    ensures Digests(CumulativeHash(prev), headers)[k] == CumulativeHash(headers[k])
    decreases |headers|
  {
    var all := [prev] + headers;
    assert all[1] == headers[0] && all[1].parent == all[0];
    if k > 0 {
      forall i | 1 <= i < |headers| ensures headers[i].Mined? && headers[i].parent == headers[i - 1] {
        assert all[i + 1] == headers[i] && all[i] == headers[i - 1];
      }
      assert [headers[0]] + headers[1..] == headers;
      DigestsAreCumulative(headers[0], headers[1..], k - 1);
    }
  }

  /** Shortening a chain keeps its headers a branch. */
  lemma {:induction false} FollowsPrefix(chain: seq<ScBlock>, n: nat)
    requires FollowsBranch(chain) && 1 <= n <= |chain|
    ensures FollowsBranch(chain[..n])
  {
    RefsOfPrefix(chain, n);
    GenesisHeader(chain, n);
  }

  /** Every recorded hash is the mainchain's own for that header. */
  predicate Matches(chain: seq<ScBlock>, infos: seq<seq<Digest>>) {
    && |infos| == |chain|
    && (forall i :: 0 <= i < |chain| ==> |infos[i]| == |chain[i].headers|)
    && (forall i, k :: 0 <= i < |chain| && 0 <= k < |infos[i]| ==> infos[i][k] == CumulativeHash(chain[i].headers[k]))
  }

  lemma {:induction false} LastOfMatching(chain: seq<ScBlock>, infos: seq<seq<Digest>>)
    requires Matches(chain, infos) && HeadersOf(chain) != []
    ensures LastRecorded(infos) == CumulativeHash(HeadersOf(chain)[|HeadersOf(chain)| - 1])
  {
    var n := |chain| - 1;
    if chain[n].headers == [] {
      LastOfMatching(chain[..n], infos[..n]);
    } else {
      var hs := chain[n].headers;
      assert infos[n][|hs| - 1] == CumulativeHash(hs[|hs| - 1]);
    }
  }

  lemma {:induction false} NextHeadersLinked(h: seq<McBlock>, headers: seq<McBlock>)
    requires h != [] && IsBranch(h + headers)
    ensures Chained([h[|h| - 1]] + headers)
  {
    var all, tail := h + headers, [h[|h| - 1]] + headers;
    forall i | 1 <= i < |tail| ensures tail[i].Mined? && tail[i].parent == tail[i - 1] {
      assert tail[i] == all[|h| - 1 + i] && tail[i - 1] == all[|h| - 2 + i];
    }
  }

  lemma {:induction false} DigestsMatch(prev: McBlock, headers: seq<McBlock>)
    requires Chained([prev] + headers)
    ensures forall k :: 0 <= k < |headers| ==> Digests(CumulativeHash(prev), headers)[k] == CumulativeHash(headers[k])
  {
    forall k | 0 <= k < |headers| ensures Digests(CumulativeHash(prev), headers)[k] == CumulativeHash(headers[k]) {
      DigestsAreCumulative(prev, headers, k);
    }
  }

  /** However the headers are spread over blocks, each is recorded with the mainchain's own hash. */
  lemma {:induction false} RecordedMatches(chain: seq<ScBlock>)
    requires FollowsBranch(chain)
    ensures Matches(chain, Recorded(chain))
  {
    if |chain| > 1 {
      var n := |chain| - 1;
      var before := Recorded(chain[..n]);
      FollowsPrefix(chain, n);
      RecordedMatches(chain[..n]);
      LastOfMatching(chain[..n], before);
      var h := HeadersOf(chain[..n]);
      NextHeadersLinked(h, chain[n].headers);
      DigestsMatch(h[|h| - 1], chain[n].headers);
      MatchesSnoc(chain[..n], before, chain[n], Digests(LastRecorded(before), chain[n].headers));
      assert chain == chain[..n] + [chain[n]];
    }
  }

  lemma {:induction false} MatchesSnoc(chain: seq<ScBlock>, infos: seq<seq<Digest>>, b: ScBlock, ds: seq<Digest>)
    requires Matches(chain, infos) && |ds| == |b.headers|
    requires forall k :: 0 <= k < |ds| ==> ds[k] == CumulativeHash(b.headers[k])
    ensures Matches(chain + [b], infos + [ds])
  {
  }

  lemma {:induction false} RecordedInEveryRun(p: Params, steps: seq<Step>)
    ensures Matches(Run(p, steps).chain, Recorded(Run(p, steps).chain))
  {
    RunKeepsInv(p, steps);
    RecordedMatches(Run(p, steps).chain);
  }
}
