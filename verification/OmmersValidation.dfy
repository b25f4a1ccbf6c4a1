/**
 The checks every node runs on the ommers of a block it receives.
 */
module OmmersValidation {
  import opened Mainchain
  import opened Sidechain

  /** All mainchain headers of a list of ommers, in order. */
  function OmmerHeaders(os: seq<Ommer>): seq<McBlock> {
    if os == [] then [] else os[0].headers + OmmerHeaders(os[1..])
  }

  /** The ommers are consecutive blocks, the first one a sibling of the container. */
  predicate ConsecutiveBlocks(parentId: nat, os: seq<Ommer>) {
    && (os != [] ==> os[0].header.parentId == parentId)
    && forall i :: 0 < i < |os| ==> os[i].header.parentId == os[i - 1].header.id
  }

  /** Slots grow from ommer to ommer and up to the container. */
  predicate SlotsGrow(slot: nat, os: seq<Ommer>) {
    && (os != [] ==> os[|os| - 1].header.slot < slot)
    && forall i :: 0 <= i < |os| - 1 ==> os[i].header.slot < os[i + 1].header.slot
  }

  /** The first ommer carries headers, no more than the container, and leaves the container's branch. */
  predicate LeavesBranch(headers: seq<McBlock>, first: Ommer) {
    && |first.headers| <= |headers|
    && first.headers != []
    && first.headers != headers[..|first.headers|]
  }

  /** The ommers' headers form one branch that starts where the container's headers start. */
  predicate SameOrigin(headers: seq<McBlock>, os: seq<Ommer>) {
    var branch := OmmerHeaders(os);
    && headers != [] && headers[0].Mined?
    && branch != [] && branch[0].Mined? && branch[0].parent == headers[0].parent
    && Chained(branch)
  }

  predicate ValidContainer(header: Header, headers: seq<McBlock>, os: seq<Ommer>)
    decreases os, 0
  {
    && OmmersScore(os) == header.ommersScore
    && (os != [] ==>
          && ConsecutiveBlocks(header.parentId, os)
          && SlotsGrow(header.slot, os)
          && LeavesBranch(headers, os[0])
          && SameOrigin(headers, os)
          && |OmmerHeaders(os)| < |headers|
          && forall i :: 0 <= i < |os| ==> ValidOmmer(os[i]))
  }

  predicate ValidOmmer(o: Ommer)
    decreases o, 1
  {
    Chained(o.headers) && ValidContainer(o.header, o.headers, o.ommers)
  }

  predicate ValidBlock(b: ScBlock) {
    Chained(b.headers) && ValidContainer(b.header, b.headers, b.ommers)
  }

  // ---------------------------------------------------------------- what a valid block is

  /** Abandoned siblings of the container: one after the other from the container's parent, in slots that grow
      and end before the container's. */
  predicate AreSiblings(header: Header, os: seq<Ommer>)
    requires os != []
  {
    && os[0].header.parentId == header.parentId
    && (forall i :: 0 < i < |os| ==> os[i].header.parentId == os[i - 1].header.id)
    && (forall i, k :: 0 <= i < k < |os| ==> os[i].header.slot < os[k].header.slot)
    && (forall i :: 0 <= i < |os| ==> os[i].header.slot < header.slot)
  }

  /** A mainchain branch that starts on the same block as the container's, parts from it within the first `n`
      headers, and is shorter. */
  predicate LostTo(headers: seq<McBlock>, branch: seq<McBlock>, n: nat) {
    && branch != [] && branch[0].Mined? && headers != [] && headers[0].Mined?
    && branch[0].parent == headers[0].parent && Chained(branch)
    && Common(branch, headers) < n && |branch| < |headers|
  }

  lemma {:induction false} SlotsGrowIff(slot: nat, os: seq<Ommer>)
    ensures SlotsGrow(slot, os) <==>
      && (forall i, k :: 0 <= i < k < |os| ==> os[i].header.slot < os[k].header.slot)
      && (forall i :: 0 <= i < |os| ==> os[i].header.slot < slot)
  {
    if SlotsGrow(slot, os) {
      forall i, k | 0 <= i < k <= |os| ensures os[i].header.slot < if k == |os| then slot else os[k].header.slot {
        SlotsBetween(slot, os, i, k);
      }
    }
  }

  lemma {:induction false} SlotsBetween(slot: nat, os: seq<Ommer>, i: nat, k: nat)
    requires SlotsGrow(slot, os) && i < k <= |os|
    ensures os[i].header.slot < if k == |os| then slot else os[k].header.slot
  {
    if i + 1 < k {
      SlotsBetween(slot, os, i, k - 1);
      assert k < |os| ==> os[k - 1].header.slot < os[k].header.slot;
    }
  }

  /** Within its length a row of headers is a first part of another or parts from it. */
  lemma {:induction false} PartsIff(first: seq<McBlock>, rest: seq<McBlock>, headers: seq<McBlock>)
    requires |first| <= |headers|
    ensures first != headers[..|first|] <==> Common(first + rest, headers) < |first|
  {
    var all := first + rest;
    CommonAgrees(all, headers);
    if Common(all, headers) >= |first| {
      assert all[..|first|] == first && all[..Common(all, headers)][..|first|] == all[..|first|];
      assert headers[..Common(all, headers)][..|first|] == headers[..|first|];
    } else if first == headers[..|first|] {
      assert all[..|first|] == headers[..|first|];
      CommonIsLongest(all, headers, |first|);
    }
  }

  lemma {:induction false} FirstHeaders(os: seq<Ommer>)
    requires os != []
    ensures |os[0].headers| <= |OmmerHeaders(os)| && OmmerHeaders(os) == os[0].headers + OmmerHeaders(os[1..])
  {
  }

  /** A block is valid if and only if its headers are linked, its header counts every block its ommers remember,
      and its ommers, valid themselves, are abandoned siblings whose headers lost to the block's own. */
  lemma {:induction false} ValidBlockIff(b: ScBlock)
    ensures ValidBlock(b) <==>
      && Chained(b.headers) && b.header.ommersScore == |FlattenOmmers(b.ommers)|
      && (b.ommers != [] ==>
            && AreSiblings(b.header, b.ommers) && b.ommers[0].headers != []
            && LostTo(b.headers, OmmerHeaders(b.ommers), |b.ommers[0].headers|)
            && forall i :: 0 <= i < |b.ommers| ==> ValidOmmer(b.ommers[i]))
  {
    ScoreIsFlattenLength(b.ommers);
    if b.ommers != [] {
      var first, rest := b.ommers[0].headers, OmmerHeaders(b.ommers[1..]);
      SlotsGrowIff(b.header.slot, b.ommers);
      FirstHeaders(b.ommers);
      if |first| <= |b.headers| {
        PartsIff(first, rest, b.headers);
      }
    }
  }

  /** Leaving the active chain does not change the verdict on a block's own ommers. */
  lemma {:induction false} ValidityIsKept(b: ScBlock)
    ensures ValidOmmer(ToOmmer(b)) <==> ValidBlock(b)
  {
  }

  lemma {:induction false} OmmerHeadersOfChain(chain: seq<ScBlock>)
    ensures OmmerHeaders(ToOmmers(chain)) == HeadersOf(chain)
  {
    if chain != [] {
      OmmerHeadersOfChain(chain[1..]);
      assert ToOmmers(chain)[1..] == ToOmmers(chain[1..]);
      HeadersOfCons(chain);
    }
  }

  lemma {:induction false} HeadersOfCons(chain: seq<ScBlock>)
    requires chain != []
    ensures HeadersOf(chain) == chain[0].headers + HeadersOf(chain[1..])
  {
    assert chain == [chain[0]] + chain[1..];
    HeadersOfConcat([chain[0]], chain[1..]);
    assert HeadersOf([chain[0]]) == HeadersOf([]) + chain[0].headers;
  }

  // ---------------------------------------------------------------- reference data

  /** Headers of a chain whose reference data is still missing. */
  function Missed(chain: seq<ScBlock>): seq<McBlock> {
    if |RefsOf(chain)| < |HeadersOf(chain)| then HeadersOf(chain)[|RefsOf(chain)|..] else []
  }

  /** The reference data of a block continues the chain's reference data along the chain's headers. */
  predicate ValidRefData(chain: seq<ScBlock>, b: ScBlock) {
    b.refData <= Missed(chain) + b.headers
  }

  lemma {:induction false} ValidRefDataKeepsPrefix(chain: seq<ScBlock>, b: ScBlock)
    requires RefsOf(chain) <= HeadersOf(chain)
    ensures ValidRefData(chain, b) <==> RefsOf(chain + [b]) <= HeadersOf(chain + [b])
  {
    HeadersOfSnoc(chain, b);
    MissedIsRest(chain, b.headers);
    PrefixOfSum(RefsOf(chain), b.refData, Missed(chain) + b.headers);
  }

  lemma {:induction false} MissedIsRest(chain: seq<ScBlock>, more: seq<McBlock>)
    requires RefsOf(chain) <= HeadersOf(chain)
    ensures HeadersOf(chain) + more == RefsOf(chain) + (Missed(chain) + more)
  {
    var r, h := RefsOf(chain), HeadersOf(chain);
    assert h == r + h[|r|..];
  }

  lemma {:induction false} PrefixOfSum<T>(a: seq<T>, b: seq<T>, c: seq<T>)
    ensures b <= c <==> a + b <= a + c
  {
    if a + b <= a + c {
      assert b == (a + b)[|a|..];
      assert c == (a + c)[|a|..];
      assert |b| <= |c|;
      assert b == c[..|b|] by {
        forall i | 0 <= i < |b| ensures b[i] == c[i] {
          assert (a + b)[|a| + i] == (a + c)[|a| + i];
        }
      }
    }
  }
}
