/**
 The forging node as an object whose state changes step by step.  Each method is proved against the
 step function of module Forger, so everything shown for runs holds for this code.
 */
module ForgerNode {
  import opened Mainchain
  import opened Sidechain
  import opened OmmersValidation
  import opened Forger
  import opened ForgerSteps
  import opened ForgerRuns
  import opened MainchainSync
  import opened ForkChoice

  /** Total size of the reference data of some mainchain blocks. */
  function TotalSize(refs: seq<McBlock>, size: McBlock -> nat): nat {
    if refs == [] then 0 else TotalSize(refs[..|refs| - 1], size) + size(refs[|refs| - 1])
  }

  /** Take reference data in order until the next one does not fit or time is up; the clock is read
      only after a reference has been taken, and it runs out after `deadline` of them. */
  method CollectRefData(refs: seq<McBlock>, size: McBlock -> nat, used: nat, max: nat, deadline: nat)
    returns (data: seq<McBlock>)
    ensures data <= refs
    ensures data != [] ==> used + TotalSize(data, size) <= max
    ensures |data| > 1 ==> |data| <= deadline
    ensures |data| < |refs| ==>
      (data != [] && |data| >= deadline) || used + TotalSize(refs[..|data| + 1], size) > max
  {
    data := [];
    var blockSize := used;
    var going := true;
    while going && |data| < |refs|
      invariant data <= refs
      invariant blockSize == used + TotalSize(data, size)
      invariant data != [] ==> blockSize <= max
      invariant |data| > 1 ==> |data| <= deadline
      invariant going && data != [] ==> |data| < deadline
      invariant !going ==>
        || (data != [] && |data| >= deadline)
        || (|data| < |refs| && used + TotalSize(refs[..|data| + 1], size) > max)
      decreases going, |refs| - |data|
    {
      var next := refs[|data|];
      assert refs[..|data| + 1][..|data|] == data;
      if blockSize + size(next) > max {
        going := false;
      } else {
        data := data + [next];
        assert data == refs[..|data|];
        blockSize := blockSize + size(next);
        going := |data| < deadline;
      }
    }
  }

  /** Walk back from the tip to the parent and put each block in front of the ommers found so far. */
  method CollectOmmers(chain: seq<ScBlock>, parent: nat) returns (ommers: seq<Ommer>)
    requires parent < |chain|
    ensures ommers == ToOmmers(chain[parent + 1..])
  {
    ommers := [];
    var i := |chain| - 1;
    while i != parent
      invariant parent <= i < |chain|
      invariant ommers == ToOmmers(chain[i + 1..])
    {
      ommers := [ToOmmer(chain[i])] + ommers;
      i := i - 1;
    }
  }

  /** Mainchain headers whose reference data is still to come, height by height. */
  method MissedReferences(chain: seq<ScBlock>) returns (missed: seq<McBlock>)
    ensures missed == Missed(chain)
  {
    var headers, from := HeadersOf(chain), |RefsOf(chain)|;
    missed := [];
    if from < |headers| {
      for height := from to |headers|
        invariant missed == headers[from..height]
      {
        missed := missed + [headers[height]];
      }
    }
  }

  /** The common block found over the network, the delay, and the choice between extending the tip and
      leaving the branch. */
  method BranchPointInfo(chain: seq<ScBlock>, tip: McBlock, delay: nat) returns (bp: BranchPoint)
    requires FollowsBranch(chain)
    ensures bp == FindBranchPoint(chain, Path(tip), delay)
  {
    var headers, path := HeadersOf(chain), Path(tip);
    PathIsBranch(tip);
    var height, hashes := DivergentSuffix(headers, path, MAX_BLOCKS_REQUEST);
    var common := height + 1;
    assert hashes[1..] == path[common..height + |hashes|];
    var news := Delayed(hashes[1..], delay);
    assert news == NewHashes(path, common, delay);
    if headers[|headers| - 1] == hashes[0] {
      TipIsCommon(headers, path, height);
      bp := BranchPoint(|chain| - 1, news);
    } else {
      CommonAgrees(headers, path);
      TipIsNotCommon(headers, path, height);
      bp := LeaveBranch(chain, common, news);
    }
  }

  lemma {:induction false} TipIsCommon(h: seq<McBlock>, path: seq<McBlock>, height: nat)
    requires IsBranch(h) && IsBranch(path) && height + 1 == Common(h, path) && h[|h| - 1] == path[height]
    ensures Common(h, path) == |h|
  {
    SharedBlock(h, path, |h| - 1, height);
  }

  lemma {:induction false} TipIsNotCommon(h: seq<McBlock>, path: seq<McBlock>, height: nat)
    requires height + 1 == Common(h, path) && h[|h| - 1] != path[height]
    ensures Common(h, path) < |h|
  {
    CommonAgrees(h, path);
    assert h[..height + 1][height] == path[..height + 1][height];
  }

  /** Count blocks without mainchain headers backwards from the parent, and stop at the limit, at the
      genesis block or at a block with headers. */
  method TooManyWithoutHeaders(p: Params, chain: seq<ScBlock>, carried: seq<McBlock>) returns (too: bool)
    requires |chain| >= 1 && chain[0] == GENESIS
    ensures too == TooManyHeaderless(p, chain, carried)
  {
    if carried != [] {
      return false;
    }
    var n: nat, count: nat := |chain| - 1, 0;
    assert chain[..n + 1] == chain;
    while chain[n].headers == []
      invariant n < |chain|
      invariant count + TrailingHeaderless(chain[..n + 1]) == TrailingHeaderless(chain)
      invariant count > 0 ==> count < p.maxRewrite - 1
      decreases n
    {
      assert chain[..n + 1][..n] == chain[..n];
      count := count + 1;
      if count >= p.maxRewrite - 1 {
        return true;
      }
      if n == 1 {
        assert chain[..1][0] == GENESIS;
        return false;
      }
      n := n - 1;
    }
    assert chain[..n + 1][n] == chain[n];
    return false;
  }

  /** What a block on the tip takes of the reference data that `missing` names and of which the epoch has
      room for `left`: in order, within the size limit and the time, and nothing that could go in is left. */
  predicate TakesWhatFits(data: seq<McBlock>, missing: seq<McBlock>, left: nat, size: McBlock -> nat,
      used: nat, max: nat, deadline: nat)
  {
    && data <= missing && |data| <= left
    && (data != [] ==> used + TotalSize(data, size) <= max)
    && (|data| > 1 ==> |data| <= deadline)
    && (|data| < |missing| && |data| < left ==>
          (data != [] && |data| >= deadline) || used + TotalSize(missing[..|data| + 1], size) > max)
  }

  /** The same of a block that goes on the tip of `chain`: what is missing are the chain's headers after its
      reference data, and then the block's own. */
  predicate CarriesWhatFits(p: Params, chain: seq<ScBlock>, b: ScBlock, size: McBlock -> nat,
      used: nat, max: nat, deadline: nat)
  {
    |RefsOf(chain)| <= |HeadersOf(chain)| ==>
      TakesWhatFits(b.refData, (HeadersOf(chain) + b.headers)[|RefsOf(chain)|..],
                    BlocksLeft(EpochOf(chain, p.epochLength), p.epochLength), size, used, max, deadline)
  }

  lemma {:induction false} MissingIsSuffix(headers: seq<McBlock>, from: nat, more: seq<McBlock>)
    requires from <= |headers|
    ensures (if from < |headers| then headers[from..] else []) + more == (headers + more)[from..]
  {
  }

  lemma {:induction false} CarriesMissing(p: Params, chain: seq<ScBlock>, b: ScBlock, size: McBlock -> nat,
      used: nat, max: nat, deadline: nat)
    requires TakesWhatFits(b.refData, Missed(chain) + b.headers,
                           BlocksLeft(EpochOf(chain, p.epochLength), p.epochLength), size, used, max, deadline)
    ensures CarriesWhatFits(p, chain, b, size, used, max, deadline)
  {
    if |RefsOf(chain)| <= |HeadersOf(chain)| {
      MissingIsSuffix(HeadersOf(chain), |RefsOf(chain)|, b.headers);
    }
  }

  /** Reference data for a block on the tip: the missed first, up to the end of the withdrawal epoch. */
  method TakeRefData(missing: seq<McBlock>, left: nat, size: McBlock -> nat, used: nat, max: nat, deadline: nat)
    returns (refs: seq<McBlock>)
    ensures TakesWhatFits(refs, missing, left, size, used, max, deadline)
  {
    var allowed := missing[..if left < |missing| then left else |missing|];
    refs := CollectRefData(allowed, size, used, max, deadline);
    if |refs| < |missing| && |refs| < left {
      assert allowed[..|refs| + 1] == missing[..|refs| + 1];
    }
  }

  /** The block for a branch point; `taken` is how much reference data went in. */
  method MakeBlock(p: Params, chain: seq<ScBlock>, bp: BranchPoint, id: nat, a: ForgeArgs, size: McBlock -> nat,
      used: nat, max: nat)
    returns (b: ScBlock, taken: nat)
    requires bp.BranchPoint? && bp.parent < |chain|
    ensures b == Assemble(p, chain, bp, id, a.(refBudget := taken))
    ensures bp.parent == |chain| - 1 ==> CarriesWhatFits(p, chain, b, size, used, max, a.refBudget)
    ensures bp.parent < |chain| - 1 ==> b.refData == []
  {
    var ommers := CollectOmmers(chain, bp.parent);
    var left := BlocksLeft(EpochOf(chain[..bp.parent + 1], p.epochLength), p.epochLength);
    var refs := [];
    if bp.parent == |chain| - 1 {
      assert chain[..bp.parent + 1] == chain;
      var missed := MissedReferences(chain);
      refs := TakeRefData(missed + bp.headers, left, size, used, max, a.refBudget);
    }
    taken := |refs|;
    var txs := if |refs| == left || bp.parent != |chain| - 1 then [] else a.txs;
    b := ScBlock(Header(id, chain[bp.parent].header.id, a.slot, OmmersScore(ommers)), bp.headers, refs, txs, ommers);
    if bp.parent == |chain| - 1 {
      CarriesMissing(p, chain, b, size, used, max, a.refBudget);
    }
  }

  /** One forging attempt up to the block: `size`, `used` and `max` drive how much reference data fits,
      `a.refBudget` is how much can be fetched in time, and `taken` what went in. */
  method TryToForge(p: Params, s: State, a: ForgeArgs, size: McBlock -> nat, used: nat, max: nat)
    returns (r: ForgeResult, taken: nat)
    requires FollowsBranch(s.chain)
    ensures r == Forge(p, s, a.(refBudget := taken))
    ensures r.Forged? && r.parent == |s.chain| - 1 ==>
      CarriesWhatFits(p, s.chain, r.block, size, used, max, a.refBudget)
  {
    var bp := BranchPointInfo(s.chain, s.mcTip, a.delay);
    r, taken := TryAt(p, s, a, bp, size, used, max);
  }

  /** The attempt for a branch point. */
  method TryAt(p: Params, s: State, a: ForgeArgs, bp: BranchPoint, size: McBlock -> nat, used: nat, max: nat)
    returns (r: ForgeResult, taken: nat)
    requires |s.chain| >= 1 && s.chain[0] == GENESIS && (bp.BranchPoint? ==> bp.parent < |s.chain|)
    ensures r == ForgeAt(p, s, a.(refBudget := taken), bp)
    ensures r.Forged? && r.parent == |s.chain| - 1 ==>
      CarriesWhatFits(p, s.chain, r.block, size, used, max, a.refBudget)
  {
    if bp.NoBranch? {
      return NoSense, 0;
    }
    if a.slot <= s.chain[|s.chain| - 1].header.slot {
      return BadSlot, 0;
    }
    var tooMany := TooManyWithoutHeaders(p, s.chain[..bp.parent + 1], bp.headers);
    if a.headerlessLimit && tooMany {
      return SkipSlot, 0;
    }
    var b;
    b, taken := MakeBlock(p, s.chain, bp, NextId(s), a, size, used, max);
    r := Forged(bp.parent, b);
  }

  lemma {:induction false} DataBehindHeaders(p: Params, chain: seq<ScBlock>)
    requires GoodChain(p, chain)
    ensures |RefsOf(chain)| <= |HeadersOf(chain)|
  {
    assert chain[..|chain|] == chain;
  }

  class Node {
    const params: Params
    var mcTip: McBlock
    var chain: seq<ScBlock>
    var adopted: seq<ScBlock>
    var rejected: seq<ScBlock>

    function Now(): State
      reads this
    {
      State(mcTip, chain, adopted, rejected)
    }

    ghost predicate Valid()
      reads this
    {
      Inv(params, Now())
    }

    constructor (p: Params)
      ensures params == p && Now() == INITIAL && Valid()
    {
      params := p;
      mcTip, chain, adopted, rejected := Creation, [GENESIS], [], [];
      new;
      InitialInv(p);
    }

    method MainchainMines(commitment: nat, salt: nat)
      requires Valid()
      modifies this
      ensures Valid() && Now() == Apply(params, old(Now()), Extend(commitment, salt))
    {
      StepKeepsInv(params, Now(), Extend(commitment, salt));
      mcTip := Mined(mcTip, commitment, salt);
    }

    method MainchainSwitches(tip: McBlock)
      requires Valid()
      modifies this
      ensures Valid() && Now() == Apply(params, old(Now()), Reorg(tip))
    {
      StepKeepsInv(params, Now(), Reorg(tip));
      if Height(tip) > Height(mcTip) {
        mcTip := tip;
      }
    }

    /** A forging attempt; the node's own history receives the result. */
    method Attempt(a: ForgeArgs, size: McBlock -> nat, used: nat, max: nat) returns (r: ForgeResult, taken: nat)
      requires Valid()
      modifies this
      ensures Valid()
      ensures r == Forge(params, old(Now()), a.(refBudget := taken))
      ensures Now() == Apply(params, old(Now()), TryForge(a.(refBudget := taken)))
      ensures |RefsOf(old(chain))| <= |HeadersOf(old(chain))|
      ensures r.Forged? && r.parent == |old(chain)| - 1 ==>
        CarriesWhatFits(params, old(chain), r.block, size, used, max, a.refBudget)
    {
      DataBehindHeaders(params, chain);
      r, taken := TryToForge(params, Now(), a, size, used, max);
      ForgeKeepsInv(params, Now(), a.(refBudget := taken));
      TakeIn(a.headerlessLimit, r);
    }

    /** The node's own history receives the forged block, if there is one. */
    method TakeIn(limit: bool, r: ForgeResult)
      requires (r.Forged? ==> r.parent < |chain|) && |chain| >= 1 && chain[0] == GENESIS
      modifies this
      ensures Now() == Outcome(params, limit, old(Now()), r)
    {
      if r.Forged? {
        Receive(limit, r.parent, r.block);
      }
    }

    /** The node's part: extend the tip, switch to the better branch, or keep the block aside; the block
        to apply must not lack reference data after too many blocks without headers. */
    method Receive(limit: bool, parent: nat, b: ScBlock)
      requires parent < |chain| && chain[0] == GENESIS
      modifies this
      ensures Now() == Append(params, limit, old(Now()), parent, b)
      ensures chain ==
        if Beats(Candidate(old(chain), parent, b), old(chain)) && WithinLimits(params, limit, old(chain), parent, b)
        then Candidate(old(chain), parent, b) else old(chain)
    {
      ReceivedIff(params, limit, Now(), parent, b);
      var best := parent == |chain| - 1;
      if !best {
        var current, candidate := ChainScore(chain), ChainScore(chain[..parent + 1]) + BlockScore(b);
        best := if candidate == current then parent + 2 > |chain| else candidate > current;
        best := best && |chain| - 1 - parent <= params.maxRewrite;
      }
      if best && limit {
        var lacking := TooManyWithoutHeaders(params, chain[..parent + 1], b.refData);
        best := !lacking;
      }
      if best {
        chain, adopted := chain[..parent + 1] + [b], adopted + [b];
      } else {
        rejected := rejected + [b];
      }
    }
  }
}
