/**
 One forger following the mainchain: choosing the block to extend, collecting mainchain headers,
 reference data and ommers, and having the result adopted by its own history.
 */
module Forger {
  import opened Mainchain
  import opened Sidechain
  import opened OmmersValidation

  /** Block hashes the mainchain node returns for one request, the common block included. */
  const MAX_BLOCKS_REQUEST: nat := 50

  /** Headers a single request can bring. */
  const MAX_NEW_HEADERS: nat := MAX_BLOCKS_REQUEST - 1

  /** `epochLength` is the withdrawal epoch length; `maxRewrite` bounds the blocks a fork may replace. */
  datatype Params = Params(epochLength: Length, maxRewrite: nat)

  /** What differs from one forging attempt to the next: the slot, the forger's reference delay, how
      much reference data fits (size limit and retrieval timeout), whether the limit on blocks
      without mainchain headers is active, and the transactions on offer. */
  datatype ForgeArgs = ForgeArgs(slot: nat, delay: nat, refBudget: nat, headerlessLimit: bool, txs: seq<nat>)

  /** `chain` is the active sidechain from the genesis block to the tip; `adopted` and `rejected`
      record every forged block, in order, by what the node's own history did with it. */
  datatype State = State(mcTip: McBlock, chain: seq<ScBlock>, adopted: seq<ScBlock>, rejected: seq<ScBlock>)

  datatype ForgeResult =
    | Forged(parent: nat, block: ScBlock)
    | SkipSlot   // forging has to wait
    | NoSense    // the new branch does not beat the orphaned headers
    | BadSlot    // the slot is not after the tip's slot

  const INITIAL := State(Creation, [GENESIS], [], [])

  // ---------------------------------------------------------------- what every chain satisfies

  predicate ChainIds(chain: seq<ScBlock>) {
    forall i :: 1 <= i < |chain| ==>
      chain[i].header.parentId == chain[i - 1].header.id && chain[i - 1].header.slot < chain[i].header.slot
  }

  /** Blocks with ommers carry neither reference data nor transactions. */
  predicate OmmerBlocksAreBare(chain: seq<ScBlock>) {
    forall i :: 0 <= i < |chain| && chain[i].ommers != [] ==> chain[i].refData == [] && chain[i].txs == []
  }

  predicate BlocksValid(chain: seq<ScBlock>) {
    forall i {:trigger ValidBlock(chain[i])} :: 0 <= i < |chain| ==> ValidBlock(chain[i])
  }

  /** The chain starts with the genesis block and its headers form one mainchain branch. */
  predicate FollowsBranch(chain: seq<ScBlock>) {
    |chain| >= 1 && chain[0] == GENESIS && IsBranch(HeadersOf(chain))
  }

  /** At every block, the reference data so far is a first part of the headers so far. */
  predicate RefsFollowHeaders(chain: seq<ScBlock>) {
    forall n {:trigger RefsOf(chain[..n])} :: 0 <= n <= |chain| ==> RefsOf(chain[..n]) <= HeadersOf(chain[..n])
  }

  /** A chain as the node's history would accept it. */
  predicate GoodChain(p: Params, chain: seq<ScBlock>) {
    && FollowsBranch(chain)
    && ChainIds(chain)
    && RefsFollowHeaders(chain)
    && EpochsAligned(chain, p.epochLength)
    && OmmerBlocksAreBare(chain)
    && BlocksValid(chain)
  }

  // ---------------------------------------------------------------- branch point

  /** The last `delay` hashes are left for later. */
  function Delayed(hashes: seq<McBlock>, delay: nat): (kept: seq<McBlock>) {
    if |hashes| > delay then hashes[..|hashes| - delay] else []
  }

  /** Hashes of the active branch after its first `common` blocks, as far as one request and the
      delay allow. */
  function NewHashes(path: seq<McBlock>, common: nat, delay: nat): seq<McBlock>
    requires common <= |path|
  {
    var end := if common + MAX_NEW_HEADERS <= |path| then common + MAX_NEW_HEADERS else |path|;
    Delayed(path[common..end], delay)
  }

  function TakeUntil(headers: seq<McBlock>, stop: McBlock): seq<McBlock> {
    if headers == [] || headers[0] == stop then [] else [headers[0]] + TakeUntil(headers[1..], stop)
  }

  /** Position of the block that carries the chain's mainchain header number `h`. */
  function ContainingBlock(chain: seq<ScBlock>, h: nat): (j: nat)
    requires h < |HeadersOf(chain)|
    ensures j < |chain|
    ensures |HeadersOf(chain[..j])| <= h < |HeadersOf(chain[..j + 1])|
  {
    var n := |chain| - 1;
    if |HeadersOf(chain[..n])| <= h then
      assert chain[..n + 1] == chain;
      n
    else
      var j := ContainingBlock(chain[..n], h);
      assert chain[..n][..j] == chain[..j] && chain[..n][..j + 1] == chain[..j + 1];
      j
  }

  /** Where to attach the next block and which headers it carries. */
  datatype BranchPoint = NoBranch | BranchPoint(parent: nat, headers: seq<McBlock>)

  /** The chain's header number `common` is orphaned: go back before the block that carries it, and
      keep those of its headers that are still active. */
  function LeaveBranch(chain: seq<ScBlock>, common: nat, news: seq<McBlock>): (bp: BranchPoint)
    requires common < |HeadersOf(chain)|
    ensures bp.BranchPoint? ==> bp.parent + 1 < |chain|
  {
    var j := ContainingBlock(chain, common);
    if |HeadersOf(chain)| - common >= |news| || j == 0 then NoBranch
    else BranchPoint(j - 1, TakeUntil(chain[j].headers, HeadersOf(chain)[common]) + news)
  }

  /** `path` is the mainchain's active branch. */
  function FindBranchPoint(chain: seq<ScBlock>, path: seq<McBlock>, delay: nat): (bp: BranchPoint)
    ensures bp.BranchPoint? ==> bp.parent < |chain|
  {
    var common := Common(HeadersOf(chain), path);
    var news := NewHashes(path, common, delay);
    if chain == [] then NoBranch
    else if common == |HeadersOf(chain)| then BranchPoint(|chain| - 1, news)
    else LeaveBranch(chain, common, news)
  }

  /** Every branch shares the creation block with the chain. */
  lemma {:induction false} CreationIsShared(chain: seq<ScBlock>, tip: McBlock)
    requires FollowsBranch(chain)
    ensures 1 <= Common(HeadersOf(chain), Path(tip))
  {
    PathIsBranch(tip);
    CommonIsLongest(HeadersOf(chain), Path(tip), 1);
  }

  // ---------------------------------------------------------------- forging

  /** Blocks without mainchain headers at the end of a chain. */
  function TrailingHeaderless(chain: seq<ScBlock>): nat {
    if chain == [] || chain[|chain| - 1].headers != [] then 0 else 1 + TrailingHeaderless(chain[..|chain| - 1])
  }

  /** The limit on blocks without headers, for a next block that carries `carried`. */
  predicate TooManyHeaderless(p: Params, chain: seq<ScBlock>, carried: seq<McBlock>) {
    carried == [] && TrailingHeaderless(chain) > 0 && TrailingHeaderless(chain) >= p.maxRewrite - 1
  }

  /** Blocks without headers at the end of a chain from which on the limit bites. */
  function HeaderlessBound(p: Params): nat {
    if p.maxRewrite <= 2 then 1 else p.maxRewrite - 1
  }

  function NextId(s: State): nat {
    1 + |s.adopted| + |s.rejected|
  }

  /** Reference data a block on top of the chain may carry: the missed ones first, and no further
      than to the end of the withdrawal epoch. */
  function NextRefs(p: Params, chain: seq<ScBlock>, news: seq<McBlock>): (refs: seq<McBlock>)
    ensures refs <= Missed(chain) + news
    ensures |refs| <= BlocksLeft(EpochOf(chain, p.epochLength), p.epochLength)
  {
    var missing := Missed(chain) + news;
    var left := BlocksLeft(EpochOf(chain, p.epochLength), p.epochLength);
    missing[..if left < |missing| then left else |missing|]
  }

  /** The block for a chosen branch point: a first part of the reference data, the blocks left behind
      as ommers, and transactions only on top of the tip and not at the end of a withdrawal epoch. */
  function Assemble(p: Params, chain: seq<ScBlock>, bp: BranchPoint, id: nat, a: ForgeArgs): (b: ScBlock)
    requires bp.BranchPoint? && bp.parent < |chain|
  {
    var allowed := if bp.parent == |chain| - 1 then NextRefs(p, chain, bp.headers) else [];
    var refs := allowed[..if a.refBudget < |allowed| then a.refBudget else |allowed|];
    var ommers := ToOmmers(chain[bp.parent + 1..]);
    var left := BlocksLeft(EpochOf(chain[..bp.parent + 1], p.epochLength), p.epochLength);
    var txs := if |refs| == left || bp.parent != |chain| - 1 then [] else a.txs;
    var header := Header(id, chain[bp.parent].header.id, a.slot, OmmersScore(ommers));
    ScBlock(header, bp.headers, refs, txs, ommers)
  }

  function Forge(p: Params, s: State, a: ForgeArgs): (r: ForgeResult)
    ensures r.Forged? ==> r.parent < |s.chain|
  {
    ForgeAt(p, s, a, FindBranchPoint(s.chain, Path(s.mcTip), a.delay))
  }

  /** The attempt for a branch point. */
  function ForgeAt(p: Params, s: State, a: ForgeArgs, bp: BranchPoint): (r: ForgeResult)
    requires bp.BranchPoint? ==> bp.parent < |s.chain|
    ensures r.Forged? ==> r.parent < |s.chain|
  {
    if bp.NoBranch? then NoSense
    else if a.slot <= s.chain[|s.chain| - 1].header.slot then BadSlot
    else if a.headerlessLimit && TooManyHeaderless(p, s.chain[..bp.parent + 1], bp.headers) then SkipSlot
    else Forged(bp.parent, Assemble(p, s.chain, bp, NextId(s), a))
  }

  // ---------------------------------------------------------------- adoption

  /** The node's own fork choice: a higher score wins, and on equal scores the longer chain. */
  predicate IsBest(chain: seq<ScBlock>, parent: nat, b: ScBlock)
    requires parent < |chain|
  {
    var current := ChainScore(chain);
    var candidate := ChainScore(chain[..parent + 1]) + BlockScore(b);
    if candidate == current then parent + 2 > |chain| else candidate > current
  }

  /** The limit is checked once more when a block is applied on top of `chain`.  This check looks at the
      block's reference data where the forger looked at its headers. */
  predicate LacksData(p: Params, limit: bool, chain: seq<ScBlock>, b: ScBlock) {
    limit && TooManyHeaderless(p, chain, b.refData)
  }

  /** `limit` tells whether the limit is active at the block's slot. */
  predicate Adopts(p: Params, limit: bool, chain: seq<ScBlock>, parent: nat, b: ScBlock)
    requires parent < |chain|
  {
    && (parent == |chain| - 1 || (IsBest(chain, parent, b) && |chain| - 1 - parent <= p.maxRewrite))
    && !LacksData(p, limit, chain[..parent + 1], b)
  }

  function Append(p: Params, limit: bool, s: State, parent: nat, b: ScBlock): State
    requires parent < |s.chain|
  {
    if Adopts(p, limit, s.chain, parent, b) then
      s.(chain := s.chain[..parent + 1] + [b], adopted := s.adopted + [b])
    else
      s.(rejected := s.rejected + [b])
  }

  /** The node's history receives the forged block, if there is one. */
  function Outcome(p: Params, limit: bool, s: State, r: ForgeResult): State
    requires r.Forged? ==> r.parent < |s.chain|
  {
    if r.Forged? then Append(p, limit, s, r.parent, r.block) else s
  }

  // ---------------------------------------------------------------- steps and runs

  /** A mainchain node mines on its tip, switches to a strictly longer branch, or the forger acts. */
  datatype Step =
    | Extend(commitment: nat, salt: nat)
    | Reorg(newTip: McBlock)
    | TryForge(args: ForgeArgs)

  function Apply(p: Params, s: State, step: Step): State {
    match step
    case Extend(c, salt) => s.(mcTip := Mined(s.mcTip, c, salt))
    case Reorg(t) => if Height(t) > Height(s.mcTip) then s.(mcTip := t) else s
    case TryForge(a) => Outcome(p, a.headerlessLimit, s, Forge(p, s, a))
  }
}
