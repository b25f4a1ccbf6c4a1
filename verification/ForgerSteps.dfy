/**
 What one forging step does: where the new block is attached, what it carries, and why the result is
 again a chain every node accepts.
 */
module ForgerSteps {
  import opened Mainchain
  import opened Sidechain
  import opened OmmersValidation
  import opened Forger

  // ---------------------------------------------------------------- headers

  lemma {:induction false} TakeUntilIndex(headers: seq<McBlock>, i: nat)
    requires i < |headers|
    requires forall k :: 0 <= k < i ==> headers[k] != headers[i]
    ensures TakeUntil(headers, headers[i]) == headers[..i]
  {
    if i > 0 {
      assert headers[1..][i - 1] == headers[i];
      forall k | 0 <= k < i - 1 ensures headers[1..][k] != headers[1..][i - 1] {
        assert headers[1..][k] == headers[k + 1];
      }
      TakeUntilIndex(headers[1..], i - 1);
      assert headers[..i] == [headers[0]] + headers[1..][..i - 1];
    }
  }

  /** The blocks up to position j, and what follows, in terms of headers. */
  lemma {:induction false} HeadersSplit(chain: seq<ScBlock>, j: nat)
    requires j <= |chain|
    ensures HeadersOf(chain) == HeadersOf(chain[..j]) + HeadersOf(chain[j..])
  {
    assert chain == chain[..j] + chain[j..];
    HeadersOfConcat(chain[..j], chain[j..]);
  }

  lemma {:induction false} HeadersStep(chain: seq<ScBlock>, j: nat)
    requires j < |chain|
    ensures HeadersOf(chain[..j + 1]) == HeadersOf(chain[..j]) + chain[j].headers
  {
    assert chain[..j + 1][..j] == chain[..j];
  }

  /** Position `c` of `before + hs + rest` falls into `hs`: stopping at that element keeps what
      precedes it. */
  lemma {:induction false} KeptPart(before: seq<McBlock>, hs: seq<McBlock>, rest: seq<McBlock>, h: seq<McBlock>, c: nat)
    requires h == before + hs + rest && |before| <= c < |before| + |hs| && NoRepeats(h)
    ensures TakeUntil(hs, h[c]) == hs[..c - |before|]
    ensures before + hs[..c - |before|] == h[..c]
  {
    assert forall k :: 0 <= k < |hs| ==> hs[k] == h[|before| + k];
    TakeUntilIndex(hs, c - |before|);
  }

  /** The headers of the orphaned block that are still on the active branch. */
  lemma {:induction false} CommonPart(chain: seq<ScBlock>, c: nat, j: nat)
    requires IsBranch(HeadersOf(chain)) && c < |HeadersOf(chain)| && j < |chain|
    requires |HeadersOf(chain[..j])| <= c < |HeadersOf(chain[..j + 1])|
    ensures HeadersOf(chain[..j]) + TakeUntil(chain[j].headers, HeadersOf(chain)[c]) == HeadersOf(chain)[..c]
    ensures |TakeUntil(chain[j].headers, HeadersOf(chain)[c])| == c - |HeadersOf(chain[..j])|
  {
    HeadersSplit(chain, j + 1);
    HeadersStep(chain, j);
    BranchHasNoRepeats(HeadersOf(chain));
    KeptPart(HeadersOf(chain[..j]), chain[j].headers, HeadersOf(chain[j + 1..]), HeadersOf(chain), c);
  }

  lemma {:induction false} LineUp(a: seq<McBlock>, b: seq<McBlock>, path: seq<McBlock>, m: nat, n: nat)
    requires m <= n <= |path| && a + b == path[..m]
    ensures a + (b + path[m..n]) == path[..n]
  {
    assert a + (b + path[m..n]) == (a + b) + path[m..n];
  }

  lemma {:induction false} Continue(h: seq<McBlock>, path: seq<McBlock>, n: nat)
    requires |h| <= n <= |path| && h[..|h|] == path[..|h|]
    ensures h + path[|h|..n] == path[..n]
  {
    assert h[..|h|] == h;
  }

  /** Number of mainchain blocks, from the creation block on, the chain covers after the step. */
  function Covered(chain: seq<ScBlock>, path: seq<McBlock>, delay: nat): (n: nat)
    ensures n <= |path|
  {
    var common := Common(HeadersOf(chain), path);
    common + |NewHashes(path, common, delay)|
  }

  lemma {:induction false} NewsAreASlice(path: seq<McBlock>, common: nat, delay: nat)
    requires common <= |path|
    ensures common + |NewHashes(path, common, delay)| <= |path|
    ensures NewHashes(path, common, delay) == path[common..common + |NewHashes(path, common, delay)|]
  {
  }

  /** Another branch: what the blocks before the orphaned one carry, the part of the orphaned block
      that is still active and the new hashes line up. */
  lemma {:induction false} LeaveBranchHeaders(chain: seq<ScBlock>, path: seq<McBlock>, common: nat, news: seq<McBlock>)
    requires FollowsBranch(chain) && common < |HeadersOf(chain)|
    requires common + |news| <= |path| && news == path[common..common + |news|]
    requires HeadersOf(chain)[..common] == path[..common]
    requires LeaveBranch(chain, common, news).BranchPoint?
    ensures var bp := LeaveBranch(chain, common, news);
      HeadersOf(chain[..bp.parent + 1]) + bp.headers == path[..common + |news|]
  {
    var j := ContainingBlock(chain, common);
    CommonPart(chain, common, j);
    LineUp(HeadersOf(chain[..j]), TakeUntil(chain[j].headers, HeadersOf(chain)[common]), path, common, common + |news|);
  }

  /** After the step the chain's headers are a first part of the active branch, in both cases. */
  lemma {:induction false} BranchPointFollowsMainchain(chain: seq<ScBlock>, path: seq<McBlock>, delay: nat)
    requires FollowsBranch(chain)
    requires FindBranchPoint(chain, path, delay).BranchPoint?
    ensures var bp := FindBranchPoint(chain, path, delay);
      HeadersOf(chain[..bp.parent + 1]) + bp.headers == path[..Covered(chain, path, delay)]
  {
    var common := Common(HeadersOf(chain), path);
    var news := NewHashes(path, common, delay);
    NewsAreASlice(path, common, delay);
    CommonAgrees(HeadersOf(chain), path);
    if common == |HeadersOf(chain)| {
      assert chain[..|chain|] == chain;
      Continue(HeadersOf(chain), path, common + |news|);
    } else {
      LeaveBranchHeaders(chain, path, common, news);
    }
  }

  // ---------------------------------------------------------------- the new block passes all checks

  /** The block's headers are the stretch of the active branch after its parent's headers. */
  lemma {:induction false} NewHeaders(before: seq<McBlock>, headers: seq<McBlock>, path: seq<McBlock>, covered: nat)
    requires covered <= |path| && before + headers == path[..covered]
    ensures |before| <= covered && headers == path[|before|..covered]
    ensures IsBranch(path) ==> Chained(headers)
  {
    assert headers == (before + headers)[|before|..];
  }

  /** The ommers' headers `h[m..]` and the block's headers `path[m..covered]` start from the same
      mainchain block and differ at position `c`, which the first ommer reaches. */
  lemma {:induction false} BranchesLeave(h: seq<McBlock>, path: seq<McBlock>, m: nat, c: nat, covered: nat,
      first: Ommer)
    requires IsBranch(h) && IsBranch(path) && 1 <= m <= c < |h| < covered <= |path|
    requires h[..c] == path[..c] && h[c] != path[c]
    requires m + |first.headers| <= |h| && first.headers == h[m..m + |first.headers|] && c < m + |first.headers|
    ensures LeavesBranch(path[m..covered], first)
    ensures path[m].Mined? && h[m].Mined? && path[m].parent == h[m].parent && Chained(h[m..])
  {
    var hs := path[m..covered];
    assert first.headers[c - m] == h[c] && hs[..|first.headers|][c - m] == path[c];
    assert h[..c][m - 1] == path[..c][m - 1];
  }

  lemma {:induction false} OmmersConsecutive(chain: seq<ScBlock>, j: nat, slot: nat)
    requires ChainIds(chain) && 1 <= j <= |chain| && chain[|chain| - 1].header.slot < slot
    ensures ConsecutiveBlocks(chain[j - 1].header.id, ToOmmers(chain[j..]))
    ensures SlotsGrow(slot, ToOmmers(chain[j..]))
  {
  }

  lemma {:induction false} OmmersStayValid(chain: seq<ScBlock>, j: nat)
    requires BlocksValid(chain) && j <= |chain|
    ensures forall i :: 0 <= i < |chain| - j ==> ValidOmmer(ToOmmers(chain[j..])[i])
  {
    forall i | 0 <= i < |chain| - j ensures ValidOmmer(ToOmmers(chain[j..])[i]) {
      ValidityIsKept(chain[j + i]);
    }
  }

  /** What choosing the branch point says about the branches when blocks are left behind. */
  lemma {:induction false} BlocksLeftBehind(chain: seq<ScBlock>, path: seq<McBlock>, delay: nat, c: nat, j: nat)
    requires FollowsBranch(chain) && IsBranch(path)
    requires c == Common(HeadersOf(chain), path) >= 1
    requires FindBranchPoint(chain, path, delay).BranchPoint?
    requires j == FindBranchPoint(chain, path, delay).parent + 1 < |chain|
    ensures c < |HeadersOf(chain)| < Covered(chain, path, delay)
    ensures |HeadersOf(chain[..j])| <= c < |HeadersOf(chain[..j + 1])|
    ensures HeadersOf(chain)[c] != path[c]
  {
    NewsAreASlice(path, c, delay);
    CommonAgrees(HeadersOf(chain), path);
  }

  /** The first ommer's headers inside the headers of the chain. */
  lemma {:induction false} FirstOmmerHeaders(chain: seq<ScBlock>, j: nat)
    requires j < |chain|
    ensures |HeadersOf(chain[..j + 1])| == |HeadersOf(chain[..j])| + |chain[j].headers| <= |HeadersOf(chain)|
    ensures chain[j].headers == HeadersOf(chain)[|HeadersOf(chain[..j])|..|HeadersOf(chain[..j + 1])|]
    ensures HeadersOf(chain[j..]) == HeadersOf(chain)[|HeadersOf(chain[..j])|..]
  {
    HeadersStep(chain, j);
    HeadersSplit(chain, j + 1);
    HeadersSplit(chain, j);
  }

  /** Position `c`, carried by the block at position `j`, is where the chain leaves the active branch. */
  predicate LeavesAt(chain: seq<ScBlock>, path: seq<McBlock>, j: nat, c: nat, covered: nat) {
    && 1 <= j < |chain|
    && 1 <= |HeadersOf(chain[..j])| <= c < |HeadersOf(chain[..j + 1])|
    && c < |HeadersOf(chain)| < covered <= |path|
    && HeadersOf(chain)[..c] == path[..c] && HeadersOf(chain)[c] != path[c]
  }

  lemma {:induction false} OmmersLeaveBranch(chain: seq<ScBlock>, path: seq<McBlock>, j: nat, c: nat, covered: nat,
      headers: seq<McBlock>)
    requires IsBranch(HeadersOf(chain)) && IsBranch(path) && LeavesAt(chain, path, j, c, covered)
    requires headers == path[|HeadersOf(chain[..j])|..covered]
    ensures LeavesBranch(headers, ToOmmer(chain[j]))
    ensures SameOrigin(headers, ToOmmers(chain[j..]))
    ensures |OmmerHeaders(ToOmmers(chain[j..]))| < |headers|
  {
    OmmerHeadersOfChain(chain[j..]);
    FirstOmmerHeaders(chain, j);
    BranchesLeave(HeadersOf(chain), path, |HeadersOf(chain[..j])|, c, covered, ToOmmer(chain[j]));
  }

  lemma {:induction false} OmmersContainerIsValid(chain: seq<ScBlock>, path: seq<McBlock>, j: nat, c: nat,
      covered: nat, b: ScBlock)
    requires IsBranch(HeadersOf(chain)) && ChainIds(chain) && BlocksValid(chain) && IsBranch(path)
    requires LeavesAt(chain, path, j, c, covered)
    requires b.headers == path[|HeadersOf(chain[..j])|..covered]
    requires b.ommers == ToOmmers(chain[j..]) && b.header.ommersScore == OmmersScore(b.ommers)
    requires b.header.parentId == chain[j - 1].header.id && chain[|chain| - 1].header.slot < b.header.slot
    ensures ValidContainer(b.header, b.headers, b.ommers)
  {
    OmmersConsecutive(chain, j, b.header.slot);
    OmmersStayValid(chain, j);
    OmmersLeaveBranch(chain, path, j, c, covered, b.headers);
  }

  lemma {:induction false} GenesisHeader(chain: seq<ScBlock>, n: nat)
    requires |chain| >= 1 && chain[0] == GENESIS && 1 <= n <= |chain|
    ensures |HeadersOf(chain[..n])| >= 1
  {
    RefsOfPrefix(chain[..n], 1);
    assert chain[..n][..1] == [GENESIS];
    assert HeadersOf([GENESIS]) == HeadersOf([]) + [Creation];
  }

  /** The forged block passes the checks on its own headers and ommers. */
  lemma {:induction false} AssembledBlockIsValid(p: Params, chain: seq<ScBlock>, path: seq<McBlock>, bp: BranchPoint,
      id: nat, a: ForgeArgs)
    requires FollowsBranch(chain) && ChainIds(chain) && BlocksValid(chain) && IsBranch(path)
    requires 1 <= Common(HeadersOf(chain), path)
    requires bp == FindBranchPoint(chain, path, a.delay) && bp.BranchPoint?
    requires chain[|chain| - 1].header.slot < a.slot
    ensures ValidBlock(Assemble(p, chain, bp, id, a))
  {
    var b := Assemble(p, chain, bp, id, a);
    var j := bp.parent + 1;
    BranchPointFollowsMainchain(chain, path, a.delay);
    NewHeaders(HeadersOf(chain[..j]), bp.headers, path, Covered(chain, path, a.delay));
    if j < |chain| {
      var c := Common(HeadersOf(chain), path);
      BlocksLeftBehind(chain, path, a.delay, c, j);
      CommonAgrees(HeadersOf(chain), path);
      GenesisHeader(chain, j);
      OmmersContainerIsValid(chain, path, j, c, Covered(chain, path, a.delay), b);
    } else {
      assert b.ommers == [];
    }
  }

  // ---------------------------------------------------------------- the chain stays good

  lemma {:induction false} AlignedSnoc(chain: seq<ScBlock>, n: nat, b: ScBlock, len: Length)
    requires EpochsAligned(chain, len) && n <= |chain|
    requires |b.refData| <= BlocksLeft(EpochOf(chain[..n], len), len)
    ensures EpochsAligned(chain[..n] + [b], len)
  {
    var next := chain[..n] + [b];
    forall i | 0 <= i < |next|
      ensures |next[i].refData| <= BlocksLeft(EpochOf(next[..i], len), len)
    {
      assert next[..i] == chain[..i];
    }
  }

  lemma {:induction false} RefsFollowSnoc(chain: seq<ScBlock>, n: nat, b: ScBlock)
    requires RefsFollowHeaders(chain) && n <= |chain|
    requires RefsOf(chain[..n]) <= HeadersOf(chain[..n]) && ValidRefData(chain[..n], b)
    ensures RefsFollowHeaders(chain[..n] + [b])
  {
    var next := chain[..n] + [b];
    forall m | 0 <= m <= |next| ensures RefsOf(next[..m]) <= HeadersOf(next[..m]) {
      if m <= n {
        assert next[..m] == chain[..m];
      } else {
        assert next[..m] == next;
        ValidRefDataKeepsPrefix(chain[..n], b);
      }
    }
  }

  lemma {:induction false} BlocksSnoc(chain: seq<ScBlock>, n: nat, b: ScBlock)
    requires BlocksValid(chain) && n <= |chain| && ValidBlock(b)
    ensures BlocksValid(chain[..n] + [b])
  {
  }

  lemma {:induction false} LinksSnoc(chain: seq<ScBlock>, n: nat, b: ScBlock)
    requires ChainIds(chain) && OmmerBlocksAreBare(chain) && 1 <= n <= |chain|
    requires b.header.parentId == chain[n - 1].header.id && chain[n - 1].header.slot < b.header.slot
    requires b.ommers != [] ==> b.refData == [] && b.txs == []
    ensures ChainIds(chain[..n] + [b]) && OmmerBlocksAreBare(chain[..n] + [b])
  {
  }

  /** The block's first header continues the headers of the first `n` blocks. */
  predicate HeadersAttach(chain: seq<ScBlock>, n: nat, b: ScBlock)
    requires n <= |chain|
  {
    var h := HeadersOf(chain[..n]);
    b.headers != [] ==> h != [] && b.headers[0].Mined? && b.headers[0].parent == h[|h| - 1]
  }

  lemma {:induction false} JoinBranch(h: seq<McBlock>, more: seq<McBlock>)
    requires IsBranch(h) && Chained(more)
    requires more != [] ==> more[0].Mined? && more[0].parent == h[|h| - 1]
    ensures IsBranch(h + more)
  {
    var all := h + more;
    forall i | 1 <= i < |all| ensures all[i].Mined? && all[i].parent == all[i - 1] {
      if i > |h| {
        assert all[i] == more[i - |h|] && all[i - 1] == more[i - 1 - |h|];
      }
    }
  }

  lemma {:induction false} FollowsSnoc(chain: seq<ScBlock>, n: nat, b: ScBlock)
    requires FollowsBranch(chain) && 1 <= n <= |chain| && Chained(b.headers) && HeadersAttach(chain, n, b)
    ensures FollowsBranch(chain[..n] + [b])
  {
    GenesisHeader(chain, n);
    RefsOfPrefix(chain, n);
    JoinBranch(HeadersOf(chain[..n]), b.headers);
    HeadersOfSnoc(chain[..n], b);
  }

  /** A stretch of a branch continues what comes before it. */
  lemma {:induction false} StretchAttaches(chain: seq<ScBlock>, n: nat, b: ScBlock, path: seq<McBlock>, covered: nat)
    requires IsBranch(path) && 1 <= n <= |chain| && covered <= |path|
    requires HeadersOf(chain[..n]) != [] && HeadersOf(chain[..n]) + b.headers == path[..covered]
    ensures HeadersAttach(chain, n, b)
  {
    var h, all := HeadersOf(chain[..n]), HeadersOf(chain[..n]) + b.headers;
    if b.headers != [] {
      assert all[|h|] == path[|h|] && all[|h| - 1] == path[|h| - 1];
    }
  }

  /** The reference data of `b` continues that of the first `n` blocks and stays in the epoch, and the
      block that ends an epoch carries no transactions. */
  predicate RefsAttach(p: Params, chain: seq<ScBlock>, n: nat, b: ScBlock) {
    && n <= |chain|
    && RefsOf(chain[..n]) <= HeadersOf(chain[..n]) && ValidRefData(chain[..n], b)
    && |b.refData| <= BlocksLeft(EpochOf(chain[..n], p.epochLength), p.epochLength)
    && (|b.refData| == BlocksLeft(EpochOf(chain[..n], p.epochLength), p.epochLength) ==> b.txs == [])
  }

  /** The checks a node makes, size limits apart, before it attaches `b` after the first `n` blocks of
      `chain`. */
  predicate Attachable(p: Params, chain: seq<ScBlock>, n: nat, b: ScBlock) {
    && 1 <= n <= |chain|
    && b.header.parentId == chain[n - 1].header.id && chain[n - 1].header.slot < b.header.slot
    && HeadersAttach(chain, n, b)
    && RefsAttach(p, chain, n, b)
    && ValidBlock(b)
  }

  /** The forger's own rule: a block with ommers carries neither reference data nor transactions. */
  predicate Bare(b: ScBlock) {
    b.ommers != [] ==> b.refData == [] && b.txs == []
  }

  /** And the check it makes before it applies the block. */
  predicate Acceptable(p: Params, limit: bool, chain: seq<ScBlock>, n: nat, b: ScBlock) {
    Attachable(p, chain, n, b) && !LacksData(p, limit, chain[..n], b)
  }

  lemma {:induction false} LacksDataIff(p: Params, limit: bool, chain: seq<ScBlock>, b: ScBlock)
    ensures LacksData(p, limit, chain, b)
      <==> limit && b.refData == [] && TrailingHeaderless(chain) >= HeaderlessBound(p)
  {
  }

  /** Attaching a block that passes the node's checks gives a good chain. */
  lemma {:induction false} Extended(p: Params, chain: seq<ScBlock>, n: nat, b: ScBlock)
    requires GoodChain(p, chain) && Attachable(p, chain, n, b) && Bare(b)
    ensures GoodChain(p, chain[..n] + [b])
  {
    FollowsSnoc(chain, n, b);
    ValidRefDataKeepsPrefix(chain[..n], b);
    RefsFollowSnoc(chain, n, b);
    AlignedSnoc(chain, n, b, p.epochLength);
    BlocksSnoc(chain, n, b);
    LinksSnoc(chain, n, b);
  }

  // ---------------------------------------------------------------- one forging step

  /** A first part of the allowed reference data stays within the rules. */
  lemma {:induction false} AssembledRefs(p: Params, chain: seq<ScBlock>, bp: BranchPoint, id: nat, a: ForgeArgs)
    requires RefsFollowHeaders(chain) && bp.BranchPoint? && bp.parent < |chain|
    ensures RefsAttach(p, chain, bp.parent + 1, Assemble(p, chain, bp, id, a))
    ensures Bare(Assemble(p, chain, bp, id, a))
  {
    if bp.parent + 1 == |chain| {
      assert chain[..bp.parent + 1] == chain;
    }
  }

  lemma {:induction false} SlotsIncrease(chain: seq<ScBlock>, i: nat, k: nat)
    requires ChainIds(chain) && i <= k < |chain|
    ensures chain[i].header.slot <= chain[k].header.slot
    decreases k
  {
    if i < k {
      SlotsIncrease(chain, i, k - 1);
    }
  }

  /** The assembled block passes every check of the node that receives it. */
  lemma {:induction false} AssembledIsAttachable(p: Params, chain: seq<ScBlock>, path: seq<McBlock>, bp: BranchPoint,
      id: nat, a: ForgeArgs)
    requires FollowsBranch(chain) && ChainIds(chain) && BlocksValid(chain) && RefsFollowHeaders(chain)
    requires IsBranch(path) && 1 <= Common(HeadersOf(chain), path)
    requires bp == FindBranchPoint(chain, path, a.delay) && bp.BranchPoint?
    requires chain[|chain| - 1].header.slot < a.slot
    ensures Attachable(p, chain, bp.parent + 1, Assemble(p, chain, bp, id, a))
  {
    AssembledBlockIsValid(p, chain, path, bp, id, a);
    AssembledRefs(p, chain, bp, id, a);
    SlotsIncrease(chain, bp.parent, |chain| - 1);
    BranchPointFollowsMainchain(chain, path, a.delay);
    GenesisHeader(chain, bp.parent + 1);
    StretchAttaches(chain, bp.parent + 1, Assemble(p, chain, bp, id, a), path, Covered(chain, path, a.delay));
  }

  /** The forged block passes these checks of every node that receives it. */
  lemma {:induction false} ForgedIsAttachable(p: Params, s: State, a: ForgeArgs)
    requires GoodChain(p, s.chain) && Forge(p, s, a).Forged?
    ensures Attachable(p, s.chain, Forge(p, s, a).parent + 1, Forge(p, s, a).block)
  {
    PathIsBranch(s.mcTip);
    CreationIsShared(s.chain, s.mcTip);
    AssembledIsAttachable(p, s.chain, Path(s.mcTip), FindBranchPoint(s.chain, Path(s.mcTip), a.delay), NextId(s), a);
  }

  /** The forged block's headers extend the parent's headers along the active branch, and its ommers
      are the blocks left behind. */
  lemma {:induction false} ForgedContents(p: Params, s: State, a: ForgeArgs)
    requires FollowsBranch(s.chain) && Forge(p, s, a).Forged?
    ensures HeadersOf(s.chain[..Forge(p, s, a).parent + 1]) + Forge(p, s, a).block.headers
         == Path(s.mcTip)[..Covered(s.chain, Path(s.mcTip), a.delay)]
    ensures Forge(p, s, a).block.ommers == ToOmmers(s.chain[Forge(p, s, a).parent + 1..])
    ensures Bare(Forge(p, s, a).block)
  {
    BranchPointFollowsMainchain(s.chain, Path(s.mcTip), a.delay);
  }

  /** A block on the tip takes reference data until the budget is used up, the withdrawal epoch ends or
      nothing is missed any more. */
  lemma {:induction false} AssembledTakesAllItMay(p: Params, chain: seq<ScBlock>, bp: BranchPoint, id: nat,
      a: ForgeArgs)
    requires RefsOf(chain) <= HeadersOf(chain) && bp.BranchPoint? && bp.parent + 1 == |chain|
    ensures var b, left := Assemble(p, chain, bp, id, a), BlocksLeft(EpochOf(chain, p.epochLength), p.epochLength);
      |b.refData| == a.refBudget || |b.refData| == left || RefsOf(chain) + b.refData == HeadersOf(chain) + b.headers
  {
    TakesAll(RefsOf(chain), HeadersOf(chain), bp.headers);
    var missing := Missed(chain) + bp.headers;
    assert missing[..|missing|] == missing;
  }

  /** Adding everything missed to the reference data makes it equal to the headers. */
  lemma {:induction false} TakesAll(refs: seq<McBlock>, headers: seq<McBlock>, more: seq<McBlock>)
    requires refs <= headers
    ensures refs + ((if |refs| < |headers| then headers[|refs|..] else []) + more) == headers + more
  {
    assert refs + headers[|refs|..] == headers;
  }
}
