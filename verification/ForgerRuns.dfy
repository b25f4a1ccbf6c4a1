/**
 Every run of one forger under any sequence of mainchain extensions, reorganisations and forging
 attempts with any mix of delays.
 */
module ForgerRuns {
  import opened Mainchain
  import opened Sidechain
  import opened OmmersValidation
  import opened Forger
  import opened ForgerSteps

  /** Forged blocks are numbered in the order they were made. */
  predicate IdsGrow(blocks: seq<ScBlock>, next: nat) {
    && (forall i :: 0 <= i < |blocks| ==> 0 < blocks[i].header.id < next)
    && (forall i, k :: 0 <= i < k < |blocks| ==> blocks[i].header.id < blocks[k].header.id)
  }

  /** The active chain remembers exactly the adopted blocks, in the order they were forged, each with
      the ommers it had when it was forged. */
  predicate Remembers(s: State) {
    && Flatten(s.chain) == ToOmmers([GENESIS] + s.adopted)
    && IdsGrow(s.adopted, NextId(s))
  }

  predicate Inv(p: Params, s: State) {
    GoodChain(p, s.chain) && Remembers(s)
  }

  // ---------------------------------------------------------------- score

  /** Attaching a block whose ommers are the blocks left behind appends it to what the chain
      remembers, whatever was left behind. */
  lemma {:induction false} AttachRemembers(chain: seq<ScBlock>, n: nat, b: ScBlock)
    requires n <= |chain| && b.ommers == ToOmmers(chain[n..])
    ensures Flatten(chain[..n] + [b]) == Flatten(chain) + [ToOmmer(b)]
    ensures ChainScore(chain[..n]) + BlockScore(b) == ChainScore(chain) + 1
  {
    FlattenSnoc(chain[..n], b);
    assert chain == chain[..n] + chain[n..];
    FlattenConcat(chain[..n], chain[n..]);
    ChainScoreIsFlattenLength(chain[..n]);
    ChainScoreIsFlattenLength(chain);
    ScoreIsFlattenLength(b.ommers);
  }

  /** The node's own fork choice never refuses a forged block.  What refuses it is the limit on the
      number of replaced blocks, or the limit on blocks without headers when it brings no reference data. */
  lemma {:induction false} AdoptedIff(p: Params, s: State, a: ForgeArgs)
    requires GoodChain(p, s.chain) && Forge(p, s, a).Forged?
    ensures var r := Forge(p, s, a);
      && IsBest(s.chain, r.parent, r.block)
      && (Adopts(p, a.headerlessLimit, s.chain, r.parent, r.block) <==>
            && |s.chain| - 1 - r.parent <= p.maxRewrite
            && !(a.headerlessLimit && r.block.refData == []
                 && TrailingHeaderless(s.chain[..r.parent + 1]) >= HeaderlessBound(p)))
  {
    var r := Forge(p, s, a);
    ForgedContents(p, s, a);
    AttachRemembers(s.chain, r.parent + 1, r.block);
    LacksDataIff(p, a.headerlessLimit, s.chain[..r.parent + 1], r.block);
  }

  // ---------------------------------------------------------------- the invariant

  lemma {:induction false} AdoptKeepsGoodChain(p: Params, s: State, a: ForgeArgs)
    requires GoodChain(p, s.chain) && Forge(p, s, a).Forged?
    ensures var r := Forge(p, s, a);
      && GoodChain(p, s.chain[..r.parent + 1] + [r.block])
      && HeadersOf(s.chain[..r.parent + 1] + [r.block]) == Path(s.mcTip)[..Covered(s.chain, Path(s.mcTip), a.delay)]
  {
    var r := Forge(p, s, a);
    ForgedIsAttachable(p, s, a);
    ForgedContents(p, s, a);
    Extended(p, s.chain, r.parent + 1, r.block);
    HeadersOfSnoc(s.chain[..r.parent + 1], r.block);
  }

  lemma {:induction false} IdsGrowSnoc(blocks: seq<ScBlock>, next: nat, b: ScBlock)
    requires IdsGrow(blocks, next) && b.header.id == next > 0
    ensures IdsGrow(blocks + [b], next + 1)
  {
  }

  lemma {:induction false} RememberSnoc(blocks: seq<ScBlock>, b: ScBlock)
    ensures ToOmmers([GENESIS] + (blocks + [b])) == ToOmmers([GENESIS] + blocks) + [ToOmmer(b)]
  {
  }

  lemma {:induction false} AppendRemembers(p: Params, limit: bool, s: State, parent: nat, b: ScBlock)
    requires Remembers(s) && parent < |s.chain|
    requires b.ommers == ToOmmers(s.chain[parent + 1..]) && b.header.id == NextId(s)
    ensures Remembers(Append(p, limit, s, parent, b))
  {
    AttachRemembers(s.chain, parent + 1, b);
    RememberSnoc(s.adopted, b);
    IdsGrowSnoc(s.adopted, NextId(s), b);
  }

  lemma {:induction false} OutcomeKeepsInv(p: Params, limit: bool, s: State, r: ForgeResult)
    requires Inv(p, s)
    requires r.Forged? ==> r.parent < |s.chain|
    requires r.Forged? ==> GoodChain(p, s.chain[..r.parent + 1] + [r.block])
    requires r.Forged? ==> Remembers(Append(p, limit, s, r.parent, r.block))
    ensures Inv(p, Outcome(p, limit, s, r))
  {
  }

  lemma {:induction false} ForgeRemembers(p: Params, s: State, a: ForgeArgs)
    requires GoodChain(p, s.chain) && Remembers(s) && Forge(p, s, a).Forged?
    ensures Remembers(Append(p, a.headerlessLimit, s, Forge(p, s, a).parent, Forge(p, s, a).block))
  {
    ForgedContents(p, s, a);
    AppendRemembers(p, a.headerlessLimit, s, Forge(p, s, a).parent, Forge(p, s, a).block);
  }

  lemma {:induction false} ForgeKeepsInv(p: Params, s: State, a: ForgeArgs)
    requires Inv(p, s)
    ensures Inv(p, Outcome(p, a.headerlessLimit, s, Forge(p, s, a)))
  {
    if Forge(p, s, a).Forged? {
      AdoptKeepsGoodChain(p, s, a);
      ForgeRemembers(p, s, a);
    }
    OutcomeKeepsInv(p, a.headerlessLimit, s, Forge(p, s, a));
  }

  lemma {:induction false} MainchainKeepsInv(p: Params, s: State, tip: McBlock)
    requires Inv(p, s)
    ensures Inv(p, s.(mcTip := tip))
  {
  }

  lemma {:induction false} StepKeepsInv(p: Params, s: State, step: Step)
    requires Inv(p, s)
    ensures Inv(p, Apply(p, s, step))
  {
    match step
    case Extend(c, salt) => MainchainKeepsInv(p, s, Mined(s.mcTip, c, salt));
    case Reorg(t) => MainchainKeepsInv(p, s, t);
    case TryForge(a) => ForgeKeepsInv(p, s, a);
  }

  lemma {:induction false} GenesisIsGood(p: Params)
    ensures GoodChain(p, [GENESIS])
  {
    var c := [GENESIS];
    assert c[..0] == [];
    assert HeadersOf(c) == HeadersOf([]) + [Creation] == [Creation];
    assert RefsOf(c) == RefsOf([]) + [Creation] == [Creation];
    forall n | 0 <= n <= |c| ensures RefsOf(c[..n]) <= HeadersOf(c[..n]) {
      assert c[..n] == [] || c[..n] == c;
    }
    assert EpochOf([], p.epochLength) == EpochInfo(0, 0);
  }

  lemma {:induction false} InitialInv(p: Params)
    ensures Inv(p, INITIAL)
  {
    GenesisIsGood(p);
    FlattenSnoc([], GENESIS);
    assert [] + [GENESIS] == [GENESIS] && [GENESIS] + [] == [GENESIS];
  }

  // ---------------------------------------------------------------- runs

  /** The state after a run. */
  function Run(p: Params, steps: seq<Step>): State {
    if steps == [] then INITIAL else Apply(p, Run(p, steps[..|steps| - 1]), steps[|steps| - 1])
  }

  lemma {:induction false} RunKeepsInv(p: Params, steps: seq<Step>)
    ensures Inv(p, Run(p, steps))
  {
    if steps == [] {
      InitialInv(p);
    } else {
      RunKeepsInv(p, steps[..|steps| - 1]);
      StepKeepsInv(p, Run(p, steps[..|steps| - 1]), steps[|steps| - 1]);
    }
  }

  /** The mainchain's branch only ever gives way to a longer one. */
  lemma {:induction false} SwitchesIfLonger(p: Params, s: State, tip: McBlock)
    ensures Apply(p, s, Reorg(tip)) == if |Path(tip)| > |Path(s.mcTip)| then s.(mcTip := tip) else s
  {
  }

  lemma {:induction false} RunSnoc(p: Params, steps: seq<Step>, step: Step)
    ensures Run(p, steps + [step]) == Apply(p, Run(p, steps), step)
  {
    assert (steps + [step])[..|steps|] == steps;
  }

  // ---------------------------------------------------------------- what holds in every run

  function ForgedCount(s: State): nat {
    |s.adopted| + |s.rejected|
  }

  /** The tip's score counts the genesis block and every adopted block once, so it counts every forged
      block exactly when none was refused. */
  lemma {:induction false} ScoreCountsForgedBlocks(p: Params, steps: seq<Step>)
    ensures ChainScore(Run(p, steps).chain) == 1 + |Run(p, steps).adopted|
    ensures ChainScore(Run(p, steps).chain) == 1 + ForgedCount(Run(p, steps)) <==> Run(p, steps).rejected == []
  {
    RunKeepsInv(p, steps);
    ChainScoreIsFlattenLength(Run(p, steps).chain);
  }

  /** A block whose ommers are the blocks left behind raises the score by exactly one, unless it would
      replace too many blocks or brings no reference data after too many blocks without headers; then
      the chain stays as it is. */
  predicate RaisesScore(p: Params, limit: bool, s: State, parent: nat, b: ScBlock, after: State)
    requires parent < |s.chain|
  {
    if |s.chain| - 1 - parent <= p.maxRewrite && !LacksData(p, limit, s.chain[..parent + 1], b) then
      && after.chain == s.chain[..parent + 1] + [b]
      && ChainScore(after.chain) == ChainScore(s.chain) + 1
      && after.adopted == s.adopted + [b] && after.rejected == s.rejected
    else
      after.chain == s.chain && after.adopted == s.adopted && after.rejected == s.rejected + [b]
  }

  lemma {:induction false} AppendRaisesScore(p: Params, limit: bool, s: State, parent: nat, b: ScBlock)
    requires parent < |s.chain| && b.ommers == ToOmmers(s.chain[parent + 1..])
    ensures RaisesScore(p, limit, s, parent, b, Append(p, limit, s, parent, b))
  {
    AttachRemembers(s.chain, parent + 1, b);
    assert (s.chain[..parent + 1] + [b])[..parent + 1] == s.chain[..parent + 1];
  }

  lemma {:induction false} ForgeRaisesScoreByOne(p: Params, s: State, a: ForgeArgs)
    requires GoodChain(p, s.chain) && Forge(p, s, a).Forged?
    ensures RaisesScore(p, a.headerlessLimit, s, Forge(p, s, a).parent, Forge(p, s, a).block,
                        Apply(p, s, TryForge(a)))
  {
    AppendRaisesScore(p, a.headerlessLimit, s, Forge(p, s, a).parent, Forge(p, s, a).block);
  }

  lemma {:induction false} RememberedInOrder(s: State, i: nat, k: nat)
    requires Remembers(s) && i < k < |Flatten(s.chain)|
    ensures Flatten(s.chain)[i].header.id < Flatten(s.chain)[k].header.id
  {
    var all := [GENESIS] + s.adopted;
    assert ToOmmers(all)[k] == ToOmmer(all[k]) && ToOmmers(all)[i] == ToOmmer(all[i]);
    assert all[k] == s.adopted[k - 1];
    assert i > 0 ==> all[i] == s.adopted[i - 1];
  }

  /** The blocks a chain remembers are pairwise different. */
  lemma {:induction false} RememberedOnce(p: Params, steps: seq<Step>, i: nat, k: nat)
    requires i < k < |Flatten(Run(p, steps).chain)|
    ensures Flatten(Run(p, steps).chain)[i].header.id < Flatten(Run(p, steps).chain)[k].header.id
  {
    RunKeepsInv(p, steps);
    RememberedInOrder(Run(p, steps), i, k);
  }

  // ---------------------------------------------------------------- the parent is the deepest active block

  /** The chain's first `n` blocks carry only headers of the active branch. */
  predicate Active(chain: seq<ScBlock>, n: nat, path: seq<McBlock>)
    requires n <= |chain|
  {
    HeadersOf(chain[..n]) <= path
  }

  lemma {:induction false} ActiveUpToCommon(chain: seq<ScBlock>, n: nat, path: seq<McBlock>)
    requires n <= |chain|
    ensures Active(chain, n, path) <==> |HeadersOf(chain[..n])| <= Common(HeadersOf(chain), path)
  {
    var h, k := HeadersOf(chain), |HeadersOf(chain[..n])|;
    RefsOfPrefix(chain, n);
    assert HeadersOf(chain[..n]) == h[..k];
    CommonAgrees(h, path);
    var c := Common(h, path);
    if k <= c {
      assert h[..k] == h[..c][..k] == path[..c][..k] == path[..k];
    }
    if h[..k] <= path {
      CommonIsLongest(h, path, k);
    }
  }

  /** The parent is the last block with only active headers behind it, the ommers are the blocks after
      the parent, in order and with their own ommers, and a block with ommers carries no reference data
      and no transactions. */
  predicate WellPlaced(chain: seq<ScBlock>, path: seq<McBlock>, parent: nat, b: ScBlock)
    requires parent < |chain|
  {
    && (forall n {:trigger Active(chain, n, path)} ::
          1 <= n <= |chain| ==> (Active(chain, n, path) <==> n <= parent + 1))
    && b.ommers == ToOmmers(chain[parent + 1..])
    && Bare(b)
  }

  lemma {:induction false} ForgedIsWellPlaced(p: Params, s: State, a: ForgeArgs)
    requires GoodChain(p, s.chain) && Forge(p, s, a).Forged?
    ensures WellPlaced(s.chain, Path(s.mcTip), Forge(p, s, a).parent, Forge(p, s, a).block)
  {
    CreationIsShared(s.chain, s.mcTip);
    ForgedContents(p, s, a);
    forall n | 1 <= n <= |s.chain|
      ensures Active(s.chain, n, Path(s.mcTip)) <==> n <= Forge(p, s, a).parent + 1
    {
      DeepestActive(s.chain, Path(s.mcTip), a.delay, n);
    }
  }

  /** A block is active exactly up to the parent. */
  lemma {:induction false} ParentIsDeepestActiveBlock(p: Params, s: State, a: ForgeArgs, n: nat)
    requires GoodChain(p, s.chain) && Forge(p, s, a).Forged? && 1 <= n <= |s.chain|
    ensures Active(s.chain, n, Path(s.mcTip)) <==> n <= Forge(p, s, a).parent + 1
    ensures Forge(p, s, a).block.ommers == ToOmmers(s.chain[Forge(p, s, a).parent + 1..])
  {
    ForgedIsWellPlaced(p, s, a);
  }

  lemma {:induction false} DeepestActive(chain: seq<ScBlock>, path: seq<McBlock>, delay: nat, n: nat)
    requires |chain| >= 1 && chain[0] == GENESIS && 1 <= Common(HeadersOf(chain), path) && 1 <= n <= |chain|
    requires FindBranchPoint(chain, path, delay).BranchPoint?
    ensures Active(chain, n, path) <==> n <= FindBranchPoint(chain, path, delay).parent + 1
  {
    var c := Common(HeadersOf(chain), path);
    ActiveUpToCommon(chain, n, path);
    RefsOfPrefix(chain, n);
    if c < |HeadersOf(chain)| {
      var j := ContainingBlock(chain, c);
      if n <= j {
        HeadersGrow(chain, n, j);
      } else {
        HeadersGrow(chain, j + 1, n);
      }
    }
  }

  lemma {:induction false} HeadersGrow(chain: seq<ScBlock>, i: nat, k: nat)
    requires i <= k <= |chain|
    ensures |HeadersOf(chain[..i])| <= |HeadersOf(chain[..k])|
  {
    RefsOfPrefix(chain[..k], i);
    assert chain[..k][..i] == chain[..i];
  }

  // ---------------------------------------------------------------- one contiguous mainchain path

  lemma {:induction false} GoodChainFormsOnePath(p: Params, chain: seq<ScBlock>)
    requires GoodChain(p, chain)
    ensures var h := HeadersOf(chain);
      h != [] && h == Path(h[|h| - 1]) && NoRepeats(h) && RefsOf(chain) <= h
  {
    BranchIsPath(HeadersOf(chain));
    BranchHasNoRepeats(HeadersOf(chain));
    assert chain[..|chain|] == chain;
  }

  /** In every run the headers along the chain are the path of their last block, no mainchain block
      occurs twice, and the reference data is a first part of the same path. */
  lemma {:induction false} HeadersFormOnePath(p: Params, steps: seq<Step>)
    ensures var h := HeadersOf(Run(p, steps).chain);
      h != [] && h == Path(h[|h| - 1]) && NoRepeats(h) && RefsOf(Run(p, steps).chain) <= h
  {
    RunKeepsInv(p, steps);
    GoodChainFormsOnePath(p, Run(p, steps).chain);
  }

  /** An adopted block brings the chain back to the active branch, up to the last block that one
      request and the delay allow, whoever forged the blocks before. */
  lemma {:induction false} AdoptionFollowsActiveBranch(p: Params, s: State, a: ForgeArgs)
    requires GoodChain(p, s.chain) && Forge(p, s, a).Forged?
    requires Adopts(p, a.headerlessLimit, s.chain, Forge(p, s, a).parent, Forge(p, s, a).block)
    ensures HeadersOf(Apply(p, s, TryForge(a)).chain) == Path(s.mcTip)[..Covered(s.chain, Path(s.mcTip), a.delay)]
  {
    AdoptKeepsGoodChain(p, s, a);
  }

  // ---------------------------------------------------------------- every forged block of every run

  /** Every node accepts it, unless it brings no reference data after too many blocks without headers. */
  lemma {:induction false} EveryForgedBlockIsAccepted(p: Params, steps: seq<Step>, a: ForgeArgs)
    requires Forge(p, Run(p, steps), a).Forged?
    ensures var s, r := Run(p, steps), Forge(p, Run(p, steps), a);
      && Attachable(p, s.chain, r.parent + 1, r.block)
      && (Acceptable(p, a.headerlessLimit, s.chain, r.parent + 1, r.block) <==>
            !(a.headerlessLimit && r.block.refData == []
              && TrailingHeaderless(s.chain[..r.parent + 1]) >= HeaderlessBound(p)))
  {
    var s, r := Run(p, steps), Forge(p, Run(p, steps), a);
    RunKeepsInv(p, steps);
    ForgedIsAttachable(p, s, a);
    LacksDataIff(p, a.headerlessLimit, s.chain[..r.parent + 1], r.block);
  }

  /** It raises the score by exactly one, or is refused by one of the two limits. */
  lemma {:induction false} EveryForgeRaisesScoreByOne(p: Params, steps: seq<Step>, a: ForgeArgs)
    requires Forge(p, Run(p, steps), a).Forged?
    ensures var s, r := Run(p, steps), Forge(p, Run(p, steps), a);
      RaisesScore(p, a.headerlessLimit, s, r.parent, r.block, Run(p, steps + [TryForge(a)]))
  {
    RunKeepsInv(p, steps);
    ForgeRaisesScoreByOne(p, Run(p, steps), a);
    RunSnoc(p, steps, TryForge(a));
  }

  /** It extends the deepest block with only active headers and takes everything after it as ommers. */
  lemma {:induction false} EveryForgedBlockIsWellPlaced(p: Params, steps: seq<Step>, a: ForgeArgs)
    requires Forge(p, Run(p, steps), a).Forged?
    ensures WellPlaced(Run(p, steps).chain, Path(Run(p, steps).mcTip), Forge(p, Run(p, steps), a).parent,
      Forge(p, Run(p, steps), a).block)
  {
    RunKeepsInv(p, steps);
    ForgedIsWellPlaced(p, Run(p, steps), a);
  }
}
