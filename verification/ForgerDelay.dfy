/**
 The mainchain reference delay: how it protects from reorganisations, when a reorganisation stops the
 forger for good, and how the limit on blocks without mainchain headers bounds what is left behind.
 */
module ForgerDelay {
  import opened Mainchain
  import opened Sidechain
  import opened OmmersValidation
  import opened Forger
  import opened ForgerSteps
  import opened ForgerRuns

  // ---------------------------------------------------------------- ommers appear exactly after orphaning

  lemma {:induction false} WellPlacedOmmers(chain: seq<ScBlock>, path: seq<McBlock>, parent: nat, b: ScBlock)
    requires parent < |chain| && WellPlaced(chain, path, parent, b)
    ensures b.ommers == [] <==> HeadersOf(chain) <= path
  {
    assert Active(chain, |chain|, path) <==> |chain| <= parent + 1;
    assert chain[..|chain|] == chain;
  }

  /** A forged block has ommers exactly when the chain carries a header that is no longer active. */
  lemma {:induction false} OmmersIffOrphaned(p: Params, s: State, a: ForgeArgs)
    requires GoodChain(p, s.chain) && Forge(p, s, a).Forged?
    ensures Forge(p, s, a).block.ommers == [] <==> HeadersOf(s.chain) <= Path(s.mcTip)
  {
    ForgedIsWellPlaced(p, s, a);
    WellPlacedOmmers(s.chain, Path(s.mcTip), Forge(p, s, a).parent, Forge(p, s, a).block);
  }

  /** And so in every run. */
  lemma {:induction false} EveryOmmerIsOrphaned(p: Params, steps: seq<Step>, a: ForgeArgs)
    requires Forge(p, Run(p, steps), a).Forged?
    ensures Forge(p, Run(p, steps), a).block.ommers == []
      <==> HeadersOf(Run(p, steps).chain) <= Path(Run(p, steps).mcTip)
  {
    RunKeepsInv(p, steps);
    OmmersIffOrphaned(p, Run(p, steps), a);
  }

  // ---------------------------------------------------------------- when transactions are carried

  lemma {:induction false} CompletesIff(chain: seq<ScBlock>, b: ScBlock, len: Length)
    requires EpochsAligned(chain, len) && |b.refData| <= BlocksLeft(EpochOf(chain, len), len)
    ensures EpochOf(chain + [b], len).lastIndex == len <==> |b.refData| == BlocksLeft(EpochOf(chain, len), len)
  {
    assert (chain + [b])[..|chain|] == chain;
    EpochCountsReferences(chain, len);
    NextEpochAligned(|b.refData|, EpochOf(chain, len), len);
  }

  lemma {:induction false} AssembledTxs(p: Params, chain: seq<ScBlock>, bp: BranchPoint, id: nat, a: ForgeArgs)
    requires bp.BranchPoint? && bp.parent < |chain| && EpochsAligned(chain, p.epochLength)
    ensures var b := Assemble(p, chain, bp, id, a);
      b.txs == if b.ommers == [] && EpochOf(chain + [b], p.epochLength).lastIndex != p.epochLength then a.txs else []
  {
    if bp.parent == |chain| - 1 {
      assert chain[..|chain|] == chain;
      CompletesIff(chain, Assemble(p, chain, bp, id, a), p.epochLength);
    }
  }

  /** In every run the offered transactions go into the block if and only if all of the chain's headers are
      active and the block does not complete its withdrawal epoch; otherwise it carries none. */
  lemma {:induction false} TransactionsCarriedIff(p: Params, steps: seq<Step>, a: ForgeArgs)
    requires Forge(p, Run(p, steps), a).Forged? && a.txs != []
    ensures var s, b := Run(p, steps), Forge(p, Run(p, steps), a).block;
      && (b.txs == a.txs || b.txs == [])
      && (b.txs == a.txs <==>
            && HeadersOf(s.chain) <= Path(s.mcTip)
            && EpochOf(s.chain + [b], p.epochLength).lastIndex != p.epochLength)
  {
    var s := Run(p, steps);
    EveryOmmerIsOrphaned(p, steps, a);
    RunKeepsInv(p, steps);
    AssembledTxs(p, s.chain, FindBranchPoint(s.chain, Path(s.mcTip), a.delay), NextId(s), a);
  }

  // ---------------------------------------------------------------- shallow reorganisations

  /** Mainchain blocks a switch from one branch to another disconnects. */
  function Disconnected(from: McBlock, to: McBlock): nat {
    |Path(from)| - Common(Path(from), Path(to))
  }

  /** Reorganisations disconnect at most `d` blocks and forgers wait for at least `d`. */
  predicate ShallowStep(s: State, step: Step, d: nat) {
    match step
    case Extend(_, _) => true
    case Reorg(t) => Height(t) > Height(s.mcTip) ==> Disconnected(s.mcTip, t) <= d
    case TryForge(a) => a.delay >= d
  }

  predicate ShallowRun(p: Params, steps: seq<Step>, d: nat)
  {
    steps != [] ==>
      && ShallowRun(p, steps[..|steps| - 1], d)
      && ShallowStep(Run(p, steps[..|steps| - 1]), steps[|steps| - 1], d)
  }

  /** The chain's headers are active and, the creation block aside, at least `d` deep. */
  predicate Buried(h: seq<McBlock>, path: seq<McBlock>, d: nat) {
    h <= path && (|h| + d <= |path| || |h| == 1)
  }

  predicate NoOmmers(blocks: seq<ScBlock>) {
    forall i :: 0 <= i < |blocks| ==> blocks[i].ommers == []
  }

  predicate Calm(s: State, d: nat) {
    && Buried(HeadersOf(s.chain), Path(s.mcTip), d)
    && NoOmmers(s.chain) && NoOmmers(s.adopted) && NoOmmers(s.rejected)
  }

  lemma {:induction false} BuriedSurvivesSwitch(h: seq<McBlock>, from: seq<McBlock>, to: seq<McBlock>, d: nat)
    requires Buried(h, from, d) && IsBranch(from) && IsBranch(to) && |from| < |to|
    requires |from| - Common(from, to) <= d
    ensures Buried(h, to, d)
  {
    CommonAgrees(from, to);
    var c := Common(from, to);
    if |h| <= c {
      assert h == from[..|h|] == from[..c][..|h|] == to[..c][..|h|] == to[..|h|];
    }
  }

  lemma {:induction false} CoveredIsBuried(chain: seq<ScBlock>, path: seq<McBlock>, delay: nat, d: nat)
    requires Buried(HeadersOf(chain), path, d) && delay >= d
    ensures 1 <= |HeadersOf(chain)| ==> Buried(path[..Covered(chain, path, delay)], path, d)
  {
    var h := HeadersOf(chain);
    CommonIsLongest(h, path, |h|);
    assert Common(h, path) == |h|;
  }

  lemma {:induction false} CalmForge(p: Params, s: State, a: ForgeArgs, d: nat)
    requires Inv(p, s) && Calm(s, d) && a.delay >= d && Forge(p, s, a).Forged?
    ensures Forge(p, s, a).parent == |s.chain| - 1
    ensures Forge(p, s, a).block.ommers == []
    ensures Buried(HeadersOf(s.chain + [Forge(p, s, a).block]), Path(s.mcTip), d)
  {
    OmmersIffOrphaned(p, s, a);
    CoveredIsBuried(s.chain, Path(s.mcTip), a.delay, d);
    AdoptKeepsGoodChain(p, s, a);
    assert s.chain[..|s.chain|] == s.chain;
  }

  lemma {:induction false} CalmOutcome(p: Params, limit: bool, s: State, b: ScBlock, d: nat)
    requires |s.chain| >= 1 && Calm(s, d) && b.ommers == [] && Buried(HeadersOf(s.chain + [b]), Path(s.mcTip), d)
    ensures Calm(Append(p, limit, s, |s.chain| - 1, b), d)
    ensures !limit ==> Append(p, limit, s, |s.chain| - 1, b).rejected == s.rejected
  {
    assert s.chain[..|s.chain|] == s.chain;
  }

  lemma {:induction false} CalmMainchain(s: State, tip: McBlock, d: nat)
    requires Calm(s, d) && Height(tip) > Height(s.mcTip) && Disconnected(s.mcTip, tip) <= d
    ensures Calm(s.(mcTip := tip), d)
  {
    PathIsBranch(s.mcTip);
    PathIsBranch(tip);
    BuriedSurvivesSwitch(HeadersOf(s.chain), Path(s.mcTip), Path(tip), d);
  }

  lemma {:induction false} ExtendDisconnectsNothing(tip: McBlock, c: nat, salt: nat)
    ensures Disconnected(tip, Mined(tip, c, salt)) == 0
  {
    CommonIsLongest(Path(tip), Path(Mined(tip, c, salt)), |Path(tip)|);
  }

  lemma {:induction false} StepKeepsCalm(p: Params, s: State, step: Step, d: nat)
    requires Inv(p, s) && Calm(s, d) && ShallowStep(s, step, d)
    ensures Calm(Apply(p, s, step), d)
    ensures !(step.TryForge? && step.args.headerlessLimit) ==> Apply(p, s, step).rejected == s.rejected
  {
    match step
    case Extend(c, salt) =>
      ExtendDisconnectsNothing(s.mcTip, c, salt);
      CalmMainchain(s, Mined(s.mcTip, c, salt), d);
    case Reorg(t) =>
      if Height(t) > Height(s.mcTip) {
        CalmMainchain(s, t, d);
      }
    case TryForge(a) =>
      if Forge(p, s, a).Forged? {
        CalmForge(p, s, a, d);
        CalmOutcome(p, a.headerlessLimit, s, Forge(p, s, a).block, d);
      }
  }

  lemma {:induction false} InitialIsCalm(d: nat)
    ensures Calm(INITIAL, d)
  {
    assert HeadersOf([GENESIS]) == HeadersOf([]) + [Creation];
  }

  /** The limit on blocks without mainchain headers is in no attempt active. */
  predicate NoLimit(steps: seq<Step>) {
    forall i :: 0 <= i < |steps| && steps[i].TryForge? ==> !steps[i].args.headerlessLimit
  }

  /** With reorganisations that disconnect at most `d` blocks and forgers that wait for `d` blocks,
      no block ever gets an ommer and every header stays active.  Without the limit on blocks without
      headers, no block is refused either. */
  lemma {:induction false} DelayPreventsOmmers(p: Params, steps: seq<Step>, d: nat)
    requires ShallowRun(p, steps, d)
    ensures Calm(Run(p, steps), d)
    ensures NoLimit(steps) ==> Run(p, steps).rejected == []
  {
    if steps == [] {
      InitialIsCalm(d);
    } else {
      var n := |steps| - 1;
      DelayPreventsOmmers(p, steps[..n], d);
      RunKeepsInv(p, steps[..n]);
      StepKeepsCalm(p, Run(p, steps[..n]), steps[n], d);
    }
  }

  // ---------------------------------------------------------------- deep reorganisations

  /** Headers of the chain that are no longer active. */
  function Orphaned(chain: seq<ScBlock>, path: seq<McBlock>): nat {
    |HeadersOf(chain)| - Common(HeadersOf(chain), path)
  }

  /** Hashes one request brings after the common part and the delay. */
  function Available(chain: seq<ScBlock>, path: seq<McBlock>, delay: nat): nat {
    var behind := |path| - Common(HeadersOf(chain), path);
    var got := if behind < MAX_NEW_HEADERS then behind else MAX_NEW_HEADERS;
    if got > delay then got - delay else 0
  }

  /** Forging is refused exactly when there are orphaned headers and not more new ones than those. */
  lemma {:induction false} NoSenseIff(chain: seq<ScBlock>, path: seq<McBlock>, delay: nat)
    requires |chain| >= 1 && chain[0] == GENESIS && 1 <= Common(HeadersOf(chain), path)
    ensures FindBranchPoint(chain, path, delay).NoBranch?
      <==> Orphaned(chain, path) > 0 && Orphaned(chain, path) >= Available(chain, path, delay)
  {
  }

  /** With the mainchain at `later` the forger refuses. */
  predicate StoppedAt(chain: seq<ScBlock>, later: McBlock, delay: nat) {
    FindBranchPoint(chain, Path(later), delay).NoBranch?
  }

  /** When the mainchain only grows from `tip` on, the forger stays stopped for good exactly when the
      orphaned headers are at least as many as one request can bring. */
  lemma {:induction false} StoppedForGoodIff(chain: seq<ScBlock>, tip: McBlock, delay: nat)
    requires FollowsBranch(chain) && Common(HeadersOf(chain), Path(tip)) < |Path(tip)|
    requires Orphaned(chain, Path(tip)) > 0
    ensures (forall later :: Path(tip) <= Path(later) ==> StoppedAt(chain, later, delay))
      <==> Orphaned(chain, Path(tip)) + delay >= MAX_NEW_HEADERS
  {
    forall later | Path(tip) <= Path(later)
      ensures StoppedAt(chain, later, delay) <==> Orphaned(chain, Path(tip)) >= Available(chain, Path(later), delay)
      ensures Common(HeadersOf(chain), Path(later)) == Common(HeadersOf(chain), Path(tip))
    {
      CreationIsShared(chain, later);
      CommonOfLonger(HeadersOf(chain), Path(tip), Path(later));
      NoSenseIff(chain, Path(later), delay);
    }
    if Orphaned(chain, Path(tip)) + delay < MAX_NEW_HEADERS {
      GrowExtends(tip, MAX_NEW_HEADERS);
      assert !StoppedAt(chain, Grow(tip, MAX_NEW_HEADERS), delay);
    }
  }

  /** A branch `n` blocks longer. */
  function Grow(tip: McBlock, n: nat): McBlock {
    if n == 0 then tip else Mined(Grow(tip, n - 1), 0, 0)
  }

  lemma {:induction false} GrowExtends(tip: McBlock, n: nat)
    ensures Path(tip) <= Path(Grow(tip, n)) && |Path(Grow(tip, n))| == |Path(tip)| + n
  {
    if n > 0 {
      GrowExtends(tip, n - 1);
    }
  }

  /** A branch that has left another one never meets it again. */
  lemma {:induction false} CommonOfLonger(h: seq<McBlock>, path: seq<McBlock>, longer: seq<McBlock>)
    requires Common(h, path) < |h| && Common(h, path) < |path| && path <= longer
    ensures Common(h, longer) == Common(h, path)
  {
    var c := Common(h, path);
    CommonAgrees(h, path);
    assert longer[..c] == path[..c];
    CommonIsLongest(h, longer, c);
    CommonAgrees(h, longer);
    assert longer[c] == path[c];
  }

  // ---------------------------------------------------------------- the delay is sharp

  /** A forger that waits for 48 blocks or more never makes a block with ommers. */
  lemma {:induction false} LongDelayNeverLeavesBlocks(p: Params, s: State, a: ForgeArgs)
    requires GoodChain(p, s.chain) && Forge(p, s, a).Forged? && a.delay + 1 >= MAX_NEW_HEADERS
    ensures Forge(p, s, a).block.ommers == []
  {
    var h, path := HeadersOf(s.chain), Path(s.mcTip);
    CreationIsShared(s.chain, s.mcTip);
    NoSenseIff(s.chain, path, a.delay);
    CommonAgrees(h, path);
    assert Common(h, path) == |h| ==> h[..|h|] == h;
    OmmersIffOrphaned(p, s, a);
  }

  /** A branch of `n` blocks on the creation block that differs from `Grow(Creation, n)` at once. */
  function Fork(n: nat): McBlock {
    if n == 0 then Creation else Mined(Fork(n - 1), 0, 1)
  }

  lemma {:induction false} ForkLeaves(n: nat, m: nat)
    requires n > 0 && m > 0
    ensures |Path(Grow(Creation, n))| == n + 1 && |Path(Fork(m))| == m + 1
    ensures Common(Path(Grow(Creation, n)), Path(Fork(m))) == 1
  {
    Starts(n);
    StartsFork(m);
    var a, b := Path(Grow(Creation, n)), Path(Fork(m));
    CommonIsLongest(a, b, 1);
    CommonAgrees(a, b);
    assert a[1] == a[..2][1] && b[1] == b[..2][1];
  }

  lemma {:induction false} Starts(n: nat)
    requires n > 0
    ensures |Path(Grow(Creation, n))| == n + 1
    ensures Path(Grow(Creation, n))[..2] == [Creation, Mined(Creation, 0, 0)]
  {
    if n > 1 {
      Starts(n - 1);
    } else {
      assert Grow(Creation, 1) == Mined(Grow(Creation, 0), 0, 0);
    }
  }

  lemma {:induction false} StartsFork(n: nat)
    requires n > 0
    ensures |Path(Fork(n))| == n + 1
    ensures Path(Fork(n))[..2] == [Creation, Mined(Creation, 0, 1)]
  {
    if n > 1 {
      StartsFork(n - 1);
    } else {
      assert Fork(1) == Mined(Fork(0), 0, 1);
    }
  }

  function Attempt(slot: nat, delay: nat): ForgeArgs {
    ForgeArgs(slot, delay, 0, false, [])
  }

  /** Mine n blocks. */
  function Mining(n: nat): (steps: seq<Step>)
    ensures |steps| == n
  {
    if n == 0 then [] else Mining(n - 1) + [Extend(0, 0)]
  }

  lemma {:induction false} RunMining(p: Params, n: nat)
    ensures Run(p, Mining(n)) == INITIAL.(mcTip := Grow(Creation, n))
  {
    if n > 0 {
      RunMining(p, n - 1);
      assert Mining(n)[..n - 1] == Mining(n - 1);
    }
  }

  lemma {:induction false} GenesisCommon(tip: McBlock)
    ensures HeadersOf([GENESIS]) == [Creation] && Common(HeadersOf([GENESIS]), Path(tip)) == 1
  {
    assert HeadersOf([GENESIS]) == HeadersOf([]) + [Creation];
    PathIsBranch(tip);
    CommonIsLongest([Creation], Path(tip), 1);
  }

  /** On the genesis block alone, a forger with d + 1 mainchain blocks ahead takes exactly one. */
  lemma {:induction false} FirstForge(p: Params, s: State, d: nat)
    requires s == INITIAL.(mcTip := Grow(Creation, d + 1)) && d + 1 <= MAX_NEW_HEADERS
    ensures Forge(p, s, Attempt(1, d)).Forged? && Forge(p, s, Attempt(1, d)).parent == 0
    ensures Covered(s.chain, Path(s.mcTip), d) == 2
    ensures Forge(p, s, Attempt(1, d)).block.header.slot == 1
  {
    GenesisCommon(s.mcTip);
    Starts(d + 1);
  }

  lemma {:induction false} FirstForgeAdopted(p: Params, s: State, d: nat)
    requires Inv(p, s) && s == INITIAL.(mcTip := Grow(Creation, d + 1)) && d + 1 <= MAX_NEW_HEADERS
    ensures HeadersOf(Apply(p, s, TryForge(Attempt(1, d))).chain) == Path(s.mcTip)[..2]
    ensures Apply(p, s, TryForge(Attempt(1, d))).chain == [GENESIS, Forge(p, s, Attempt(1, d)).block]
    ensures Forge(p, s, Attempt(1, d)).block.header.slot == 1
  {
    FirstForge(p, s, d);
    AdoptionFollowsActiveBranch(p, s, Attempt(1, d));
    ForgeRaisesScoreByOne(p, s, Attempt(1, d));
  }

  /** After the switch the next attempt makes a block with ommers. */
  lemma {:induction false} SecondForge(p: Params, s: State, d: nat)
    requires GoodChain(p, s.chain) && |s.chain| == 2 && s.chain[1].header.slot == 1
    requires HeadersOf(s.chain) == Path(Grow(Creation, d + 1))[..2]
    requires s.mcTip == Fork(d + 2) && d + 2 <= MAX_NEW_HEADERS
    ensures Forge(p, s, Attempt(2, d)).Forged? && Forge(p, s, Attempt(2, d)).block.ommers != []
  {
    var h, path := HeadersOf(s.chain), Path(s.mcTip);
    Starts(d + 1);
    StartsFork(d + 2);
    CreationIsShared(s.chain, s.mcTip);
    CommonAgrees(h, path);
    assert h[1] != path[1] by { assert path[1] == path[..2][1]; }
    assert Common(h, path) == 1;
    NoSenseIff(s.chain, path, d);
    assert Forge(p, s, Attempt(2, d)).Forged?;
    OmmersIffOrphaned(p, s, Attempt(2, d));
  }

  /** Mine d + 1 blocks, forge, switch to a branch that disconnects them all. */
  function SharpRun(d: nat): seq<Step> {
    Mining(d + 1) + [TryForge(Attempt(1, d))] + [Reorg(Fork(d + 2))]
  }

  lemma {:induction false} SharpStep(p: Params, s: State, d: nat)
    requires Inv(p, s) && s == INITIAL.(mcTip := Grow(Creation, d + 1)) && d + 2 <= MAX_NEW_HEADERS
    ensures var s2 := Apply(p, s, TryForge(Attempt(1, d)));
      && GoodChain(p, s2.chain) && |s2.chain| == 2 && s2.chain[1].header.slot == 1
      && HeadersOf(s2.chain) == Path(Grow(Creation, d + 1))[..2] && s2.mcTip == Grow(Creation, d + 1)
  {
    FirstForgeAdopted(p, s, d);
    StepKeepsInv(p, s, TryForge(Attempt(1, d)));
  }

  /** One block deeper than the delay, and ommers do appear, for every delay up to 47. */
  lemma {:induction false} DelayIsSharp(p: Params, d: nat)
    requires d + 2 <= MAX_NEW_HEADERS
    ensures Disconnected(Grow(Creation, d + 1), Fork(d + 2)) == d + 1
    ensures Forge(p, Run(p, SharpRun(d)), Attempt(2, d)).Forged?
    ensures Forge(p, Run(p, SharpRun(d)), Attempt(2, d)).block.ommers != []
  {
    ForkLeaves(d + 1, d + 2);
    var mined := Mining(d + 1);
    RunMining(p, d + 1);
    RunKeepsInv(p, mined);
    SharpStep(p, Run(p, mined), d);
    RunSnoc(p, mined, TryForge(Attempt(1, d)));
    RunSnoc(p, mined + [TryForge(Attempt(1, d))], Reorg(Fork(d + 2)));
    HeightOfPath(d);
    SecondForge(p, Run(p, SharpRun(d)), d);
  }

  lemma {:induction false} HeightOfPath(d: nat)
    ensures Height(Grow(Creation, d + 1)) == d + 1 && Height(Fork(d + 2)) == d + 2
  {
    Starts(d + 1);
    StartsFork(d + 2);
  }

  // ---------------------------------------------------------------- blocks without headers

  /** The limit on blocks without mainchain headers is active in every attempt. */
  predicate LimitActive(steps: seq<Step>) {
    forall i :: 0 <= i < |steps| && steps[i].TryForge? ==> steps[i].args.headerlessLimit
  }

  lemma {:induction false} BoundAfter(p: Params, chain: seq<ScBlock>, b: ScBlock)
    requires !TooManyHeaderless(p, chain, b.headers)
    ensures TrailingHeaderless(chain + [b]) <= HeaderlessBound(p)
  {
    assert (chain + [b])[..|chain|] == chain;
  }

  lemma {:induction false} ForgePassesLimit(p: Params, s: State, a: ForgeArgs)
    requires a.headerlessLimit && Forge(p, s, a).Forged?
    ensures !TooManyHeaderless(p, s.chain[..Forge(p, s, a).parent + 1], Forge(p, s, a).block.headers)
  {
  }

  lemma {:induction false} TooManyIffBound(p: Params, chain: seq<ScBlock>, headers: seq<McBlock>)
    ensures TooManyHeaderless(p, chain, headers) <==> headers == [] && TrailingHeaderless(chain) >= HeaderlessBound(p)
  {
  }

  lemma {:induction false} ActiveBranchPoint(chain: seq<ScBlock>, path: seq<McBlock>, delay: nat)
    requires chain != [] && HeadersOf(chain) <= path
    ensures FindBranchPoint(chain, path, delay).BranchPoint?
    ensures FindBranchPoint(chain, path, delay).parent == |chain| - 1
    ensures |FindBranchPoint(chain, path, delay).headers| == Covered(chain, path, delay) - |HeadersOf(chain)|
  {
    CommonIsLongest(HeadersOf(chain), path, |HeadersOf(chain)|);
  }

  /** With the limit active, a slot is skipped exactly when nothing new can be included and the chain
      already ends in as many blocks without headers as allowed. */
  lemma {:induction false} SkipIff(p: Params, s: State, a: ForgeArgs)
    requires s.chain != [] && HeadersOf(s.chain) <= Path(s.mcTip)
    requires a.headerlessLimit && a.slot > s.chain[|s.chain| - 1].header.slot
    ensures Forge(p, s, a).SkipSlot? <==>
      Covered(s.chain, Path(s.mcTip), a.delay) == |HeadersOf(s.chain)|
        && TrailingHeaderless(s.chain) >= HeaderlessBound(p)
    ensures HeaderlessBound(p) >= 1 && (p.maxRewrite >= 2 ==> HeaderlessBound(p) == p.maxRewrite - 1)
  {
    var bp := FindBranchPoint(s.chain, Path(s.mcTip), a.delay);
    ActiveBranchPoint(s.chain, Path(s.mcTip), a.delay);
    TooManyIffBound(p, s.chain[..bp.parent + 1], bp.headers);
    assert s.chain[..|s.chain|] == s.chain;
  }

  lemma {:induction false} OutcomeKeepsBound(p: Params, limit: bool, s: State, r: ForgeResult)
    requires TrailingHeaderless(s.chain) <= HeaderlessBound(p)
    requires r.Forged? ==> r.parent < |s.chain| && !TooManyHeaderless(p, s.chain[..r.parent + 1], r.block.headers)
    ensures TrailingHeaderless(Outcome(p, limit, s, r).chain) <= HeaderlessBound(p)
  {
    if r.Forged? {
      BoundAfter(p, s.chain[..r.parent + 1], r.block);
    }
  }

  lemma {:induction false} StepKeepsBound(p: Params, s: State, step: Step)
    requires TrailingHeaderless(s.chain) <= HeaderlessBound(p)
    requires step.TryForge? ==> step.args.headerlessLimit
    ensures TrailingHeaderless(Apply(p, s, step).chain) <= HeaderlessBound(p)
  {
    if step.TryForge? {
      if Forge(p, s, step.args).Forged? {
        ForgePassesLimit(p, s, step.args);
      }
      OutcomeKeepsBound(p, step.args.headerlessLimit, s, Forge(p, s, step.args));
    }
  }

  lemma {:induction false} HeaderlessBounded(p: Params, steps: seq<Step>)
    requires LimitActive(steps)
    ensures TrailingHeaderless(Run(p, steps).chain) <= HeaderlessBound(p)
  {
    if steps == [] {
      assert TrailingHeaderless([GENESIS]) == 0;
    } else {
      var n := |steps| - 1;
      HeaderlessBounded(p, steps[..n]);
      StepKeepsBound(p, Run(p, steps[..n]), steps[n]);
    }
  }

  /** What precedes the last block with headers. */
  lemma {:induction false} LastHeaderBlock(chain: seq<ScBlock>)
    requires HeadersOf(chain) != []
    ensures TrailingHeaderless(chain) < |chain|
    ensures |HeadersOf(chain[..|chain| - TrailingHeaderless(chain) - 1])| < |HeadersOf(chain)|
  {
    var n := |chain| - 1;
    if chain[n].headers == [] {
      assert HeadersOf(chain) == HeadersOf(chain[..n]);
      LastHeaderBlock(chain[..n]);
      assert chain[..n][..n - TrailingHeaderless(chain[..n]) - 1] == chain[..n - TrailingHeaderless(chain[..n]) - 1];
    }
  }

  /** If all orphaned headers are in block m or later, no more than the blocks from m on are left behind. */
  lemma {:induction false} FewLeftBehind(chain: seq<ScBlock>, path: seq<McBlock>, parent: nat, b: ScBlock, m: nat)
    requires parent < |chain| && WellPlaced(chain, path, parent, b) && m < |chain|
    requires |HeadersOf(chain[..m])| <= Common(HeadersOf(chain), path)
    ensures |chain| - 1 - parent <= |chain| - m
  {
    if m >= 1 {
      ActiveUpToCommon(chain, m, path);
    }
  }

  lemma {:induction false} SingleOrphanLeavesFew(p: Params, chain: seq<ScBlock>, path: seq<McBlock>, parent: nat,
      b: ScBlock)
    requires parent < |chain| && WellPlaced(chain, path, parent, b) && HeadersOf(chain) != []
    requires TrailingHeaderless(chain) <= HeaderlessBound(p) && Orphaned(chain, path) <= 1
    ensures |chain| - 1 - parent <= 1 + HeaderlessBound(p)
  {
    LastHeaderBlock(chain);
    FewLeftBehind(chain, path, parent, b, |chain| - TrailingHeaderless(chain) - 1);
  }

  /** With the limit active, the switch after a single orphaned header is adopted exactly when the block
      brings reference data or the blocks it extends do not end in too many without headers. */
  lemma {:induction false} SingleOrphanAdoptedIff(p: Params, steps: seq<Step>, a: ForgeArgs)
    requires p.maxRewrite >= 2 && LimitActive(steps) && a.headerlessLimit
    requires Forge(p, Run(p, steps), a).Forged?
    requires Orphaned(Run(p, steps).chain, Path(Run(p, steps).mcTip)) <= 1
    ensures var s, r := Run(p, steps), Forge(p, Run(p, steps), a);
      Adopts(p, true, s.chain, r.parent, r.block) <==>
        r.block.refData != [] || TrailingHeaderless(s.chain[..r.parent + 1]) < HeaderlessBound(p)
  {
    var s, r := Run(p, steps), Forge(p, Run(p, steps), a);
    HeaderlessBounded(p, steps);
    RunKeepsInv(p, steps);
    ForgedIsWellPlaced(p, s, a);
    SingleOrphanLeavesFew(p, s.chain, Path(s.mcTip), r.parent, r.block);
    AdoptedIff(p, s, a);
  }
}
