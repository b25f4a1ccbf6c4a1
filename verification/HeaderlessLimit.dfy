/**
 The limit on blocks without mainchain headers is checked twice: by the forger on the headers of the new
 block, and by the node that applies it on its reference data.  A block with ommers has headers but no
 reference data, so the node that forged it can refuse it, and then refuses every later one as well.
 */
module HeaderlessLimit {
  import opened Mainchain
  import opened Sidechain
  import opened OmmersValidation
  import opened Forger
  import opened ForgerSteps
  import opened ForgerRuns
  import opened ForgerDelay
  import opened ForgerCatchUp

  /** The chain has left the active branch, and what the forger would go back to ends in too many blocks
      without headers. */
  predicate Stuck(p: Params, chain: seq<ScBlock>, path: seq<McBlock>) {
    var h, c := HeadersOf(chain), Common(HeadersOf(chain), path);
    c < |h| && c < |path| && TrailingHeaderless(chain[..ContainingBlock(chain, c)]) >= HeaderlessBound(p)
  }

  // ---------------------------------------------------------------- stuck for good

  /** The forger goes back before the block with the first orphaned header. */
  lemma {:induction false} LeavesBefore(chain: seq<ScBlock>, path: seq<McBlock>, delay: nat)
    requires Common(HeadersOf(chain), path) < |HeadersOf(chain)|
    ensures var bp := FindBranchPoint(chain, path, delay);
      bp.BranchPoint? ==>
        bp.parent + 1 == ContainingBlock(chain, Common(HeadersOf(chain), path)) && bp.parent + 1 < |chain|
  {
  }

  /** Away from the tip no reference data is taken. */
  lemma {:induction false} TakesNoData(p: Params, chain: seq<ScBlock>, bp: BranchPoint, id: nat, a: ForgeArgs)
    requires bp.BranchPoint? && bp.parent + 1 < |chain|
    ensures Assemble(p, chain, bp, id, a).refData == []
  {
  }

  lemma {:induction false} ForgedAway(p: Params, s: State, a: ForgeArgs)
    requires Orphaned(s.chain, Path(s.mcTip)) > 0 && Forge(p, s, a).Forged?
    ensures Forge(p, s, a).parent + 1 == ContainingBlock(s.chain, Common(HeadersOf(s.chain), Path(s.mcTip))) < |s.chain|
    ensures Common(HeadersOf(s.chain), Path(s.mcTip)) < |Path(s.mcTip)| && Forge(p, s, a).block.refData == []
  {
    LeavesBefore(s.chain, Path(s.mcTip), a.delay);
    ForgedNeedsNews(s.chain, Path(s.mcTip), a.delay);
    TakesNoData(p, s.chain, FindBranchPoint(s.chain, Path(s.mcTip), a.delay), NextId(s), a);
  }

  lemma {:induction false} LacksDataIffStuck(p: Params, chain: seq<ScBlock>, path: seq<McBlock>, n: nat, b: ScBlock)
    requires Common(HeadersOf(chain), path) < |HeadersOf(chain)| && Common(HeadersOf(chain), path) < |path|
    requires n == ContainingBlock(chain, Common(HeadersOf(chain), path)) && b.refData == []
    ensures LacksData(p, true, chain[..n], b) <==> Stuck(p, chain, path)
  {
    LacksDataIff(p, true, chain[..n], b);
  }

  /** A block with ommers is refused for its missing data exactly when the chain is stuck. */
  lemma {:induction false} RefusedIffStuck(p: Params, s: State, a: ForgeArgs)
    requires Orphaned(s.chain, Path(s.mcTip)) > 0 && Forge(p, s, a).Forged? && a.headerlessLimit
    ensures Forge(p, s, a).parent + 1 < |s.chain|
    ensures LacksData(p, true, s.chain[..Forge(p, s, a).parent + 1], Forge(p, s, a).block)
      <==> Stuck(p, s.chain, Path(s.mcTip))
  {
    ForgedAway(p, s, a);
    LacksDataIffStuck(p, s.chain, Path(s.mcTip), Forge(p, s, a).parent + 1, Forge(p, s, a).block);
  }

  /** There is something after the common part when a branch is left. */
  lemma {:induction false} ForgedNeedsNews(chain: seq<ScBlock>, path: seq<McBlock>, delay: nat)
    requires Common(HeadersOf(chain), path) < |HeadersOf(chain)| && FindBranchPoint(chain, path, delay).BranchPoint?
    ensures Common(HeadersOf(chain), path) < |path|
  {
  }

  /** An attempt with the limit active leaves a stuck chain alone. */
  lemma {:induction false} StuckAttempt(p: Params, s: State, a: ForgeArgs)
    requires Stuck(p, s.chain, Path(s.mcTip)) && a.headerlessLimit
    ensures Apply(p, s, TryForge(a)).chain == s.chain && Apply(p, s, TryForge(a)).mcTip == s.mcTip
  {
    if Forge(p, s, a).Forged? {
      RefusedIffStuck(p, s, a);
    }
  }

  lemma {:induction false} StuckExtend(p: Params, chain: seq<ScBlock>, path: seq<McBlock>, longer: seq<McBlock>)
    requires Stuck(p, chain, path) && path <= longer
    ensures Stuck(p, chain, longer)
  {
    CommonOfLonger(HeadersOf(chain), path, longer);
  }

  /** The mainchain grows and forgers try, all with the limit active. */
  predicate Growing(steps: seq<Step>) {
    forall i :: 0 <= i < |steps| ==> steps[i].Extend? || (steps[i].TryForge? && steps[i].args.headerlessLimit)
  }

  lemma {:induction false} StuckStep(p: Params, s: State, step: Step)
    requires Stuck(p, s.chain, Path(s.mcTip)) && (step.Extend? || (step.TryForge? && step.args.headerlessLimit))
    ensures Apply(p, s, step).chain == s.chain && Stuck(p, s.chain, Path(Apply(p, s, step).mcTip))
  {
    match step
    case Extend(c, salt) => StuckExtend(p, s.chain, Path(s.mcTip), Path(Mined(s.mcTip, c, salt)));
    case TryForge(a) => StuckAttempt(p, s, a);
  }

  /** The run has left a stuck chain. */
  predicate StuckAfter(p: Params, steps: seq<Step>, chain: seq<ScBlock>) {
    Run(p, steps).chain == chain && Stuck(p, chain, Path(Run(p, steps).mcTip))
  }

  /** The state after further steps. */
  function Continue(p: Params, s: State, steps: seq<Step>): State {
    if steps == [] then s else Apply(p, Continue(p, s, steps[..|steps| - 1]), steps[|steps| - 1])
  }

  lemma {:induction false} RunContinues(p: Params, before: seq<Step>, more: seq<Step>)
    ensures Run(p, before + more) == Continue(p, Run(p, before), more)
  {
    if more == [] {
      assert before + more == before;
    } else {
      var n := |more| - 1;
      RunContinues(p, before, more[..n]);
      RunSnoc(p, before + more[..n], more[n]);
      assert before + more == (before + more[..n]) + [more[n]];
    }
  }

  lemma {:induction false} StuckFromThen(p: Params, s: State, steps: seq<Step>)
    requires Stuck(p, s.chain, Path(s.mcTip)) && Growing(steps)
    ensures Continue(p, s, steps).chain == s.chain && Stuck(p, s.chain, Path(Continue(p, s, steps).mcTip))
  {
    if steps != [] {
      var n := |steps| - 1;
      StuckFromThen(p, s, steps[..n]);
      StuckStep(p, Continue(p, s, steps[..n]), steps[n]);
    }
  }

  /** As long as the mainchain only grows, a stuck chain stays as it is, whatever is attempted. */
  lemma {:induction false} StuckForGood(p: Params, before: seq<Step>, more: seq<Step>, chain: seq<ScBlock>)
    requires StuckAfter(p, before, chain) && Growing(more)
    ensures StuckAfter(p, before + more, chain)
  {
    StuckFromThen(p, Run(p, before), more);
    RunContinues(p, before, more);
  }

  // ---------------------------------------------------------------- a run that gets there

  const FIRST: McBlock := Mined(Creation, 0, 0)
  const SECOND: McBlock := Mined(FIRST, 0, 0)
  const OTHER: McBlock := Mined(Mined(FIRST, 0, 1), 0, 1)

  lemma {:induction false} Paths()
    ensures Path(FIRST) == [Creation, FIRST] && Path(SECOND) == [Creation, FIRST, SECOND]
    ensures Path(OTHER) == [Creation, FIRST, Mined(FIRST, 0, 1), OTHER]
    ensures Height(FIRST) == 1 && Height(SECOND) == 2 && Height(OTHER) == 3
  {
    assert Path(FIRST) == Path(Creation) + [FIRST];
    assert Path(SECOND) == Path(FIRST) + [SECOND];
    assert Path(OTHER) == Path(Mined(FIRST, 0, 1)) + [OTHER];
  }

  /** An attempt with the limit active and room for one piece of reference data. */
  function Limited(slot: nat): ForgeArgs {
    ForgeArgs(slot, 0, 1, true, [])
  }

  /** A chain in slot `slot` that covers `headers` and ends in `k` blocks without headers. */
  predicate Ends(chain: seq<ScBlock>, headers: seq<McBlock>, slot: nat, k: nat) {
    chain != [] && HeadersOf(chain) == headers && TipSlot(chain) == slot && TrailingHeaderless(chain) == k
  }

  lemma {:induction false} EndsSnoc(chain: seq<ScBlock>, b: ScBlock, headers: seq<McBlock>, slot: nat, k: nat,
      all: seq<McBlock>)
    requires Ends(chain, headers, slot, k) && HeadersOf(chain + [b]) == all && b.header.slot == slot + 1
    ensures Ends(chain + [b], all, slot + 1, if |all| == |headers| then k + 1 else 0)
  {
    HeadersOfSnoc(chain, b);
    assert (chain + [b])[..|chain|] == chain;
  }

  /** On an active chain less than a request behind, a limited attempt that is not skipped adds a block. */
  lemma {:induction false} LimitedAttempt(p: Params, s: State, headers: seq<McBlock>, slot: nat, k: nat)
    requires GoodChain(p, s.chain) && Ends(s.chain, headers, slot, k) && headers <= Path(s.mcTip)
    requires |Path(s.mcTip)| - |headers| <= MAX_NEW_HEADERS
    requires |headers| < |Path(s.mcTip)| || k < HeaderlessBound(p)
    ensures var t, r := Apply(p, s, TryForge(Limited(slot + 1))), Forge(p, s, Limited(slot + 1));
      && r.Forged? && t.chain == s.chain + [r.block] && r.block.header.slot == slot + 1
      && HeadersOf(t.chain) == Path(s.mcTip) && t.mcTip == s.mcTip
  {
    var a := Limited(slot + 1);
    LimitedForges(p, s, headers, slot, k);
    AdoptedUnlessStarved(p, s, a);
    AdoptedOnTip(p, true, s, Forge(p, s, a));
    AttemptAdvances(p, s, a);
    assert Path(s.mcTip)[..|Path(s.mcTip)|] == Path(s.mcTip);
  }

  lemma {:induction false} LimitedForges(p: Params, s: State, headers: seq<McBlock>, slot: nat, k: nat)
    requires GoodChain(p, s.chain) && Ends(s.chain, headers, slot, k) && headers <= Path(s.mcTip)
    requires |Path(s.mcTip)| - |headers| <= MAX_NEW_HEADERS
    requires |headers| < |Path(s.mcTip)| || k < HeaderlessBound(p)
    ensures Forge(p, s, Limited(slot + 1)).Forged? && Forge(p, s, Limited(slot + 1)).block.header.slot == slot + 1
  {
    CoveredIsAdvance(s.chain, Path(s.mcTip), 0);
    SkipIff(p, s, Limited(slot + 1));
    AttemptOnActiveChain(p, s, Limited(slot + 1));
  }

  lemma {:induction false} AdoptedOnTip(p: Params, limit: bool, s: State, r: ForgeResult)
    requires r.Forged? && r.parent + 1 == |s.chain| && Adopts(p, limit, s.chain, r.parent, r.block)
    ensures Outcome(p, limit, s, r).chain == s.chain + [r.block] && Outcome(p, limit, s, r).mcTip == s.mcTip
  {
    assert s.chain[..|s.chain|] == s.chain;
  }

  /** A state on the branch that ends in `tip`. */
  predicate At(s: State, tip: McBlock, headers: seq<McBlock>, slot: nat, k: nat) {
    s.mcTip == tip && Ends(s.chain, headers, slot, k)
  }

  lemma {:induction false} LimitedEnds(p: Params, s: State, headers: seq<McBlock>, slot: nat, k: nat)
    requires GoodChain(p, s.chain) && At(s, s.mcTip, headers, slot, k) && headers <= Path(s.mcTip)
    requires |Path(s.mcTip)| - |headers| <= MAX_NEW_HEADERS
    requires |headers| < |Path(s.mcTip)| || k < HeaderlessBound(p)
    ensures var t := Apply(p, s, TryForge(Limited(slot + 1)));
      && At(t, s.mcTip, Path(s.mcTip), slot + 1, if |Path(s.mcTip)| == |headers| then k + 1 else 0)
      && s.chain <= t.chain && |t.chain| == |s.chain| + 1
  {
    LimitedAttempt(p, s, headers, slot, k);
    EndsSnoc(s.chain, Forge(p, s, Limited(slot + 1)).block, headers, slot, k, Path(s.mcTip));
  }

  /** A run in which every attempt has the limit active leads to such a state. */
  predicate Leads(p: Params, steps: seq<Step>, tip: McBlock, headers: seq<McBlock>, slot: nat, k: nat) {
    LimitActive(steps) && At(Run(p, steps), tip, headers, slot, k)
  }

  /** One more limited attempt. */
  lemma {:induction false} RunLimited(p: Params, steps: seq<Step>, tip: McBlock, headers: seq<McBlock>, slot: nat,
      k: nat)
    returns (next: seq<Step>)
    requires Leads(p, steps, tip, headers, slot, k) && headers <= Path(tip)
    requires |Path(tip)| - |headers| <= MAX_NEW_HEADERS && (|headers| < |Path(tip)| || k < HeaderlessBound(p))
    ensures Leads(p, next, tip, Path(tip), slot + 1, if |Path(tip)| == |headers| then k + 1 else 0)
    ensures Run(p, steps).chain <= Run(p, next).chain && |Run(p, next).chain| == |Run(p, steps).chain| + 1
  {
    next := steps + [TryForge(Limited(slot + 1))];
    RunKeepsInv(p, steps);
    LimitedEnds(p, Run(p, steps), headers, slot, k);
    RunSnoc(p, steps, TryForge(Limited(slot + 1)));
  }

  /** One more mainchain block. */
  lemma {:induction false} RunMined(p: Params, steps: seq<Step>, tip: McBlock, headers: seq<McBlock>, slot: nat, k: nat)
    returns (next: seq<Step>)
    requires Leads(p, steps, tip, headers, slot, k)
    ensures Leads(p, next, Mined(tip, 0, 0), headers, slot, k) && Run(p, next).chain == Run(p, steps).chain
  {
    next := steps + [Extend(0, 0)];
    RunSnoc(p, steps, Extend(0, 0));
  }

  lemma {:induction false} NoSteps(p: Params)
    ensures Leads(p, [], Creation, [Creation], 0, 0)
  {
    GenesisCommon(Creation);
    assert TrailingHeaderless([GENESIS]) == 0;
  }

  /** One mainchain block, its header, and k blocks without headers. */
  lemma {:induction false} TailRun(p: Params, k: nat) returns (steps: seq<Step>)
    requires k <= HeaderlessBound(p)
    ensures Leads(p, steps, FIRST, Path(FIRST), k + 1, k)
  {
    Paths();
    if k == 0 {
      NoSteps(p);
      var mined := RunMined(p, [], Creation, [Creation], 0, 0);
      steps := RunLimited(p, mined, FIRST, [Creation], 0, 0);
    } else {
      var before := TailRun(p, k - 1);
      steps := RunLimited(p, before, FIRST, Path(FIRST), k, k - 1);
    }
  }

  lemma {:induction false} CommonIsTwo()
    ensures Common(Path(SECOND), Path(OTHER)) == 2
  {
    Paths();
    CommonEnds(Path(SECOND), Path(OTHER), 2);
  }

  /** The last block carries the one orphaned header, and the blocks before it end in too many without. */
  lemma {:induction false} EndsStuck(p: Params, x: seq<ScBlock>, chain: seq<ScBlock>)
    requires x <= chain && |chain| == |x| + 1 && HeadersOf(x) == Path(FIRST) && HeadersOf(chain) == Path(SECOND)
    requires TrailingHeaderless(x) >= HeaderlessBound(p)
    ensures Stuck(p, chain, Path(OTHER)) && ContainingBlock(chain, Common(HeadersOf(chain), Path(OTHER))) == |x|
  {
    Paths();
    CommonIsTwo();
    assert chain[..|x|] == x;
  }

  /** A stuck chain with enough new headers: a block is forged and refused. */
  lemma {:induction false} ForgedAndRefused(p: Params, s: State, a: ForgeArgs)
    requires |s.chain| >= 1 && s.chain[0] == GENESIS && 1 <= Common(HeadersOf(s.chain), Path(s.mcTip))
    requires Stuck(p, s.chain, Path(s.mcTip)) && a.headerlessLimit && a.slot > TipSlot(s.chain)
    requires Orphaned(s.chain, Path(s.mcTip)) < Available(s.chain, Path(s.mcTip), a.delay)
    ensures Forge(p, s, a).Forged? && !Adopts(p, true, s.chain, Forge(p, s, a).parent, Forge(p, s, a).block)
    ensures Forge(p, s, a).parent + 1 == ContainingBlock(s.chain, Common(HeadersOf(s.chain), Path(s.mcTip)))
  {
    NoSenseIff(s.chain, Path(s.mcTip), a.delay);
    HeadersAreNews(s.chain, Path(s.mcTip), a.delay);
    ForgesWithHeaders(p, s, a, FindBranchPoint(s.chain, Path(s.mcTip), a.delay));
    LeavesBefore(s.chain, Path(s.mcTip), a.delay);
    RefusedIffStuck(p, s, a);
  }

  /** With headers to carry the limit does not make the forger skip the slot. */
  lemma {:induction false} ForgesWithHeaders(p: Params, s: State, a: ForgeArgs, bp: BranchPoint)
    requires s.chain != [] && bp.BranchPoint? && bp.parent < |s.chain| && bp.headers != [] && a.slot > TipSlot(s.chain)
    ensures ForgeAt(p, s, a, bp).Forged? && ForgeAt(p, s, a, bp).parent == bp.parent
  {
  }

  /** A block that leaves a branch carries headers. */
  lemma {:induction false} HeadersAreNews(chain: seq<ScBlock>, path: seq<McBlock>, delay: nat)
    requires Common(HeadersOf(chain), path) < |HeadersOf(chain)| && FindBranchPoint(chain, path, delay).BranchPoint?
    ensures FindBranchPoint(chain, path, delay).headers != []
  {
  }

  /** What the run ends in: one orphaned header, and the block that carries it is the last. */
  predicate Trapped(p: Params, s: State) {
    && |s.chain| >= 1 && s.chain[0] == GENESIS && s.mcTip == OTHER && HeadersOf(s.chain) == Path(SECOND)
    && Stuck(p, s.chain, Path(OTHER))
    && ContainingBlock(s.chain, Common(HeadersOf(s.chain), Path(OTHER))) == |s.chain| - 1
  }

  lemma {:induction false} TrappedIsRefused(p: Params, s: State)
    requires Trapped(p, s)
    ensures var r := Forge(p, s, Limited(TipSlot(s.chain) + 1));
      r.Forged? && |s.chain| - 1 - r.parent == 1 && !Adopts(p, true, s.chain, r.parent, r.block)
    ensures Orphaned(s.chain, Path(s.mcTip)) == 1
  {
    Paths();
    CommonIsTwo();
    ForgedAndRefused(p, s, Limited(TipSlot(s.chain) + 1));
  }

  lemma {:induction false} SwitchTraps(p: Params, full: seq<Step>, x: seq<ScBlock>, slot: nat)
      returns (steps: seq<Step>)
    requires Leads(p, full, SECOND, Path(SECOND), slot, 0)
    requires x <= Run(p, full).chain && |Run(p, full).chain| == |x| + 1
    requires HeadersOf(x) == Path(FIRST) && TrailingHeaderless(x) >= HeaderlessBound(p)
    ensures LimitActive(steps) && Trapped(p, Run(p, steps))
  {
    RunKeepsInv(p, full);
    Paths();
    EndsStuck(p, x, Run(p, full).chain);
    RunSnoc(p, full, Reorg(OTHER));
    steps := full + [Reorg(OTHER)];
  }

  lemma {:induction false} TrappedRun(p: Params) returns (steps: seq<Step>)
    ensures LimitActive(steps) && Trapped(p, Run(p, steps))
  {
    var k := HeaderlessBound(p);
    Paths();
    var tail := TailRun(p, k);
    var mined := RunMined(p, tail, FIRST, Path(FIRST), k + 1, k);
    var full := RunLimited(p, mined, SECOND, Path(FIRST), k + 1, k);
    steps := SwitchTraps(p, full, Run(p, tail).chain, k + 2);
  }

  /** For every limit there is a run, with the limit active throughout, after which a single header is
      orphaned, the next block would replace a single block, and yet it is refused. */
  lemma {:induction false} SingleOrphanCanBeRefused(p: Params) returns (steps: seq<Step>, a: ForgeArgs)
    ensures LimitActive(steps) && a.headerlessLimit
    ensures StuckAfter(p, steps, Run(p, steps).chain)
    ensures Orphaned(Run(p, steps).chain, Path(Run(p, steps).mcTip)) == 1
    ensures var s, r := Run(p, steps), Forge(p, Run(p, steps), a);
      r.Forged? && |s.chain| - 1 - r.parent == 1 && !Adopts(p, true, s.chain, r.parent, r.block)
  {
    steps := TrappedRun(p);
    TrappedIsRefused(p, Run(p, steps));
    a := Limited(TipSlot(Run(p, steps).chain) + 1);
  }
}
