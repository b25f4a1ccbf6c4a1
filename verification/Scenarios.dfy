/**
 Two traces of the functional tests as statements about the model.
 */
module Scenarios {
  import opened Mainchain
  import opened Sidechain
  import opened Forger
  import opened ForgerSteps
  import opened ForgerRuns
  import opened ForgerDelay
  import opened ForgerCatchUp

  /** 200 pending blocks: four portions of 49 and one of 4 without delay; with delay 1 and 201 pending
      blocks, four portions of 48 and one of 8, and one block is left. */
  lemma {:induction false} CatchUpPortions()
    ensures Reached(1, 201, 0, 4) == 1 + 4 * 49 && Reached(1, 201, 0, 5) == 201
    ensures Reached(1, 202, 1, 4) == 1 + 4 * 48 && Reached(1, 202, 1, 5) == 201
  {
    ReachedClosed(1, 201, 0, 4);
    ReachedClosed(1, 201, 0, 5);
    ReachedClosed(1, 202, 1, 4);
    ReachedClosed(1, 202, 1, 5);
  }

  // ---------------------------------------------------------------- a race in which the first branch wins

  /** A two-block chain whose second block is orphaned by a longer branch from the creation block. */
  predicate Orphaned2(s: State, slot: nat) {
    && |s.chain| == 2 && TipSlot(s.chain) < slot
    && Common(HeadersOf(s.chain), Path(s.mcTip)) == 1 < |HeadersOf(s.chain)| < |Path(s.mcTip)| <= 1 + MAX_NEW_HEADERS
  }

  lemma {:induction false} ReplaceSecondBlock(p: Params, s: State, slot: nat)
    requires GoodChain(p, s.chain) && Orphaned2(s, slot)
    ensures Forge(p, s, Attempt(slot, 0)).Forged? && Forge(p, s, Attempt(slot, 0)).parent == 0
    ensures Forge(p, s, Attempt(slot, 0)).block.ommers == [ToOmmer(s.chain[1])]
  {
    var a := Attempt(slot, 0);
    NoSenseIff(s.chain, Path(s.mcTip), 0);
    assert Forge(p, s, a).Forged?;
    ActiveUpToCommon(s.chain, 2, Path(s.mcTip));
    assert s.chain[..2] == s.chain;
    ParentIsDeepestActiveBlock(p, s, a, 2);
    assert ToOmmers(s.chain[1..]) == [ToOmmer(s.chain[1])];
  }

  lemma {:induction false} CoversAll(chain: seq<ScBlock>, path: seq<McBlock>)
    requires Common(HeadersOf(chain), path) >= 1 && |path| <= 1 + MAX_NEW_HEADERS
    ensures Covered(chain, path, 0) == |path|
  {
  }

  /** The replacing block is adopted and covers the whole branch. */
  lemma {:induction false} ReplacedChain(p: Params, s: State, slot: nat)
    requires GoodChain(p, s.chain) && Orphaned2(s, slot) && p.maxRewrite >= 1
    ensures var t, b := Apply(p, s, TryForge(Attempt(slot, 0))), Forge(p, s, Attempt(slot, 0)).block;
      && t.chain == [s.chain[0], b] && b.ommers == [ToOmmer(s.chain[1])] && TipSlot(t.chain) == slot
      && HeadersOf(t.chain) == Path(s.mcTip) && t.mcTip == s.mcTip
      && ChainScore(t.chain) == ChainScore(s.chain) + 1
  {
    ReplaceSecondBlock(p, s, slot);
    CoversAll(s.chain, Path(s.mcTip));
    AdoptedIff(p, s, Attempt(slot, 0));
    AdoptionFollowsActiveBranch(p, s, Attempt(slot, 0));
    ForgeRaisesScoreByOne(p, s, Attempt(slot, 0));
    assert Path(s.mcTip)[..|Path(s.mcTip)|] == Path(s.mcTip);
    assert s.chain[..1] == [s.chain[0]];
  }

  /** A two-block chain that covers its mainchain branch. */
  predicate Settled2(p: Params, s: State, slot: nat) {
    GoodChain(p, s.chain) && |s.chain| == 2 && TipSlot(s.chain) == slot && HeadersOf(s.chain) == Path(s.mcTip)
  }

  /** The mainchain has switched: the next block replaces the second one and takes it as ommer. */
  lemma {:induction false} Replace(p: Params, s: State, slot: nat)
    requires p.maxRewrite >= 1 && GoodChain(p, s.chain) && Orphaned2(s, slot)
    ensures var t := Apply(p, s, TryForge(Attempt(slot, 0)));
      && Settled2(p, t, slot) && t.mcTip == s.mcTip && t.chain[1].ommers == [ToOmmer(s.chain[1])]
      && ChainScore(t.chain) == ChainScore(s.chain) + 1
  {
    ReplacedChain(p, s, slot);
    AttemptKeepsGoodChain(p, s, Attempt(slot, 0));
  }

  /** The tips of the race: two branches that leave each other at once overtake each other in turn. */
  function RaceTip(n: nat): McBlock {
    if n % 2 == 1 then Grow(Creation, n) else Fork(n)
  }

  lemma {:induction false} RaceTips(n: nat)
    requires n > 0
    ensures |Path(RaceTip(n))| == n + 1 && |Path(RaceTip(n + 1))| == n + 2
    ensures Height(RaceTip(n)) == n && Height(RaceTip(n + 1)) == n + 1
    ensures Common(Path(RaceTip(n)), Path(RaceTip(n + 1))) == 1
  {
    var odd, even := if n % 2 == 1 then n else n + 1, if n % 2 == 1 then n + 1 else n;
    ForkLeaves(odd, even);
    CommonSymmetric(Path(Grow(Creation, odd)), Path(Fork(even)));
  }

  /** The other branch overtakes and a block is forged, n times. */
  function Race(n: nat): seq<Step> {
    if n == 0 then []
    else if n == 1 then Mining(1) + [TryForge(Attempt(1, 0))]
    else Race(n - 1) + [Reorg(RaceTip(n))] + [TryForge(Attempt(n, 0))]
  }

  /** Each ommer has one ommer of its own, `n` times. */
  predicate NestedIn(ommers: seq<Ommer>, n: nat) {
    if n == 0 then ommers == [] else |ommers| == 1 && NestedIn(ommers[0].ommers, n - 1)
  }

  predicate RaceState(p: Params, s: State, n: nat)
    requires n > 0
  {
    && Settled2(p, s, n) && s.mcTip == RaceTip(n)
    && NestedIn(s.chain[1].ommers, n - 1) && ChainScore(s.chain) == n + 1
  }

  lemma {:induction false} FirstStepSettles(p: Params, s: State)
    requires Inv(p, s) && s == INITIAL.(mcTip := Grow(Creation, 1))
    ensures RaceState(p, Apply(p, s, TryForge(Attempt(1, 0))), 1)
  {
    SharpStep(p, s, 0);
    Starts(1);
    assert ChainScore(s.chain) == 1 by { assert s.chain[..0] == []; }
    assert Path(Grow(Creation, 1))[..2] == Path(Grow(Creation, 1));
    FirstForge(p, s, 0);
    ForgeRaisesScoreByOne(p, s, Attempt(1, 0));
    FirstForgeAdopted(p, s, 0);
    OmmersIffOrphaned(p, s, Attempt(1, 0));
  }

  lemma {:induction false} NextLap(p: Params, s: State, n: nat)
    requires p.maxRewrite >= 1 && 0 < n < MAX_NEW_HEADERS && RaceState(p, s, n)
    ensures RaceState(p, Apply(p, s.(mcTip := RaceTip(n + 1)), TryForge(Attempt(n + 1, 0))), n + 1)
  {
    RaceTips(n);
    Replace(p, s.(mcTip := RaceTip(n + 1)), n + 1);
  }

  /** In a race of n laps each lap's block replaces the one before and takes it as its only ommer: the last
      block holds all others nested in each other, and the score counts them all. */
  lemma {:induction false} NestedOmmers(p: Params, n: nat)
    requires p.maxRewrite >= 1 && 0 < n <= MAX_NEW_HEADERS
    ensures RaceState(p, Run(p, Race(n)), n)
  {
    if n == 1 {
      RunMining(p, 1);
      RunKeepsInv(p, Mining(1));
      FirstStepSettles(p, Run(p, Mining(1)));
      RunSnoc(p, Mining(1), TryForge(Attempt(1, 0)));
    } else {
      NestedOmmers(p, n - 1);
      RaceTips(n - 1);
      NextLap(p, Run(p, Race(n - 1)), n - 1);
      RunSnoc(p, Race(n - 1), Reorg(RaceTip(n)));
      RunSnoc(p, Race(n - 1) + [Reorg(RaceTip(n))], TryForge(Attempt(n, 0)));
    }
  }

  lemma {:induction false} NoNextLap(p: Params, s: State, n: nat, a: ForgeArgs)
    requires n >= MAX_NEW_HEADERS && RaceState(p, s, n)
    ensures Forge(p, s.(mcTip := RaceTip(n + 1)), a).NoSense?
  {
    RaceTips(n);
    NoSenseIff(s.chain, Path(RaceTip(n + 1)), a.delay);
  }

  /** The 49th lap is the last: whatever its delay, no forger can follow the next switch. */
  lemma {:induction false} RaceEnds(p: Params, n: nat, a: ForgeArgs)
    requires p.maxRewrite >= 1 && n == MAX_NEW_HEADERS
    ensures Forge(p, Run(p, Race(n) + [Reorg(RaceTip(n + 1))]), a).NoSense?
  {
    NestedOmmers(p, n);
    RaceTips(n);
    RunSnoc(p, Race(n), Reorg(RaceTip(n + 1)));
    NoNextLap(p, Run(p, Race(n)), n, a);
  }
}
