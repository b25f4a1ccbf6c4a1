/**
 The limit on rewriting history: for every value of it there is a run in which a forged block is
 refused by the node that forged it, and the score stops counting all forged blocks.
 */
module RewriteLimit {
  import opened Mainchain
  import opened Sidechain
  import opened Forger
  import opened ForgerSteps
  import opened ForgerRuns
  import opened ForgerDelay
  import opened ForgerCatchUp

  const FIRST: McBlock := Mined(Creation, 0, 0)

  lemma {:induction false} FirstPath()
    ensures Path(FIRST) == [Creation, FIRST] && Grow(Creation, 1) == FIRST
  {
    assert Path(FIRST) == Path(Creation) + [FIRST];
    assert Grow(Creation, 1) == Mined(Grow(Creation, 0), 0, 0);
  }

  /** One mainchain block, then k forging attempts: the first block carries its header, the others carry
      none. */
  predicate Tail(chain: seq<ScBlock>, k: nat) {
    && |chain| == k + 1 && TipSlot(chain) == k
    && HeadersOf(chain) == (if k == 0 then [Creation] else [Creation, FIRST])
    && (k > 0 ==> chain[1].headers != [])
  }

  predicate TailState(s: State, tip: McBlock, k: nat) {
    s.mcTip == tip && s.rejected == [] && Tail(s.chain, k)
  }

  lemma {:induction false} TailForge(p: Params, s: State, k: nat)
    requires GoodChain(p, s.chain) && TailState(s, FIRST, k)
    ensures Forge(p, s, Attempt(k + 1, 0)).Forged? && Forge(p, s, Attempt(k + 1, 0)).parent == k
    ensures Forge(p, s, Attempt(k + 1, 0)).block.header.slot == k + 1
  {
    FirstPath();
    AttemptOnActiveChain(p, s, Attempt(k + 1, 0));
  }

  lemma {:induction false} TailChain(p: Params, s: State, k: nat)
    requires GoodChain(p, s.chain) && TailState(s, FIRST, k)
    ensures Forge(p, s, Attempt(k + 1, 0)).Forged?
    ensures Apply(p, s, TryForge(Attempt(k + 1, 0))).chain == s.chain[..k + 1] + [Forge(p, s, Attempt(k + 1, 0)).block]
    ensures Apply(p, s, TryForge(Attempt(k + 1, 0))).rejected == []
  {
    TailForge(p, s, k);
    ForgeRaisesScoreByOne(p, s, Attempt(k + 1, 0));
  }

  lemma {:induction false} TailHeaders(p: Params, s: State, k: nat)
    requires GoodChain(p, s.chain) && TailState(s, FIRST, k)
    ensures HeadersOf(Apply(p, s, TryForge(Attempt(k + 1, 0))).chain) == [Creation, FIRST]
    ensures Apply(p, s, TryForge(Attempt(k + 1, 0))).mcTip == FIRST
  {
    FirstPath();
    AttemptCoversAll(p, s, k + 1);
  }

  lemma {:induction false} TailStep(p: Params, s: State, k: nat)
    requires GoodChain(p, s.chain) && TailState(s, FIRST, k)
    ensures TailState(Apply(p, s, TryForge(Attempt(k + 1, 0))), FIRST, k + 1)
  {
    TailForge(p, s, k);
    TailChain(p, s, k);
    TailHeaders(p, s, k);
    assert s.chain[..k + 1] == s.chain;
    TailGrows(s.chain, Forge(p, s, Attempt(k + 1, 0)).block, k);
  }

  lemma {:induction false} TailGrows(chain: seq<ScBlock>, b: ScBlock, k: nat)
    requires Tail(chain, k) && b.header.slot == k + 1 && HeadersOf(chain + [b]) == [Creation, FIRST]
    ensures chain[..k + 1] == chain && Tail(chain + [b], k + 1)
  {
    HeadersOfSnoc(chain, b);
  }

  lemma {:induction false} StartState(p: Params)
    ensures TailState(Apply(p, INITIAL, Extend(0, 0)), FIRST, 0)
  {
    GenesisCommon(Creation);
  }

  /** The run that builds such a chain. */
  lemma {:induction false} RunTail(p: Params, k: nat) returns (steps: seq<Step>)
    ensures TailState(Run(p, steps), FIRST, k)
  {
    if k == 0 {
      StartState(p);
      RunSnoc(p, [], Extend(0, 0));
      steps := [] + [Extend(0, 0)];
    } else {
      var before := RunTail(p, k - 1);
      RunTailStep(p, before, k - 1);
      steps := before + [TryForge(Attempt(k, 0))];
    }
  }

  lemma {:induction false} RunTailStep(p: Params, steps: seq<Step>, k: nat)
    requires TailState(Run(p, steps), FIRST, k)
    ensures TailState(Run(p, steps + [TryForge(Attempt(k + 1, 0))]), FIRST, k + 1)
  {
    RunKeepsInv(p, steps);
    TailStep(p, Run(p, steps), k);
    RunSnoc(p, steps, TryForge(Attempt(k + 1, 0)));
  }

  lemma {:induction false} SecondBlockCounts(chain: seq<ScBlock>, k: nat)
    requires Tail(chain, k) && k > 0 && chain[0] == GENESIS
    ensures |HeadersOf(chain[..2])| >= 2
  {
    HeadersStep(chain, 1);
    GenesisHeader(chain, 1);
  }

  lemma {:induction false} SwitchForges(p: Params, s: State, k: nat)
    requires FollowsBranch(s.chain) && k > 0 && TailState(s, Fork(2), k)
    ensures Common(HeadersOf(s.chain), Path(s.mcTip)) == 1 && Forge(p, s, Attempt(k + 1, 0)).Forged?
  {
    ForkLeaves(1, 2);
    FirstPath();
    NoSenseIff(s.chain, Path(s.mcTip), 0);
  }

  lemma {:induction false} AllLeftBehind(chain: seq<ScBlock>, path: seq<McBlock>, parent: nat, b: ScBlock, k: nat)
    requires parent < |chain| && WellPlaced(chain, path, parent, b) && Tail(chain, k) && k > 0 && chain[0] == GENESIS
    requires Common(HeadersOf(chain), path) == 1
    ensures parent == 0
  {
    SecondBlockCounts(chain, k);
    ActiveUpToCommon(chain, 2, path);
  }

  /** After the mainchain switches, forging leaves all k blocks behind. */
  lemma {:induction false} ForgeAfterSwitch(p: Params, s: State, k: nat)
    requires GoodChain(p, s.chain) && k > 0 && TailState(s, Fork(2), k)
    ensures Forge(p, s, Attempt(k + 1, 0)).Forged? && Forge(p, s, Attempt(k + 1, 0)).parent == 0
  {
    SwitchForges(p, s, k);
    ForgedIsWellPlaced(p, s, Attempt(k + 1, 0));
    AllLeftBehind(s.chain, Path(s.mcTip), Forge(p, s, Attempt(k + 1, 0)).parent, Forge(p, s, Attempt(k + 1, 0)).block,
      k);
  }

  lemma {:induction false} ForkIsLonger()
    ensures Height(Fork(2)) > Height(FIRST)
  {
    StartsFork(2);
    FirstPath();
  }

  lemma {:induction false} SwitchStep(p: Params, s: State, tip: McBlock)
    requires Height(tip) > Height(s.mcTip)
    ensures Apply(p, s, Reorg(tip)) == s.(mcTip := tip)
  {
  }

  lemma {:induction false} RunSwitch(p: Params, steps: seq<Step>, k: nat)
    requires TailState(Run(p, steps), FIRST, k)
    ensures TailState(Run(p, steps + [Reorg(Fork(2))]), Fork(2), k)
  {
    ForkIsLonger();
    SwitchStep(p, Run(p, steps), Fork(2));
    RunSnoc(p, steps, Reorg(Fork(2)));
  }

  lemma {:induction false} RefusedAfterSwitch(p: Params, steps: seq<Step>, k: nat)
    requires k == p.maxRewrite + 1 && TailState(Run(p, steps), Fork(2), k)
    ensures |Run(p, steps + [TryForge(Attempt(k + 1, 0))]).rejected| == 1
  {
    RunKeepsInv(p, steps);
    ForgeAfterSwitch(p, Run(p, steps), k);
    ForgeRaisesScoreByOne(p, Run(p, steps), Attempt(k + 1, 0));
    RunSnoc(p, steps, TryForge(Attempt(k + 1, 0)));
  }

  /** For every limit there is a run in which the node refuses its own block, and in which the score
      does not count every forged block. */
  lemma {:induction false} TooDeepIsRefused(p: Params) returns (steps: seq<Step>)
    ensures |Run(p, steps).rejected| == 1
    ensures ChainScore(Run(p, steps).chain) < 1 + ForgedCount(Run(p, steps))
  {
    var k := p.maxRewrite + 1;
    var tail := RunTail(p, k);
    RunSwitch(p, tail, k);
    var switched := tail + [Reorg(Fork(2))];
    RefusedAfterSwitch(p, switched, k);
    steps := switched + [TryForge(Attempt(k + 1, 0))];
    ScoreCountsForgedBlocks(p, steps);
  }
}
