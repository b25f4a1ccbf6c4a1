/**
 The node's choice between its active chain and a branch that a received block would make, whoever forged
 the block.
 */
module ForkChoice {
  import opened Sidechain
  import opened Forger
  import opened ForgerSteps

  /** A chain with a higher score wins, and on equal scores a longer one. */
  predicate Beats(candidate: seq<ScBlock>, current: seq<ScBlock>) {
    || ChainScore(candidate) > ChainScore(current)
    || (ChainScore(candidate) == ChainScore(current) && |candidate| > |current|)
  }

  /** The chain the block would make. */
  function Candidate(chain: seq<ScBlock>, parent: nat, b: ScBlock): seq<ScBlock>
    requires parent < |chain|
  {
    chain[..parent + 1] + [b]
  }

  lemma {:induction false} ScoreOfCandidate(chain: seq<ScBlock>, parent: nat, b: ScBlock)
    requires parent < |chain|
    ensures ChainScore(Candidate(chain, parent, b)) == ChainScore(chain[..parent + 1]) + BlockScore(b)
  {
    assert Candidate(chain, parent, b)[..parent + 1] == chain[..parent + 1];
  }

  /** A longer row of blocks has the higher score. */
  lemma {:induction false} TipAlwaysBeats(chain: seq<ScBlock>, b: ScBlock)
    requires chain != []
    ensures Beats(Candidate(chain, |chain| - 1, b), chain)
  {
    ScoreOfCandidate(chain, |chain| - 1, b);
    assert chain[..|chain|] == chain;
  }

  /** Neither limit stands against the block. */
  predicate WithinLimits(p: Params, limit: bool, chain: seq<ScBlock>, parent: nat, b: ScBlock)
    requires parent < |chain|
  {
    && |chain| - 1 - parent <= p.maxRewrite
    && !(limit && b.refData == [] && TrailingHeaderless(chain[..parent + 1]) >= HeaderlessBound(p))
  }

  /** Any block: the active chain becomes the candidate if and only if that beats it and neither limit stands
      against it; otherwise the chain stays and the block is kept aside. */
  lemma {:induction false} ReceivedIff(p: Params, limit: bool, s: State, parent: nat, b: ScBlock)
    requires parent < |s.chain|
    ensures Append(p, limit, s, parent, b) ==
      if Beats(Candidate(s.chain, parent, b), s.chain) && WithinLimits(p, limit, s.chain, parent, b) then
        s.(chain := Candidate(s.chain, parent, b), adopted := s.adopted + [b])
      else
        s.(rejected := s.rejected + [b])
  {
    ScoreOfCandidate(s.chain, parent, b);
    LacksDataIff(p, limit, s.chain[..parent + 1], b);
    if parent == |s.chain| - 1 {
      TipAlwaysBeats(s.chain, b);
    }
  }

  // ---------------------------------------------------------------- whatever is received

  /** What happens to a node: a step of the mainchain or of its own forger, or a block from elsewhere. */
  datatype Happening = Own(step: Step) | Foreign(limit: bool, parent: nat, block: ScBlock)

  function Undergo(p: Params, s: State, h: Happening): State {
    match h
    case Own(step) => Apply(p, s, step)
    case Foreign(limit, parent, b) => if parent < |s.chain| then Append(p, limit, s, parent, b) else s
  }

  function UndergoAll(p: Params, s: State, hs: seq<Happening>): State {
    if hs == [] then s else Undergo(p, UndergoAll(p, s, hs[..|hs| - 1]), hs[|hs| - 1])
  }

  lemma {:induction false} AppendNeverLowersScore(p: Params, limit: bool, s: State, parent: nat, b: ScBlock)
    requires parent < |s.chain|
    ensures var t := Append(p, limit, s, parent, b); t.chain == s.chain || Beats(t.chain, s.chain)
  {
    ReceivedIff(p, limit, s, parent, b);
  }

  lemma {:induction false} StepNeverLowersScore(p: Params, s: State, h: Happening)
    ensures var t := Undergo(p, s, h); t.chain == s.chain || Beats(t.chain, s.chain)
  {
    match h
    case Own(step) =>
      if step.TryForge? && Forge(p, s, step.args).Forged? {
        AppendNeverLowersScore(p, step.args.headerlessLimit, s, Forge(p, s, step.args).parent,
          Forge(p, s, step.args).block);
      }
    case Foreign(limit, parent, b) =>
      if parent < |s.chain| {
        AppendNeverLowersScore(p, limit, s, parent, b);
      }
  }

  /** Whatever blocks are received, from whatever state, the active chain changes only to one that beats it,
      so its score never falls. */
  lemma {:induction false} ScoreNeverFalls(p: Params, s: State, hs: seq<Happening>)
    ensures var t := UndergoAll(p, s, hs);
      (t.chain == s.chain || Beats(t.chain, s.chain)) && ChainScore(t.chain) >= ChainScore(s.chain)
  {
    if hs != [] {
      var n := |hs| - 1;
      ScoreNeverFalls(p, s, hs[..n]);
      StepNeverLowersScore(p, UndergoAll(p, s, hs[..n]), hs[n]);
    }
  }
}
