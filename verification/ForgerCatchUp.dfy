/**
 Catching up with a mainchain that is far ahead: how many forging steps it takes to include
 everything but the delayed blocks.
 */
module ForgerCatchUp {
  import opened Mainchain
  import opened Sidechain
  import opened OmmersValidation
  import opened Forger
  import opened ForgerSteps
  import opened ForgerRuns
  import opened ForgerDelay

  function TipSlot(chain: seq<ScBlock>): nat {
    if chain == [] then 0 else chain[|chain| - 1].header.slot
  }

  /** An attempt by a forger, and whether its block has a chance to be adopted. */
  datatype Try = Try(args: ForgeArgs, effective: bool)

  /** `states` is what a row of attempts by forgers with delay `d` goes through on a mainchain that
      stands still, each attempt in a slot after the tip's. */
  predicate Trace(p: Params, states: seq<State>, tries: seq<Try>, d: nat) {
    && |states| == |tries| + 1
    && forall i: nat {:trigger AttemptedAt(p, states, tries, d, i)} ::
         i < |tries| ==> AttemptedAt(p, states, tries, d, i)
  }

  predicate AttemptedAt(p: Params, states: seq<State>, tries: seq<Try>, d: nat, i: nat) {
    i < |tries| && i + 1 < |states| && Attempted(p, states[i], tries[i], d, states[i + 1])
  }

  predicate Attempted(p: Params, s: State, t: Try, d: nat, next: State) {
    && t.args.delay == d && t.args.slot > TipSlot(s.chain)
    && t.effective == !Starved(p, s, t.args)
    && next == Apply(p, s, TryForge(t.args))
  }

  /** The attempt's block would be refused: the limit is active and reached, and the block takes no
      reference data. */
  predicate Starved(p: Params, s: State, a: ForgeArgs) {
    a.headerlessLimit && a.refBudget == 0 && TrailingHeaderless(s.chain) >= HeaderlessBound(p)
  }

  // ---------------------------------------------------------------- one attempt

  /** Mainchain blocks covered after one attempt, from `n` covered blocks out of `len`. */
  function Advance(n: nat, len: nat, d: nat): nat
    requires n <= len
  {
    var got := if len - n < MAX_NEW_HEADERS then len - n else MAX_NEW_HEADERS;
    if got > d then n + got - d else n
  }

  lemma {:induction false} CoveredIsAdvance(chain: seq<ScBlock>, path: seq<McBlock>, d: nat)
    requires HeadersOf(chain) <= path
    ensures Covered(chain, path, d) == Advance(|HeadersOf(chain)|, |path|, d)
  {
    CommonIsLongest(HeadersOf(chain), path, |HeadersOf(chain)|);
  }

  /** On an active chain an attempt in a later slot either makes a block on the tip or skips the slot
      because there is nothing new to include. */
  lemma {:induction false} AttemptOnActiveChain(p: Params, s: State, a: ForgeArgs)
    requires GoodChain(p, s.chain) && HeadersOf(s.chain) <= Path(s.mcTip) && a.slot > TipSlot(s.chain)
    ensures Forge(p, s, a).Forged? ==> Forge(p, s, a).parent == |s.chain| - 1
    ensures Forge(p, s, a).Forged?
      || (Forge(p, s, a).SkipSlot? && Covered(s.chain, Path(s.mcTip), a.delay) == |HeadersOf(s.chain)|)
  {
    CreationIsShared(s.chain, s.mcTip);
    CommonIsLongest(HeadersOf(s.chain), Path(s.mcTip), |HeadersOf(s.chain)|);
  }

  /** A block with new headers on the tip takes reference data unless it has no budget for any. */
  lemma {:induction false} TakesData(p: Params, chain: seq<ScBlock>, bp: BranchPoint, id: nat, a: ForgeArgs)
    requires bp.BranchPoint? && bp.parent + 1 == |chain| && bp.headers != []
    ensures Assemble(p, chain, bp, id, a).refData == [] <==> a.refBudget == 0
  {
    assert |Missed(chain) + bp.headers| >= 1;
  }

  lemma {:induction false} AdoptedUnlessStarved(p: Params, s: State, a: ForgeArgs)
    requires s.chain != [] && HeadersOf(s.chain) <= Path(s.mcTip) && Forge(p, s, a).Forged?
    ensures Forge(p, s, a).parent == |s.chain| - 1
    ensures Adopts(p, a.headerlessLimit, s.chain, Forge(p, s, a).parent, Forge(p, s, a).block) <==> !Starved(p, s, a)
  {
    var bp := FindBranchPoint(s.chain, Path(s.mcTip), a.delay);
    ActiveBranchPoint(s.chain, Path(s.mcTip), a.delay);
    assert s.chain[..|s.chain|] == s.chain;
    LacksDataIff(p, a.headerlessLimit, s.chain, Forge(p, s, a).block);
    if bp.headers == [] {
      TooManyIffBound(p, s.chain, bp.headers);
    } else {
      TakesData(p, s.chain, bp, NextId(s), a);
    }
  }

  /** One attempt covers the next portion, or nothing if it is starved. */
  lemma {:induction false} AttemptAdvances(p: Params, s: State, a: ForgeArgs)
    requires GoodChain(p, s.chain) && HeadersOf(s.chain) <= Path(s.mcTip) && a.slot > TipSlot(s.chain)
    ensures var n, len := |HeadersOf(s.chain)|, |Path(s.mcTip)|;
      HeadersOf(Apply(p, s, TryForge(a)).chain)
        == Path(s.mcTip)[..if Starved(p, s, a) then n else Advance(n, len, a.delay)]
    ensures Apply(p, s, TryForge(a)).mcTip == s.mcTip
  {
    CoveredIsAdvance(s.chain, Path(s.mcTip), a.delay);
    AttemptOnActiveChain(p, s, a);
    if Forge(p, s, a).Forged? {
      AdoptedUnlessStarved(p, s, a);
      if !Starved(p, s, a) {
        AdoptionFollowsActiveBranch(p, s, a);
      }
    }
  }

  /** Without delay, one attempt covers a branch that is less than one request ahead. */
  lemma {:induction false} AttemptCoversAll(p: Params, s: State, slot: nat)
    requires GoodChain(p, s.chain) && HeadersOf(s.chain) <= Path(s.mcTip) && slot > TipSlot(s.chain)
    requires |Path(s.mcTip)| - |HeadersOf(s.chain)| <= MAX_NEW_HEADERS
    ensures HeadersOf(Apply(p, s, TryForge(Attempt(slot, 0))).chain) == Path(s.mcTip)
    ensures Apply(p, s, TryForge(Attempt(slot, 0))).mcTip == s.mcTip
  {
    AttemptAdvances(p, s, Attempt(slot, 0));
    assert Path(s.mcTip)[..|Path(s.mcTip)|] == Path(s.mcTip);
  }

  // ---------------------------------------------------------------- a row of attempts

  /** Mainchain blocks covered after k attempts. */
  function Reached(n: nat, len: nat, d: nat, k: nat): (r: nat)
    requires n <= len
    ensures n <= r <= len
  {
    if k == 0 then n else Advance(Reached(n, len, d, k - 1), len, d)
  }

  /** In closed form: portions of 49 - d until only the last d blocks are left. */
  lemma {:induction false} ReachedClosed(n: nat, len: nat, d: nat, k: nat)
    requires n + d <= len && d < MAX_NEW_HEADERS
    ensures Reached(n, len, d, k)
         == if n + k * (MAX_NEW_HEADERS - d) <= len - d then n + k * (MAX_NEW_HEADERS - d) else len - d
  {
    if k > 0 {
      ReachedClosed(n, len, d, k - 1);
      assert k * (MAX_NEW_HEADERS - d) == (k - 1) * (MAX_NEW_HEADERS - d) + (MAX_NEW_HEADERS - d);
    } else {
      assert k * (MAX_NEW_HEADERS - d) == 0;
    }
  }

  /** A state whose chain covers the first `n` blocks of the branch that ends in `tip`. */
  predicate Covers(p: Params, s: State, tip: McBlock, n: nat) {
    && GoodChain(p, s.chain)
    && s.mcTip == tip && n <= |Path(tip)| && HeadersOf(s.chain) == Path(tip)[..n]
  }

  lemma {:induction false} AttemptCovers(p: Params, s: State, t: Try, d: nat, next: State, tip: McBlock, n: nat)
    requires Covers(p, s, tip, n) && Attempted(p, s, t, d, next)
    ensures Covers(p, next, tip, if t.effective then Advance(n, |Path(tip)|, d) else n)
  {
    AttemptAdvances(p, s, t.args);
    AttemptKeepsGoodChain(p, s, t.args);
  }

  lemma {:induction false} AttemptKeepsGoodChain(p: Params, s: State, a: ForgeArgs)
    requires GoodChain(p, s.chain)
    ensures GoodChain(p, Apply(p, s, TryForge(a)).chain)
  {
    if Forge(p, s, a).Forged? {
      AdoptKeepsGoodChain(p, s, a);
    }
  }

  /** How many of the first k attempts are effective. */
  function Effective(tries: seq<Try>, k: nat): nat
    requires k <= |tries|
  {
    if k == 0 then 0 else Effective(tries, k - 1) + if tries[k - 1].effective then 1 else 0
  }

  lemma {:induction false} ReachedStep(n: nat, len: nat, d: nat, tries: seq<Try>, k: nat)
    requires n <= len && 0 < k <= |tries|
    ensures var c := Reached(n, len, d, Effective(tries, k - 1));
      Reached(n, len, d, Effective(tries, k)) == if tries[k - 1].effective then Advance(c, len, d) else c
  {
  }

  lemma {:induction false} TraceStep(p: Params, states: seq<State>, tries: seq<Try>, tip: McBlock,
                                     c: nat, d: nat, i: nat)
    requires Trace(p, states, tries, d) && i < |tries| && Covers(p, states[i], tip, c)
    ensures Covers(p, states[i + 1], tip, if tries[i].effective then Advance(c, |Path(tip)|, d) else c)
  {
    assert AttemptedAt(p, states, tries, d, i);
    AttemptCovers(p, states[i], tries[i], d, states[i + 1], tip, c);
  }

  /** After k attempts the chain covers exactly what the effective ones among them reach. */
  lemma {:induction false} TraceReaches(p: Params, states: seq<State>, tries: seq<Try>, tip: McBlock,
                                        n: nat, d: nat, k: nat)
    requires Trace(p, states, tries, d) && k <= |tries| && Covers(p, states[0], tip, n)
    ensures Covers(p, states[k], tip, Reached(n, |Path(tip)|, d, Effective(tries, k)))
  {
    if k > 0 {
      var c := Reached(n, |Path(tip)|, d, Effective(tries, k - 1));
      TraceReaches(p, states, tries, tip, n, d, k - 1);
      TraceStep(p, states, tries, tip, c, d, k - 1);
      ReachedStep(n, |Path(tip)|, d, tries, k);
    }
  }

  /** Without the limit, or with reference data in every block, every attempt is effective. */
  lemma {:induction false} AllEffective(p: Params, states: seq<State>, tries: seq<Try>, d: nat, k: nat)
    requires Trace(p, states, tries, d) && k <= |tries|
    requires forall i :: 0 <= i < k ==> !tries[i].args.headerlessLimit || tries[i].args.refBudget > 0
    ensures Effective(tries, k) == k
  {
    if k > 0 {
      AllEffective(p, states, tries, d, k - 1);
      assert AttemptedAt(p, states, tries, d, k - 1);
    }
  }

  /** How many portions of at most `b` make up `a`. */
  function CeilDiv(a: nat, b: nat): nat
    requires b > 0
  {
    if a == 0 then 0 else if a <= b then 1 else 1 + CeilDiv(a - b, b)
  }

  lemma {:induction false} CeilDivIff(a: nat, b: nat, k: nat)
    requires b > 0
    ensures k * b >= a <==> k >= CeilDiv(a, b)
  {
    if k == 0 {
      assert k * b == 0;
    } else if a > b {
      CeilDivIff(a - b, b, k - 1);
      assert k * b == (k - 1) * b + b;
    } else {
      assert k * b >= b;
    }
  }

  lemma {:induction false} CeilDivIsDivision(a: nat, b: nat)
    requires b > 0
    ensures CeilDiv(a, b) == (a + b - 1) / b
  {
    var q := (a + b - 1) / b;
    assert q * b <= a + b - 1 < q * b + b;
    CeilDivIff(a, b, q);
    if q > 0 {
      assert (q - 1) * b == q * b - b;
      CeilDivIff(a, b, q - 1);
    }
  }

  lemma {:induction false} ReachedIff(n: nat, len: nat, d: nat, k: nat)
    requires n + d <= len && d < MAX_NEW_HEADERS
    ensures Reached(n, len, d, k) <= len - d
    ensures Reached(n, len, d, k) == len - d <==> k >= CeilDiv(len - n - d, MAX_NEW_HEADERS - d)
  {
    ReachedClosed(n, len, d, k);
    CeilDivIff(len - n - d, MAX_NEW_HEADERS - d, k);
  }

  lemma {:induction false} ReachedExactly(h: seq<McBlock>, path: seq<McBlock>, n: nat, d: nat, k: nat)
    requires n + d <= |path| && d < MAX_NEW_HEADERS
    requires h == path[..Reached(n, |path|, d, k)]
    ensures h == path[..|path| - d] <==> k >= CeilDiv(|path| - n - d, MAX_NEW_HEADERS - d)
  {
    ReachedIff(n, |path|, d, k);
    assert |path[..|path| - d]| == |path| - d;
  }

  /** Attempts needed for `pending` blocks of which the last d are left for later. */
  function Needed(pending: nat, d: nat): nat
    requires d <= pending && d < MAX_NEW_HEADERS
  {
    CeilDiv(pending - d, MAX_NEW_HEADERS - d)
  }

  /** That is ceil((pending - d) / (49 - d)). */
  lemma {:induction false} NeededIsDivision(pending: nat, d: nat)
    requires d <= pending && d < MAX_NEW_HEADERS
    ensures Needed(pending, d) == (pending - d + (MAX_NEW_HEADERS - d) - 1) / (MAX_NEW_HEADERS - d)
  {
    CeilDivIsDivision(pending - d, MAX_NEW_HEADERS - d);
  }

  /** With at least d blocks pending on a stable mainchain, everything but the last d of them is
      included, once and in order, after exactly ceil((pending - d) / (49 - d)) effective attempts and
      not earlier. */
  lemma {:induction false} CatchUpStepsExact(p: Params, states: seq<State>, tries: seq<Try>, tip: McBlock,
                                             n: nat, d: nat, k: nat)
    requires Trace(p, states, tries, d) && d < MAX_NEW_HEADERS && k <= |tries|
    requires Covers(p, states[0], tip, n) && n + d <= |Path(tip)|
    ensures HeadersOf(states[k].chain) == Path(tip)[..|Path(tip)| - d]
      <==> Effective(tries, k) >= Needed(|Path(tip)| - n, d)
  {
    TraceReaches(p, states, tries, tip, n, d, k);
    ReachedExactly(HeadersOf(states[k].chain), Path(tip), n, d, Effective(tries, k));
  }

  /** The same with the quotient written out. */
  lemma {:induction false} CatchUpStepsDivision(p: Params, states: seq<State>, tries: seq<Try>, tip: McBlock,
                                                n: nat, d: nat, k: nat, q: nat)
    requires Trace(p, states, tries, d) && d < MAX_NEW_HEADERS && k <= |tries|
    requires Covers(p, states[0], tip, n) && n + d <= |Path(tip)|
    requires q == (|Path(tip)| - n - d + (MAX_NEW_HEADERS - d) - 1) / (MAX_NEW_HEADERS - d)
    ensures HeadersOf(states[k].chain) == Path(tip)[..|Path(tip)| - d] <==> Effective(tries, k) >= q
  {
    NeededIsDivision(|Path(tip)| - n, d);
    CatchUpStepsExact(p, states, tries, tip, n, d, k);
  }

  /** And without the limit on blocks without headers, or with room for reference data in every block, that
      many attempts are needed. */
  lemma {:induction false} CatchUpSteps(p: Params, states: seq<State>, tries: seq<Try>, tip: McBlock,
                                        n: nat, d: nat, k: nat, q: nat)
    requires Trace(p, states, tries, d) && d < MAX_NEW_HEADERS && k <= |tries|
    requires Covers(p, states[0], tip, n) && n + d <= |Path(tip)|
    requires q == (|Path(tip)| - n - d + (MAX_NEW_HEADERS - d) - 1) / (MAX_NEW_HEADERS - d)
    requires forall i :: 0 <= i < k ==> !tries[i].args.headerlessLimit || tries[i].args.refBudget > 0
    ensures HeadersOf(states[k].chain) == Path(tip)[..|Path(tip)| - d] <==> k >= q
  {
    AllEffective(p, states, tries, d, k);
    CatchUpStepsDivision(p, states, tries, tip, n, d, k, q);
  }

  /** A forger that waits for as many blocks as one request brings never includes any. */
  lemma {:induction false} TooLongDelayNeverAdvances(p: Params, s: State, a: ForgeArgs)
    requires GoodChain(p, s.chain) && HeadersOf(s.chain) <= Path(s.mcTip) && a.slot > TipSlot(s.chain)
    requires a.delay >= MAX_NEW_HEADERS
    ensures HeadersOf(Apply(p, s, TryForge(a)).chain) == HeadersOf(s.chain)
  {
    AttemptAdvances(p, s, a);
  }
}
