/**
 The limit on withdrawal requests meets the forger.  A block begins with the aggregated transaction of
 every reference that brings forward transfers, and while an epoch holds more requests than slots are open
 the node refuses every block with a transaction.  One block brings at most 49 new references, so an epoch
 can start in a way that no reference is ever included again.
 */
module WithdrawalStall {
  import opened Mainchain
  import opened Sidechain
  import opened OmmersValidation
  import opened Forger
  import opened ForgerSteps
  import opened ForgerRuns
  import opened ForgerDelay
  import opened ForgerCatchUp
  import Limit = BackwardTransferLimit

  /** Which mainchain blocks bring forward transfers, and how many withdrawal requests a transaction makes. */
  datatype World = World(transfers: McBlock -> bool, requests: nat -> nat)

  /** References that bring an aggregated transaction. */
  function Aggregated(w: World, refs: seq<McBlock>): nat {
    if refs == [] then 0
    else Aggregated(w, refs[..|refs| - 1]) + if w.transfers(refs[|refs| - 1]) then 1 else 0
  }

  function Requests(w: World, txs: seq<nat>): (rs: seq<nat>)
    ensures |rs| == |txs|
  {
    seq<nat>(|txs|, i requires 0 <= i < |txs| => w.requests(txs[i]))
  }

  /** The transactions the limit is checked for: aggregated ones first, then the block's own. */
  function Checked(w: World, b: ScBlock): Limit.Block {
    Limit.Block(|b.refData|, Limit.Zeros(Aggregated(w, b.refData)) + Requests(w, b.txs))
  }

  /** Withdrawal epoch and stored requests after a chain. */
  function StoredBy(w: World, chain: seq<ScBlock>, len: EpochLength): Limit.State {
    if chain == [] then Limit.State(EpochInfo(0, 0), 0)
    else Limit.Apply(StoredBy(w, chain[..|chain| - 1], len), Checked(w, chain[|chain| - 1]), len)
  }

  lemma {:induction false} StoredByEpoch(w: World, chain: seq<ScBlock>, len: EpochLength)
    ensures StoredBy(w, chain, len).info == EpochOf(chain, len)
  {
    if chain != [] {
      StoredByEpoch(w, chain[..|chain| - 1], len);
    }
  }

  lemma {:induction false} StoredBySnoc(w: World, chain: seq<ScBlock>, b: ScBlock, len: EpochLength)
    ensures StoredBy(w, chain + [b], len) == Limit.Apply(StoredBy(w, chain, len), Checked(w, b), len)
  {
    assert (chain + [b])[..|chain|] == chain;
  }

  predicate Passes(w: World, chain: seq<ScBlock>, b: ScBlock, len: EpochLength) {
    Limit.Fits(StoredBy(w, chain, len), Checked(w, b), len)
  }

  /** That is the running check of every node. */
  lemma {:induction false} PassesIff(w: World, chain: seq<ScBlock>, b: ScBlock, len: EpochLength)
    ensures Passes(w, chain, b, len) <==> Limit.Allowed(StoredBy(w, chain, len), Checked(w, b), len)
  {
    Limit.AllowedByTotal(StoredBy(w, chain, len), Checked(w, b), len);
  }

  /** The node checks the limit before it applies the forged block. */
  function CheckedOutcome(p: Params, w: World, limit: bool, s: State, r: ForgeResult): State
    requires p.epochLength >= 2 && (r.Forged? ==> r.parent < |s.chain|)
  {
    if r.Forged? && !Passes(w, s.chain[..r.parent + 1], r.block, p.epochLength) then
      s.(rejected := s.rejected + [r.block])
    else Outcome(p, limit, s, r)
  }

  function CheckedApply(p: Params, w: World, s: State, step: Step): State
    requires p.epochLength >= 2
  {
    if step.TryForge? then CheckedOutcome(p, w, step.args.headerlessLimit, s, Forge(p, s, step.args))
    else Apply(p, s, step)
  }

  /** The states such a node goes through. */
  predicate Trace(p: Params, w: World, states: seq<State>, steps: seq<Step>) {
    && |states| == |steps| + 1
    && forall i: nat {:trigger StepAt(p, w, states, steps, i)} :: i < |steps| ==> StepAt(p, w, states, steps, i)
  }

  predicate StepAt(p: Params, w: World, states: seq<State>, steps: seq<Step>, i: nat) {
    && p.epochLength >= 2 && i < |steps| && i + 1 < |states|
    && states[i + 1] == CheckedApply(p, w, states[i], steps[i])
  }

  /** A step is the same step in a longer run. */
  lemma {:induction false} StepIsKept(p: Params, w: World, a: seq<State>, x: seq<Step>, n: nat,
                                      c: seq<State>, z: seq<Step>, i: nat)
    requires StepAt(p, w, a, x, i) && n + i + 1 < |c| && n + i < |z|
    requires c[n + i] == a[i] && c[n + i + 1] == a[i + 1] && z[n + i] == x[i]
    ensures StepAt(p, w, c, z, n + i)
  {
  }

  /** A single step is a run. */
  lemma {:induction false} OneStep(p: Params, w: World, s: State, step: Step) returns (t: State)
    requires p.epochLength >= 2
    ensures t == CheckedApply(p, w, s, step) && Trace(p, w, [s, t], [step])
  {
    t := CheckedApply(p, w, s, step);
    forall i: nat | i < 1 ensures StepAt(p, w, [s, t], [step], i) {
    }
  }

  /** Two runs, one after the other. */
  lemma {:induction false} TraceConcat(p: Params, w: World, a: seq<State>, x: seq<Step>, b: seq<State>, y: seq<Step>)
    requires Trace(p, w, a, x) && Trace(p, w, b, y) && a[|x|] == b[0]
    ensures Trace(p, w, a + b[1..], x + y)
  {
    forall i: nat | i < |x + y| ensures StepAt(p, w, a + b[1..], x + y, i) {
      if i < |x| {
        FirstPart(p, w, a, x, b, y, i);
      } else {
        SecondPart(p, w, a, x, b, y, i - |x|);
      }
    }
  }

  lemma {:induction false} FirstPart(
      p: Params, w: World, a: seq<State>, x: seq<Step>, b: seq<State>, y: seq<Step>, i: nat)
    requires Trace(p, w, a, x) && |b| >= 1 && i < |x|
    ensures StepAt(p, w, a + b[1..], x + y, i)
  {
    assert StepAt(p, w, a, x, i);
    StepIsKept(p, w, a, x, 0, a + b[1..], x + y, i);
  }

  lemma {:induction false} SecondPart(
      p: Params, w: World, a: seq<State>, x: seq<Step>, b: seq<State>, y: seq<Step>, i: nat)
    requires |a| == |x| + 1 && Trace(p, w, b, y) && a[|x|] == b[0] && i < |y|
    ensures StepAt(p, w, a + b[1..], x + y, |x| + i)
  {
    assert StepAt(p, w, b, y, i);
    StepIsKept(p, w, b, y, |x|, a + b[1..], x + y, i);
  }

  // ---------------------------------------------------------------- a block on a chain that misses nothing

  /** The chain is active and carries the reference data of all its headers. */
  predicate CaughtUp(chain: seq<ScBlock>, path: seq<McBlock>) {
    chain != [] && HeadersOf(chain) <= path && RefsOf(chain) == HeadersOf(chain)
  }

  function Least(a: nat, b: nat): nat {
    if a < b then a else b
  }

  lemma {:induction false} AssembledOnCaughtUp(p: Params, chain: seq<ScBlock>, bp: BranchPoint, id: nat, a: ForgeArgs)
    requires bp.BranchPoint? && bp.parent + 1 == |chain| && RefsOf(chain) == HeadersOf(chain)
    ensures var b, left := Assemble(p, chain, bp, id, a), BlocksLeft(EpochOf(chain, p.epochLength), p.epochLength);
      && b.headers == bp.headers
      && b.refData == bp.headers[..Least(|bp.headers|, Least(a.refBudget, left))]
      && b.txs == if |b.refData| == left then [] else a.txs
  {
    assert Missed(chain) + bp.headers == bp.headers;
    assert chain[..|chain|] == chain;
  }

  /** What a forged block on such a chain carries: headers next on the branch, at most 49 of them, and
      reference data for as many of those as budget and epoch allow. */
  lemma {:induction false} ForgedOnCaughtUp(p: Params, s: State, a: ForgeArgs)
    requires CaughtUp(s.chain, Path(s.mcTip)) && Forge(p, s, a).Forged?
    ensures Forge(p, s, a).parent + 1 == |s.chain|
    ensures var b, left := Forge(p, s, a).block, BlocksLeft(EpochOf(s.chain, p.epochLength), p.epochLength);
      && b.headers == NewHashes(Path(s.mcTip), |HeadersOf(s.chain)|, a.delay)
      && b.refData == b.headers[..Least(|b.headers|, Least(a.refBudget, left))]
      && b.txs == if |b.refData| == left then [] else a.txs
  {
    CommonIsLongest(HeadersOf(s.chain), Path(s.mcTip), |HeadersOf(s.chain)|);
    var bp := FindBranchPoint(s.chain, Path(s.mcTip), a.delay);
    AssembledOnCaughtUp(p, s.chain, bp, NextId(s), a);
  }

  lemma {:induction false} NewHashesAreNext(path: seq<McBlock>, n: nat, delay: nat)
    requires n <= |path|
    ensures n + |NewHashes(path, n, delay)| <= |path| && |NewHashes(path, n, delay)| <= MAX_NEW_HEADERS
    ensures NewHashes(path, n, delay) == path[n..n + |NewHashes(path, n, delay)|]
  {
  }

  lemma {:induction false} AggregatedFirst(w: World, refs: seq<McBlock>)
    requires refs != [] && w.transfers(refs[0])
    ensures Aggregated(w, refs) >= 1
  {
    if |refs| > 1 {
      AggregatedFirst(w, refs[..|refs| - 1]);
    }
  }

  // ---------------------------------------------------------------- stalled for good

  /** Inside an epoch, more requests are stored than one block's references could open slots for. */
  predicate Overfull(l: Limit.State, len: EpochLength) {
    l.info.lastIndex < len && l.used > Limit.Slots(l.info.lastIndex + MAX_NEW_HEADERS, len)
  }

  /** In an overfull epoch a block passes exactly when it has no transaction of either kind. */
  lemma {:induction false} OverfullPassesIff(w: World, chain: seq<ScBlock>, b: ScBlock, len: EpochLength)
    requires Overfull(StoredBy(w, chain, len), len) && |b.refData| <= MAX_NEW_HEADERS
    ensures Passes(w, chain, b, len) <==> Aggregated(w, b.refData) == 0 && b.txs == []
  {
    var l := StoredBy(w, chain, len);
    Limit.SlotsGrow(l.info.lastIndex + |b.refData|, l.info.lastIndex + MAX_NEW_HEADERS, len);
  }

  /** The chain misses nothing, its epoch is overfull, and the next mainchain block brings a transfer. */
  predicate Stalled(p: Params, w: World, chain: seq<ScBlock>, path: seq<McBlock>)
    requires p.epochLength >= 2
  {
    && CaughtUp(chain, path) && Overfull(StoredBy(w, chain, p.epochLength), p.epochLength)
    && |HeadersOf(chain)| < |path| && w.transfers(path[|HeadersOf(chain)|])
  }

  predicate Empty(b: ScBlock) {
    b.headers == [] && b.refData == [] && b.txs == []
  }

  /** A block that passes is empty. */
  lemma {:induction false} StalledPassesOnlyEmpty(p: Params, w: World, s: State, a: ForgeArgs)
    requires p.epochLength >= 2 && Stalled(p, w, s.chain, Path(s.mcTip)) && a.refBudget >= 1
    requires Forge(p, s, a).Forged?
    ensures Forge(p, s, a).parent + 1 == |s.chain|
    ensures Passes(w, s.chain, Forge(p, s, a).block, p.epochLength) ==> Empty(Forge(p, s, a).block)
  {
    var b, n, path := Forge(p, s, a).block, |HeadersOf(s.chain)|, Path(s.mcTip);
    ForgedOnCaughtUp(p, s, a);
    NewHashesAreNext(path, n, a.delay);
    OverfullPassesIff(w, s.chain, b, p.epochLength);
    if b.headers != [] {
      assert b.headers[0] == path[n];
      assert b.refData != [] && b.refData[0] == b.headers[0];
      AggregatedFirst(w, b.refData);
    }
  }

  lemma {:induction false} EmptyBlockKeepsStored(w: World, chain: seq<ScBlock>, b: ScBlock, len: EpochLength)
    requires Empty(b) && StoredBy(w, chain, len).info.lastIndex < len
    ensures StoredBy(w, chain + [b], len) == StoredBy(w, chain, len)
    ensures HeadersOf(chain + [b]) == HeadersOf(chain) && RefsOf(chain + [b]) == RefsOf(chain)
  {
    StoredBySnoc(w, chain, b, len);
    HeadersOfSnoc(chain, b);
    assert Limit.Zeros(Aggregated(w, [])) + Requests(w, []) == [];
  }

  /** A block on the tip is refused, or appended unless the limit on blocks without headers refuses it. */
  lemma {:induction false} OutcomeOnTip(p: Params, w: World, limit: bool, s: State, r: ForgeResult)
    requires p.epochLength >= 2 && r.Forged? && r.parent + 1 == |s.chain|
    ensures var t := CheckedOutcome(p, w, limit, s, r);
      && t.mcTip == s.mcTip && (t.chain == s.chain || t.chain == s.chain + [r.block])
      && (t.chain != s.chain ==> Passes(w, s.chain, r.block, p.epochLength))
      && (!limit && Passes(w, s.chain, r.block, p.epochLength) ==> t.chain == s.chain + [r.block])
  {
    assert s.chain[..|s.chain|] == s.chain;
  }

  /** An attempt leaves the chain alone or adds an empty block. */
  lemma {:induction false} StalledAttempt(p: Params, w: World, s: State, a: ForgeArgs)
    requires p.epochLength >= 2 && Stalled(p, w, s.chain, Path(s.mcTip)) && a.refBudget >= 1
    ensures var t := CheckedApply(p, w, s, TryForge(a));
      && t.mcTip == s.mcTip
      && (t.chain == s.chain || (|t.chain| == |s.chain| + 1 && s.chain <= t.chain && Empty(t.chain[|s.chain|])))
  {
    var r := Forge(p, s, a);
    if r.Forged? {
      StalledPassesOnlyEmpty(p, w, s, a);
      OutcomeOnTip(p, w, a.headerlessLimit, s, r);
    }
  }

  /** The chain has only got empty blocks since. */
  predicate OnlyEmptySince(before: seq<ScBlock>, chain: seq<ScBlock>) {
    before <= chain && forall i :: |before| <= i < |chain| ==> Empty(chain[i])
  }

  lemma {:induction false} StalledOneMore(
      p: Params, w: World, chain: seq<ScBlock>, next: seq<ScBlock>, path: seq<McBlock>)
    requires p.epochLength >= 2 && Stalled(p, w, chain, path)
    requires |next| == |chain| + 1 && chain <= next && Empty(next[|chain|])
    ensures Stalled(p, w, next, path)
  {
    EmptyBlockKeepsStored(w, chain, next[|chain|], p.epochLength);
    assert next == chain + [next[|chain|]];
  }

  predicate Grows(step: Step) {
    step.Extend? || (step.TryForge? && step.args.refBudget >= 1)
  }

  predicate Growing(steps: seq<Step>) {
    forall i :: 0 <= i < |steps| ==> Grows(steps[i])
  }

  lemma {:induction false} StalledStep(p: Params, w: World, s: State, step: Step)
    requires p.epochLength >= 2 && Stalled(p, w, s.chain, Path(s.mcTip)) && Grows(step)
    ensures var t := CheckedApply(p, w, s, step);
      Stalled(p, w, t.chain, Path(t.mcTip)) && OnlyEmptySince(s.chain, t.chain)
  {
    if step.TryForge? {
      var t := CheckedApply(p, w, s, step);
      StalledAttempt(p, w, s, step.args);
      if t.chain != s.chain {
        StalledOneMore(p, w, s.chain, t.chain, Path(s.mcTip));
      }
    }
  }

  /** From a stalled chain on, as long as the mainchain only grows and every attempt has room for one
      reference, no header, no reference and no transaction is ever included again. */
  lemma {:induction false} StalledForGood(p: Params, w: World, states: seq<State>, steps: seq<Step>, n: nat)
    requires p.epochLength >= 2 && Trace(p, w, states, steps) && Growing(steps) && n <= |steps|
    requires Stalled(p, w, states[0].chain, Path(states[0].mcTip))
    ensures Stalled(p, w, states[n].chain, Path(states[n].mcTip)) && OnlyEmptySince(states[0].chain, states[n].chain)
  {
    if n > 0 {
      StalledForGood(p, w, states, steps, n - 1);
      StalledAt(p, w, states, steps, n - 1);
    }
  }

  lemma {:induction false} StalledAt(p: Params, w: World, states: seq<State>, steps: seq<Step>, n: nat)
    requires p.epochLength >= 2 && Trace(p, w, states, steps) && n < |steps| && Grows(steps[n])
    requires Stalled(p, w, states[n].chain, Path(states[n].mcTip))
    ensures Stalled(p, w, states[n + 1].chain, Path(states[n + 1].mcTip))
    ensures OnlyEmptySince(states[n].chain, states[n + 1].chain)
  {
    assert StepAt(p, w, states, steps, n);
    StalledStep(p, w, states[n], steps[n]);
  }

  // ---------------------------------------------------------------- and otherwise not

  /** An attempt that takes all it can. */
  predicate TakesAllItCan(a: ForgeArgs, chain: seq<ScBlock>) {
    a.slot > TipSlot(chain) && a.delay == 0 && a.refBudget >= MAX_NEW_HEADERS && !a.headerlessLimit && a.txs == []
  }

  lemma {:induction false} ForgesOnCaughtUp(p: Params, s: State, a: ForgeArgs)
    requires CaughtUp(s.chain, Path(s.mcTip)) && a.slot > TipSlot(s.chain) && !a.headerlessLimit
    ensures Forge(p, s, a).Forged?
  {
    CommonIsLongest(HeadersOf(s.chain), Path(s.mcTip), |HeadersOf(s.chain)|);
  }

  lemma {:induction false} TransferPassesIff(w: World, chain: seq<ScBlock>, b: ScBlock, len: EpochLength)
    requires Aggregated(w, b.refData) > 0 && b.txs == []
    ensures var l := StoredBy(w, chain, len);
      Passes(w, chain, b, len) <==> l.used <= Limit.Slots(l.info.lastIndex + |b.refData|, len)
  {
    Limit.SumAfterZeros(Aggregated(w, b.refData), []);
    assert Requests(w, b.txs) == [];
  }

  /** With 49 references, or all that are left of the epoch, the slots suffice unless the epoch is overfull. */
  lemma {:induction false} OverfullIff(l: Limit.State, len: EpochLength)
    requires Limit.GoodState(l, len)
    ensures Overfull(l, len)
      <==> l.used > Limit.Slots(l.info.lastIndex + Least(MAX_NEW_HEADERS, BlocksLeft(l.info, len)), len)
  {
    Limit.AllOpenAtLastButOne(l.info.lastIndex + Least(MAX_NEW_HEADERS, BlocksLeft(l.info, len)), len);
    Limit.AllOpenAtLastButOne(l.info.lastIndex + MAX_NEW_HEADERS, len);
  }

  lemma {:induction false} FullAttempt(p: Params, s: State, a: ForgeArgs)
    requires CaughtUp(s.chain, Path(s.mcTip)) && TakesAllItCan(a, s.chain)
    requires |HeadersOf(s.chain)| + MAX_NEW_HEADERS <= |Path(s.mcTip)|
    ensures Forge(p, s, a).Forged? && Forge(p, s, a).block.txs == []
    ensures var refs, left := Forge(p, s, a).block.refData, BlocksLeft(EpochOf(s.chain, p.epochLength), p.epochLength);
      |refs| == Least(MAX_NEW_HEADERS, left) >= 1 && refs[0] == Path(s.mcTip)[|HeadersOf(s.chain)|]
  {
    ForgesOnCaughtUp(p, s, a);
    ForgedOnCaughtUp(p, s, a);
    FullHashes(Path(s.mcTip), |HeadersOf(s.chain)|, a.refBudget,
      BlocksLeft(EpochOf(s.chain, p.epochLength), p.epochLength));
  }

  lemma {:induction false} FullHashes(path: seq<McBlock>, n: nat, budget: nat, left: nat)
    requires n + MAX_NEW_HEADERS <= |path| && budget >= MAX_NEW_HEADERS && left >= 1
    ensures var news := NewHashes(path, n, 0);
      var refs := news[..Least(|news|, Least(budget, left))];
      |refs| == Least(MAX_NEW_HEADERS, left) && refs[0] == path[n]
  {
    assert NewHashes(path, n, 0) == path[n..n + MAX_NEW_HEADERS];
  }

  lemma {:induction false} TransferGetsOnIff(w: World, chain: seq<ScBlock>, b: ScBlock, len: EpochLength)
    requires Limit.GoodState(StoredBy(w, chain, len), len) && b.txs == []
    requires |b.refData| == Least(MAX_NEW_HEADERS, BlocksLeft(EpochOf(chain, len), len)) >= 1
    requires w.transfers(b.refData[0])
    ensures Passes(w, chain, b, len) <==> !Overfull(StoredBy(w, chain, len), len)
  {
    AggregatedFirst(w, b.refData);
    TransferPassesIff(w, chain, b, len);
    StoredByEpoch(w, chain, len);
    OverfullIff(StoredBy(w, chain, len), len);
  }

  /** Once the mainchain is 49 blocks ahead, the best attempt includes the reference with the transfer if
      and only if the epoch is not overfull. */
  lemma {:induction false} GetsOnIff(p: Params, w: World, s: State, a: ForgeArgs)
    requires p.epochLength >= 2 && CaughtUp(s.chain, Path(s.mcTip)) && TakesAllItCan(a, s.chain)
    requires Limit.GoodState(StoredBy(w, s.chain, p.epochLength), p.epochLength)
    requires |HeadersOf(s.chain)| + MAX_NEW_HEADERS <= |Path(s.mcTip)|
    requires w.transfers(Path(s.mcTip)[|HeadersOf(s.chain)|])
    ensures Forge(p, s, a).Forged? && Forge(p, s, a).block.refData != []
    ensures Passes(w, s.chain, Forge(p, s, a).block, p.epochLength)
      <==> !Overfull(StoredBy(w, s.chain, p.epochLength), p.epochLength)
  {
    FullAttempt(p, s, a);
    TransferGetsOnIff(w, s.chain, Forge(p, s, a).block, p.epochLength);
  }

  // ---------------------------------------------------------------- a run that gets there

  function Follow(slot: nat, txs: seq<nat>): ForgeArgs {
    ForgeArgs(slot, 0, 1, false, txs)
  }

  /** A chain that covers n mainchain blocks, in the first epoch and without a request. */
  predicate CoversAll(w: World, chain: seq<ScBlock>, n: nat, len: EpochLength) {
    && chain != [] && HeadersOf(chain) == RefsOf(chain) == Path(Grow(Creation, n)) && TipSlot(chain) == n
    && StoredBy(w, chain, len) == Limit.State(EpochInfo(0, n + 1), 0)
  }

  predicate Following(p: Params, w: World, s: State, n: nat)
    requires p.epochLength >= 2
  {
    s.mcTip == Grow(Creation, n) && CoversAll(w, s.chain, n, p.epochLength)
  }

  /** A block forged on the tip without the limit on blocks without headers is appended. */
  lemma {:induction false} TipBlockIsAppended(p: Params, w: World, s: State, a: ForgeArgs)
    requires p.epochLength >= 2 && !a.headerlessLimit && Forge(p, s, a).Forged?
    requires Forge(p, s, a).parent + 1 == |s.chain| && Passes(w, s.chain, Forge(p, s, a).block, p.epochLength)
    ensures CheckedApply(p, w, s, TryForge(a)).chain == s.chain + [Forge(p, s, a).block]
    ensures CheckedApply(p, w, s, TryForge(a)).mcTip == s.mcTip
  {
    OutcomeOnTip(p, w, a.headerlessLimit, s, Forge(p, s, a));
  }

  lemma {:induction false} OneNewHash(path: seq<McBlock>, x: McBlock)
    ensures NewHashes(path + [x], |path|, 0) == [x] && NewHashes(path, |path|, 0) == []
  {
  }

  /** The block for one new mainchain block. */
  lemma {:induction false} FollowForges(p: Params, w: World, s: State, n: nat)
    requires p.epochLength >= n + 2 && Following(p, w, s, n)
    ensures var t := s.(mcTip := Grow(Creation, n + 1));
      var r := Forge(p, t, Follow(n + 1, []));
      && CaughtUp(t.chain, Path(t.mcTip)) && r.Forged? && r.parent + 1 == |s.chain|
      && r.block.headers == [t.mcTip] && r.block.refData == [t.mcTip] && r.block.txs == []
      && r.block.header.slot == n + 1
  {
    var t := s.(mcTip := Grow(Creation, n + 1));
    assert Path(t.mcTip) == Path(s.mcTip) + [t.mcTip];
    OneNewHash(Path(s.mcTip), t.mcTip);
    ForgesOnCaughtUp(p, t, Follow(n + 1, []));
    ForgedOnCaughtUp(p, t, Follow(n + 1, []));
    StoredByEpoch(w, s.chain, p.epochLength);
  }

  lemma {:induction false} FollowPasses(w: World, chain: seq<ScBlock>, b: ScBlock, len: EpochLength, x: McBlock)
    requires StoredBy(w, chain, len).used == 0 && b.refData == [x] && b.txs == []
    ensures Passes(w, chain, b, len)
  {
    Limit.SumAfterZeros(Aggregated(w, b.refData), []);
    assert Requests(w, b.txs) == [];
  }

  lemma {:induction false} FollowStored(w: World, chain: seq<ScBlock>, b: ScBlock, len: EpochLength, n: nat, x: McBlock)
    requires StoredBy(w, chain, len) == Limit.State(EpochInfo(0, n + 1), 0) && n + 2 <= len
    requires b.refData == [x] && b.txs == []
    ensures StoredBy(w, chain + [b], len) == Limit.State(EpochInfo(0, n + 2), 0)
  {
    StoredBySnoc(w, chain, b, len);
    NextEpochAligned(1, EpochInfo(0, n + 1), len);
    Limit.SumAfterZeros(Aggregated(w, b.refData), []);
    assert Requests(w, b.txs) == [];
  }

  lemma {:induction false} CoversOneMore(w: World, chain: seq<ScBlock>, b: ScBlock, n: nat, len: EpochLength)
    requires CoversAll(w, chain, n, len) && n + 2 <= len && b.header.slot == n + 1
    requires b.headers == b.refData == [Grow(Creation, n + 1)] && b.txs == []
    ensures CoversAll(w, chain + [b], n + 1, len)
  {
    FollowStored(w, chain, b, len, n, Grow(Creation, n + 1));
    HeadersOfSnoc(chain, b);
  }

  lemma {:induction false} FollowStep(p: Params, w: World, s: State, n: nat)
    requires p.epochLength >= n + 2 && Following(p, w, s, n)
    ensures Following(p, w, CheckedApply(p, w, s.(mcTip := Grow(Creation, n + 1)), TryForge(Follow(n + 1, []))), n + 1)
  {
    var t := s.(mcTip := Grow(Creation, n + 1));
    FollowForges(p, w, s, n);
    FollowPasses(w, s.chain, Forge(p, t, Follow(n + 1, [])).block, p.epochLength, t.mcTip);
    TipBlockIsAppended(p, w, t, Follow(n + 1, []));
    CoversOneMore(w, s.chain, Forge(p, t, Follow(n + 1, [])).block, n, p.epochLength);
  }

  lemma {:induction false} StoredAtFirst(w: World, len: EpochLength)
    ensures StoredBy(w, [GENESIS], len) == Limit.State(EpochInfo(0, 1), 0)
  {
    StoredBySnoc(w, [], GENESIS, len);
    assert [] + [GENESIS] == [GENESIS];
    NextEpochAligned(1, EpochInfo(0, 0), len);
    Limit.SumAfterZeros(Aggregated(w, [Creation]), []);
    assert Requests(w, []) == [];
  }

  lemma {:induction false} FollowingAtFirst(p: Params, w: World)
    requires p.epochLength >= 2
    ensures Following(p, w, INITIAL, 0)
  {
    GenesisCommon(Creation);
    assert RefsOf([GENESIS]) == RefsOf([]) + [Creation];
    StoredAtFirst(w, p.epochLength);
  }

  /** A run that leads from s to t. */
  predicate Leads(p: Params, w: World, s: State, states: seq<State>, steps: seq<Step>, t: State) {
    Trace(p, w, states, steps) && states[0] == s && states[|steps|] == t
  }

  lemma {:induction false} LeadsOn(p: Params, w: World, s: State, a: seq<State>, x: seq<Step>, m: State,
                                   b: seq<State>, y: seq<Step>, t: State)
    requires Leads(p, w, s, a, x, m) && Leads(p, w, m, b, y, t)
    ensures Leads(p, w, s, a + b[1..], x + y, t)
  {
    TraceConcat(p, w, a, x, b, y);
  }

  lemma {:induction false} LeadsOneStep(p: Params, w: World, s: State, step: Step, t: State)
    requires p.epochLength >= 2 && t == CheckedApply(p, w, s, step)
    ensures Leads(p, w, s, [s, t], [step], t)
  {
    var u := OneStep(p, w, s, step);
  }

  /** Mine and forge. */
  lemma {:induction false} FollowLap(p: Params, w: World, s: State, n: nat)
    returns (states: seq<State>, steps: seq<Step>, t: State)
    requires p.epochLength >= n + 2 && Following(p, w, s, n)
    ensures Leads(p, w, s, states, steps, t) && Following(p, w, t, n + 1)
  {
    var m, step := s.(mcTip := Grow(Creation, n + 1)), TryForge(Follow(n + 1, []));
    FollowStep(p, w, s, n);
    t := CheckedApply(p, w, m, step);
    LeadsOneStep(p, w, s, Extend(0, 0), m);
    LeadsOneStep(p, w, m, step, t);
    LeadsOn(p, w, s, [s, m], [Extend(0, 0)], m, [m, t], [step], t);
    states, steps := [s, m] + [m, t][1..], [Extend(0, 0)] + [step];
  }

  lemma {:induction false} NoSteps(p: Params, w: World, s: State)
    ensures Leads(p, w, s, [s], [], s)
  {
  }

  lemma {:induction false} FollowRun(p: Params, w: World, s: State, n: nat)
    returns (states: seq<State>, steps: seq<Step>, t: State)
    requires p.epochLength >= n + 1 && p.epochLength >= 2 && Following(p, w, s, 0)
    ensures Leads(p, w, s, states, steps, t) && Following(p, w, t, n)
  {
    if n == 0 {
      NoSteps(p, w, s);
      states, steps, t := [s], [], s;
    } else {
      var a, x, m := FollowRun(p, w, s, n - 1);
      var b, y, u := FollowLap(p, w, m, n - 1);
      LeadsOn(p, w, s, a, x, m, b, y, u);
      states, steps, t := a + b[1..], x + y, u;
    }
  }

  lemma {:induction false} FullStored(w: World, chain: seq<ScBlock>, b: ScBlock, len: EpochLength)
    requires StoredBy(w, chain, len) == Limit.State(EpochInfo(0, len), 0) && b.refData == []
    requires Limit.Sum(Requests(w, b.txs)) == Limit.MAX_REQUESTS
    ensures Passes(w, chain, b, len)
    ensures StoredBy(w, chain + [b], len) == Limit.State(EpochInfo(1, 0), Limit.MAX_REQUESTS)
  {
    assert Limit.Zeros(0) + Requests(w, b.txs) == Requests(w, b.txs);
    Limit.AllOpenAtLastButOne(len, len);
    StoredBySnoc(w, chain, b, len);
    NextEpochAligned(0, EpochInfo(0, len), len);
  }

  /** The first block of the second epoch takes all its slots. */
  lemma {:induction false} FillStep(p: Params, w: World, s: State, full: seq<nat>)
    requires p.epochLength >= 2 && Following(p, w, s, p.epochLength - 1)
    requires Limit.Sum(Requests(w, full)) == Limit.MAX_REQUESTS
    ensures var t := CheckedApply(p, w, s, TryForge(Follow(p.epochLength, full)));
      && t.mcTip == s.mcTip && CaughtUp(t.chain, Path(t.mcTip)) && HeadersOf(t.chain) == Path(t.mcTip)
      && StoredBy(w, t.chain, p.epochLength) == Limit.State(EpochInfo(1, 0), Limit.MAX_REQUESTS)
  {
    var a := Follow(p.epochLength, full);
    OneNewHash(Path(s.mcTip), s.mcTip);
    ForgesOnCaughtUp(p, s, a);
    ForgedOnCaughtUp(p, s, a);
    StoredByEpoch(w, s.chain, p.epochLength);
    var b := Forge(p, s, a).block;
    FullStored(w, s.chain, b, p.epochLength);
    TipBlockIsAppended(p, w, s, a);
    HeadersOfSnoc(s.chain, b);
  }

  lemma {:induction false} NextBlockStalls(p: Params, w: World, s: State)
    requires p.epochLength > MAX_BLOCKS_REQUEST && CaughtUp(s.chain, Path(s.mcTip))
    requires HeadersOf(s.chain) == Path(s.mcTip) && w.transfers(Mined(s.mcTip, 0, 0))
    requires StoredBy(w, s.chain, p.epochLength) == Limit.State(EpochInfo(1, 0), Limit.MAX_REQUESTS)
    ensures Stalled(p, w, s.chain, Path(Mined(s.mcTip, 0, 0)))
  {
    Limit.AllOpenAtLastButOne(MAX_NEW_HEADERS, p.epochLength);
  }

  /** Fill the slots and mine. */
  lemma {:induction false} FillLap(p: Params, w: World, s: State, full: seq<nat>)
    returns (states: seq<State>, steps: seq<Step>, t: State)
    requires p.epochLength > MAX_BLOCKS_REQUEST && Following(p, w, s, p.epochLength - 1)
    requires Limit.Sum(Requests(w, full)) == Limit.MAX_REQUESTS && w.transfers(Grow(Creation, p.epochLength))
    ensures Leads(p, w, s, states, steps, t) && Stalled(p, w, t.chain, Path(t.mcTip))
  {
    var step := TryForge(Follow(p.epochLength, full));
    var m := CheckedApply(p, w, s, step);
    FillStep(p, w, s, full);
    NextBlockStalls(p, w, m);
    t := m.(mcTip := Mined(m.mcTip, 0, 0));
    LeadsOneStep(p, w, s, step, m);
    LeadsOneStep(p, w, m, Extend(0, 0), t);
    LeadsOn(p, w, s, [s, m], [step], m, [m, t], [Extend(0, 0)], t);
    states, steps := [s, m] + [m, t][1..], [step] + [Extend(0, 0)];
  }

  /** For every epoch length above 50, if there are transactions that fill all slots and the first
      mainchain block after them brings a transfer, there is a run after which the chain is stalled. */
  lemma {:induction false} StallRun(p: Params, w: World, full: seq<nat>)
    returns (states: seq<State>, steps: seq<Step>, t: State)
    requires p.epochLength > MAX_BLOCKS_REQUEST
    requires Limit.Sum(Requests(w, full)) == Limit.MAX_REQUESTS && w.transfers(Grow(Creation, p.epochLength))
    ensures Leads(p, w, INITIAL, states, steps, t) && Stalled(p, w, t.chain, Path(t.mcTip))
  {
    FollowingAtFirst(p, w);
    var a, x, m := FollowRun(p, w, INITIAL, p.epochLength - 1);
    var b, y, u := FillLap(p, w, m, full);
    LeadsOn(p, w, INITIAL, a, x, m, b, y, u);
    states, steps, t := a + b[1..], x + y, u;
  }
}
