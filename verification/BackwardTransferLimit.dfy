/**
 The limit on withdrawal requests: every mainchain reference of a withdrawal epoch opens a share of the
 3999 slots of that epoch, and the forger picks transactions that still fit.
 */
module BackwardTransferLimit {
  import opened Sidechain

  /** Withdrawal requests a certificate can carry. */
  const MAX_REQUESTS: nat := 3999

  /** Slots opened by `index` references of an epoch. */
  function Slots(index: nat, len: EpochLength): (slots: nat)
    ensures slots <= MAX_REQUESTS
  {
    var open := MAX_REQUESTS * index / (len - 1);
    if open < MAX_REQUESTS then open else MAX_REQUESTS
  }

  /** Where the chain stands, and the requests stored for that epoch. */
  datatype State = State(info: EpochInfo, used: nat)

  /** A block by its number of references and, transaction by transaction, its withdrawal requests. */
  datatype Block = Block(refs: nat, requests: seq<nat>)

  function Sum(xs: seq<nat>): nat {
    if xs == [] then 0 else Sum(xs[..|xs| - 1]) + xs[|xs| - 1]
  }

  /** The check made before a block is applied: requests stored for the epoch of the parent plus those
      of the block so far, against the slots open with the block's references. */
  predicate Allowed(s: State, b: Block, len: EpochLength) {
    forall n :: 0 < n <= |b.requests| ==> s.used + Sum(b.requests[..n]) <= Slots(s.info.lastIndex + b.refs, len)
  }

  /** The running check over the block's transactions. */
  method CheckAllowed(s: State, b: Block, len: EpochLength) returns (ok: bool)
    ensures ok == Allowed(s, b, len)
  {
    var total := s.used;
    for i := 0 to |b.requests|
      invariant total == s.used + Sum(b.requests[..i])
      invariant forall n :: 0 < n <= i ==> s.used + Sum(b.requests[..n]) <= Slots(s.info.lastIndex + b.refs, len)
    {
      assert b.requests[..i + 1][..i] == b.requests[..i];
      total := total + b.requests[i];
      if total > Slots(s.info.lastIndex + b.refs, len) {
        return false;
      }
    }
    return true;
  }

  /** Requests are stored under the epoch the block itself belongs to. */
  function Apply(s: State, b: Block, len: EpochLength): State {
    var next := NextEpoch(b.refs, s.info, len);
    State(next, (if next.epoch == s.info.epoch then s.used else 0) + Sum(b.requests))
  }

  /** Blocks that also pass the rule that no block spans two epochs. */
  predicate Accepted(s: State, b: Block, len: EpochLength) {
    b.refs <= BlocksLeft(s.info, len) && Allowed(s, b, len)
  }

  // ---------------------------------------------------------------- slots

  /** No transaction at all, or all requests of the block fit. */
  predicate Fits(s: State, b: Block, len: EpochLength) {
    b.requests == [] || s.used + Sum(b.requests) <= Slots(s.info.lastIndex + b.refs, len)
  }

  /** Only the total matters for the check. */
  lemma {:induction false} AllowedByTotal(s: State, b: Block, len: EpochLength)
    ensures Allowed(s, b, len) <==> Fits(s, b, len)
  {
    assert b.requests[..|b.requests|] == b.requests;
    forall n | 0 < n <= |b.requests| ensures Sum(b.requests[..n]) <= Sum(b.requests) {
      SumOfPrefix(b.requests, n);
    }
  }

  lemma {:induction false} SumOfPrefix(xs: seq<nat>, n: nat)
    requires n <= |xs|
    ensures Sum(xs[..n]) <= Sum(xs)
  {
    if n < |xs| {
      SumOfPrefix(xs[..|xs| - 1], n);
      assert xs[..|xs| - 1][..n] == xs[..n];
    } else {
      assert xs[..n] == xs;
    }
  }

  /** Division rounds down. */
  lemma {:induction false} DivBound(a: nat, d: nat, m: nat)
    requires d > 0
    ensures m * d <= a <==> m <= a / d
  {
    var q := a / d;
    assert q * d <= a < q * d + d;
    if m <= q {
      assert m * d <= q * d;
    } else {
      assert (q + 1) * d <= m * d;
    }
  }

  lemma {:induction false} SlotsGrow(i: nat, k: nat, len: EpochLength)
    requires i <= k
    ensures Slots(i, len) <= Slots(k, len)
  {
    var d := len - 1;
    DivBound(MAX_REQUESTS * i, d, MAX_REQUESTS * i / d);
    DivBound(MAX_REQUESTS * k, d, MAX_REQUESTS * i / d);
  }

  /** Slots are shared out with one rounding for all references so far. */
  lemma {:induction false} SlotsAreAFloor(i: nat, len: EpochLength)
    requires i < len
    ensures Slots(i, len) * (len - 1) <= MAX_REQUESTS * i < (Slots(i, len) + 1) * (len - 1)
  {
    var d, q := len - 1, MAX_REQUESTS * i / (len - 1);
    DivBound(MAX_REQUESTS * i, d, q);
    DivBound(MAX_REQUESTS * i, d, q + 1);
    DivBound(MAX_REQUESTS * i, d, MAX_REQUESTS + 1);
    assert MAX_REQUESTS * i <= MAX_REQUESTS * d < (MAX_REQUESTS + 1) * d;
  }

  /** All slots are open one reference before the end of the epoch, and not earlier. */
  lemma {:induction false} AllOpenAtLastButOne(i: nat, len: EpochLength)
    ensures i + 1 >= len ==> Slots(i, len) == MAX_REQUESTS
    ensures i + 1 < len ==> Slots(i, len) < MAX_REQUESTS
  {
    var d := len - 1;
    DivBound(MAX_REQUESTS * i, d, MAX_REQUESTS);
    if i >= d {
      assert MAX_REQUESTS * d <= MAX_REQUESTS * i;
    } else {
      assert MAX_REQUESTS * i <= MAX_REQUESTS * (d - 1);
    }
  }

  // ---------------------------------------------------------------- the limit over a run

  /** The requests of the epoch are within the slots its references opened. */
  predicate Within(s: State, len: EpochLength) {
    s.used <= Slots(s.info.lastIndex, len)
  }

  predicate GoodState(s: State, len: EpochLength) {
    s.info.lastIndex <= len && s.used <= MAX_REQUESTS
  }

  /** No epoch ever holds more requests than a certificate can carry. */
  lemma {:induction false} NeverAboveMaximum(s: State, b: Block, len: EpochLength)
    requires GoodState(s, len) && Accepted(s, b, len)
    ensures GoodState(Apply(s, b, len), len)
  {
    AllowedByTotal(s, b, len);
    NextEpochAligned(b.refs, s.info, len);
  }

  /** A block keeps the requests within the open slots, except that the first block after the end of an
      epoch does so only if its own requests fit the slots its own references open. */
  lemma {:induction false} WithinIff(s: State, b: Block, len: EpochLength)
    requires GoodState(s, len) && Within(s, len) && Accepted(s, b, len)
    ensures Within(Apply(s, b, len), len) <==> (s.info.lastIndex < len || Sum(b.requests) <= Slots(b.refs, len))
  {
    AllowedByTotal(s, b, len);
    NextEpochAligned(b.refs, s.info, len);
    if s.info.lastIndex < len {
      SlotsGrow(s.info.lastIndex, s.info.lastIndex + b.refs, len);
      assert b.requests == [] ==> Sum(b.requests) == 0;
    }
  }

  /** What the check really compares at the start of an epoch: the old epoch's requests against all
      slots. */
  lemma {:induction false} FirstBlockOfEpoch(s: State, b: Block, len: EpochLength)
    requires s.info.lastIndex == len
    ensures Allowed(s, b, len) <==> b.requests == [] || s.used + Sum(b.requests) <= MAX_REQUESTS
  {
    AllowedByTotal(s, b, len);
    AllOpenAtLastButOne(s.info.lastIndex + b.refs, len);
  }

  /** So an epoch can start with all its slots used before a single reference opened one.  A transaction
      creates at most 1000 boxes. */
  lemma {:induction false} BoundaryCounterexample()
    ensures var s, b, len := State(EpochInfo(3, 10), 0), Block(0, [1000, 1000, 1000, 999]), 10;
      GoodState(s, len) && Within(s, len) && Accepted(s, b, len) && !Within(Apply(s, b, len), len)
  {
    var s, b := State(EpochInfo(3, 10), 0), Block(0, [1000, 1000, 1000, 999]);
    var r := b.requests;
    assert r[..3] == [1000, 1000, 1000] && r[..3][..2] == [1000, 1000] && r[..3][..2][..1] == [1000];
    assert Sum([1000]) == Sum([]) + 1000 && Sum([1000, 1000]) == 2000 && Sum([1000, 1000, 1000]) == 3000;
    assert Sum(r) == MAX_REQUESTS;
    FirstBlockOfEpoch(s, b, 10);
    NextEpochAligned(0, s.info, 10);
    AllOpenAtLastButOne(0, 10);
  }

  /** While more requests are stored than slots are open, no block with any transaction is accepted,
      not even one without withdrawal requests. */
  lemma {:induction false} OverfullBlocksAllTransactions(s: State, b: Block, len: EpochLength)
    requires s.used > Slots(s.info.lastIndex + b.refs, len)
    ensures Allowed(s, b, len) <==> b.requests == []
  {
    AllowedByTotal(s, b, len);
  }

  /** Inside an epoch every accepted block with a transaction leaves the requests within the open slots,
      whatever the state before. */
  lemma {:induction false} AnyTransactionRestoresLimit(s: State, b: Block, len: EpochLength)
    requires s.info.lastIndex < len && Accepted(s, b, len) && b.requests != []
    ensures Within(Apply(s, b, len), len)
  {
    AllowedByTotal(s, b, len);
    NextEpochAligned(b.refs, s.info, len);
  }

  /** A run of accepted blocks. */
  predicate Run(states: seq<State>, blocks: seq<Block>, len: EpochLength) {
    && |states| == |blocks| + 1
    && forall i {:trigger blocks[i]} :: 0 <= i < |blocks| ==>
         Accepted(states[i], blocks[i], len) && states[i + 1] == Apply(states[i], blocks[i], len)
  }

  /** Blocks right after the end of an epoch stay within their own references' slots. */
  predicate FairStarts(states: seq<State>, blocks: seq<Block>, len: EpochLength)
    requires |states| == |blocks| + 1
  {
    forall i {:trigger blocks[i]} :: 0 <= i < |blocks| && states[i].info.lastIndex == len ==>
      Sum(blocks[i].requests) <= Slots(blocks[i].refs, len)
  }

  /** The requests of epoch e that the first n blocks of a run brought, on top of those stored at its start. */
  function RequestsIn(states: seq<State>, blocks: seq<Block>, n: nat, e: nat): nat
    requires |states| == |blocks| + 1 && n <= |blocks|
  {
    if n == 0 then if states[0].info.epoch == e then states[0].used else 0
    else if states[n].info.epoch == e then RequestsIn(states, blocks, n - 1, e) + Sum(blocks[n - 1].requests)
    else RequestsIn(states, blocks, n - 1, e)
  }

  lemma {:induction false} EpochsGrow(states: seq<State>, blocks: seq<Block>, len: EpochLength, n: nat)
    requires Run(states, blocks, len) && n < |blocks|
    ensures states[n + 1].info.epoch == states[n].info.epoch || states[n + 1].info.epoch == states[n].info.epoch + 1
  {
    assert states[n + 1] == Apply(states[n], blocks[n], len);
  }

  lemma {:induction false} NothingOfLaterEpochs(
      states: seq<State>, blocks: seq<Block>, len: EpochLength, n: nat, e: nat)
    requires Run(states, blocks, len) && n <= |blocks| && e > states[n].info.epoch
    ensures RequestsIn(states, blocks, n, e) == 0
  {
    if n > 0 {
      EpochsGrow(states, blocks, len, n - 1);
      NothingOfLaterEpochs(states, blocks, len, n - 1, e);
    }
  }

  /** In every run the stored count is the number of requests that all blocks of the current epoch brought. */
  lemma {:induction false} CountsTheEpoch(states: seq<State>, blocks: seq<Block>, len: EpochLength, n: nat)
    requires Run(states, blocks, len) && n <= |blocks|
    ensures states[n].used == RequestsIn(states, blocks, n, states[n].info.epoch)
  {
    if n > 0 {
      CountsTheEpoch(states, blocks, len, n - 1);
      EpochsGrow(states, blocks, len, n - 1);
      assert states[n] == Apply(states[n - 1], blocks[n - 1], len);
      if states[n].info.epoch > states[n - 1].info.epoch {
        NothingOfLaterEpochs(states, blocks, len, n - 1, states[n].info.epoch);
      }
    }
  }

  /** No epoch of a run, whichever, gets more than 3999 requests from its blocks. */
  lemma {:induction false} NoEpochAboveMaximum(
      states: seq<State>, blocks: seq<Block>, len: EpochLength, n: nat, e: nat)
    requires Run(states, blocks, len) && GoodState(states[0], len) && n <= |blocks|
    ensures RequestsIn(states, blocks, n, e) <= MAX_REQUESTS
  {
    if e == states[n].info.epoch {
      CountsTheEpoch(states, blocks, len, n);
      RunNeverAboveMaximum(states, blocks, len, n);
    } else if n > 0 {
      NoEpochAboveMaximum(states, blocks, len, n - 1, e);
    }
  }

  /** And in every state of a run with fair starts, the epoch's blocks brought no more requests than their
      references opened slots. */
  lemma {:induction false} EpochStaysWithin(states: seq<State>, blocks: seq<Block>, len: EpochLength, n: nat)
    requires Run(states, blocks, len) && FairStarts(states, blocks, len)
    requires GoodState(states[0], len) && Within(states[0], len) && n <= |blocks|
    ensures RequestsIn(states, blocks, n, states[n].info.epoch) <= Slots(states[n].info.lastIndex, len)
  {
    CountsTheEpoch(states, blocks, len, n);
    RunStaysWithin(states, blocks, len, n);
  }

  lemma {:induction false} RunNeverAboveMaximum(states: seq<State>, blocks: seq<Block>, len: EpochLength, n: nat)
    requires Run(states, blocks, len) && GoodState(states[0], len) && n <= |blocks|
    ensures GoodState(states[n], len)
  {
    if n > 0 {
      RunNeverAboveMaximum(states, blocks, len, n - 1);
      NeverAboveMaximum(states[n - 1], blocks[n - 1], len);
    }
  }

  /** With fair starts every state of a run is within the open slots, and the count restarts with each
      epoch. */
  lemma {:induction false} RunStaysWithin(states: seq<State>, blocks: seq<Block>, len: EpochLength, n: nat)
    requires Run(states, blocks, len) && FairStarts(states, blocks, len)
    requires GoodState(states[0], len) && Within(states[0], len) && n <= |blocks|
    ensures Within(states[n], len)
    ensures n > 0 && states[n].info.epoch != states[n - 1].info.epoch ==> states[n].used == Sum(blocks[n - 1].requests)
  {
    if n > 0 {
      RunStaysWithin(states, blocks, len, n - 1);
      RunNeverAboveMaximum(states, blocks, len, n - 1);
      WithinIff(states[n - 1], blocks[n - 1], len);
    }
  }

  predicate AllWithin(states: seq<State>, len: EpochLength) {
    forall n :: 0 <= n < |states| ==> Within(states[n], len)
  }

  /** All states of a run are within the open slots if and only if all epochs start fairly. */
  lemma {:induction false} RunWithinIff(states: seq<State>, blocks: seq<Block>, len: EpochLength)
    requires Run(states, blocks, len) && GoodState(states[0], len) && Within(states[0], len)
    ensures AllWithin(states, len) <==> FairStarts(states, blocks, len)
  {
    if FairStarts(states, blocks, len) {
      forall n | 0 <= n < |states| ensures Within(states[n], len) {
        RunStaysWithin(states, blocks, len, n);
      }
    }
    if AllWithin(states, len) {
      forall i | 0 <= i < |blocks| && states[i].info.lastIndex == len
        ensures Sum(blocks[i].requests) <= Slots(blocks[i].refs, len)
      {
        RunNeverAboveMaximum(states, blocks, len, i);
        assert Within(states[i], len) && Within(states[i + 1], len);
        WithinIff(states[i], blocks[i], len);
      }
    }
  }

  // ---------------------------------------------------------------- the forger's choice

  /** Requests of the transactions at the given positions. */
  function Picked(requests: seq<nat>, at: seq<nat>): seq<nat>
    requires forall i :: 0 <= i < |at| ==> at[i] < |requests|
  {
    seq(|at|, i requires 0 <= i < |at| => requests[at[i]])
  }

  predicate Positions(at: seq<nat>, n: nat) {
    && (forall i :: 0 <= i < |at| ==> at[i] < n)
    && (forall i, k :: 0 <= i < k < |at| ==> at[i] < at[k])
  }

  /** Requests of the chosen ones among the first i transactions. */
  function ChosenBefore(requests: seq<nat>, at: seq<nat>, i: nat): nat
    requires i <= |requests|
  {
    if i == 0 then 0 else ChosenBefore(requests, at, i - 1) + if i - 1 in at then requests[i - 1] else 0
  }

  /** Transaction i is chosen if and only if it fits after those chosen before it. */
  predicate Decided(requests: seq<nat>, at: seq<nat>, i: nat, limit: int)
    requires i < |requests|
  {
    i in at <==> ChosenBefore(requests, at, i) + requests[i] <= limit
  }

  predicate Greedy(requests: seq<nat>, at: seq<nat>, n: nat, limit: int)
    requires n <= |requests|
  {
    forall i {:trigger Decided(requests, at, i, limit)} :: 0 <= i < n ==> Decided(requests, at, i, limit)
  }

  lemma {:induction false} ChosenBeforeKept(requests: seq<nat>, at: seq<nat>, n: nat, i: nat)
    requires i <= n < |requests|
    ensures ChosenBefore(requests, at + [n], i) == ChosenBefore(requests, at, i)
  {
    if i > 0 {
      ChosenBeforeKept(requests, at, n, i - 1);
    }
  }

  lemma {:induction false} GreedyTakes(requests: seq<nat>, at: seq<nat>, n: nat, limit: int)
    requires n < |requests| && Greedy(requests, at, n, limit)
    requires ChosenBefore(requests, at, n) + requests[n] <= limit
    ensures Greedy(requests, at + [n], n + 1, limit)
    ensures ChosenBefore(requests, at + [n], n + 1) == ChosenBefore(requests, at, n) + requests[n]
  {
    ChosenBeforeKept(requests, at, n, n);
    forall i | 0 <= i <= n ensures Decided(requests, at + [n], i, limit) {
      ChosenBeforeKept(requests, at, n, i);
      assert i < n ==> Decided(requests, at, i, limit);
    }
  }

  lemma {:induction false} GreedySkips(requests: seq<nat>, at: seq<nat>, n: nat, limit: int)
    requires n < |requests| && Positions(at, n) && Greedy(requests, at, n, limit)
    requires ChosenBefore(requests, at, n) + requests[n] > limit
    ensures Greedy(requests, at, n + 1, limit) && ChosenBefore(requests, at, n + 1) == ChosenBefore(requests, at, n)
  {
    forall i | 0 <= i <= n ensures Decided(requests, at, i, limit) {
    }
  }

  lemma {:induction false} ChosenBeforeGrows(requests: seq<nat>, at: seq<nat>, i: nat, k: nat)
    requires i <= k <= |requests|
    ensures ChosenBefore(requests, at, i) <= ChosenBefore(requests, at, k)
  {
    if i < k {
      ChosenBeforeGrows(requests, at, i, k - 1);
    }
  }

  /** Such a choice cannot be added to. */
  lemma {:induction false} GreedyIsMaximal(requests: seq<nat>, at: seq<nat>, limit: int)
    requires Greedy(requests, at, |requests|, limit)
    ensures forall i :: 0 <= i < |requests| && i !in at ==>
      ChosenBefore(requests, at, |requests|) + requests[i] > limit
  {
    forall i | 0 <= i < |requests| && i !in at
      ensures ChosenBefore(requests, at, |requests|) + requests[i] > limit
    {
      ChosenBeforeGrows(requests, at, i, |requests|);
      assert Decided(requests, at, i, limit);
    }
  }

  /** Go through the pool in its order, skip what does not fit and carry on.  A transaction is chosen if and
      only if it fits after those chosen before it; the choice fits the limit, and nothing left out would fit
      on top of it.  The limit may be negative. */
  method TakeWithLimit(requests: seq<nat>, limit: int) returns (at: seq<nat>)
    ensures Positions(at, |requests|) && Greedy(requests, at, |requests|, limit)
    ensures at != [] ==> Sum(Picked(requests, at)) <= limit
    ensures forall i :: 0 <= i < |requests| && i !in at ==> Sum(Picked(requests, at)) + requests[i] > limit
  {
    at := [];
    var total: nat := 0;
    for n := 0 to |requests|
      invariant Positions(at, n) && Greedy(requests, at, n, limit)
      invariant total == Sum(Picked(requests, at)) == ChosenBefore(requests, at, n)
      invariant at != [] ==> total <= limit
    {
      if total + requests[n] <= limit {
        PickedSnoc(requests, at, n);
        GreedyTakes(requests, at, n, limit);
        at := at + [n];
        total := total + requests[n];
      } else {
        GreedySkips(requests, at, n, limit);
      }
    }
    GreedyIsMaximal(requests, at, limit);
  }

  lemma {:induction false} PickedSnoc(requests: seq<nat>, at: seq<nat>, n: nat)
    requires Positions(at, |requests|) && n < |requests|
    ensures Sum(Picked(requests, at + [n])) == Sum(Picked(requests, at)) + requests[n]
  {
    var p := Picked(requests, at + [n]);
    assert p[..|p| - 1] == Picked(requests, at);
  }

  /** Transactions without withdrawal requests: the aggregated ones of references with forward transfers. */
  function Zeros(k: nat): (zs: seq<nat>)
    ensures |zs| == k
  {
    seq(k, i => 0)
  }

  lemma {:induction false} SumAfterZeros(k: nat, xs: seq<nat>)
    ensures Sum(Zeros(k) + xs) == Sum(xs)
  {
    var all := Zeros(k) + xs;
    if xs != [] {
      SumAfterZeros(k, xs[..|xs| - 1]);
      assert all[..|all| - 1] == Zeros(k) + xs[..|xs| - 1];
    } else if k > 0 {
      SumAfterZeros(k - 1, []);
      assert all[..|all| - 1] == Zeros(k - 1) + [];
    }
  }

  /** The forger's limit is the open slots minus the stored requests.  A block begins with the aggregated
      transactions of its references, `k` of them, and the check is made for those as well: what the forger
      chose passes if and only if there are none or the stored requests are within the open slots. */
  lemma {:induction false} ChoiceAllowedIff(
      s: State, refs: nat, k: nat, requests: seq<nat>, at: seq<nat>, len: EpochLength)
    requires Positions(at, |requests|)
    requires at != [] ==> Sum(Picked(requests, at)) <= Slots(s.info.lastIndex + refs, len) - s.used
    ensures Allowed(s, Block(refs, Zeros(k) + Picked(requests, at)), len)
      <==> k == 0 || s.used <= Slots(s.info.lastIndex + refs, len)
  {
    var b := Block(refs, Zeros(k) + Picked(requests, at));
    AllowedByTotal(s, b, len);
    SumAfterZeros(k, Picked(requests, at));
    assert at == [] ==> Sum(Picked(requests, at)) == 0;
  }

  /** In the state the epoch can start in, a block with one reference that brings a forward transfer is
      refused although the forger chose nothing, and so is every such block with fewer than nine. */
  lemma {:induction false} TransferCounterexample(refs: nat)
    requires 1 <= refs
    ensures Allowed(State(EpochInfo(4, 0), MAX_REQUESTS), Block(refs, [0]), 10) <==> refs >= 9
  {
    var s := State(EpochInfo(4, 0), MAX_REQUESTS);
    AllowedByTotal(s, Block(refs, [0]), 10);
    AllOpenAtLastButOne(refs, 10);
    assert Sum([0]) == Sum([]) + 0;
  }
}
