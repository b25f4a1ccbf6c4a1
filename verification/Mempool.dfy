/**
 The pool of unconfirmed transactions and its repair after the active chain has changed.
 */
module Mempool {
  import opened Boxes
  import opened Collections

  predicate Compatible(a: Tx, b: Tx) {
    a.inputs !! b.inputs
  }

  predicate CompatibleWithAll(t: Tx, txs: seq<Tx>) {
    forall i :: 0 <= i < |txs| ==> Compatible(t, txs[i])
  }

  /** No two transactions spend the same box. */
  predicate NoConflicts(txs: seq<Tx>) {
    forall i, k :: 0 <= i < k < |txs| ==> Compatible(txs[i], txs[k])
  }

  /** Every pooled transaction could go into the next block, all of them together. */
  ghost predicate GoodPool(l: Ledger, pool: seq<Tx>) {
    NoConflicts(pool) && forall i :: 0 <= i < |pool| ==> Valid(l, pool[i])
  }

  // ---------------------------------------------------------------- size and fee rate

  function Size(txs: seq<Tx>): nat {
    if txs == [] then 0 else Size(txs[..|txs| - 1]) + txs[|txs| - 1].size
  }

  /** Lowest fee rate first. */
  predicate Sorted(pool: seq<Tx>) {
    forall i, k :: 0 <= i < k < |pool| ==> pool[i].rate <= pool[k].rate
  }

  /** Position of a new transaction behind all with a lower or equal fee rate. */
  function Position(pool: seq<Tx>, rate: nat): (k: nat)
    ensures k <= |pool|
    ensures forall i :: k <= i < |pool| ==> pool[i].rate > rate
    ensures k > 0 ==> pool[k - 1].rate <= rate
  {
    if pool == [] || pool[|pool| - 1].rate <= rate then |pool| else Position(pool[..|pool| - 1], rate)
  }

  function Insert(pool: seq<Tx>, t: Tx): seq<Tx> {
    pool[..Position(pool, t.rate)] + [t] + pool[Position(pool, t.rate)..]
  }

  /** Room for `t` after removing the first k transactions. */
  predicate Fits(pool: seq<Tx>, t: Tx, max: nat, k: nat)
    requires k <= |pool|
  {
    Size(pool[k..]) + t.size <= max
  }

  lemma {:induction false} SizeConcat(a: seq<Tx>, b: seq<Tx>)
    ensures Size(a + b) == Size(a) + Size(b)
  {
    if b == [] {
      assert a + b == a;
    } else {
      assert (a + b)[..|a + b| - 1] == a + b[..|b| - 1];
      SizeConcat(a, b[..|b| - 1]);
    }
  }

  lemma {:induction false} SizeDrop(pool: seq<Tx>, k: nat)
    requires k < |pool|
    ensures Size(pool[k..]) == pool[k].size + Size(pool[k + 1..])
  {
    SizeConcat([pool[k]], pool[k + 1..]);
    assert pool[k..] == [pool[k]] + pool[k + 1..];
    assert Size([pool[k]]) == Size([]) + pool[k].size;
  }

  /** The first k transactions pay no more than `t`, and dropping fewer would not make room. */
  predicate Droppable(pool: seq<Tx>, t: Tx, max: nat, k: nat)
    requires k <= |pool|
  {
    forall i :: 0 <= i < k ==> pool[i].rate <= t.rate && !Fits(pool, t, max, i)
  }

  /** How many are dropped, when the first k already are. */
  function Room(pool: seq<Tx>, t: Tx, max: nat, k: nat): (n: nat)
    requires k <= |pool|
    ensures k <= n <= |pool|
    decreases |pool| - k
  {
    if Fits(pool, t, max, k) || k == |pool| || pool[k].rate > t.rate then k else Room(pool, t, max, k + 1)
  }

  /** Make room by dropping transactions from the lowest fee rate upwards, but never one that pays more
      than the newcomer.  `k` is how many are dropped. */
  method MakeRoom(pool: seq<Tx>, t: Tx, max: nat) returns (k: nat, ok: bool)
    ensures k <= |pool| && Droppable(pool, t, max, k)
    ensures ok == Fits(pool, t, max, k)
    ensures !ok ==> k == |pool| || pool[k].rate > t.rate
    ensures k == Room(pool, t, max, 0)
  {
    k := 0;
    var total := Size(pool);
    var removed: nat := 0;
    assert pool[0..] == pool;
    while total - removed + t.size > max
      invariant k <= |pool| && total - removed == Size(pool[k..])
      invariant Droppable(pool, t, max, k) && Room(pool, t, max, k) == Room(pool, t, max, 0)
      decreases |pool| - k
    {
      if k == |pool| || pool[k].rate > t.rate {
        return k, false;
      }
      SizeDrop(pool, k);
      removed := removed + pool[k].size;
      k := k + 1;
    }
    ok := true;
  }

  lemma {:induction false} InsertSize(pool: seq<Tx>, t: Tx)
    ensures Size(Insert(pool, t)) == Size(pool) + t.size
  {
    var k := Position(pool, t.rate);
    assert pool == pool[..k] + pool[k..];
    SizeConcat(pool[..k], pool[k..]);
    SizeConcat(pool[..k] + [t], pool[k..]);
    SizeConcat(pool[..k], [t]);
    assert Size([t]) == Size([]) + t.size;
  }

  lemma {:induction false} InsertSorted(pool: seq<Tx>, t: Tx)
    requires Sorted(pool)
    ensures Sorted(Insert(pool, t))
  {
  }

  lemma {:induction false} InsertContents(pool: seq<Tx>, t: Tx)
    ensures multiset(Insert(pool, t)) == multiset(pool) + multiset{t}
  {
    var k := Position(pool, t.rate);
    assert pool == pool[..k] + pool[k..];
  }

  /** There is room for `t` once some of the cheapest, none paying more than `t`, are dropped. */
  predicate RoomForIt(pool: seq<Tx>, t: Tx, max: nat) {
    exists k :: 0 <= k <= |pool| && Fits(pool, t, max, k) && forall i :: 0 <= i < k ==> pool[i].rate <= t.rate
  }

  /** The pool with `t` in the place of as many of the cheapest as needed, or unchanged. */
  function AddTo(pool: seq<Tx>, t: Tx, max: nat): seq<Tx> {
    var k := Room(pool, t, max, 0);
    if Fits(pool, t, max, k) then Insert(pool[k..], t) else pool
  }

  lemma {:induction false} RoomIsFound(pool: seq<Tx>, t: Tx, max: nat, k: nat)
    requires Sorted(pool) && k <= |pool| && Droppable(pool, t, max, k)
    requires Fits(pool, t, max, k) || k == |pool| || pool[k].rate > t.rate
    ensures RoomForIt(pool, t, max) <==> Fits(pool, t, max, k)
  {
  }

  lemma {:induction false} AddToKeepsOrder(pool: seq<Tx>, t: Tx, max: nat)
    requires Sorted(pool) && Size(pool) <= max
    ensures Sorted(AddTo(pool, t, max)) && Size(AddTo(pool, t, max)) <= max
  {
    var k := Room(pool, t, max, 0);
    InsertSorted(pool[k..], t);
    InsertSize(pool[k..], t);
  }

  lemma {:induction false} AddToWithRoom(pool: seq<Tx>, t: Tx, max: nat)
    requires Size(pool) + t.size <= max
    ensures AddTo(pool, t, max) == Insert(pool, t)
  {
    assert pool[0..] == pool;
  }

  /** Add a transaction, at the cost of cheaper ones if there is no room. */
  method AddWithSizeCheck(pool: seq<Tx>, t: Tx, max: nat) returns (r: seq<Tx>, ok: bool)
    requires Sorted(pool) && Size(pool) <= max
    ensures Sorted(r) && Size(r) <= max
    ensures r == AddTo(pool, t, max)
    ensures if ok then t in r else r == pool
    ensures ok <==> RoomForIt(pool, t, max)
    ensures Size(pool) + t.size <= max ==> r == Insert(pool, t)
  {
    var k;
    k, ok := MakeRoom(pool, t, max);
    RoomIsFound(pool, t, max, k);
    if ok {
      r := Insert(pool[k..], t);
    } else {
      r := pool;
    }
    AddToKeepsOrder(pool, t, max);
    if Size(pool) + t.size <= max {
      AddToWithRoom(pool, t, max);
    }
  }

  // ---------------------------------------------------------------- putting transactions back

  /** Leave out every transaction that conflicts with a later one. */
  function KeepLast(txs: seq<Tx>): (r: seq<Tx>)
    ensures forall x :: x in r ==> x in txs
  {
    if txs == [] then []
    else if CompatibleWithAll(txs[0], txs[1..]) then [txs[0]] + KeepLast(txs[1..])
    else KeepLast(txs[1..])
  }

  lemma {:induction false} KeepLastHasNoConflicts(txs: seq<Tx>)
    ensures NoConflicts(KeepLast(txs))
  {
    if txs != [] {
      var rest := KeepLast(txs[1..]);
      KeepLastHasNoConflicts(txs[1..]);
      if CompatibleWithAll(txs[0], txs[1..]) {
        forall i | 0 <= i < |rest| ensures Compatible(txs[0], rest[i]) {
          assert rest[i] in txs[1..];
        }
      }
    }
  }

  lemma {:induction false} KeepLastKeepsAll(txs: seq<Tx>)
    requires NoConflicts(txs)
    ensures KeepLast(txs) == txs
  {
    if txs != [] {
      KeepLastKeepsAll(txs[1..]);
      assert txs == [txs[0]] + txs[1..];
    }
  }

  /** Leave out what conflicts with the pool. */
  function CompatibleOnly(txs: seq<Tx>, pool: seq<Tx>): (r: seq<Tx>)
    ensures forall x :: x in r ==> x in txs && CompatibleWithAll(x, pool)
  {
    if txs == [] then []
    else if CompatibleWithAll(txs[0], pool) then [txs[0]] + CompatibleOnly(txs[1..], pool)
    else CompatibleOnly(txs[1..], pool)
  }

  lemma {:induction false} CompatibleOnlyAll(txs: seq<Tx>, pool: seq<Tx>)
    requires forall i :: 0 <= i < |txs| ==> CompatibleWithAll(txs[i], pool)
    ensures CompatibleOnly(txs, pool) == txs
  {
    if txs != [] {
      CompatibleOnlyAll(txs[1..], pool);
      assert txs == [txs[0]] + txs[1..];
    }
  }

  lemma {:induction false} InsertMembers(pool: seq<Tx>, t: Tx, x: Tx)
    ensures x in Insert(pool, t) <==> x in pool || x == t
  {
    var k := Position(pool, t.rate);
    assert pool == pool[..k] + pool[k..];
  }

  lemma {:induction false} InsertAt(pool: seq<Tx>, t: Tx, i: nat)
    requires i <= |pool|
    ensures Insert(pool, t)[i]
         == if i < Position(pool, t.rate) then pool[i] else if i == Position(pool, t.rate) then t else pool[i - 1]
  {
  }

  lemma {:induction false} InsertNoConflicts(pool: seq<Tx>, t: Tx)
    requires NoConflicts(pool) && CompatibleWithAll(t, pool)
    ensures NoConflicts(Insert(pool, t))
  {
    var r := Insert(pool, t);
    forall i, k | 0 <= i < k < |r| ensures Compatible(r[i], r[k]) {
      InsertAt(pool, t, i);
      InsertAt(pool, t, k);
    }
  }

  lemma {:induction false} InsertGood(l: Ledger, pool: seq<Tx>, t: Tx)
    requires GoodPool(l, pool) && Valid(l, t) && CompatibleWithAll(t, pool)
    ensures GoodPool(l, Insert(pool, t))
  {
    InsertNoConflicts(pool, t);
    var r := Insert(pool, t);
    forall i | 0 <= i < |r| ensures Valid(l, r[i]) {
      InsertAt(pool, t, i);
    }
  }

  lemma {:induction false} SuffixGood(l: Ledger, pool: seq<Tx>, k: nat)
    requires GoodPool(l, pool) && k <= |pool|
    ensures GoodPool(l, pool[k..])
  {
  }

  /** Everything in the pool comes from `a` or from the first n of `b`. */
  predicate From(r: seq<Tx>, a: seq<Tx>, b: seq<Tx>) {
    forall i :: 0 <= i < |r| ==> r[i] in a || r[i] in b
  }

  function InsertAll(pool: seq<Tx>, txs: seq<Tx>): seq<Tx> {
    if txs == [] then pool else Insert(InsertAll(pool, txs[..|txs| - 1]), txs[|txs| - 1])
  }

  lemma {:induction false} InsertAllSize(pool: seq<Tx>, txs: seq<Tx>)
    ensures Size(InsertAll(pool, txs)) == Size(pool) + Size(txs)
  {
    if txs != [] {
      var n := |txs| - 1;
      InsertAllSize(pool, txs[..n]);
      InsertSize(InsertAll(pool, txs[..n]), txs[n]);
    }
  }

  lemma {:induction false} InsertAllContents(pool: seq<Tx>, txs: seq<Tx>)
    ensures multiset(InsertAll(pool, txs)) == multiset(pool) + multiset(txs)
  {
    if txs != [] {
      var n := |txs| - 1;
      InsertAllContents(pool, txs[..n]);
      InsertContents(InsertAll(pool, txs[..n]), txs[n]);
      MultisetSnoc(txs);
    }
  }

  lemma {:induction false} MultisetSnoc(txs: seq<Tx>)
    requires txs != []
    ensures multiset(txs) == multiset(txs[..|txs| - 1]) + multiset{txs[|txs| - 1]}
  {
    assert txs == txs[..|txs| - 1] + [txs[|txs| - 1]];
  }

  /** Room for all of them, and all pay enough. */
  predicate Roomy(pool: seq<Tx>, txs: seq<Tx>, minRate: nat, max: nat) {
    Size(pool) + Size(txs) <= max && forall i :: 0 <= i < |txs| ==> txs[i].rate >= minRate
  }

  /** What may be put together: no conflicts, and everything valid on `l`. */
  ghost predicate Puttable(l: Ledger, pool: seq<Tx>, txs: seq<Tx>) {
    NoConflicts(txs) && forall i :: 0 <= i < |txs| ==> Valid(l, txs[i]) && CompatibleWithAll(txs[i], pool)
  }

  /** Transactions added one by one, those that pay too little excepted. */
  function AddAll(pool: seq<Tx>, txs: seq<Tx>, minRate: nat, max: nat): seq<Tx> {
    if txs == [] then pool
    else
      var before, t := AddAll(pool, txs[..|txs| - 1], minRate, max), txs[|txs| - 1];
      if t.rate >= minRate then AddTo(before, t, max) else before
  }

  lemma {:induction false} AddAllKeepsOrder(pool: seq<Tx>, txs: seq<Tx>, minRate: nat, max: nat)
    requires Sorted(pool) && Size(pool) <= max
    ensures Sorted(AddAll(pool, txs, minRate, max)) && Size(AddAll(pool, txs, minRate, max)) <= max
  {
    if txs != [] {
      var n := |txs| - 1;
      AddAllKeepsOrder(pool, txs[..n], minRate, max);
      AddToKeepsOrder(AddAll(pool, txs[..n], minRate, max), txs[n], max);
    }
  }

  lemma {:induction false} PuttablePrefix(l: Ledger, pool: seq<Tx>, txs: seq<Tx>, n: nat)
    requires Puttable(l, pool, txs) && n <= |txs|
    ensures Puttable(l, pool, txs[..n])
  {
  }

  lemma {:induction false} AddAllIsGood(l: Ledger, pool: seq<Tx>, txs: seq<Tx>, minRate: nat, max: nat)
    requires GoodPool(l, pool) && Puttable(l, pool, txs)
    ensures GoodPool(l, AddAll(pool, txs, minRate, max)) && From(AddAll(pool, txs, minRate, max), pool, txs)
  {
    if txs != [] {
      var n := |txs| - 1;
      var before := AddAll(pool, txs[..n], minRate, max);
      PuttablePrefix(l, pool, txs, n);
      AddAllIsGood(l, pool, txs[..n], minRate, max);
      StillCompatible(before, pool, txs, n);
      AddedIsGood(l, before, txs[n], max);
      FromStep(before, AddAll(pool, txs, minRate, max), pool, txs, n);
      assert txs[..n + 1] == txs;
    }
  }

  lemma {:induction false} AddAllWithRoom(pool: seq<Tx>, txs: seq<Tx>, minRate: nat, max: nat)
    requires Roomy(pool, txs, minRate, max)
    ensures AddAll(pool, txs, minRate, max) == InsertAll(pool, txs)
  {
    if txs != [] {
      var n := |txs| - 1;
      AddAllWithRoom(pool, txs[..n], minRate, max);
      FitsSoFar(pool, txs, n);
      AddToWithRoom(InsertAll(pool, txs[..n]), txs[n], max);
    }
  }

  /** The loop that adds them. */
  method PutAll(pool: seq<Tx>, txs: seq<Tx>, minRate: nat, max: nat, ghost l: Ledger) returns (r: seq<Tx>)
    requires Sorted(pool) && Size(pool) <= max && GoodPool(l, pool) && Puttable(l, pool, txs)
    ensures r == AddAll(pool, txs, minRate, max)
    ensures Sorted(r) && Size(r) <= max && GoodPool(l, r) && From(r, pool, txs)
    ensures Roomy(pool, txs, minRate, max) ==> r == InsertAll(pool, txs)
  {
    r := pool;
    for n := 0 to |txs|
      invariant Sorted(r) && Size(r) <= max
      invariant r == AddAll(pool, txs[..n], minRate, max)
    {
      assert txs[..n + 1][..n] == txs[..n];
      if txs[n].rate >= minRate {
        var ok;
        r, ok := AddWithSizeCheck(r, txs[n], max);
      }
    }
    assert txs[..|txs|] == txs;
    AddAllIsGood(l, pool, txs, minRate, max);
    if Roomy(pool, txs, minRate, max) {
      AddAllWithRoom(pool, txs, minRate, max);
    }
  }

  lemma {:induction false} FitsSoFar(pool: seq<Tx>, txs: seq<Tx>, n: nat)
    requires n < |txs|
    ensures Size(InsertAll(pool, txs[..n])) + txs[n].size <= Size(pool) + Size(txs)
  {
    InsertAllSize(pool, txs[..n]);
    assert txs[..n + 1][..n] == txs[..n];
    SizeConcat(txs[..n + 1], txs[n + 1..]);
    assert txs == txs[..n + 1] + txs[n + 1..];
  }

  lemma {:induction false} StillCompatible(r: seq<Tx>, pool: seq<Tx>, txs: seq<Tx>, n: nat)
    requires n < |txs| && From(r, pool, txs[..n]) && NoConflicts(txs) && CompatibleWithAll(txs[n], pool)
    ensures CompatibleWithAll(txs[n], r)
  {
    forall i | 0 <= i < |r| ensures Compatible(txs[n], r[i]) {
      if r[i] in txs[..n] {
        var k :| 0 <= k < n && txs[k] == r[i];
        assert Compatible(txs[k], txs[n]);
      }
    }
  }

  lemma {:induction false} AddedIsGood(l: Ledger, pool: seq<Tx>, t: Tx, max: nat)
    requires GoodPool(l, pool) && Valid(l, t) && CompatibleWithAll(t, pool)
    ensures GoodPool(l, AddTo(pool, t, max)) && From(AddTo(pool, t, max), pool, [t])
  {
    var k := Room(pool, t, max, 0);
    if Fits(pool, t, max, k) {
      SuffixGood(l, pool, k);
      InsertGood(l, pool[k..], t);
      forall i | 0 <= i < |Insert(pool[k..], t)|
        ensures Insert(pool[k..], t)[i] in pool || Insert(pool[k..], t)[i] in [t]
      {
        InsertMembers(pool[k..], t, Insert(pool[k..], t)[i]);
      }
    }
  }

  lemma {:induction false} FromStep(before: seq<Tx>, r: seq<Tx>, pool: seq<Tx>, txs: seq<Tx>, n: nat)
    requires n < |txs| && From(before, pool, txs[..n]) && (r == before || From(r, before, [txs[n]]))
    ensures From(r, pool, txs[..n + 1])
  {
    assert txs[..n + 1] == txs[..n] + [txs[n]];
  }

  // ---------------------------------------------------------------- after a change of the active chain

  predicate Applied(t: Tx, applied: seq<Tx>) {
    exists i :: 0 <= i < |applied| && applied[i].id == t.id
  }

  /** Transactions that were not applied by the new blocks and are valid on the new state. */
  function Survivors(txs: seq<Tx>, applied: seq<Tx>, validate: Tx -> bool): seq<Tx> {
    if txs == [] then []
    else
      var before, t := Survivors(txs[..|txs| - 1], applied, validate), txs[|txs| - 1];
      if !Applied(t, applied) && validate(t) then before + [t] else before
  }

  /** Where each survivor stood before; the order is kept. */
  function Origin(txs: seq<Tx>, applied: seq<Tx>, validate: Tx -> bool): (at: seq<nat>)
    ensures |at| == |Survivors(txs, applied, validate)|
    ensures forall i :: 0 <= i < |at| ==> at[i] < |txs| && txs[at[i]] == Survivors(txs, applied, validate)[i]
    ensures forall i :: 0 <= i < |at| ==> validate(txs[at[i]]) && !Applied(txs[at[i]], applied)
    ensures forall i, k :: 0 <= i < k < |at| ==> at[i] < at[k]
  {
    if txs == [] then []
    else
      var before, t := Origin(txs[..|txs| - 1], applied, validate), txs[|txs| - 1];
      if !Applied(t, applied) && validate(t) then before + [|txs| - 1] else before
  }

  lemma {:induction false} SurvivorsComplete(txs: seq<Tx>, applied: seq<Tx>, validate: Tx -> bool, t: Tx)
    ensures t in Survivors(txs, applied, validate) <==> t in txs && validate(t) && !Applied(t, applied)
  {
    if txs != [] {
      var n := |txs| - 1;
      SurvivorsComplete(txs[..n], applied, validate, t);
      assert txs == txs[..n] + [txs[n]];
    }
  }

  lemma {:induction false} SurvivorsShrink(txs: seq<Tx>, applied: seq<Tx>, validate: Tx -> bool)
    ensures Size(Survivors(txs, applied, validate)) <= Size(txs)
    ensures Sorted(txs) ==> Sorted(Survivors(txs, applied, validate))
    ensures NoConflicts(txs) ==> NoConflicts(Survivors(txs, applied, validate))
  {
    var at := Origin(txs, applied, validate);
    SurvivorsSize(txs, applied, validate);
  }

  lemma {:induction false} SurvivorsSize(txs: seq<Tx>, applied: seq<Tx>, validate: Tx -> bool)
    ensures Size(Survivors(txs, applied, validate)) <= Size(txs)
  {
    if txs != [] {
      var n := |txs| - 1;
      SurvivorsSize(txs[..n], applied, validate);
      var before := Survivors(txs[..n], applied, validate);
      assert (before + [txs[n]])[..|before|] == before;
    }
  }

  /** The chain `removed` was replaced by `added`, both on top of the same state, while `pool` was good
      for the end of the old chain. */
  ghost predicate Switch(base: Ledger, removed: seq<Block>, added: seq<Block>, pool: seq<Tx>) {
    && GoodLedger(base) && ChainValid(base, removed) && ChainValid(base, added)
    && GoodPool(ApplyBlocks(base, removed), pool)
  }

  /** Transactions of the abandoned blocks conflict neither with each other nor with the pool. */
  lemma {:induction false} RolledBackFitPool(base: Ledger, removed: seq<Block>, added: seq<Block>, pool: seq<Tx>)
    requires Switch(base, removed, added, pool)
    ensures NoConflicts(TxsOf(removed))
    ensures forall i :: 0 <= i < |TxsOf(removed)| ==> CompatibleWithAll(TxsOf(removed)[i], pool)
  {
    var txs := TxsOf(removed);
    forall i, k | 0 <= i < k < |txs| ensures Compatible(txs[i], txs[k]) {
      forall id | id in txs[i].inputs ensures id !in txs[k].inputs {
        ChainInputsDisjoint(base, removed, i, k, id);
      }
    }
    forall i, k | 0 <= i < |txs| && 0 <= k < |pool| ensures Compatible(txs[i], pool[k]) {
      forall id | id in txs[i].inputs ensures id !in pool[k].inputs {
        ChainInputsAreSpent(base, removed, i, id);
      }
    }
  }

  lemma {:induction false} SurvivorsValid(l: Ledger, txs: seq<Tx>, applied: seq<Tx>, validate: Tx -> bool)
    requires forall t :: validate(t) == Valid(l, t)
    ensures forall i :: 0 <= i < |Survivors(txs, applied, validate)| ==> Valid(l, Survivors(txs, applied, validate)[i])
  {
    var r, at := Survivors(txs, applied, validate), Origin(txs, applied, validate);
    forall i | 0 <= i < |r| ensures Valid(l, r[i]) {
      assert validate(txs[at[i]]);
    }
  }

  lemma {:induction false} SurvivorsCompatible(txs: seq<Tx>, pool: seq<Tx>, applied: seq<Tx>, validate: Tx -> bool)
    requires forall i :: 0 <= i < |txs| ==> CompatibleWithAll(txs[i], pool)
    ensures forall i :: 0 <= i < |Survivors(txs, applied, validate)| ==>
      CompatibleWithAll(Survivors(txs, applied, validate)[i], Survivors(pool, applied, validate))
  {
    var a, b := Origin(txs, applied, validate), Origin(pool, applied, validate);
    var r, kept := Survivors(txs, applied, validate), Survivors(pool, applied, validate);
    forall i, k | 0 <= i < |r| && 0 <= k < |kept| ensures Compatible(r[i], kept[k]) {
      assert CompatibleWithAll(txs[a[i]], pool) && pool[b[k]] == kept[k];
    }
  }

  /** What the repair puts back can all be put back. */
  lemma {:induction false} SurvivorsPuttable(base: Ledger, removed: seq<Block>, added: seq<Block>, pool: seq<Tx>,
      validate: Tx -> bool)
    requires Switch(base, removed, added, pool)
    requires forall t :: validate(t) == Valid(ApplyBlocks(base, added), t)
    ensures var l, applied := ApplyBlocks(base, added), TxsOf(added);
      && GoodPool(l, Survivors(pool, applied, validate))
      && Puttable(l, Survivors(pool, applied, validate), Survivors(TxsOf(removed), applied, validate))
  {
    var l, applied := ApplyBlocks(base, added), TxsOf(added);
    RolledBackFitPool(base, removed, added, pool);
    SurvivorsShrink(pool, applied, validate);
    SurvivorsShrink(TxsOf(removed), applied, validate);
    SurvivorsValid(l, pool, applied, validate);
    SurvivorsValid(l, TxsOf(removed), applied, validate);
    SurvivorsCompatible(TxsOf(removed), pool, applied, validate);
  }

  /** The pool after the repair: what the new blocks contain or make invalid is dropped, and what the
      abandoned blocks contained and is still valid is put back, conflicts excepted. */
  function Repaired(pool: seq<Tx>, rolledBack: seq<Tx>, applied: seq<Tx>, validate: Tx -> bool,
      minRate: nat, max: nat): seq<Tx>
  {
    var back, kept := Survivors(rolledBack, applied, validate), Survivors(pool, applied, validate);
    AddAll(kept, CompatibleOnly(KeepLast(back), kept), minRate, max)
  }

  /** The checks for conflicts never find any. */
  lemma {:induction false} NothingLeftOut(base: Ledger, removed: seq<Block>, added: seq<Block>, pool: seq<Tx>,
      validate: Tx -> bool)
    requires Switch(base, removed, added, pool)
    requires forall t :: validate(t) == Valid(ApplyBlocks(base, added), t)
    ensures var back, kept :=
        Survivors(TxsOf(removed), TxsOf(added), validate), Survivors(pool, TxsOf(added), validate);
      CompatibleOnly(KeepLast(back), kept) == back
  {
    SurvivorsPuttable(base, removed, added, pool, validate);
    KeepLastKeepsAll(Survivors(TxsOf(removed), TxsOf(added), validate));
    CompatibleOnlyAll(Survivors(TxsOf(removed), TxsOf(added), validate), Survivors(pool, TxsOf(added), validate));
  }

  /** The repaired pool is good for the new state. */
  lemma {:induction false} RepairedIsGood(base: Ledger, removed: seq<Block>, added: seq<Block>, pool: seq<Tx>,
      validate: Tx -> bool, minRate: nat, max: nat)
    requires Sorted(pool) && Size(pool) <= max && Switch(base, removed, added, pool)
    requires forall t :: validate(t) == Valid(ApplyBlocks(base, added), t)
    ensures var r := Repaired(pool, TxsOf(removed), TxsOf(added), validate, minRate, max);
      Sorted(r) && Size(r) <= max && GoodPool(ApplyBlocks(base, added), r)
  {
    var back, kept := Survivors(TxsOf(removed), TxsOf(added), validate), Survivors(pool, TxsOf(added), validate);
    NothingLeftOut(base, removed, added, pool, validate);
    SurvivorsPuttable(base, removed, added, pool, validate);
    SurvivorsShrink(pool, TxsOf(added), validate);
    AddAllKeepsOrder(kept, back, minRate, max);
    AddAllIsGood(ApplyBlocks(base, added), kept, back, minRate, max);
  }

  /** Repair of the pool after a change of the active chain. */
  method UpdateMempool(pool: seq<Tx>, rolledBack: seq<Tx>, applied: seq<Tx>, validate: Tx -> bool,
      minRate: nat, max: nat, ghost base: Ledger, ghost removed: seq<Block>, ghost added: seq<Block>)
    returns (r: seq<Tx>)
    requires Sorted(pool) && Size(pool) <= max && Switch(base, removed, added, pool)
    requires rolledBack == TxsOf(removed) && applied == TxsOf(added)
    requires forall t :: validate(t) == Valid(ApplyBlocks(base, added), t)
    ensures r == Repaired(pool, rolledBack, applied, validate, minRate, max)
    ensures Sorted(r) && Size(r) <= max && GoodPool(ApplyBlocks(base, added), r)
    ensures From(r, Survivors(pool, applied, validate), Survivors(rolledBack, applied, validate))
    ensures Roomy(Survivors(pool, applied, validate), Survivors(rolledBack, applied, validate), minRate, max) ==>
      multiset(r) == multiset(Survivors(pool, applied, validate)) + multiset(Survivors(rolledBack, applied, validate))
  {
    var back, kept := Survivors(rolledBack, applied, validate), Survivors(pool, applied, validate);
    SurvivorsPuttable(base, removed, added, pool, validate);
    NothingLeftOut(base, removed, added, pool, validate);
    SurvivorsShrink(pool, applied, validate);
    var fitting := CompatibleOnly(KeepLast(back), kept);
    r := PutAll(kept, fitting, minRate, max, ApplyBlocks(base, added));
    InsertAllContents(kept, back);
  }

  // ---------------------------------------------------------------- every run of puts and switches

  /** The pool after a transaction was offered that the state finds valid or not. */
  function PutInto(pool: seq<Tx>, t: Tx, valid: bool, minRate: nat, max: nat): seq<Tx> {
    if valid && t.rate >= minRate && CompatibleWithAll(t, pool) then AddTo(pool, t, max) else pool
  }

  /** A new transaction is added if it is valid, pays enough and conflicts with nothing in the pool. */
  method Put(pool: seq<Tx>, t: Tx, valid: bool, minRate: nat, max: nat) returns (r: seq<Tx>, ok: bool)
    requires Sorted(pool) && Size(pool) <= max
    ensures r == PutInto(pool, t, valid, minRate, max) && Sorted(r) && Size(r) <= max
    ensures ok <==> valid && t.rate >= minRate && CompatibleWithAll(t, pool) && RoomForIt(pool, t, max)
    ensures ok ==> t in r
    ensures !ok ==> r == pool
  {
    r, ok := pool, false;
    if !valid || t.rate < minRate {
      return;
    }
    for i := 0 to |pool|
      invariant forall k :: 0 <= k < i ==> Compatible(t, pool[k])
    {
      if !Compatible(t, pool[i]) {
        return;
      }
    }
    r, ok := AddWithSizeCheck(pool, t, max);
  }

  /** The blocks of the active chain on top of some ledger, and the pool. */
  datatype Node = Node(chain: seq<Block>, pool: seq<Tx>)

  /** A transaction arrives, or the chain keeps its first blocks and continues with others. */
  datatype Step = Offer(t: Tx) | SwitchTo(keep: nat, added: seq<Block>)

  ghost function Next(base: Ledger, n: Node, step: Step, minRate: nat, max: nat): Node {
    match step
    case Offer(t) => n.(pool := PutInto(n.pool, t, Valid(ApplyBlocks(base, n.chain), t), minRate, max))
    case SwitchTo(keep, added) =>
      if keep <= |n.chain| && ChainValid(base, n.chain[..keep] + added) then
        var l := ApplyBlocks(base, n.chain[..keep] + added);
        Node(n.chain[..keep] + added,
             Repaired(n.pool, TxsOf(n.chain[keep..]), TxsOf(added), (t: Tx) => Valid(l, t), minRate, max))
      else n
  }

  ghost function Run(base: Ledger, steps: seq<Step>, minRate: nat, max: nat): Node {
    if steps == [] then Node([], [])
    else Next(base, Run(base, steps[..|steps| - 1], minRate, max), steps[|steps| - 1], minRate, max)
  }

  ghost predicate GoodNode(base: Ledger, n: Node, max: nat) {
    && ChainValid(base, n.chain) && Sorted(n.pool) && Size(n.pool) <= max
    && GoodPool(ApplyBlocks(base, n.chain), n.pool)
  }

  lemma {:induction false} ChainSplits(base: Ledger, a: seq<Block>, b: seq<Block>)
    ensures ApplyBlocks(base, a + b) == ApplyBlocks(ApplyBlocks(base, a), b)
    ensures ChainValid(base, a + b) <==> ChainValid(base, a) && ChainValid(ApplyBlocks(base, a), b)
  {
    if b == [] {
      assert a + b == a;
    } else {
      ChainSplits(base, a, b[..|b| - 1]);
      ChainSplitsOff(base, a, b);
    }
  }

  lemma {:induction false} ChainSplitsOff(base: Ledger, a: seq<Block>, b: seq<Block>)
    requires b != []
    ensures var before, last := a + b[..|b| - 1], b[|b| - 1];
      && ApplyBlocks(base, a + b) == ApplyBlock(ApplyBlocks(base, before), last)
      && (ChainValid(base, a + b) <==> ChainValid(base, before) && BlockValid(ApplyBlocks(base, before), last))
  {
    assert (a + b)[..|a + b| - 1] == a + b[..|b| - 1];
  }

  lemma {:induction false} OfferKeepsGood(base: Ledger, n: Node, t: Tx, minRate: nat, max: nat)
    requires GoodNode(base, n, max)
    ensures GoodNode(base, Next(base, n, Offer(t), minRate, max), max)
  {
    var l := ApplyBlocks(base, n.chain);
    if Valid(l, t) && t.rate >= minRate && CompatibleWithAll(t, n.pool) {
      AddToKeepsOrder(n.pool, t, max);
      AddedIsGood(l, n.pool, t, max);
    }
  }

  lemma {:induction false} SwitchKeepsGood(base: Ledger, n: Node, keep: nat, added: seq<Block>, minRate: nat, max: nat)
    requires GoodLedger(base) && GoodNode(base, n, max)
    ensures GoodNode(base, Next(base, n, SwitchTo(keep, added), minRate, max), max)
  {
    if keep <= |n.chain| && ChainValid(base, n.chain[..keep] + added) {
      var common, l := ApplyBlocks(base, n.chain[..keep]), ApplyBlocks(base, n.chain[..keep] + added);
      ChainSplits(base, n.chain[..keep], n.chain[keep..]);
      ChainSplits(base, n.chain[..keep], added);
      assert n.chain == n.chain[..keep] + n.chain[keep..];
      ChainKeepsGood(base, n.chain[..keep]);
      RepairedIsGood(common, n.chain[keep..], added, n.pool, (t: Tx) => Valid(l, t), minRate, max);
    }
  }

  lemma {:induction false} InMultiset(a: seq<Tx>, b: seq<Tx>, c: seq<Tx>, t: Tx)
    requires multiset(a) == multiset(b) + multiset(c)
    ensures t in a <==> t in b || t in c
  {
    assert t in a <==> t in multiset(a);
    assert t in b <==> t in multiset(b);
    assert t in c <==> t in multiset(c);
  }

  /** A switch to a valid chain takes place, and with enough room the pool then holds exactly those of its
      transactions and of the abandoned blocks' that are valid on the new state and not in the new blocks. */
  lemma {:induction false} SwitchedPool(
      base: Ledger, n: Node, keep: nat, added: seq<Block>, minRate: nat, max: nat, t: Tx)
    requires GoodLedger(base) && GoodNode(base, n, max)
    requires keep <= |n.chain| && ChainValid(base, n.chain[..keep] + added)
    requires Size(n.pool) + Size(TxsOf(n.chain[keep..])) <= max
    requires forall i :: 0 <= i < |TxsOf(n.chain[keep..])| ==> TxsOf(n.chain[keep..])[i].rate >= minRate
    ensures var m := Next(base, n, SwitchTo(keep, added), minRate, max);
      && m.chain == n.chain[..keep] + added
      && (t in m.pool <==>
            && (t in n.pool || t in TxsOf(n.chain[keep..]))
            && Valid(ApplyBlocks(base, m.chain), t) && !Applied(t, TxsOf(added)))
  {
    var l := ApplyBlocks(base, n.chain[..keep] + added);
    ChainSplits(base, n.chain[..keep], n.chain[keep..]);
    ChainSplits(base, n.chain[..keep], added);
    assert n.chain == n.chain[..keep] + n.chain[keep..];
    ChainKeepsGood(base, n.chain[..keep]);
    RepairedIff(ApplyBlocks(base, n.chain[..keep]), n.chain[keep..], added, n.pool, (t: Tx) => Valid(l, t),
      minRate, max, t);
  }

  /** With enough room the repaired pool holds exactly the survivors. */
  lemma {:induction false} RepairedIff(base: Ledger, removed: seq<Block>, added: seq<Block>, pool: seq<Tx>,
      validate: Tx -> bool, minRate: nat, max: nat, t: Tx)
    requires Switch(base, removed, added, pool) && Roomy(pool, TxsOf(removed), minRate, max)
    requires forall t :: validate(t) == Valid(ApplyBlocks(base, added), t)
    ensures t in Repaired(pool, TxsOf(removed), TxsOf(added), validate, minRate, max) <==>
      (t in pool || t in TxsOf(removed)) && validate(t) && !Applied(t, TxsOf(added))
  {
    var back, kept := Survivors(TxsOf(removed), TxsOf(added), validate), Survivors(pool, TxsOf(added), validate);
    NothingLeftOut(base, removed, added, pool, validate);
    SurvivorsComplete(pool, TxsOf(added), validate, t);
    SurvivorsComplete(TxsOf(removed), TxsOf(added), validate, t);
    RoomForSurvivors(pool, TxsOf(removed), TxsOf(added), validate, minRate, max);
    AddAllWithRoom(kept, back, minRate, max);
    InsertAllContents(kept, back);
    InMultiset(Repaired(pool, TxsOf(removed), TxsOf(added), validate, minRate, max), kept, back, t);
  }

  lemma {:induction false} RoomForSurvivors(pool: seq<Tx>, back: seq<Tx>, applied: seq<Tx>, validate: Tx -> bool,
      minRate: nat, max: nat)
    requires Roomy(pool, back, minRate, max)
    ensures Roomy(Survivors(pool, applied, validate), Survivors(back, applied, validate), minRate, max)
  {
    SurvivorsSize(pool, applied, validate);
    SurvivorsSize(back, applied, validate);
    var at := Origin(back, applied, validate);
  }

  /** In every run of offered transactions and chain switches, everything in the pool is valid on the
      current state, no two transactions conflict, and the pool is sorted and within its size. */
  lemma {:induction false} PoolIsAlwaysGood(base: Ledger, steps: seq<Step>, minRate: nat, max: nat)
    requires GoodLedger(base)
    ensures GoodNode(base, Run(base, steps, minRate, max), max)
  {
    if steps != [] {
      var n := |steps| - 1;
      var before := Run(base, steps[..n], minRate, max);
      PoolIsAlwaysGood(base, steps[..n], minRate, max);
      match steps[n]
      case Offer(t) => OfferKeepsGood(base, before, t, minRate, max);
      case SwitchTo(keep, added) => SwitchKeepsGood(base, before, keep, added, minRate, max);
    }
  }

  /** Spelled out: in every run, what pooled transactions spend is unspent on the current chain, no box is spent
      by two of them, and amounts balance. */
  lemma {:induction false} PoolSpendsOnce(base: Ledger, steps: seq<Step>, minRate: nat, max: nat)
    requires GoodLedger(base)
    ensures var n := Run(base, steps, minRate, max);
      && (forall i, id :: 0 <= i < |n.pool| && id in n.pool[i].inputs ==> id in ApplyBlocks(base, n.chain).boxes)
      && (forall i, k, id :: 0 <= i < k < |n.pool| && id in n.pool[i].inputs ==> id !in n.pool[k].inputs)
      && (forall i :: 0 <= i < |n.pool| ==>
            Total(Restrict(ApplyBlocks(base, n.chain).boxes, n.pool[i].inputs))
              == Total(n.pool[i].outputs) + n.pool[i].withdrawn + n.pool[i].fee)
  {
    PoolIsAlwaysGood(base, steps, minRate, max);
    var n := Run(base, steps, minRate, max);
    assert forall i, k :: 0 <= i < k < |n.pool| ==> Compatible(n.pool[i], n.pool[k]);
    assert forall i :: 0 <= i < |n.pool| ==> Valid(ApplyBlocks(base, n.chain), n.pool[i]);
  }

  /** A transaction that spends unspent boxes, balances, pays the minimum, spends nothing a pooled one spends and
      finds room is in the pool after it was offered, next to all that were there. */
  lemma {:induction false} OfferedIsPooled(base: Ledger, n: Node, t: Tx, minRate: nat, max: nat)
    requires (forall id :: id in t.inputs ==> id in ApplyBlocks(base, n.chain).boxes)
    requires Total(Restrict(ApplyBlocks(base, n.chain).boxes, t.inputs)) == Total(t.outputs) + t.withdrawn + t.fee
    requires forall i, id :: 0 <= i < |n.pool| && id in n.pool[i].inputs ==> id !in t.inputs
    requires t.rate >= minRate && Size(n.pool) + t.size <= max
    ensures multiset(Next(base, n, Offer(t), minRate, max).pool) == multiset(n.pool) + multiset{t}
  {
    AddToWithRoom(n.pool, t, max);
    InsertContents(n.pool, t);
  }
}
