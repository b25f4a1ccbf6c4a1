/**
 Redistribution of block fees at the end of a withdrawal epoch: seven tenths of a block's fee go to its
 forger, the rest goes to a pool that is split evenly over the blocks of the epoch.
 */
module FeePayments {
  import opened Collections

  datatype BlockFee = BlockFee(forger: nat, fee: nat)

  datatype Reward = Reward(forger: nat, amount: nat)

  /** The forger's own part of a block's fee, rounded down. */
  function ForgerFee(fee: nat): nat {
    7 * fee / 10
  }

  function TotalFee(blocks: seq<BlockFee>): nat {
    if blocks == [] then 0 else TotalFee(blocks[..|blocks| - 1]) + blocks[|blocks| - 1].fee
  }

  function Pool(blocks: seq<BlockFee>): nat {
    if blocks == [] then 0
    else Pool(blocks[..|blocks| - 1]) + (blocks[|blocks| - 1].fee - ForgerFee(blocks[|blocks| - 1].fee))
  }

  /** What block number i of n receives from a pool: an even share, and one more coin for the first
      blocks as long as the remainder lasts. */
  function PoolShare(pool: nat, n: nat, i: nat): nat
    requires n > 0
  {
    pool / n + if i < pool % n then 1 else 0
  }

  /** Every block's reward, in block order. */
  function Rewards(blocks: seq<BlockFee>): (rewards: seq<Reward>)
    ensures |rewards| == |blocks|
    ensures forall i :: 0 <= i < |blocks| ==>
      rewards[i] == Reward(blocks[i].forger, ForgerFee(blocks[i].fee) + PoolShare(Pool(blocks), |blocks|, i))
  {
    seq(|blocks|, i requires 0 <= i < |blocks| =>
      Reward(blocks[i].forger, ForgerFee(blocks[i].fee) + PoolShare(Pool(blocks), |blocks|, i)))
  }

  /** A block's reward goes to its forger: seven tenths of the block's own fee rounded down, and an even share
      of the pool rounded down or up. */
  lemma {:induction false} RewardIsOwnPartAndShare(blocks: seq<BlockFee>, i: nat) returns (own: nat, share: nat)
    requires i < |blocks|
    ensures Rewards(blocks)[i] == Reward(blocks[i].forger, own + share)
    ensures 10 * own <= 7 * blocks[i].fee < 10 * own + 10
    ensures |blocks| * share < Pool(blocks) + |blocks| && Pool(blocks) < |blocks| * share + |blocks|
  {
    own, share := ForgerFee(blocks[i].fee), PoolShare(Pool(blocks), |blocks|, i);
    ShareIsEven(Pool(blocks), |blocks|, i);
  }

  lemma {:induction false} ShareIsEven(pool: nat, n: nat, i: nat)
    requires n > 0
    ensures n * PoolShare(pool, n, i) < pool + n && pool < n * PoolShare(pool, n, i) + n
  {
    var q := pool / n;
    assert n * q + pool % n == pool;
    assert n * (q + 1) == n * q + n;
  }

  function TotalReward(rewards: seq<Reward>): nat {
    if rewards == [] then 0 else TotalReward(rewards[..|rewards| - 1]) + rewards[|rewards| - 1].amount
  }

  /** What one forger receives in all. */
  function Paid(rewards: seq<Reward>, forger: nat): nat {
    if rewards == [] then 0
    else
      var r := rewards[|rewards| - 1];
      Paid(rewards[..|rewards| - 1], forger) + if r.forger == forger then r.amount else 0
  }

  // ---------------------------------------------------------------- nothing is lost

  /** The pool's part of one fee is three tenths, rounded up. */
  lemma {:induction false} PoolPartIsCeiling(fee: nat)
    ensures fee - ForgerFee(fee) == (3 * fee + 9) / 10
  {
  }

  /** Sum of the pool shares of the first k blocks. */
  lemma {:induction false} SharesSum(pool: nat, n: nat, k: nat)
    requires 0 < n && k <= n
    ensures ShareSum(pool, n, k) == k * (pool / n) + if k < pool % n then k else pool % n
  {
    if k > 0 {
      SharesSum(pool, n, k - 1);
      assert k * (pool / n) == (k - 1) * (pool / n) + pool / n;
    }
  }

  function ShareSum(pool: nat, n: nat, k: nat): nat
    requires n > 0
  {
    if k == 0 then 0 else ShareSum(pool, n, k - 1) + PoolShare(pool, n, k - 1)
  }

  /** The pool is paid out to the last coin. */
  lemma {:induction false} PoolIsPaidOut(pool: nat, n: nat)
    requires n > 0
    ensures ShareSum(pool, n, n) == pool
  {
    SharesSum(pool, n, n);
    assert n * (pool / n) + pool % n == pool;
  }

  lemma {:induction false} RewardsOfFirst(blocks: seq<BlockFee>, k: nat)
    requires k <= |blocks|
    ensures k == 0 || TotalReward(Rewards(blocks)[..k]) + Pool(blocks[..k])
      == TotalFee(blocks[..k]) + ShareSum(Pool(blocks), |blocks|, k)
  {
    var rewards := Rewards(blocks);
    if k > 0 {
      RewardsOfFirst(blocks, k - 1);
      assert rewards[..k][..k - 1] == rewards[..k - 1];
      assert blocks[..k][..k - 1] == blocks[..k - 1];
    }
  }

  /** The rewards of all blocks sum to all fees. */
  lemma {:induction false} RewardsConserveFees(blocks: seq<BlockFee>)
    ensures TotalReward(Rewards(blocks)) == TotalFee(blocks)
  {
    var n := |blocks|;
    if n > 0 {
      RewardsOfFirst(blocks, n);
      PoolIsPaidOut(Pool(blocks), n);
      assert Rewards(blocks)[..n] == Rewards(blocks) && blocks[..n] == blocks;
    }
  }

  /** Pool shares of two blocks differ by at most one coin, and the earlier block has it. */
  lemma {:induction false} SharesAreEven(pool: nat, n: nat, i: nat, k: nat)
    requires i < k < n
    ensures PoolShare(pool, n, k) <= PoolShare(pool, n, i) <= PoolShare(pool, n, k) + 1
  {
  }

  // ---------------------------------------------------------------- payments per forger

  function PaidTo(keys: seq<nat>, rewards: seq<Reward>): nat {
    if keys == [] then 0 else PaidTo(keys[..|keys| - 1], rewards) + Paid(rewards, keys[|keys| - 1])
  }

  lemma {:induction false} PaidToSnoc(keys: seq<nat>, rewards: seq<Reward>, r: Reward)
    requires Distinct(keys)
    ensures PaidTo(keys, rewards + [r]) == PaidTo(keys, rewards) + if r.forger in keys then r.amount else 0
  {
    if keys != [] {
      var n := |keys| - 1;
      PaidToSnoc(keys[..n], rewards, r);
      assert (rewards + [r])[..|rewards|] == rewards;
      assert keys == keys[..n] + [keys[n]];
      assert keys[n] !in keys[..n];
    }
  }

  /** Grouping rewards by forger loses nothing. */
  lemma {:induction false} GroupingConserves(keys: seq<nat>, rewards: seq<Reward>)
    requires Distinct(keys) && forall i :: 0 <= i < |rewards| ==> rewards[i].forger in keys
    ensures PaidTo(keys, rewards) == TotalReward(rewards)
  {
    if rewards == [] {
      PaidToNothing(keys);
    } else {
      var n := |rewards| - 1;
      GroupingConserves(keys, rewards[..n]);
      PaidToSnoc(keys, rewards[..n], rewards[n]);
      assert rewards == rewards[..n] + [rewards[n]];
    }
  }

  lemma {:induction false} PaidToNothing(keys: seq<nat>)
    ensures PaidTo(keys, []) == 0
  {
    if keys != [] {
      PaidToNothing(keys[..|keys| - 1]);
    }
  }

  /** Forgers in the order of their first block. */
  method DistinctForgers(rewards: seq<Reward>) returns (keys: seq<nat>)
    ensures Distinct(keys)
    ensures forall f :: f in keys <==> exists i :: 0 <= i < |rewards| && rewards[i].forger == f
  {
    keys := [];
    for n := 0 to |rewards|
      invariant Distinct(keys)
      invariant forall f :: f in keys <==> exists i :: 0 <= i < n && rewards[i].forger == f
    {
      if rewards[n].forger !in keys {
        keys := keys + [rewards[n].forger];
      }
    }
  }

  /** One payment per forger, none of them zero. */
  predicate Grouped(payments: seq<Reward>) {
    && (forall i :: 0 <= i < |payments| ==> payments[i].amount > 0)
    && (forall i, k :: 0 <= i < k < |payments| ==> payments[i].forger != payments[k].forger)
  }

  /** The payments cover exactly the forgers in `keys`. */
  ghost predicate PaysOut(payments: seq<Reward>, rewards: seq<Reward>, keys: seq<nat>) {
    forall f :: Paid(payments, f) == if f in keys then Paid(rewards, f) else 0
  }

  lemma {:induction false} PaidSnoc(rewards: seq<Reward>, r: Reward, f: nat)
    ensures Paid(rewards + [r], f) == Paid(rewards, f) + if r.forger == f then r.amount else 0
  {
    assert (rewards + [r])[..|rewards|] == rewards;
  }

  lemma {:induction false} PaysOutSnoc(payments: seq<Reward>, rewards: seq<Reward>, keys: seq<nat>, k: nat)
    requires PaysOut(payments, rewards, keys) && k !in keys
    ensures PaysOut(payments + [Reward(k, Paid(rewards, k))], rewards, keys + [k])
    ensures Paid(rewards, k) == 0 ==> PaysOut(payments, rewards, keys + [k])
  {
    forall f
      ensures Paid(payments + [Reward(k, Paid(rewards, k))], f) == if f in keys + [k] then Paid(rewards, f) else 0
    {
      PaidSnoc(payments, Reward(k, Paid(rewards, k)), f);
    }
  }

  /** Add up the rewards of each forger and drop zero amounts. */
  method Group(rewards: seq<Reward>) returns (payments: seq<Reward>)
    ensures Grouped(payments)
    ensures forall f :: Paid(payments, f) == Paid(rewards, f)
  {
    var keys := DistinctForgers(rewards);
    payments := [];
    for n := 0 to |keys|
      invariant Grouped(payments)
      invariant forall i :: 0 <= i < |payments| ==> payments[i].forger in keys[..n]
      invariant PaysOut(payments, rewards, keys[..n])
    {
      var amount := Paid(rewards, keys[n]);
      PaysOutSnoc(payments, rewards, keys[..n], keys[n]);
      assert keys[..n + 1] == keys[..n] + [keys[n]];
      if amount > 0 {
        payments := payments + [Reward(keys[n], amount)];
      }
    }
    assert keys[..|keys|] == keys;
    forall f ensures Paid(payments, f) == Paid(rewards, f) {
      if f !in keys {
        NoBlockNoPay(rewards, f);
      }
    }
  }

  lemma {:induction false} NoBlockNoPay(rewards: seq<Reward>, f: nat)
    requires forall i :: 0 <= i < |rewards| ==> rewards[i].forger != f
    ensures Paid(rewards, f) == 0
  {
    if rewards != [] {
      NoBlockNoPay(rewards[..|rewards| - 1], f);
    }
  }

  /** The node's payments: every forger receives the sum of its blocks' rewards. */
  method FeePaymentsOf(blocks: seq<BlockFee>) returns (payments: seq<Reward>)
    ensures Grouped(payments)
    ensures forall f :: Paid(payments, f) == Paid(Rewards(blocks), f)
  {
    var pool := 0;
    var own: seq<nat> := [];
    for n := 0 to |blocks|
      invariant pool == Pool(blocks[..n])
      invariant |own| == n && forall i :: 0 <= i < n ==> own[i] == ForgerFee(blocks[i].fee)
    {
      assert blocks[..n + 1][..n] == blocks[..n];
      own := own + [ForgerFee(blocks[n].fee)];
      pool := pool + (blocks[n].fee - ForgerFee(blocks[n].fee));
    }
    assert blocks[..|blocks|] == blocks;
    var rewards :=
      seq(|blocks|, i requires 0 <= i < |blocks| => Reward(blocks[i].forger, own[i] + PoolShare(pool, |blocks|, i)));
    assert rewards == Rewards(blocks);
    payments := Group(rewards);
  }

  /** Rewards with the same sum per forger have the same total. */
  lemma {:induction false} SamePaidSameTotal(keys: seq<nat>, a: seq<Reward>, b: seq<Reward>)
    requires Distinct(keys)
    requires forall i :: 0 <= i < |a| ==> a[i].forger in keys
    requires forall i :: 0 <= i < |b| ==> b[i].forger in keys
    requires forall f :: Paid(a, f) == Paid(b, f)
    ensures TotalReward(a) == TotalReward(b)
  {
    GroupingConserves(keys, a);
    GroupingConserves(keys, b);
    SamePaidTo(keys, a, b);
  }

  lemma {:induction false} SamePaidTo(keys: seq<nat>, a: seq<Reward>, b: seq<Reward>)
    requires forall f :: Paid(a, f) == Paid(b, f)
    ensures PaidTo(keys, a) == PaidTo(keys, b)
  {
    if keys != [] {
      SamePaidTo(keys[..|keys| - 1], a, b);
    }
  }

  /** Forgers of two lists, each once. */
  function Forgers(rewards: seq<Reward>): (keys: seq<nat>)
    ensures Distinct(keys)
    ensures forall i :: 0 <= i < |rewards| ==> rewards[i].forger in keys
  {
    if rewards == [] then []
    else
      var keys, f := Forgers(rewards[..|rewards| - 1]), rewards[|rewards| - 1].forger;
      if f in keys then keys else keys + [f]
  }

  /** Any payments with the right sum per forger pay out exactly the epoch's fees. */
  lemma {:induction false} PaymentsConserveFees(blocks: seq<BlockFee>, payments: seq<Reward>)
    requires forall f :: Paid(payments, f) == Paid(Rewards(blocks), f)
    ensures TotalReward(payments) == TotalFee(blocks)
  {
    var keys := Forgers(payments + Rewards(blocks));
    var all := payments + Rewards(blocks);
    forall i | 0 <= i < |payments| ensures payments[i].forger in keys {
      assert all[i] == payments[i];
    }
    forall i | 0 <= i < |blocks| ensures Rewards(blocks)[i].forger in keys {
      assert all[|payments| + i] == Rewards(blocks)[i];
    }
    SamePaidSameTotal(keys, payments, Rewards(blocks));
    RewardsConserveFees(blocks);
  }

  // ---------------------------------------------------------------- the reference computation

  /** The pool as the sum of the rounded-up three tenths. */
  method PoolOfCeilings(blocks: seq<BlockFee>) returns (pool: nat)
    ensures pool == Pool(blocks)
  {
    pool := 0;
    for n := 0 to |blocks|
      invariant pool == Pool(blocks[..n])
    {
      assert blocks[..n + 1][..n] == blocks[..n];
      PoolPartIsCeiling(blocks[n].fee);
      pool := pool + (3 * blocks[n].fee + 9) / 10;
    }
    assert blocks[..|blocks|] == blocks;
  }

  /** A dictionary that holds what each forger has received. */
  ghost predicate Accounts(fees: map<nat, nat>, rewards: seq<Reward>) {
    && (forall f :: f in fees ==> fees[f] == Paid(rewards, f))
    && (forall f :: f !in fees ==> Paid(rewards, f) == 0)
    && (forall i :: 0 <= i < |rewards| ==> rewards[i].forger in fees)
  }

  lemma {:induction false} AccountsSnoc(fees: map<nat, nat>, rewards: seq<Reward>, r: Reward)
    requires Accounts(fees, rewards)
    ensures Accounts(fees[r.forger := (if r.forger in fees then fees[r.forger] else 0) + r.amount], rewards + [r])
  {
    forall f ensures Paid(rewards + [r], f) == Paid(rewards, f) + if r.forger == f then r.amount else 0 {
      PaidSnoc(rewards, r, f);
    }
  }

  /** Add a reward to its forger's account. */
  method Book(fees: map<nat, nat>, r: Reward, ghost rewards: seq<Reward>) returns (more: map<nat, nat>)
    requires Accounts(fees, rewards)
    ensures Accounts(more, rewards + [r])
  {
    AccountsSnoc(fees, rewards, r);
    if r.forger in fees {
      more := fees[r.forger := fees[r.forger] + r.amount];
    } else {
      more := fees[r.forger := r.amount];
    }
  }

  /** Block n's reward: the rounded-down seven tenths, the even share of the pool and the remainder. */
  method RewardOf(blocks: seq<BlockFee>, pool: nat, n: nat) returns (r: Reward)
    requires n < |blocks| && pool == Pool(blocks)
    ensures r == Rewards(blocks)[n]
  {
    r := Reward(blocks[n].forger, ForgerFee(blocks[n].fee) + PoolShare(pool, |blocks|, n));
  }

  /** The same payments computed with a dictionary, block by block. */
  method FeesByDictionary(blocks: seq<BlockFee>) returns (fees: map<nat, nat>)
    requires blocks != []
    ensures Accounts(fees, Rewards(blocks))
  {
    var pool := PoolOfCeilings(blocks);
    ghost var rewards := Rewards(blocks);
    fees := map[];
    for n := 0 to |blocks|
      invariant Accounts(fees, rewards[..n])
    {
      var r := RewardOf(blocks, pool, n);
      fees := Book(fees, r, rewards[..n]);
      assert rewards[..n + 1] == rewards[..n] + [r];
    }
    assert rewards[..|blocks|] == rewards;
  }
}
