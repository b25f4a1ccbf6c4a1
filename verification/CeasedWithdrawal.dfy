/**
 What can be claimed on the mainchain after a sidechain has ceased: the unspent boxes at the end of the
 last epoch with an active certificate, and every forward transfer after it.
 */
module CeasedWithdrawal {
  import opened Boxes
  import opened Collections
  import FeePayments

  /** Boxes created by the forward transfers of a row of blocks. */
  function Deposits(blocks: seq<Block>): map<BoxId, nat> {
    if blocks == [] then map[] else Deposits(blocks[..|blocks| - 1]) + blocks[|blocks| - 1].deposits
  }

  function BlocksOf(epochs: seq<seq<Block>>): seq<Block> {
    if epochs == [] then [] else BlocksOf(epochs[..|epochs| - 1]) + epochs[|epochs| - 1]
  }

  /** Boxes unspent at the end of epoch e; `base` holds the boxes of the sidechain's creation. */
  function Snapshot(base: Ledger, epochs: seq<seq<Block>>, e: nat): map<BoxId, nat>
    requires e < |epochs|
  {
    ApplyBlocks(base, BlocksOf(epochs[..e + 1])).boxes
  }

  /** The unspent boxes of the last active certificate's epoch; `epochs` ends with the epoch in which
      the sidechain ceased. */
  function UtxoPart(base: Ledger, epochs: seq<seq<Block>>): map<BoxId, nat> {
    if |epochs| >= 4 then Snapshot(base, epochs, |epochs| - 4) else map[]
  }

  /** Forward transfers of the epoch in which the sidechain ceased and of the two before it. */
  function TransferPart(epochs: seq<seq<Block>>): map<BoxId, nat> {
    Deposits(BlocksOf(if |epochs| >= 4 then epochs[|epochs| - 3..] else epochs))
  }

  function Claimable(base: Ledger, epochs: seq<seq<Block>>): map<BoxId, nat> {
    UtxoPart(base, epochs) + TransferPart(epochs)
  }

  // ---------------------------------------------------------------- the two parts are disjoint

  lemma {:induction false} BlocksOfConcat(a: seq<seq<Block>>, b: seq<seq<Block>>)
    ensures BlocksOf(a + b) == BlocksOf(a) + BlocksOf(b)
  {
    if b == [] {
      assert a + b == a;
    } else {
      assert (a + b)[..|a + b| - 1] == a + b[..|b| - 1];
      BlocksOfConcat(a, b[..|b| - 1]);
    }
  }

  lemma {:induction false} BlockDepositsAreNew(l: Ledger, b: Block)
    requires GoodLedger(l) && BlockValid(l, b)
    ensures l.used <= ApplyBlock(l, b).used
    ensures b.deposits.Keys <= ApplyBlock(l, b).used && b.deposits.Keys !! l.used
  {
    ApplyAllConserves(l, b.txs);
  }

  lemma {:induction false} LastBlock(base: Ledger, a: seq<Block>, b: seq<Block>)
    requires GoodLedger(base) && ChainValid(base, a + b) && b != []
    ensures var before := a + b[..|b| - 1];
      && ChainValid(base, before) && GoodLedger(ApplyBlocks(base, before))
      && BlockValid(ApplyBlocks(base, before), b[|b| - 1])
      && ApplyBlocks(base, a + b) == ApplyBlock(ApplyBlocks(base, before), b[|b| - 1])
  {
    assert (a + b)[..|a + b| - 1] == a + b[..|b| - 1];
    ChainKeepsGood(base, a + b[..|b| - 1]);
  }

  /** Identifiers once used stay used, and new deposits use new ones. */
  lemma {:induction false} LaterDepositsAreNew(base: Ledger, a: seq<Block>, b: seq<Block>)
    requires GoodLedger(base) && ChainValid(base, a + b)
    ensures ChainValid(base, a)
    ensures ApplyBlocks(base, a).used <= ApplyBlocks(base, a + b).used
    ensures Deposits(b).Keys <= ApplyBlocks(base, a + b).used
    ensures Deposits(b).Keys !! ApplyBlocks(base, a).used
  {
    if b == [] {
      assert a + b == a;
    } else {
      var n := |b| - 1;
      LastBlock(base, a, b);
      LaterDepositsAreNew(base, a, b[..n]);
      BlockDepositsAreNew(ApplyBlocks(base, a + b[..n]), b[n]);
    }
  }

  /** Blocks up to the snapshot, and those after it. */
  lemma {:induction false} SplitAtSnapshot(epochs: seq<seq<Block>>)
    requires |epochs| >= 4
    ensures BlocksOf(epochs) == BlocksOf(epochs[..|epochs| - 3]) + BlocksOf(epochs[|epochs| - 3..])
  {
    BlocksOfConcat(epochs[..|epochs| - 3], epochs[|epochs| - 3..]);
    assert epochs == epochs[..|epochs| - 3] + epochs[|epochs| - 3..];
  }

  lemma {:induction false} PartsAreDisjoint(base: Ledger, epochs: seq<seq<Block>>)
    requires GoodLedger(base) && ChainValid(base, BlocksOf(epochs))
    ensures UtxoPart(base, epochs).Keys !! TransferPart(epochs).Keys
  {
    if |epochs| >= 4 {
      var a := BlocksOf(epochs[..|epochs| - 3]);
      SplitAtSnapshot(epochs);
      LaterDepositsAreNew(base, a, BlocksOf(epochs[|epochs| - 3..]));
      ChainKeepsGood(base, a);
    }
  }

  // ---------------------------------------------------------------- which boxes can be claimed

  predicate DepositedIn(blocks: seq<Block>, id: BoxId) {
    exists i :: 0 <= i < |blocks| && id in blocks[i].deposits
  }

  lemma {:induction false} DepositsIff(blocks: seq<Block>, id: BoxId)
    ensures id in Deposits(blocks) <==> DepositedIn(blocks, id)
  {
    if blocks != [] {
      var n := |blocks| - 1;
      DepositsIff(blocks[..n], id);
      if i :| 0 <= i < |blocks| && id in blocks[i].deposits {
        assert i < n ==> blocks[..n][i] == blocks[i];
      }
    }
  }

  /** A box can be claimed if and only if a forward transfer of the last three epochs made it, or it existed at
      the end of the epoch before those and was not spent by then; without an active certificate forward
      transfers alone count, of all epochs. */
  lemma {:induction false} ClaimableIff(base: Ledger, epochs: seq<seq<Block>>, id: BoxId)
    requires GoodLedger(base) && ChainValid(base, BlocksOf(epochs))
    ensures |epochs| < 4 ==> (id in Claimable(base, epochs) <==> DepositedIn(BlocksOf(epochs), id))
    ensures |epochs| >= 4 ==>
      var a, b := BlocksOf(epochs[..|epochs| - 3]), BlocksOf(epochs[|epochs| - 3..]);
      id in Claimable(base, epochs) <==>
        DepositedIn(b, id) || ((id in base.boxes || MadeBy(a, id)) && !SpentBy(a, id))
  {
    if |epochs| < 4 {
      DepositsIff(BlocksOf(epochs), id);
    } else {
      var a, b := BlocksOf(epochs[..|epochs| - 3]), BlocksOf(epochs[|epochs| - 3..]);
      SplitAtSnapshot(epochs);
      LaterDepositsAreNew(base, a, b);
      DepositsIff(b, id);
      UnspentIff(base, a, id);
    }
  }

  // ---------------------------------------------------------------- how much can be claimed

  ghost function DepositTotal(blocks: seq<Block>): nat {
    if blocks == [] then 0 else DepositTotal(blocks[..|blocks| - 1]) + Total(blocks[|blocks| - 1].deposits)
  }

  ghost function PaymentTotal(blocks: seq<Block>): nat {
    if blocks == [] then 0 else PaymentTotal(blocks[..|blocks| - 1]) + Total(blocks[|blocks| - 1].payments)
  }

  function FeeTotal(blocks: seq<Block>): nat {
    if blocks == [] then 0 else FeeTotal(blocks[..|blocks| - 1]) + Fees(blocks[|blocks| - 1].txs)
  }

  function WithdrawnTotal(blocks: seq<Block>): nat {
    if blocks == [] then 0 else WithdrawnTotal(blocks[..|blocks| - 1]) + Withdrawn(blocks[|blocks| - 1].txs)
  }

  lemma {:induction false} ChainConserves(base: Ledger, blocks: seq<Block>)
    requires GoodLedger(base) && ChainValid(base, blocks)
    ensures Total(ApplyBlocks(base, blocks).boxes) + WithdrawnTotal(blocks) + FeeTotal(blocks)
         == Total(base.boxes) + DepositTotal(blocks) + PaymentTotal(blocks)
  {
    if blocks != [] {
      var n := |blocks| - 1;
      ChainConserves(base, blocks[..n]);
      ChainKeepsGood(base, blocks[..n]);
      BlockConserves(ApplyBlocks(base, blocks[..n]), blocks[n]);
    }
  }

  /** The deposits after a prefix are all different, so their total is the sum over blocks. */
  lemma {:induction false} DepositsSum(base: Ledger, a: seq<Block>, b: seq<Block>)
    requires GoodLedger(base) && ChainValid(base, a + b)
    ensures Total(Deposits(b)) == DepositTotal(b)
  {
    if b != [] {
      var n := |b| - 1;
      LastBlock(base, a, b);
      LaterDepositsAreNew(base, a, b[..n]);
      BlockDepositsAreNew(ApplyBlocks(base, a + b[..n]), b[n]);
      DepositsSum(base, a, b[..n]);
      TotalUnion(Deposits(b[..n]), b[n].deposits);
    }
  }

  lemma {:induction false} DepositTotalConcat(a: seq<Block>, b: seq<Block>)
    ensures DepositTotal(a + b) == DepositTotal(a) + DepositTotal(b)
  {
    if b == [] {
      assert a + b == a;
    } else {
      assert (a + b)[..|a + b| - 1] == a + b[..|b| - 1];
      DepositTotalConcat(a, b[..|b| - 1]);
    }
  }

  // ---------------------------------------------------------------- fees of finished epochs

  /** Fees of an epoch, block by block. */
  function FeesOf(epoch: seq<Block>): (fees: seq<FeePayments.BlockFee>)
    ensures |fees| == |epoch|
  {
    seq(|epoch|, i requires 0 <= i < |epoch| => FeePayments.BlockFee(epoch[i].forger, Fees(epoch[i].txs)))
  }

  lemma {:induction false} FeesOfTotal(epoch: seq<Block>)
    ensures FeePayments.TotalFee(FeesOf(epoch)) == FeeTotal(epoch)
  {
    if epoch != [] {
      var n := |epoch| - 1;
      FeesOfTotal(epoch[..n]);
      assert FeesOf(epoch)[..n] == FeesOf(epoch[..n]);
    }
  }

  /** Boxes with the given identifiers for a list of payments. */
  function PaymentBoxes(ids: seq<BoxId>, payments: seq<FeePayments.Reward>): map<BoxId, nat>
    requires |ids| == |payments|
  {
    if ids == [] then map[]
    else
      var n := |ids| - 1;
      PaymentBoxes(ids[..n], payments[..n])[ids[n] := payments[n].amount]
  }

  lemma {:induction false} PaymentBoxesTotal(ids: seq<BoxId>, payments: seq<FeePayments.Reward>)
    requires |ids| == |payments| && Distinct(ids)
    ensures PaymentBoxes(ids, payments).Keys == SetOf(ids)
    ensures Total(PaymentBoxes(ids, payments)) == FeePayments.TotalReward(payments)
  {
    if ids != [] {
      var n := |ids| - 1;
      PaymentBoxesTotal(ids[..n], payments[..n]);
      assert ids == ids[..n] + [ids[n]];
      assert ids[n] !in SetOf(ids[..n]);
      TotalAdd(PaymentBoxes(ids[..n], payments[..n]), ids[n], payments[n].amount);
    }
  }

  /** The boxes pay every forger what the epoch's blocks earned it. */
  ghost predicate PayFees(boxes: map<BoxId, nat>, epoch: seq<Block>) {
    exists ids: seq<BoxId>, payments: seq<FeePayments.Reward> ::
      && |ids| == |payments| && Distinct(ids) && boxes == PaymentBoxes(ids, payments)
      && forall f :: FeePayments.Paid(payments, f) == FeePayments.Paid(FeePayments.Rewards(FeesOf(epoch)), f)
  }

  /** The last block of a finished epoch, and no other, pays the epoch's fees. */
  ghost predicate Settled(epoch: seq<Block>) {
    epoch != [] ==>
      && (forall i :: 0 <= i < |epoch| - 1 ==> epoch[i].payments == map[])
      && PayFees(epoch[|epoch| - 1].payments, epoch)
  }

  lemma {:induction false} PayFeesTotal(boxes: map<BoxId, nat>, epoch: seq<Block>)
    requires PayFees(boxes, epoch)
    ensures Total(boxes) == FeeTotal(epoch)
  {
    var ids: seq<BoxId>, payments: seq<FeePayments.Reward> :|
      && |ids| == |payments| && Distinct(ids) && boxes == PaymentBoxes(ids, payments)
      && forall f :: FeePayments.Paid(payments, f) == FeePayments.Paid(FeePayments.Rewards(FeesOf(epoch)), f);
    PaymentBoxesTotal(ids, payments);
    FeePayments.PaymentsConserveFees(FeesOf(epoch), payments);
    FeesOfTotal(epoch);
  }

  lemma {:induction false} NoPayments(blocks: seq<Block>)
    requires forall i :: 0 <= i < |blocks| ==> blocks[i].payments == map[]
    ensures PaymentTotal(blocks) == 0
  {
    if blocks != [] {
      NoPayments(blocks[..|blocks| - 1]);
    }
  }

  /** In a finished epoch payments equal fees. */
  lemma {:induction false} SettledConserves(epoch: seq<Block>)
    requires Settled(epoch)
    ensures PaymentTotal(epoch) == FeeTotal(epoch)
  {
    if epoch != [] {
      NoPayments(epoch[..|epoch| - 1]);
      PayFeesTotal(epoch[|epoch| - 1].payments, epoch);
    }
  }

  lemma {:induction false} FeeTotalConcat(a: seq<Block>, b: seq<Block>)
    ensures FeeTotal(a + b) == FeeTotal(a) + FeeTotal(b) && PaymentTotal(a + b) == PaymentTotal(a) + PaymentTotal(b)
  {
    if b == [] {
      assert a + b == a;
    } else {
      assert (a + b)[..|a + b| - 1] == a + b[..|b| - 1];
      FeeTotalConcat(a, b[..|b| - 1]);
    }
  }

  lemma {:induction false} FinishedEpochsConserve(epochs: seq<seq<Block>>)
    requires forall i :: 0 <= i < |epochs| ==> Settled(epochs[i])
    ensures PaymentTotal(BlocksOf(epochs)) == FeeTotal(BlocksOf(epochs))
  {
    if epochs != [] {
      var n := |epochs| - 1;
      FinishedEpochsConserve(epochs[..n]);
      SettledConserves(epochs[n]);
      FeeTotalConcat(BlocksOf(epochs[..n]), epochs[n]);
    }
  }

  /** A chain of epochs of which all but the last three, at least, are finished. */
  ghost predicate GoodHistory(base: Ledger, epochs: seq<seq<Block>>) {
    && GoodLedger(base) && ChainValid(base, BlocksOf(epochs))
    && forall i :: 0 <= i < |epochs| - 3 ==> Settled(epochs[i])
  }

  /** What can be claimed is exactly what came in minus what was withdrawn up to the snapshot. */
  lemma {:induction false} ClaimableTotal(base: Ledger, epochs: seq<seq<Block>>)
    requires GoodHistory(base, epochs) && |epochs| >= 4
    ensures Total(Claimable(base, epochs)) + WithdrawnTotal(BlocksOf(epochs[..|epochs| - 3]))
         == Total(base.boxes) + DepositTotal(BlocksOf(epochs))
  {
    var a, b := BlocksOf(epochs[..|epochs| - 3]), BlocksOf(epochs[|epochs| - 3..]);
    SplitAtSnapshot(epochs);
    PartsAreDisjoint(base, epochs);
    TotalUnion(UtxoPart(base, epochs), TransferPart(epochs));
    LaterDepositsAreNew(base, a, b);
    ChainConserves(base, a);
    FinishedEpochsConserve(epochs[..|epochs| - 3]);
    DepositsSum(base, a, b);
    DepositTotalConcat(a, b);
  }

  /** Without any active certificate only forward transfers can be claimed, all of them. */
  lemma {:induction false} ClaimableWithoutCertificate(base: Ledger, epochs: seq<seq<Block>>)
    requires GoodLedger(base) && ChainValid(base, BlocksOf(epochs)) && |epochs| < 4
    ensures Total(Claimable(base, epochs)) == DepositTotal(BlocksOf(epochs))
  {
    assert map[] + TransferPart(epochs) == TransferPart(epochs);
    assert [] + BlocksOf(epochs) == BlocksOf(epochs);
    DepositsSum(base, [], BlocksOf(epochs));
  }

  // ---------------------------------------------------------------- claims

  /** The mainchain pays a claim once: the box's nullifier must not have been used. */
  datatype Payout = Payout(nullifiers: set<BoxId>, paid: nat)

  function Claim(claimable: map<BoxId, nat>, p: Payout, box: BoxId): Payout {
    if box in claimable && box !in p.nullifiers then
      Payout(p.nullifiers + {box}, p.paid + claimable[box])
    else p
  }

  function Claims(claimable: map<BoxId, nat>, boxes: seq<BoxId>): Payout {
    if boxes == [] then Payout({}, 0)
    else Claim(claimable, Claims(claimable, boxes[..|boxes| - 1]), boxes[|boxes| - 1])
  }

  /** Whatever is claimed, and however often, each claimable box is paid at most once. */
  lemma {:induction false} PaidOnce(claimable: map<BoxId, nat>, boxes: seq<BoxId>)
    ensures var p := Claims(claimable, boxes);
      p.nullifiers <= claimable.Keys && p.paid == Total(Restrict(claimable, p.nullifiers)) <= Total(claimable)
    ensures forall b :: b in boxes && b in claimable ==> b in Claims(claimable, boxes).nullifiers
  {
    if boxes == [] {
      assert Restrict(claimable, {}) == map[];
    } else {
      var n := |boxes| - 1;
      var p, b := Claims(claimable, boxes[..n]), boxes[n];
      PaidOnce(claimable, boxes[..n]);
      if b in claimable && b !in p.nullifiers {
        TotalAdd(Restrict(claimable, p.nullifiers), b, claimable[b]);
        assert Restrict(claimable, p.nullifiers)[b := claimable[b]] == Restrict(claimable, p.nullifiers + {b});
      }
    }
    TotalSplit(claimable, Claims(claimable, boxes).nullifiers);
  }

  /** For every row of claims the payout never exceeds the coins that came in minus those withdrawn up to
      the snapshot; without an active certificate it never exceeds the forward transfers. */
  lemma {:induction false} PayoutIsBounded(base: Ledger, epochs: seq<seq<Block>>, boxes: seq<BoxId>)
    requires GoodHistory(base, epochs)
    ensures |epochs| >= 4 ==>
      Claims(Claimable(base, epochs), boxes).paid + WithdrawnTotal(BlocksOf(epochs[..|epochs| - 3]))
        <= Total(base.boxes) + DepositTotal(BlocksOf(epochs))
    ensures |epochs| < 4 ==> Claims(Claimable(base, epochs), boxes).paid <= DepositTotal(BlocksOf(epochs))
  {
    PaidOnce(Claimable(base, epochs), boxes);
    if |epochs| >= 4 {
      ClaimableTotal(base, epochs);
    } else {
      ClaimableWithoutCertificate(base, epochs);
    }
  }
}
