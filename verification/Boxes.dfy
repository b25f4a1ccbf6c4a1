/**
 The set of unspent boxes of a chain: blocks spend boxes and create new ones, and coins are neither
 lost nor made on the way.
 */
module Boxes {
  import opened Collections

  type BoxId = nat

  /** A transaction spends `inputs`, creates `outputs`, sends `withdrawn` coins back to the mainchain
      and pays a fee; `rate` is its fee per byte. */
  datatype Tx = Tx(id: nat, inputs: set<BoxId>, outputs: map<BoxId, nat>, withdrawn: nat, fee: nat, size: nat,
      rate: nat)

  /** Unspent boxes with their values, and every box identifier the chain has ever used. */
  datatype Ledger = Ledger(boxes: map<BoxId, nat>, used: set<BoxId>)

  /** A block by its forger, its transactions, the boxes created by forward transfers and those created to
      pay forgers their fees. */
  datatype Block = Block(forger: nat, txs: seq<Tx>, deposits: map<BoxId, nat>, payments: map<BoxId, nat>)

  // ---------------------------------------------------------------- transactions and blocks

  /** Every input is unspent and the amounts balance. */
  ghost predicate Valid(l: Ledger, t: Tx) {
    t.inputs <= l.boxes.Keys && Total(Restrict(l.boxes, t.inputs)) == Total(t.outputs) + t.withdrawn + t.fee
  }

  function Apply(l: Ledger, t: Tx): Ledger {
    Ledger((l.boxes - t.inputs) + t.outputs, l.used + t.outputs.Keys)
  }

  function ApplyAll(l: Ledger, txs: seq<Tx>): Ledger {
    if txs == [] then l else Apply(ApplyAll(l, txs[..|txs| - 1]), txs[|txs| - 1])
  }

  function ApplyBlock(l: Ledger, b: Block): Ledger {
    var after := ApplyAll(l, b.txs);
    Ledger(after.boxes + b.deposits + b.payments, after.used + b.deposits.Keys + b.payments.Keys)
  }

  predicate GoodLedger(l: Ledger) {
    l.boxes.Keys <= l.used
  }

  /** Each transaction in turn is valid and creates boxes that never existed on this chain. */
  ghost predicate AllValid(l: Ledger, txs: seq<Tx>) {
    txs == [] ||
    var n := |txs| - 1;
    var before := ApplyAll(l, txs[..n]);
    AllValid(l, txs[..n]) && Valid(before, txs[n]) && txs[n].outputs.Keys !! before.used
  }

  ghost predicate BlockValid(l: Ledger, b: Block) {
    && AllValid(l, b.txs) && b.deposits.Keys !! ApplyAll(l, b.txs).used
    && b.payments.Keys !! ApplyAll(l, b.txs).used + b.deposits.Keys
  }

  function Fees(txs: seq<Tx>): nat {
    if txs == [] then 0 else Fees(txs[..|txs| - 1]) + txs[|txs| - 1].fee
  }

  function Withdrawn(txs: seq<Tx>): nat {
    if txs == [] then 0 else Withdrawn(txs[..|txs| - 1]) + txs[|txs| - 1].withdrawn
  }

  lemma {:induction false} ApplyConserves(l: Ledger, t: Tx)
    requires GoodLedger(l) && Valid(l, t) && t.outputs.Keys !! l.used
    ensures GoodLedger(Apply(l, t))
    ensures Total(Apply(l, t).boxes) + t.withdrawn + t.fee == Total(l.boxes)
  {
    TotalSplit(l.boxes, t.inputs);
    TotalUnion(l.boxes - t.inputs, t.outputs);
  }

  lemma {:induction false} ApplyAllConserves(l: Ledger, txs: seq<Tx>)
    requires GoodLedger(l) && AllValid(l, txs)
    ensures GoodLedger(ApplyAll(l, txs)) && l.used <= ApplyAll(l, txs).used
    ensures Total(ApplyAll(l, txs).boxes) + Withdrawn(txs) + Fees(txs) == Total(l.boxes)
  {
    if txs != [] {
      var n := |txs| - 1;
      ApplyAllConserves(l, txs[..n]);
      ApplyConserves(ApplyAll(l, txs[..n]), txs[n]);
    }
  }

  /** Coins on the chain change by transfers from and to the mainchain, fees and fee payments alone. */
  lemma {:induction false} BlockConserves(l: Ledger, b: Block)
    requires GoodLedger(l) && BlockValid(l, b)
    ensures GoodLedger(ApplyBlock(l, b)) && l.used <= ApplyBlock(l, b).used
    ensures Total(ApplyBlock(l, b).boxes) + Withdrawn(b.txs) + Fees(b.txs)
      == Total(l.boxes) + Total(b.deposits) + Total(b.payments)
  {
    ApplyAllConserves(l, b.txs);
    TotalUnion(ApplyAll(l, b.txs).boxes, b.deposits);
    TotalUnion(ApplyAll(l, b.txs).boxes + b.deposits, b.payments);
  }

  // ---------------------------------------------------------------- rows of blocks

  function ApplyBlocks(l: Ledger, blocks: seq<Block>): Ledger {
    if blocks == [] then l else ApplyBlock(ApplyBlocks(l, blocks[..|blocks| - 1]), blocks[|blocks| - 1])
  }

  ghost predicate ChainValid(l: Ledger, blocks: seq<Block>) {
    blocks == [] ||
    var n := |blocks| - 1;
    ChainValid(l, blocks[..n]) && BlockValid(ApplyBlocks(l, blocks[..n]), blocks[n])
  }

  /** The transactions of a row of blocks, in order. */
  function TxsOf(blocks: seq<Block>): seq<Tx> {
    if blocks == [] then [] else TxsOf(blocks[..|blocks| - 1]) + blocks[|blocks| - 1].txs
  }

  /** The box is known to the chain and spent. */
  predicate Spent(l: Ledger, id: BoxId) {
    id in l.used && id !in l.boxes
  }

  lemma {:induction false} SpentStays(l: Ledger, txs: seq<Tx>, id: BoxId)
    requires GoodLedger(l) && AllValid(l, txs) && Spent(l, id)
    ensures Spent(ApplyAll(l, txs), id)
  {
    if txs != [] {
      SpentStays(l, txs[..|txs| - 1], id);
    }
  }

  /** What a transaction of the row spent is spent afterwards, and nobody else in the row spent it. */
  lemma {:induction false} InputsAreSpent(l: Ledger, txs: seq<Tx>, i: nat, id: BoxId)
    requires GoodLedger(l) && AllValid(l, txs) && i < |txs| && id in txs[i].inputs
    ensures Spent(ApplyAll(l, txs), id)
    ensures forall k :: 0 <= k < |txs| && k != i ==> id !in txs[k].inputs
  {
    var n := |txs| - 1;
    ApplyAllConserves(l, txs[..n]);
    if i < n {
      InputsAreSpent(l, txs[..n], i, id);
      forall k | 0 <= k < |txs| && k != i ensures id !in txs[k].inputs {
        assert k < n ==> txs[..n][k] == txs[k];
      }
    } else {
      forall k | 0 <= k < n ensures id !in txs[k].inputs {
        if id in txs[k].inputs {
          InputsAreSpent(l, txs[..n], k, id);
        }
      }
    }
  }

  /** A spent box is nobody's input any more. */
  lemma {:induction false} SpentIsNoInput(l: Ledger, txs: seq<Tx>, id: BoxId, k: nat)
    requires GoodLedger(l) && AllValid(l, txs) && Spent(l, id) && k < |txs|
    ensures id !in txs[k].inputs
  {
    var n := |txs| - 1;
    if k < n {
      SpentIsNoInput(l, txs[..n], id, k);
    } else {
      SpentStays(l, txs[..n], id);
    }
  }

  lemma {:induction false} ChainKeepsGood(l: Ledger, blocks: seq<Block>)
    requires GoodLedger(l) && ChainValid(l, blocks)
    ensures GoodLedger(ApplyBlocks(l, blocks))
  {
    if blocks != [] {
      var n := |blocks| - 1;
      ChainKeepsGood(l, blocks[..n]);
      BlockConserves(ApplyBlocks(l, blocks[..n]), blocks[n]);
    }
  }

  lemma {:induction false} SpentStaysInBlock(l: Ledger, b: Block, id: BoxId)
    requires GoodLedger(l) && BlockValid(l, b) && Spent(ApplyAll(l, b.txs), id)
    ensures Spent(ApplyBlock(l, b), id)
  {
  }

  /** Along a chain, what a transaction spent stays spent. */
  lemma {:induction false} ChainInputsAreSpent(l: Ledger, blocks: seq<Block>, i: nat, id: BoxId)
    requires GoodLedger(l) && ChainValid(l, blocks) && i < |TxsOf(blocks)| && id in TxsOf(blocks)[i].inputs
    ensures Spent(ApplyBlocks(l, blocks), id)
  {
    var n := |blocks| - 1;
    var before, m := ApplyBlocks(l, blocks[..n]), |TxsOf(blocks[..n])|;
    ChainKeepsGood(l, blocks[..n]);
    if i < m {
      ChainInputsAreSpent(l, blocks[..n], i, id);
      SpentStays(before, blocks[n].txs, id);
    } else {
      InputsAreSpent(before, blocks[n].txs, i - m, id);
    }
    SpentStaysInBlock(before, blocks[n], id);
  }

  /** Two transactions of a chain never spend the same box. */
  lemma {:induction false} ChainInputsDisjoint(l: Ledger, blocks: seq<Block>, i: nat, k: nat, id: BoxId)
    requires GoodLedger(l) && ChainValid(l, blocks) && i < k < |TxsOf(blocks)| && id in TxsOf(blocks)[i].inputs
    ensures id !in TxsOf(blocks)[k].inputs
  {
    var n := |blocks| - 1;
    var before, m := ApplyBlocks(l, blocks[..n]), |TxsOf(blocks[..n])|;
    ChainKeepsGood(l, blocks[..n]);
    if k < m {
      ChainInputsDisjoint(l, blocks[..n], i, k, id);
    } else if i < m {
      ChainInputsAreSpent(l, blocks[..n], i, id);
      SpentIsNoInput(before, blocks[n].txs, id, k - m);
    } else {
      InputsAreSpent(before, blocks[n].txs, i - m, id);
    }
  }

  // ---------------------------------------------------------------- which boxes are unspent

  predicate OutputOf(txs: seq<Tx>, id: BoxId) {
    exists i :: 0 <= i < |txs| && id in txs[i].outputs
  }

  predicate InputOf(txs: seq<Tx>, id: BoxId) {
    exists i :: 0 <= i < |txs| && id in txs[i].inputs
  }

  lemma {:induction false} PartsSnoc(txs: seq<Tx>, id: BoxId)
    requires txs != []
    ensures OutputOf(txs, id) <==> OutputOf(txs[..|txs| - 1], id) || id in txs[|txs| - 1].outputs
    ensures InputOf(txs, id) <==> InputOf(txs[..|txs| - 1], id) || id in txs[|txs| - 1].inputs
  {
    var n := |txs| - 1;
    if i :| 0 <= i < |txs| && id in txs[i].outputs {
      assert i < n ==> txs[..n][i] == txs[i];
    }
    if i :| 0 <= i < |txs| && id in txs[i].inputs {
      assert i < n ==> txs[..n][i] == txs[i];
    }
  }

  /** After a row of valid transactions a box is unspent if and only if it was before or one of them made it,
      and none of them spent it. */
  lemma {:induction false} UnspentAfterTxs(l: Ledger, txs: seq<Tx>, id: BoxId)
    requires GoodLedger(l) && AllValid(l, txs)
    ensures id in ApplyAll(l, txs).boxes <==> (id in l.boxes || OutputOf(txs, id)) && !InputOf(txs, id)
  {
    if txs != [] {
      var n := |txs| - 1;
      ApplyAllConserves(l, txs[..n]);
      UnspentAfterTxs(l, txs[..n], id);
      PartsSnoc(txs, id);
      if i :| 0 <= i < |txs[..n]| && id in txs[..n][i].inputs {
        InputsAreSpent(l, txs[..n], i, id);
      }
    }
  }

  /** A block of the row makes the box: as an output, by a forward transfer or as a fee payment. */
  predicate MadeBy(blocks: seq<Block>, id: BoxId) {
    exists i :: 0 <= i < |blocks| && Makes(blocks[i], id)
  }

  predicate Makes(b: Block, id: BoxId) {
    OutputOf(b.txs, id) || id in b.deposits || id in b.payments
  }

  predicate SpentBy(blocks: seq<Block>, id: BoxId) {
    exists i :: 0 <= i < |blocks| && InputOf(blocks[i].txs, id)
  }

  lemma {:induction false} BlocksSnoc(blocks: seq<Block>, id: BoxId)
    requires blocks != []
    ensures MadeBy(blocks, id) <==> MadeBy(blocks[..|blocks| - 1], id) || Makes(blocks[|blocks| - 1], id)
    ensures SpentBy(blocks, id) <==> SpentBy(blocks[..|blocks| - 1], id) || InputOf(blocks[|blocks| - 1].txs, id)
  {
    var n := |blocks| - 1;
    if i :| 0 <= i < |blocks| && Makes(blocks[i], id) {
      assert i < n ==> blocks[..n][i] == blocks[i];
    }
    if i :| 0 <= i < |blocks| && InputOf(blocks[i].txs, id) {
      assert i < n ==> blocks[..n][i] == blocks[i];
    }
  }

  /** What a block spends is known before the block ends and not unspent after it. */
  lemma {:induction false} SpentInBlock(l: Ledger, b: Block, id: BoxId)
    requires GoodLedger(l) && BlockValid(l, b) && InputOf(b.txs, id)
    ensures Spent(ApplyBlock(l, b), id)
  {
    var i :| 0 <= i < |b.txs| && id in b.txs[i].inputs;
    InputsAreSpent(l, b.txs, i, id);
    SpentStaysInBlock(l, b, id);
  }

  lemma {:induction false} UnspentAfterBlock(l: Ledger, b: Block, id: BoxId)
    requires GoodLedger(l) && BlockValid(l, b)
    ensures id in ApplyBlock(l, b).boxes <==> (id in l.boxes || Makes(b, id)) && !InputOf(b.txs, id)
  {
    UnspentAfterTxs(l, b.txs, id);
    if InputOf(b.txs, id) {
      SpentInBlock(l, b, id);
    }
  }

  lemma {:induction false} SpentByIsSpent(l: Ledger, blocks: seq<Block>, id: BoxId)
    requires GoodLedger(l) && ChainValid(l, blocks) && SpentBy(blocks, id)
    ensures Spent(ApplyBlocks(l, blocks), id)
  {
    var n := |blocks| - 1;
    var before := ApplyBlocks(l, blocks[..n]);
    BlocksSnoc(blocks, id);
    ChainKeepsGood(l, blocks[..n]);
    if InputOf(blocks[n].txs, id) {
      SpentInBlock(before, blocks[n], id);
    } else {
      SpentByIsSpent(l, blocks[..n], id);
      SpentStays(before, blocks[n].txs, id);
      SpentStaysInBlock(before, blocks[n], id);
    }
  }

  /** Along a valid chain a box is unspent if and only if it was there at first or some block made it, and no
      transaction spent it. */
  lemma {:induction false} UnspentIff(l: Ledger, blocks: seq<Block>, id: BoxId)
    requires GoodLedger(l) && ChainValid(l, blocks)
    ensures id in ApplyBlocks(l, blocks).boxes <==> (id in l.boxes || MadeBy(blocks, id)) && !SpentBy(blocks, id)
  {
    if SpentBy(blocks, id) {
      SpentByIsSpent(l, blocks, id);
    } else if blocks != [] {
      var n := |blocks| - 1;
      BlocksSnoc(blocks, id);
      ChainKeepsGood(l, blocks[..n]);
      UnspentIff(l, blocks[..n], id);
      UnspentAfterBlock(ApplyBlocks(l, blocks[..n]), blocks[n], id);
    }
  }
}
