/** The currency: unspent outputs, what a block changes in them, and when a
    block is acceptable (src/utxo.rs, src/tx.rs, src/validate.rs). */
module Ledger {
  import opened Prelude
  import opened Sums
  import Emission

  /** A 32-byte hash, as a number. */
  type Id = nat

  datatype OutPoint = OutPoint(txid: Id, index: nat)

  /** Money, and who may spend it. */
  datatype Output = Output(value: nat, lock: Id)

  /** A coinbase carries free data, the block height first; an ordinary
      transaction carries the witness (`unlock`) that its id ignores. */
  datatype Tx =
    | Coinbase(data: seq<nat>, outputs: seq<Output>)
    | Spend(inputs: seq<OutPoint>, outputs: seq<Output>, unlock: seq<nat>)

  datatype Header = Header(prev: Id, merkleRoot: Id, unclesRoot: Id, miner: Id,
                           time: nat, bits: nat, height: nat, nonce: nat)

  datatype Block = Block(header: Header, txs: seq<Tx>, uncles: seq<Header>)

  datatype Entry = Entry(output: Output, height: nat, coinbase: bool)

  type Utxo = map<OutPoint, Entry>

  /** What a block consumed and created (`UndoRecord`). */
  datatype Undo = Undo(spent: seq<(OutPoint, Entry)>, created: seq<OutPoint>)

  const NOTHING_UNDONE := Undo([], [])

  /** What a transaction inside a block sees: the set before the block, with the
      effects of the transactions in front of it (`BlockView`). */
  datatype View = View(confirmed: Utxo, created: Utxo, spent: set<OutPoint>)

  /** Unspent outputs and the emission counter. */
  datatype State = State(utxo: Utxo, issued: nat)

  datatype ValidationError =
    | BlockTooLarge | BadHeight | BadParent | BadDifficulty
    | TimestampTooOld | TimestampNotAfterParent | NotTheAnchor | TimestampInFuture
    | ProofOfWork | Structure
    | TxRules | MissingInput | DoubleSpend | CoinbaseImmature | ValueNotConserved | FeeOverflow
    | TooManyUncles | CoinbaseRules | CoinbaseWithoutHeight | CoinbaseDoesNotPayMiner
    | ExcessiveSubsidy | CapExceeded | IncompleteHistory

  const MAX_BLOCK_SIZE: nat := 4 * 1024 * 1024
  const COINBASE_MATURITY: nat := 200
  const MAX_FUTURE_TIME: nat := 600
  const MEDIAN_TIME_SPAN: nat := 11
  const LWMA_WINDOW: nat := 90
  const INITIAL_BITS: nat := 0x2000_ffff

  /** The first eight bytes of the genesis message, read as a coinbase height
      marker.  Below it no block can repeat the genesis coinbase. */
  const HEIGHT_LIMIT: nat := 0x6f20_2d2d_2031_3251

  /** What this model leaves abstract: hashes, proof of work, the difficulty and
      median formulas, signatures and scripts. */
  datatype Rules = Rules(
    genesis: Block,
    blockId: Header -> Id,
    txid: Tx -> Id,
    merkle: seq<Tx> -> Id,
    unclesRoot: seq<Header> -> Id,
    size: Block -> nat,
    powOk: Header -> bool,
    regtest: bool,
    nextBits: seq<Header> -> nat,
    work: nat -> nat,
    median: seq<nat> -> nat,
    strictFrom: nat,
    anchors: map<nat, Id>,
    lastAnchor: nat,
    txOk: (Tx, View, nat) -> bool,
    coinbaseOk: (Block, nat) -> bool,
    preimage: Preimages)

  /** Hashing without collisions, written as what each hash was made from. */
  datatype Preimages = Preimages(
    header: Id -> Header,
    core: Id -> Tx,
    txs: Id -> seq<Tx>,
    uncles: Id -> seq<Header>)

  // ------------------------------------------------------------------
  // Collision-free hashing
  // ------------------------------------------------------------------

  /** What a transaction id commits to: everything but the witness of an
      ordinary transaction. */
  function Core(t: Tx): Tx {
    if t.Spend? then Spend(t.inputs, t.outputs, []) else t
  }

  ghost predicate TxidOk(r: Rules) {
    forall t :: r.preimage.core(r.txid(t)) == Core(t)
  }

  ghost predicate BlockIdOk(r: Rules) {
    forall h :: r.preimage.header(r.blockId(h)) == h
  }

  ghost predicate RootsOk(r: Rules) {
    && (forall txs :: r.preimage.txs(r.merkle(txs)) == txs)
    && (forall hs :: r.preimage.uncles(r.unclesRoot(hs)) == hs)
  }

  /** Structural checks, without the set of unspent outputs (`check_shape`). */
  predicate ShapeOk(r: Rules, b: Block) {
    && |b.txs| > 0
    && b.txs[0].Coinbase?
    && (forall i | 1 <= i < |b.txs| :: b.txs[i].Spend?)
    && (forall t | t in b.txs :: t.outputs != [] && OutputSum(t.outputs) <= Emission.MAX_SUPPLY)
    && (forall t | t in b.txs && t.Spend? :: t.inputs != [])
    && r.merkle(b.txs) == b.header.merkleRoot
    && r.unclesRoot(b.uncles) == b.header.unclesRoot
  }

  /** The genesis block creates the one preminted coin. */
  ghost predicate GenesisOk(r: Rules) {
    && r.genesis.header.height == 0
    && (forall h :: r.blockId(h) != r.genesis.header.prev)
    && ShapeOk(r, r.genesis)
    && |r.genesis.txs| == 1
    && (forall h | 1 <= h < HEIGHT_LIMIT :: !HasMarker(r.genesis.txs[0], h))
    && OutputSum(r.genesis.txs[0].outputs) == Emission.GENESIS_PREMINT
  }

  ghost predicate RulesOk(r: Rules) {
    TxidOk(r) && BlockIdOk(r) && RootsOk(r) && GenesisOk(r)
  }

  /** Little-endian value of a byte string. */
  function LeValue(bytes: seq<nat>): nat {
    if bytes == [] then 0 else bytes[0] + 256 * LeValue(bytes[1..])
  }

  /** The coinbase commits to this height in its first eight bytes. */
  predicate HasMarker(t: Tx, height: nat) {
    t.Coinbase? && |t.data| >= 8 && LeValue(t.data[..8]) == height
  }

  // ------------------------------------------------------------------
  // Applying and undoing
  // ------------------------------------------------------------------

  function OutputSum(outputs: seq<Output>): nat {
    if outputs == [] then 0 else outputs[0].value + OutputSum(outputs[1..])
  }

  function SpendAll(u: Utxo, inputs: seq<OutPoint>): Utxo {
    if inputs == [] then u else SpendAll(u - {inputs[0]}, inputs[1..])
  }

  /** The consumed outputs, with what they were. */
  function SpentBy(u: Utxo, inputs: seq<OutPoint>): seq<(OutPoint, Entry)> {
    if inputs == [] then []
    else
      (if inputs[0] in u then [(inputs[0], u[inputs[0]])] else [])
      + SpentBy(u - {inputs[0]}, inputs[1..])
  }

  function Outputs(txid: Id, outputs: seq<Output>, height: nat, coinbase: bool): Utxo {
    map i: nat | i < |outputs| :: OutPoint(txid, i) := Entry(outputs[i], height, coinbase)
  }

  function OutputPoints(txid: Id, n: nat): seq<OutPoint> {
    seq(n, (i: nat) => OutPoint(txid, i))
  }

  function Created(r: Rules, tx: Tx, height: nat): Utxo {
    Outputs(r.txid(tx), tx.outputs, height, tx.Coinbase?)
  }

  function Inputs(tx: Tx): seq<OutPoint> {
    if tx.Spend? then tx.inputs else []
  }

  /** Consumes the inputs, creates the outputs (`apply_transaction`). */
  function ApplyTx(r: Rules, u: Utxo, tx: Tx, height: nat): Utxo {
    SpendAll(u, Inputs(tx)) + Created(r, tx, height)
  }

  function RecordTx(r: Rules, u: Utxo, tx: Tx, undo: Undo): Undo {
    Undo(undo.spent + SpentBy(u, Inputs(tx)),
         undo.created + OutputPoints(r.txid(tx), |tx.outputs|))
  }

  function ApplyTxs(r: Rules, u: Utxo, txs: seq<Tx>, height: nat): Utxo
    decreases txs
  {
    if txs == [] then u else ApplyTxs(r, ApplyTx(r, u, txs[0], height), txs[1..], height)
  }

  function RecordTxs(r: Rules, u: Utxo, txs: seq<Tx>, height: nat, undo: Undo): Undo
    decreases txs
  {
    if txs == [] then undo
    else RecordTxs(r, ApplyTx(r, u, txs[0], height), txs[1..], height, RecordTx(r, u, txs[0], undo))
  }

  /** Reinserts what was consumed, unless the block had also created it. */
  function Restore(u: Utxo, spent: seq<(OutPoint, Entry)>, created: set<OutPoint>): Utxo
    decreases spent
  {
    if spent == [] then u
    else if spent[0].0 in created then Restore(u, spent[1..], created)
    else Restore(u[spent[0].0 := spent[0].1], spent[1..], created)
  }

  /** Undoes a block (`UtxoSet::undo`). */
  function UndoBlock(u: Utxo, undo: Undo): Utxo {
    Restore(u - ToSet(undo.created), undo.spent, ToSet(undo.created))
  }

  // ------------------------------------------------------------------
  // Undoing inverts applying
  // ------------------------------------------------------------------

  /** `undo` accounts for every difference between `u0` and `u`. */
  ghost predicate Tracks(u0: Utxo, u: Utxo, undo: Undo) {
    && (forall o | o in undo.created :: o !in u0)
    && (forall o | o in u :: o in undo.created || (o in u0 && u[o] == u0[o]))
    && (forall o | o in u0 :: o in u || (o, u0[o]) in undo.spent)
    && (forall p | p in undo.spent :: p.0 in undo.created || (p.0 in u0 && u0[p.0] == p.1))
  }

  lemma {:induction false} SpendAllIs(u: Utxo, inputs: seq<OutPoint>)
    ensures SpendAll(u, inputs) == u - ToSet(inputs)
  {
    if inputs != [] {
      SpendAllIs(u - {inputs[0]}, inputs[1..]);
      assert ToSet(inputs) == {inputs[0]} + ToSet(inputs[1..]);
    } else {
      assert u - ToSet(inputs) == u;
    }
  }

  lemma {:induction false} SpentByIs(u: Utxo, inputs: seq<OutPoint>)
    ensures forall p | p in SpentBy(u, inputs) :: p.0 in u && u[p.0] == p.1 && p.0 in inputs
    ensures forall o | o in inputs && o in u :: (o, u[o]) in SpentBy(u, inputs)
  {
    if inputs != [] {
      var rest := SpentBy(u - {inputs[0]}, inputs[1..]);
      SpentByIs(u - {inputs[0]}, inputs[1..]);
      forall o | o in inputs && o in u
        ensures (o, u[o]) in SpentBy(u, inputs)
      {
        if o != inputs[0] {
          assert o in inputs[1..] && o in u - {inputs[0]};
          assert (o, (u - {inputs[0]})[o]) in rest;
        }
      }
    }
  }

  lemma CreatedIs(r: Rules, tx: Tx, height: nat)
    ensures forall o :: o in Created(r, tx, height) <==> o.txid == r.txid(tx) && o.index < |tx.outputs|
    ensures forall o :: o in OutputPoints(r.txid(tx), |tx.outputs|) <==> o in Created(r, tx, height)
  {
    var points := OutputPoints(r.txid(tx), |tx.outputs|);
    forall o
      ensures o in points <==> o.txid == r.txid(tx) && o.index < |tx.outputs|
      ensures o in Created(r, tx, height) <==> o.txid == r.txid(tx) && o.index < |tx.outputs|
    {
      if o.txid == r.txid(tx) && o.index < |tx.outputs| {
        assert points[o.index] == o;
      }
    }
  }

  lemma TracksStep(r: Rules, u0: Utxo, u: Utxo, undo: Undo, tx: Tx, height: nat)
    requires Tracks(u0, u, undo)
    requires forall o | o in Created(r, tx, height) :: o !in u0
    ensures Tracks(u0, ApplyTx(r, u, tx, height), RecordTx(r, u, tx, undo))
  {
    hide Created, SpendAll, SpentBy, OutputPoints;
    SpendAllIs(u, Inputs(tx));
    SpentByIs(u, Inputs(tx));
    CreatedIs(r, tx, height);
  }

  lemma {:induction false} RestoreIs(u0: Utxo, u: Utxo, spent: seq<(OutPoint, Entry)>, created: set<OutPoint>)
    requires forall o | o in u :: o in u0 && u[o] == u0[o]
    requires forall p | p in spent :: p.0 in created || (p.0 in u0 && u0[p.0] == p.1)
    requires forall o | o in u0 :: o in u || (o !in created && (o, u0[o]) in spent)
    ensures Restore(u, spent, created) == u0
    decreases spent
  {
    if spent != [] {
      var p := spent[0];
      var next := if p.0 in created then u else u[p.0 := p.1];
      forall o | o in u0
        ensures o in next || (o !in created && (o, u0[o]) in spent[1..])
      {
        if o !in u && (o, u0[o]) !in spent[1..] { assert (o, u0[o]) == p; }
      }
      RestoreIs(u0, next, spent[1..], created);
    }
  }

  /** Whatever the record tracks, undoing it gives back exactly the set before. */
  lemma UndoRestores(u0: Utxo, u: Utxo, undo: Undo)
    requires Tracks(u0, u, undo)
    ensures UndoBlock(u, undo) == u0
  {
    var created := ToSet(undo.created);
    RestoreIs(u0, u - created, undo.spent, created);
  }

  // ------------------------------------------------------------------
  // No transaction id is ever used twice
  // ------------------------------------------------------------------

  ghost predicate Known(r: Rules, txs: seq<Tx>, id: Id) {
    exists t | t in txs :: r.txid(t) == id
  }

  /** Nothing an applied transaction consumed is unspent, nor will be again. */
  ghost predicate SpentForGood(r: Rules, txs: seq<Tx>, u: Utxo) {
    forall t, o | t in txs && o in Inputs(t) :: o !in u && Known(r, txs, o.txid)
  }

  ghost predicate NoMarkerFrom(txs: seq<Tx>, height: nat) {
    forall t, h | t in txs && height <= h < HEIGHT_LIMIT :: !HasMarker(t, h)
  }

  /** `txs` are the transactions applied so far, `u` what they left unspent. */
  ghost predicate Unique(r: Rules, txs: seq<Tx>, u: Utxo, height: nat) {
    && (forall o | o in u :: Known(r, txs, o.txid))
    && SpentForGood(r, txs, u)
    && NoMarkerFrom(txs, height)
  }

  lemma KnownGrows(r: Rules, txs: seq<Tx>, tx: Tx, id: Id)
    ensures Known(r, txs + [tx], id) <==> Known(r, txs, id) || id == r.txid(tx)
  {
    if Known(r, txs, id) {
      var t :| t in txs && r.txid(t) == id;
      assert t in txs + [tx];
    }
    assert tx in txs + [tx];
  }

  /** A transaction whose inputs are unspent has an id nobody used: the same id
      would mean the same inputs, spent for good by the first use. */
  lemma SpendIsFresh(r: Rules, txs: seq<Tx>, u: Utxo, tx: Tx, height: nat)
    requires TxidOk(r) && Unique(r, txs, u, height)
    requires tx.Spend? && tx.inputs != [] && (forall o | o in tx.inputs :: o in u)
    ensures !Known(r, txs, r.txid(tx))
  {
    forall t | t in txs
      ensures r.txid(t) != r.txid(tx)
    {
      assert Core(t) == Core(tx) ==> tx.inputs[0] in Inputs(t);
    }
  }

  /** A coinbase that commits to its height has an id nobody used. */
  lemma CoinbaseIsFresh(r: Rules, txs: seq<Tx>, u: Utxo, tx: Tx, height: nat)
    requires TxidOk(r) && Unique(r, txs, u, height) && height < HEIGHT_LIMIT
    requires HasMarker(tx, height)
    ensures !Known(r, txs, r.txid(tx))
  {
    forall t | t in txs
      ensures r.txid(t) != r.txid(tx)
    {
      assert Core(t) == Core(tx) ==> HasMarker(t, height);
    }
  }

  lemma UniqueStep(r: Rules, txs: seq<Tx>, u: Utxo, tx: Tx, height: nat, at: nat, next: nat)
    requires Unique(r, txs, u, height) && height <= next
    requires !Known(r, txs, r.txid(tx))
    requires forall o | o in Inputs(tx) :: o in u
    requires forall h | next <= h < HEIGHT_LIMIT :: !HasMarker(tx, h)
    ensures Unique(r, txs + [tx], ApplyTx(r, u, tx, at), next)
  {
    hide Created, SpendAll, Known, HasMarker;
    var all, v := txs + [tx], ApplyTx(r, u, tx, at);
    SpendAllIs(u, Inputs(tx));
    CreatedIs(r, tx, at);
    forall o | o in v
      ensures Known(r, all, o.txid)
    {
      KnownGrows(r, txs, tx, o.txid);
    }
    forall t, o | t in all && o in Inputs(t)
      ensures o !in v && Known(r, all, o.txid)
    {
      KnownGrows(r, txs, tx, o.txid);
      if t !in txs { assert t == tx; assert o in u; }
    }
  }

  // ------------------------------------------------------------------
  // The money supply
  // ------------------------------------------------------------------

  function EntryValue(e: Entry): nat { e.output.value }

  /** Sum of all unspent outputs (`total_value`). */
  ghost function Total(u: Utxo): nat { MapSum(u, EntryValue) }

  lemma TotalEmpty()
    ensures Total(map[]) == 0
  {
    MapSumEmpty<OutPoint, Entry>(EntryValue);
  }

  lemma OutputsFront(txid: Id, outputs: seq<Output>, height: nat, coinbase: bool)
    requires |outputs| > 0
    ensures Outputs(txid, outputs, height, coinbase) - {OutPoint(txid, |outputs| - 1)}
         == Outputs(txid, outputs[..|outputs| - 1], height, coinbase)
  {
  }

  lemma {:induction false} TotalOutputs(txid: Id, outputs: seq<Output>, height: nat, coinbase: bool)
    ensures Total(Outputs(txid, outputs, height, coinbase)) == OutputSum(outputs)
  {
    var n := |outputs|;
    var m := Outputs(txid, outputs, height, coinbase);
    if n > 0 {
      var o := OutPoint(txid, n - 1);
      MapSumRemove(m, EntryValue, o);
      OutputsFront(txid, outputs, height, coinbase);
      TotalOutputs(txid, outputs[..n - 1], height, coinbase);
      OutputSumSnoc(outputs);
    }
  }

  lemma {:induction false} OutputSumSnoc(outputs: seq<Output>)
    requires outputs != []
    ensures OutputSum(outputs) == OutputSum(Front(outputs)) + Last(outputs).value
  {
    if |outputs| > 1 {
      OutputSumSnoc(outputs[1..]);
      assert Front(outputs)[1..] == Front(outputs[1..]);
    }
  }

  /** Sum of the values of distinct unspent outputs. */
  ghost function Value(u: Utxo, inputs: seq<OutPoint>): nat {
    if inputs == [] then 0
    else (if inputs[0] in u then u[inputs[0]].output.value else 0) + Value(u - {inputs[0]}, inputs[1..])
  }

  lemma {:induction false} TotalSpend(u: Utxo, inputs: seq<OutPoint>)
    ensures Total(SpendAll(u, inputs)) + Value(u, inputs) == Total(u)
  {
    if inputs != [] {
      TotalSpend(u - {inputs[0]}, inputs[1..]);
      if inputs[0] in u { MapSumRemove(u, EntryValue, inputs[0]); } else { assert u - {inputs[0]} == u; }
    }
  }

  /** Applying a transaction with a fresh id moves the total by outputs minus inputs. */
  lemma TotalStep(r: Rules, u: Utxo, tx: Tx, height: nat)
    requires forall o | o in Created(r, tx, height) :: o !in u
    ensures Total(ApplyTx(r, u, tx, height)) + Value(u, Inputs(tx)) == Total(u) + OutputSum(tx.outputs)
  {
    hide Created, SpendAll;
    SpendAllIs(u, Inputs(tx));
    MapSumUnion(SpendAll(u, Inputs(tx)), Created(r, tx, height), EntryValue);
    TotalSpend(u, Inputs(tx));
    TotalCreated(r, tx, height);
  }

  lemma TotalCreated(r: Rules, tx: Tx, height: nat)
    ensures Total(Created(r, tx, height)) == OutputSum(tx.outputs)
  {
    TotalOutputs(r.txid(tx), tx.outputs, height, tx.Coinbase?);
  }
}
