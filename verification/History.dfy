/** Replaying a chain from genesis: the definition every incremental state of
    the node is measured against. */
module History {
  import opened Prelude
  import opened Ledger
  import opened Validation
  import Emission

  function Headers(hist: seq<Block>): (hs: seq<Header>)
    ensures |hs| == |hist|
  {
    seq(|hist|, i requires 0 <= i < |hist| => hist[i].header)
  }

  function AllTxs(hist: seq<Block>): seq<Tx> {
    if hist == [] then [] else AllTxs(Front(hist)) + Last(hist).txs
  }

  function Fees(r: Rules, s: State, b: Block, height: nat): nat
    requires |b.txs| > 0
  {
    match CheckTxs(r, StartView(s.utxo), b.txs[1..], height, {}, 0)
    case Ok(fees) => fees
    case Err(_) => 0
  }

  /** What a block issues: the part of its coinbase the fees do not cover. */
  function Emitted(r: Rules, s: State, b: Block, height: nat): nat {
    if |b.txs| == 0 then 0 else SatSub(OutputSum(b.txs[0].outputs), Fees(r, s, b, height))
  }

  function Step(r: Rules, s: State, b: Block, height: nat): State {
    State(ApplyTxs(r, s.utxo, b.txs, height), s.issued + Emitted(r, s, b, height))
  }

  function TxsOutput(txs: seq<Tx>): nat {
    if txs == [] then 0 else OutputSum(txs[0].outputs) + TxsOutput(txs[1..])
  }

  function GenesisState(r: Rules): State {
    State(ApplyTxs(r, map[], r.genesis.txs, 0), TxsOutput(r.genesis.txs))
  }

  /** The state after the blocks of `hist`, computed from nothing. */
  function Replay(r: Rules, hist: seq<Block>): State {
    if |hist| <= 1 then GenesisState(r)
    else Step(r, Replay(r, Front(hist)), Last(hist), |hist| - 1)
  }

  /** What the last block of `hist` changed. */
  function UndoOf(r: Rules, hist: seq<Block>): Undo
    requires |hist| > 0
  {
    if |hist| == 1 then RecordTxs(r, map[], r.genesis.txs, 0, NOTHING_UNDONE)
    else RecordTxs(r, Replay(r, Front(hist)).utxo, Last(hist).txs, |hist| - 1, NOTHING_UNDONE)
  }

  /** A chain of blocks each acceptable on the replay of those before it. */
  predicate ValidHistory(r: Rules, hist: seq<Block>) {
    if |hist| == 0 then false
    else if |hist| == 1 then hist[0] == r.genesis
    else
      && ValidHistory(r, Front(hist))
      && Acceptable(r, Headers(Front(hist)), Replay(r, Front(hist)), Last(hist))
  }

  /** What the rules say of this block on this chain now. */
  function Verdict(r: Rules, hist: seq<Block>, b: Block, now: nat): Result<nat, ValidationError>
    requires |hist| > 0
  {
    CheckBlock(r, ContextAt(r, Headers(hist)), Replay(r, hist), b, now)
  }

  /** Would this block be connected on this chain now? */
  ghost predicate Accepted(r: Rules, hist: seq<Block>, b: Block, now: nat)
    requires |hist| > 0
  {
    Verdict(r, hist, b, now).Ok?
  }

  // ------------------------------------------------------------------
  // One block
  // ------------------------------------------------------------------

  lemma StartMidBlock(r: Rules, done: seq<Tx>, u: Utxo, coinbase: Tx, height: nat)
    requires TxidOk(r) && Unique(r, done, u, height) && height < HEIGHT_LIMIT
    requires HasMarker(coinbase, height)
    ensures MidBlock(r, done + [coinbase], u, ApplyTx(r, u, coinbase, height), Created(r, coinbase, height),
                     StartView(u), RecordTx(r, u, coinbase, NOTHING_UNDONE), height + 1)
    ensures Total(ApplyTx(r, u, coinbase, height)) == Total(u) + OutputSum(coinbase.outputs)
  {
    hide Known, Created, Total, HasMarker;
    var cb := Created(r, coinbase, height);
    MarkerIsCoinbase(coinbase, height);
    CoinbaseIsFresh(r, done, u, coinbase, height);
    CreatedIs(r, coinbase, height);
    UniqueIdsKnown(r, done, u, height);
    MarkerOnce(coinbase, height);
    UniqueStep(r, done, u, coinbase, height, height, height + 1);
    assert Tracks(u, u, NOTHING_UNDONE);
    TracksStep(r, u, u, NOTHING_UNDONE, coinbase, height);
    TotalStep(r, u, coinbase, height);
    IdsKnownGrows(r, done, coinbase, u.Keys);
    forall o | o in cb
      ensures Known(r, done + [coinbase], o.txid)
    {
      KnownGrows(r, done, coinbase, o.txid);
    }
  }

  lemma MarkerIsCoinbase(t: Tx, height: nat)
    requires HasMarker(t, height)
    ensures Inputs(t) == []
  {
  }

  lemma MarkerOnce(t: Tx, height: nat)
    requires HasMarker(t, height)
    ensures forall h | height + 1 <= h < HEIGHT_LIMIT :: !HasMarker(t, h)
  {
    forall h | height + 1 <= h < HEIGHT_LIMIT
      ensures !HasMarker(t, h)
    {
      hide LeValue;
    }
  }

  /** An acceptable block: ids stay unique, its record leads back exactly to the
      state before it, and the total moves by coinbase minus fees. */
  lemma AcceptedBlock(r: Rules, done: seq<Tx>, s: State, b: Block, height: nat)
    requires TxidOk(r) && Unique(r, done, s.utxo, height) && height < HEIGHT_LIMIT
    requires ShapeOk(r, b) && CheckBody(r, s, b, height).Ok?
    ensures Unique(r, done + b.txs, ApplyTxs(r, s.utxo, b.txs, height), height + 1)
    ensures Tracks(s.utxo, ApplyTxs(r, s.utxo, b.txs, height), RecordTxs(r, s.utxo, b.txs, height, NOTHING_UNDONE))
    ensures Total(ApplyTxs(r, s.utxo, b.txs, height)) + Fees(r, s, b, height)
         == Total(s.utxo) + OutputSum(b.txs[0].outputs)
    ensures OutputSum(b.txs[0].outputs) <= Emission.Subsidy(height) + Fees(r, s, b, height)
  {
    hide Unique, Tracks, Total, MidBlock, CheckTxs, ApplyTx, RecordTx, Created, HasMarker;
    var coinbase := b.txs[0];
    StartMidBlock(r, done, s.utxo, coinbase, height);
    AcceptedTxs(r, done + [coinbase], s.utxo, ApplyTx(r, s.utxo, coinbase, height), Created(r, coinbase, height),
                StartView(s.utxo), RecordTx(r, s.utxo, coinbase, NOTHING_UNDONE), b.txs[1..], height, {}, 0);
    assert done + [coinbase] + b.txs[1..] == done + b.txs;
    assert coinbase.outputs == [coinbase.outputs[0]];
    assert OutputSum(coinbase.outputs) == coinbase.outputs[0].value;
  }

  lemma SingleTx(r: Rules, u: Utxo, t: Tx, height: nat, undo: Undo)
    ensures ApplyTxs(r, u, [t], height) == ApplyTx(r, u, t, height)
    ensures RecordTxs(r, u, [t], height, undo) == RecordTx(r, u, t, undo)
    ensures TxsOutput([t]) == OutputSum(t.outputs)
  {
    hide ApplyTx, RecordTx, OutputSum;
    assert [t][1..] == [];
    assert ApplyTxs(r, ApplyTx(r, u, t, height), [t][1..], height) == ApplyTx(r, u, t, height);
  }

  lemma GenesisSound(r: Rules)
    requires RulesOk(r)
    ensures Unique(r, r.genesis.txs, GenesisState(r).utxo, 1)
    ensures Tracks(map[], GenesisState(r).utxo, UndoOf(r, [r.genesis]))
    ensures Total(GenesisState(r).utxo) == GenesisState(r).issued == Emission.GENESIS_PREMINT
  {
    hide Created, Total, OutputSum, HasMarker, ApplyTx, RecordTx;
    var g := r.genesis.txs[0];
    assert r.genesis.txs == [] + [g] == [g];
    SingleTx(r, map[], g, 0, NOTHING_UNDONE);
    assert GenesisState(r).utxo == ApplyTx(r, map[], g, 0);
    assert UndoOf(r, [r.genesis]) == RecordTx(r, map[], g, NOTHING_UNDONE);
    assert Unique(r, [], map[], 0);
    assert !Known(r, [], r.txid(g));
    assert Inputs(g) == [];
    UniqueStep(r, [], map[], g, 0, 0, 1);
    assert Tracks(map[], map[], NOTHING_UNDONE);
    TracksStep(r, map[], map[], NOTHING_UNDONE, g, 0);
    TotalStep(r, map[], g, 0);
    TotalEmpty();
  }

  // ------------------------------------------------------------------
  // The whole chain
  // ------------------------------------------------------------------

  /** Over every valid chain: no transaction id repeats, and the money in
      circulation never exceeds what was issued, which never exceeds the
      schedule nor the cap. */
  lemma {:induction false} LedgerSound(r: Rules, hist: seq<Block>)
    requires RulesOk(r) && ValidHistory(r, hist) && |hist| <= HEIGHT_LIMIT
    ensures Unique(r, AllTxs(hist), Replay(r, hist).utxo, |hist|)
    ensures Total(Replay(r, hist).utxo) <= Replay(r, hist).issued
    ensures Replay(r, hist).issued <= Emission.GENESIS_PREMINT + Emission.Cumulative(|hist| - 1) <= Emission.MAX_SUPPLY
  {
    hide Unique, Total, Emission.Cumulative, GenesisState, RulesOk, Step, Acceptable, Headers;
    Emission.CumulativeMonotone(0, |hist| - 1);
    if |hist| == 1 {
      GenesisSound(r);
      assert Front(hist) == [];
      assert AllTxs(hist) == AllTxs(Front(hist)) + Last(hist).txs == r.genesis.txs;
      Emission.FirstBlockIssuesNothing();
    } else {
      LedgerSound(r, Front(hist));
      LedgerStep(r, AllTxs(Front(hist)), Headers(Front(hist)), Replay(r, Front(hist)), Last(hist));
    }
  }

  lemma LedgerStep(r: Rules, done: seq<Tx>, headers: seq<Header>, s: State, b: Block)
    requires RulesOk(r) && 0 < |headers| < HEIGHT_LIMIT
    requires Acceptable(r, headers, s, b)
    requires Unique(r, done, s.utxo, |headers|)
    requires Total(s.utxo) <= s.issued <= Emission.GENESIS_PREMINT + Emission.Cumulative(|headers| - 1)
    ensures Unique(r, done + b.txs, Step(r, s, b, |headers|).utxo, |headers| + 1)
    ensures Total(Step(r, s, b, |headers|).utxo) <= Step(r, s, b, |headers|).issued
    ensures Step(r, s, b, |headers|).issued <= Emission.GENESIS_PREMINT + Emission.Cumulative(|headers|)
  {
    hide Unique, Tracks, Total, Emission.Cumulative, ApplyTxs, RecordTxs, CheckBody, HeaderFault, Fees, OutputSum,
         GenesisOk;
    AcceptedBlock(r, done, s, b, |headers|);
    Emission.CumulativeMonotone(|headers| - 1, |headers|);
  }

  /** Undoing the last block of a valid chain gives exactly the replay of the
      chain without it. */
  lemma UndoReverts(r: Rules, hist: seq<Block>)
    requires RulesOk(r) && ValidHistory(r, hist) && 2 <= |hist| <= HEIGHT_LIMIT
    ensures UndoBlock(Replay(r, hist).utxo, UndoOf(r, hist)) == Replay(r, Front(hist)).utxo
  {
    hide Unique, Tracks, ApplyTxs, RecordTxs, CheckBody, HeaderFault, ShapeOk, Emission.Cumulative, UndoBlock;
    var s := Replay(r, Front(hist));
    LedgerSound(r, Front(hist));
    AcceptedBlock(r, AllTxs(Front(hist)), s, Last(hist), |hist| - 1);
    UndoRestores(s.utxo, Replay(r, hist).utxo, UndoOf(r, hist));
  }
}
