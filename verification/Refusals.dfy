/** What a block is refused with (src/validate.rs): the first rule it breaks, in the
    order of the checks, each rule said by itself. */
module Refusals {
  import opened Prelude
  import opened Ledger
  import opened Validation
  import Emission

  /** A transaction: its form, the rules taken as given, its inputs, its outputs. */
  lemma TxRefused(r: Rules, v: View, tx: Tx, height: nat, seen: set<OutPoint>)
    ensures var res := CheckTx(r, v, tx, height, seen);
            if !tx.Spend? || tx.inputs == [] then res == Err(Structure)
            else if !r.txOk(tx, v, height) then res == Err(TxRules)
            else if !InputsOk(v, tx.inputs, height, seen, 0)
              then res.Err? && CheckInputs(v, tx.inputs, height, seen, 0) == Err(res.error)
            else if OutputSum(tx.outputs) > InputSum(v, tx.inputs) then res == Err(ValueNotConserved)
            else res.Ok?
  {
    hide CheckInputs, InputsOk, InputSum, OutputSum;
    if tx.Spend? { InputsPass(v, tx.inputs, height, seen, 0); }
  }

  /** The transactions of a block: that of the first one that does not pass, or that
      the fees up to it do not fit 64 bits. */
  lemma {:induction false} TxsRefused(r: Rules, v: View, txs: seq<Tx>, height: nat, i: nat) returns (k: nat)
    requires i <= |txs| && TxsOk(r, v, txs, height, i) && !TxsOk(r, v, txs, height, |txs|)
    ensures 0 <= FeeSum(r, v, txs, height, i) && i <= k < |txs| && TxsOk(r, v, txs, height, k)
    ensures CheckTxs(r, ViewAt(r, v, txs, height, i), txs[i..], height, SpentBefore(txs, i),
                     FeeSum(r, v, txs, height, i))
            == var w, seen := ViewAt(r, v, txs, height, k), SpentBefore(txs, k);
               if TxOk(r, w, txs[k], height, seen) then Err(FeeOverflow) else CheckTx(r, w, txs[k], height, seen)
    ensures TxOk(r, ViewAt(r, v, txs, height, k), txs[k], height, SpentBefore(txs, k)) ==>
              FeeSum(r, v, txs, height, k + 1) >= U64_LIMIT
    decreases |txs| - i
  {
    hide TxOk, ViewAt, SpentBefore, CheckTx, ViewApply, TxsOk, FeeSum, CheckTxs;
    OneMore(r, v, txs, height, i);
    if TxsOk(r, v, txs, height, i + 1) { k := TxsRefused(r, v, txs, height, i + 1); } else { k := i; }
  }

  /** A body: its transactions, its uncles, its coinbase. */
  lemma BodyRefused(r: Rules, s: State, b: Block, height: nat)
    requires |b.txs| > 0
    ensures var res, v, txs, coinbase := CheckBody(r, s, b, height), StartView(s.utxo), b.txs[1..], b.txs[0];
            var fees := FeeSum(r, v, txs, height, |txs|);
            if !TxsOk(r, v, txs, height, |txs|) then res.Err? && res == CheckTxs(r, v, txs, height, {}, 0)
            else if b.uncles != [] then res == Err(TooManyUncles)
            else if !HasMarker(coinbase, height) then res == Err(CoinbaseWithoutHeight)
            else if |coinbase.outputs| != 1 then res == Err(CoinbaseRules)
            else if coinbase.outputs[0].lock != b.header.miner then res == Err(CoinbaseDoesNotPayMiner)
            else if Emission.Subsidy(height) + fees >= U64_LIMIT then res == Err(FeeOverflow)
            else if coinbase.outputs[0].value > Emission.Subsidy(height) + fees then res == Err(ExcessiveSubsidy)
            else if s.issued > Emission.MAX_SUPPLY || s.issued + coinbase.outputs[0].value - fees > Emission.MAX_SUPPLY
              then res == Err(CapExceeded)
            else if !r.coinbaseOk(b, height) then res == Err(CoinbaseRules)
            else res == Ok(fees)
  {
    hide CheckTxs, TxOk, ViewAt, HasMarker;
    var v, txs := StartView(s.utxo), b.txs[1..];
    assert txs[0..] == txs;
    StartsThere(r, v, txs, height);
    TxsPass(r, v, txs, height, 0);
    if |b.txs[0].outputs| == 1 { OneOutputSum(b.txs[0].outputs); }
  }

  /** A block: size, header, clock, work, shape, body. */
  lemma BlockRefused(r: Rules, c: Context, s: State, b: Block, now: nat)
    ensures var res, fault := CheckBlock(r, c, s, b, now), HeaderFault(r, c, b.header);
            if r.size(b) > 4_194_304 then res == Err(BlockTooLarge)
            else if fault.Some? then res == Err(fault.value)
            else if b.header.time > now + 600 then res == Err(TimestampInFuture)
            else if !r.powOk(b.header) then res == Err(ProofOfWork)
            else if !ShapeOk(r, b) then res == Err(Structure)
            else |b.txs| > 0 && res == CheckBody(r, s, b, b.header.height)
  {
    hide CheckBody;
  }

  /** A header: height, parent, difficulty, times, anchor. */
  lemma HeaderRefused(r: Rules, headers: seq<Header>, h: Header)
    requires |headers| > 0
    ensures var fault := HeaderFault(r, ContextAt(r, headers), h);
            var expected := if r.regtest then 0x2000_ffff else r.nextBits(Suffix(headers, 91));
            if h.height != |headers| then fault == Some(BadHeight)
            else if h.prev != r.blockId(Last(headers)) then fault == Some(BadParent)
            else if h.bits != expected then fault == Some(BadDifficulty)
            else if h.time <= r.median(Times(Suffix(headers, 11))) then fault == Some(TimestampTooOld)
            else if h.height >= r.strictFrom && h.time <= Last(headers).time then fault == Some(TimestampNotAfterParent)
            else if h.height in r.anchors && r.anchors[h.height] != r.blockId(h) then fault == Some(NotTheAnchor)
            else fault == None
  {
    assert |Times(Suffix(headers, 11))| > 0;
  }
}
