/** When a block is acceptable (src/validate.rs, `check_block`). */
module Validation {
  import opened Prelude
  import opened Ledger
  import Emission

  function Lookup(v: View, o: OutPoint): Option<Entry> {
    if o in v.spent then None
    else if o in v.created then Some(v.created[o])
    else if o in v.confirmed then Some(v.confirmed[o])
    else None
  }

  /** The view after a validated transaction (`BlockView::apply`). */
  function ViewApply(r: Rules, v: View, tx: Tx, height: nat): View {
    View(v.confirmed, v.created + Created(r, tx, height), v.spent + ToSet(Inputs(tx)))
  }

  function CheckInputs(v: View, inputs: seq<OutPoint>, height: nat, seen: set<OutPoint>, total: nat)
    : Result<nat, ValidationError>
    decreases inputs
  {
    if inputs == [] then Ok(total)
    else if inputs[0] in seen then Err(DoubleSpend)
    else
      match Lookup(v, inputs[0])
      case None => Err(MissingInput)
      case Some(e) =>
        if e.coinbase && height < e.height + COINBASE_MATURITY then Err(CoinbaseImmature)
        else if total + e.output.value >= U64_LIMIT then Err(FeeOverflow)
        else CheckInputs(v, inputs[1..], height, seen + {inputs[0]}, total + e.output.value)
  }

  /** The fee a transaction yields (`check_transaction`). */
  function CheckTx(r: Rules, v: View, tx: Tx, height: nat, seen: set<OutPoint>)
    : Result<nat, ValidationError>
  {
    if !tx.Spend? || tx.inputs == [] then Err(Structure)
    else if !r.txOk(tx, v, height) then Err(TxRules)
    else
      match CheckInputs(v, tx.inputs, height, seen, 0)
      case Err(e) => Err(e)
      case Ok(total) =>
        if OutputSum(tx.outputs) > total then Err(ValueNotConserved)
        else Ok(total - OutputSum(tx.outputs))
  }

  /** The fees of the transactions after the coinbase, checked in order. */
  function CheckTxs(r: Rules, v: View, txs: seq<Tx>, height: nat, seen: set<OutPoint>, fees: nat)
    : Result<nat, ValidationError>
    decreases txs
  {
    if txs == [] then Ok(fees)
    else
      match CheckTx(r, v, txs[0], height, seen)
      case Err(e) => Err(e)
      case Ok(fee) =>
        if fees + fee >= U64_LIMIT then Err(FeeOverflow)
        else
          CheckTxs(r, ViewApply(r, v, txs[0], height), txs[1..], height,
                   seen + ToSet(Inputs(txs[0])), fees + fee)
  }

  function StartView(u: Utxo): View { View(u, map[], {}) }

  /** The rules on transactions, uncles and coinbase.  Returns the fees. */
  function CheckBody(r: Rules, s: State, b: Block, height: nat): Result<nat, ValidationError>
    requires |b.txs| > 0
  {
    match CheckTxs(r, StartView(s.utxo), b.txs[1..], height, {}, 0)
    case Err(e) => Err(e)
    case Ok(fees) =>
      var coinbase := b.txs[0];
      if b.uncles != [] then Err(TooManyUncles)
      else if !HasMarker(coinbase, height) then Err(CoinbaseWithoutHeight)
      else if |coinbase.outputs| != 1 then Err(CoinbaseRules)
      else if coinbase.outputs[0].lock != b.header.miner then Err(CoinbaseDoesNotPayMiner)
      else if Emission.Subsidy(height) + fees >= U64_LIMIT then Err(FeeOverflow)
      else if coinbase.outputs[0].value > Emission.Subsidy(height) + fees then Err(ExcessiveSubsidy)
      else if s.issued + SatSub(OutputSum(coinbase.outputs), fees) > Emission.MAX_SUPPLY then Err(CapExceeded)
      else if !r.coinbaseOk(b, height) then Err(CoinbaseRules)
      else Ok(fees)
  }

  /** The difficulty a child of the last of these headers must carry. */
  function ExpectedBits(r: Rules, headers: seq<Header>): nat {
    if r.regtest then INITIAL_BITS else r.nextBits(Suffix(headers, LWMA_WINDOW + 1))
  }

  function Times(headers: seq<Header>): seq<nat> {
    seq(|headers|, i requires 0 <= i < |headers| => headers[i].time)
  }

  function RecentTimes(headers: seq<Header>): seq<nat> {
    Times(Suffix(headers, MEDIAN_TIME_SPAN))
  }

  /** What the chain already knows when a block is validated (`BlockContext`). */
  datatype Context = Context(height: nat, prevId: Id, recentTimes: seq<nat>, parentTime: nat, expectedBits: nat)

  /** The context of the block after these headers. */
  function ContextAt(r: Rules, headers: seq<Header>): Context
    requires |headers| > 0
  {
    Context(|headers|, r.blockId(Last(headers)), RecentTimes(headers), Last(headers).time, ExpectedBits(r, headers))
  }

  /** What its position imposes on a header: chaining, difficulty, past
      timestamps, anchors.  The clock is not consulted here. */
  function HeaderFault(r: Rules, c: Context, h: Header): Option<ValidationError> {
    if h.height != c.height then Some(BadHeight)
    else if h.prev != c.prevId then Some(BadParent)
    else if h.bits != c.expectedBits then Some(BadDifficulty)
    else if c.recentTimes != [] && h.time <= r.median(c.recentTimes) then Some(TimestampTooOld)
    else if h.height >= r.strictFrom && h.time <= c.parentTime then Some(TimestampNotAfterParent)
    else if h.height in r.anchors && r.anchors[h.height] != r.blockId(h) then Some(NotTheAnchor)
    else None
  }

  /** Not dated beyond what the clock tolerates. */
  predicate ClockAllows(b: Block, now: nat) {
    b.header.time <= now + MAX_FUTURE_TIME
  }

  /** Validates a full block in the context `c`, on the state `s`.  Returns its fees. */
  function CheckBlock(r: Rules, c: Context, s: State, b: Block, now: nat): Result<nat, ValidationError> {
    if r.size(b) > MAX_BLOCK_SIZE then Err(BlockTooLarge)
    else
      match HeaderFault(r, c, b.header)
      case Some(e) => Err(e)
      case None =>
        if !ClockAllows(b, now) then Err(TimestampInFuture)
        else if !r.powOk(b.header) then Err(ProofOfWork)
        else if !ShapeOk(r, b) then Err(Structure)
        else CheckBody(r, s, b, c.height)
  }

  /** Acceptable after these headers at some time of the clock. */
  predicate Acceptable(r: Rules, headers: seq<Header>, s: State, b: Block)
    requires |headers| > 0
  {
    && r.size(b) <= MAX_BLOCK_SIZE
    && HeaderFault(r, ContextAt(r, headers), b.header).None?
    && r.powOk(b.header)
    && ShapeOk(r, b)
    && CheckBody(r, s, b, |headers|).Ok?
  }

  /** The clock is one gate among the rules: the verdict of every other rule is
      the same at any time, so a block once accepted is accepted again on the
      same parent state whenever its date is not in the future. */
  lemma ClockIsOneGate(r: Rules, headers: seq<Header>, s: State, b: Block, now: nat)
    requires |headers| > 0
    ensures CheckBlock(r, ContextAt(r, headers), s, b, now).Ok?
       <==> Acceptable(r, headers, s, b) && ClockAllows(b, now)
  {
  }

  // ------------------------------------------------------------------
  // When transactions pass
  // ------------------------------------------------------------------

  ghost predicate AllDistinct(inputs: seq<OutPoint>) {
    forall i, j | 0 <= i < j < |inputs| :: inputs[i] != inputs[j]
  }

  /** The output is visible, and 200 blocks old if it is a coinbase's. */
  ghost predicate Spendable(v: View, o: OutPoint, height: nat) {
    match Lookup(v, o)
    case None => false
    case Some(e) => e.coinbase ==> e.height + 200 <= height
  }

  ghost function Worth(v: View, o: OutPoint): nat {
    match Lookup(v, o)
    case None => 0
    case Some(e) => e.output.value
  }

  ghost function InputSum(v: View, inputs: seq<OutPoint>): nat {
    if inputs == [] then 0 else Worth(v, inputs[0]) + InputSum(v, inputs[1..])
  }

  /** Nothing spent twice, everything spendable, and 64 bits hold the sum. */
  ghost predicate InputsOk(v: View, inputs: seq<OutPoint>, height: nat, seen: set<OutPoint>, total: nat) {
    && AllDistinct(inputs) && (forall o | o in inputs :: o !in seen && Spendable(v, o, height))
    && total + InputSum(v, inputs) < U64_LIMIT
  }

  /** The inputs pass exactly then, for what they are worth. */
  lemma {:induction false} InputsPass(v: View, inputs: seq<OutPoint>, height: nat, seen: set<OutPoint>, total: nat)
    requires total < U64_LIMIT
    ensures CheckInputs(v, inputs, height, seen, total).Ok? <==> InputsOk(v, inputs, height, seen, total)
    ensures CheckInputs(v, inputs, height, seen, total).Ok? ==>
              CheckInputs(v, inputs, height, seen, total).value == total + InputSum(v, inputs)
    decreases inputs
  {
    hide Lookup;
    if inputs != [] {
      var o, rest := inputs[0], inputs[1..];
      OneThenRest(inputs);
      if o !in seen && Lookup(v, o).Some? && total + Worth(v, o) < U64_LIMIT {
        InputsPass(v, rest, height, seen + {o}, total + Worth(v, o));
      }
    }
  }

  lemma OneThenRest(inputs: seq<OutPoint>)
    requires inputs != []
    ensures AllDistinct(inputs) <==> inputs[0] !in inputs[1..] && AllDistinct(inputs[1..])
    ensures forall o :: o in inputs <==> o == inputs[0] || o in inputs[1..]
  {
    var rest := inputs[1..];
    if AllDistinct(inputs) {
      forall j | 0 <= j < |rest|
        ensures rest[j] != inputs[0]
      {
        assert rest[j] == inputs[j + 1];
      }
    }
    if inputs[0] !in rest && AllDistinct(rest) {
      forall i, j | 0 <= i < j < |inputs|
        ensures inputs[i] != inputs[j]
      {
        assert inputs[j] == rest[j - 1];
        if i > 0 { assert inputs[i] == rest[i - 1]; }
      }
    }
  }

  /** What stands against an input, spent before or not. */
  ghost function InputFault(v: View, o: OutPoint, height: nat, again: bool): ValidationError {
    if again then DoubleSpend
    else if Lookup(v, o).None? then MissingInput
    else if !Spendable(v, o, height) then CoinbaseImmature
    else FeeOverflow
  }

  /** Input `k` is the first that does not pass, and this stands against it. */
  ghost predicate RefusedAt(
    v: View, inputs: seq<OutPoint>, height: nat, seen: set<OutPoint>, total: nat, k: nat, e: ValidationError)
  {
    && k < |inputs| && CheckInputs(v, inputs[..k], height, seen, total).Ok?
    && e == InputFault(v, inputs[k], height, inputs[k] in seen || inputs[k] in inputs[..k])
    && (e == FeeOverflow ==> total + InputSum(v, inputs[..k + 1]) >= U64_LIMIT)
  }

  lemma {:induction false} InputsRefused(v: View, inputs: seq<OutPoint>, height: nat, seen: set<OutPoint>, total: nat)
    returns (k: nat)
    requires CheckInputs(v, inputs, height, seen, total).Err?
    ensures RefusedAt(v, inputs, height, seen, total, k, CheckInputs(v, inputs, height, seen, total).error)
    decreases inputs
  {
    hide Lookup, RefusedAt;
    var o, rest := inputs[0], inputs[1..];
    if o !in seen && Spendable(v, o, height) && total + Worth(v, o) < U64_LIMIT {
      var j := InputsRefused(v, rest, height, seen + {o}, total + Worth(v, o));
      k := j + 1;
      RefusedLater(v, inputs, height, seen, total, j, CheckInputs(v, inputs, height, seen, total).error);
    } else {
      k := 0;
      RefusedFirst(v, inputs, height, seen, total);
    }
  }

  lemma RefusedFirst(v: View, inputs: seq<OutPoint>, height: nat, seen: set<OutPoint>, total: nat)
    requires inputs != []
    requires inputs[0] in seen || !Spendable(v, inputs[0], height) || total + Worth(v, inputs[0]) >= U64_LIMIT
    ensures CheckInputs(v, inputs, height, seen, total).Err?
    ensures RefusedAt(v, inputs, height, seen, total, 0, CheckInputs(v, inputs, height, seen, total).error)
  {
    hide Lookup;
    assert inputs[..1][1..] == [];
  }

  lemma RefusedLater(
    v: View, inputs: seq<OutPoint>, height: nat, seen: set<OutPoint>, total: nat, j: nat, e: ValidationError)
    requires inputs != [] && inputs[0] !in seen && Spendable(v, inputs[0], height)
    requires total + Worth(v, inputs[0]) < U64_LIMIT
    requires RefusedAt(v, inputs[1..], height, seen + {inputs[0]}, total + Worth(v, inputs[0]), j, e)
    ensures RefusedAt(v, inputs, height, seen, total, j + 1, e)
  {
    hide Lookup, CheckInputs, InputSum;
    FirstOf(v, inputs, height, seen, total, j);
    FirstOf(v, inputs, height, seen, total, j + 1);
  }

  lemma FirstOf(v: View, inputs: seq<OutPoint>, height: nat, seen: set<OutPoint>, total: nat, j: nat)
    requires j < |inputs| && inputs[0] !in seen && Spendable(v, inputs[0], height)
    requires total + Worth(v, inputs[0]) < U64_LIMIT
    ensures CheckInputs(v, inputs[..j + 1], height, seen, total)
         == CheckInputs(v, inputs[1..][..j], height, seen + {inputs[0]}, total + Worth(v, inputs[0]))
    ensures InputSum(v, inputs[..j + 1]) == Worth(v, inputs[0]) + InputSum(v, inputs[1..][..j])
    ensures forall o :: o in inputs[..j + 1] <==> o == inputs[0] || o in inputs[1..][..j]
  {
    hide Lookup;
    var front := inputs[..j + 1];
    assert front[0] == inputs[0] && front[1..] == inputs[1..][..j];
    OneThenRest(front);
  }

  /** The view after some transactions of a block. */
  ghost function ViewAfter(r: Rules, v: View, txs: seq<Tx>, height: nat): View {
    if txs == [] then v else ViewApply(r, ViewAfter(r, v, Front(txs), height), Last(txs), height)
  }

  /** What transaction `i` sees. */
  ghost function ViewAt(r: Rules, v: View, txs: seq<Tx>, height: nat, i: nat): View
    requires i <= |txs|
  {
    ViewAfter(r, v, txs[..i], height)
  }

  /** One transaction on its own: it spends something that it may spend, and no
      more than that. */
  ghost predicate TxOk(r: Rules, v: View, tx: Tx, height: nat, seen: set<OutPoint>) {
    && tx.Spend? && tx.inputs != [] && r.txOk(tx, v, height) && InputsOk(v, tx.inputs, height, seen, 0)
    && OutputSum(tx.outputs) <= InputSum(v, tx.inputs)
  }

  lemma TxPasses(r: Rules, v: View, tx: Tx, height: nat, seen: set<OutPoint>)
    ensures CheckTx(r, v, tx, height, seen).Ok? <==> TxOk(r, v, tx, height, seen)
    ensures CheckTx(r, v, tx, height, seen).Ok? ==>
              CheckTx(r, v, tx, height, seen).value + OutputSum(tx.outputs) == InputSum(v, tx.inputs)
  {
    hide CheckInputs, InputsOk, InputSum, OutputSum;
    if tx.Spend? { InputsPass(v, tx.inputs, height, seen, 0); }
  }

  /** Everything the first `i` transactions spend. */
  ghost function SpentBefore(txs: seq<Tx>, i: nat): set<OutPoint>
    requires i <= |txs|
  {
    set k, o | 0 <= k < i && o in Inputs(txs[k]) :: o
  }

  ghost function Fee(v: View, tx: Tx): int { InputSum(v, Inputs(tx)) - OutputSum(tx.outputs) }

  /** What the first `i` transactions leave to the miner. */
  ghost function FeeSum(r: Rules, v: View, txs: seq<Tx>, height: nat, i: nat): int
    requires i <= |txs|
  {
    if i == 0 then 0 else FeeSum(r, v, txs, height, i - 1) + Fee(ViewAt(r, v, txs, height, i - 1), txs[i - 1])
  }

  /** Every transaction passes on what the ones before it leave. */
  ghost predicate TxsOk(r: Rules, v: View, txs: seq<Tx>, height: nat, i: nat)
    requires i <= |txs|
  {
    && (forall k | 0 <= k < i :: TxOk(r, ViewAt(r, v, txs, height, k), txs[k], height, SpentBefore(txs, k)))
    && FeeSum(r, v, txs, height, i) < U64_LIMIT
  }

  lemma {:induction false} FeesGrow(r: Rules, v: View, txs: seq<Tx>, height: nat, i: nat, j: nat)
    requires i <= j <= |txs|
    requires forall k | 0 <= k < j :: TxOk(r, ViewAt(r, v, txs, height, k), txs[k], height, SpentBefore(txs, k))
    ensures 0 <= FeeSum(r, v, txs, height, i) <= FeeSum(r, v, txs, height, j)
    decreases j
  {
    hide InputsOk, ViewAt, SpentBefore;
    if i < j {
      FeesGrow(r, v, txs, height, i, j - 1);
      assert TxOk(r, ViewAt(r, v, txs, height, j - 1), txs[j - 1], height, SpentBefore(txs, j - 1));
    } else if j > 0 {
      FeesGrow(r, v, txs, height, i - 1, j - 1);
      assert TxOk(r, ViewAt(r, v, txs, height, j - 1), txs[j - 1], height, SpentBefore(txs, j - 1));
    }
  }

  /** One transaction further. */
  lemma OneMore(r: Rules, v: View, txs: seq<Tx>, height: nat, i: nat)
    requires i < |txs| && TxsOk(r, v, txs, height, i)
    ensures 0 <= FeeSum(r, v, txs, height, i)
    ensures var w, seen, fees := ViewAt(r, v, txs, height, i), SpentBefore(txs, i), FeeSum(r, v, txs, height, i);
            var res := CheckTxs(r, w, txs[i..], height, seen, fees);
            && (TxsOk(r, v, txs, height, i + 1) ==>
                  && 0 <= FeeSum(r, v, txs, height, i + 1)
                  && res == CheckTxs(r, ViewAt(r, v, txs, height, i + 1), txs[i + 1..], height,
                                     SpentBefore(txs, i + 1), FeeSum(r, v, txs, height, i + 1)))
            && (!TxsOk(r, v, txs, height, i + 1) && TxOk(r, w, txs[i], height, seen) ==>
                  res == Err(FeeOverflow) && FeeSum(r, v, txs, height, i + 1) >= U64_LIMIT)
            && (!TxOk(r, w, txs[i], height, seen) ==>
                  !TxsOk(r, v, txs, height, i + 1) && res == CheckTx(r, w, txs[i], height, seen))
  {
    hide TxOk, ViewAt, SpentBefore, CheckTx, ViewApply;
    FeesGrow(r, v, txs, height, i, i);
    var w, tx := ViewAt(r, v, txs, height, i), txs[i];
    TxPasses(r, w, tx, height, SpentBefore(txs, i));
    NextView(r, v, txs, height, i);
    FeeIs(r, w, tx, height, SpentBefore(txs, i));
    assert txs[i..][0] == tx && txs[i..][1..] == txs[i + 1..];
  }

  /** The transactions pass exactly then, from any of them on. */
  lemma {:induction false} TxsPass(r: Rules, v: View, txs: seq<Tx>, height: nat, i: nat)
    requires i <= |txs| && TxsOk(r, v, txs, height, i)
    ensures var fees := FeeSum(r, v, txs, height, i);
            && 0 <= fees
            && var res := CheckTxs(r, ViewAt(r, v, txs, height, i), txs[i..], height, SpentBefore(txs, i), fees);
            && (res.Ok? <==> TxsOk(r, v, txs, height, |txs|))
            && (res.Ok? ==> res.value == FeeSum(r, v, txs, height, |txs|))
    decreases |txs| - i
  {
    hide TxOk, ViewAt, SpentBefore, CheckTx, ViewApply, TxsOk, FeeSum, CheckTxs;
    if i == |txs| {
      AllPassed(r, v, txs, height);
    } else {
      OneMore(r, v, txs, height, i);
      if TxsOk(r, v, txs, height, i + 1) {
        TxsPass(r, v, txs, height, i + 1);
      } else {
        NoneLater(r, v, txs, height, i + 1);
      }
      TxPasses(r, ViewAt(r, v, txs, height, i), txs[i], height, SpentBefore(txs, i));
    }
  }

  lemma AllPassed(r: Rules, v: View, txs: seq<Tx>, height: nat)
    requires TxsOk(r, v, txs, height, |txs|)
    ensures var n, fees := |txs|, FeeSum(r, v, txs, height, |txs|);
            && 0 <= fees
            && CheckTxs(r, ViewAt(r, v, txs, height, n), txs[n..], height, SpentBefore(txs, n), fees) == Ok(fees)
  {
    hide TxOk, ViewAt, SpentBefore;
    FeesGrow(r, v, txs, height, |txs|, |txs|);
  }

  /** What does not pass up to here does not pass. */
  lemma NoneLater(r: Rules, v: View, txs: seq<Tx>, height: nat, i: nat)
    requires i <= |txs| && !TxsOk(r, v, txs, height, i)
    ensures !TxsOk(r, v, txs, height, |txs|)
  {
    hide TxOk, ViewAt, SpentBefore, FeeSum;
    if TxsOk(r, v, txs, height, |txs|) { FeesGrow(r, v, txs, height, i, |txs|); }
  }

  lemma FeeIs(r: Rules, v: View, tx: Tx, height: nat, seen: set<OutPoint>)
    ensures TxOk(r, v, tx, height, seen) ==> Inputs(tx) == tx.inputs && 0 <= Fee(v, tx)
  {
  }

  lemma NextView(r: Rules, v: View, txs: seq<Tx>, height: nat, i: nat)
    requires i < |txs|
    ensures ViewAt(r, v, txs, height, i + 1) == ViewApply(r, ViewAt(r, v, txs, height, i), txs[i], height)
    ensures SpentBefore(txs, i + 1) == SpentBefore(txs, i) + ToSet(Inputs(txs[i]))
  {
    assert Front(txs[..i + 1]) == txs[..i];
  }

  /** The rules on transactions and coinbase, side by side. */
  ghost predicate BodyOk(r: Rules, s: State, b: Block, height: nat)
    requires |b.txs| > 0
  {
    var v, txs, coinbase := StartView(s.utxo), b.txs[1..], b.txs[0];
    var allowed := Emission.Subsidy(height) + FeeSum(r, v, txs, height, |txs|);
    && TxsOk(r, v, txs, height, |txs|) && b.uncles == [] && HasMarker(coinbase, height) && r.coinbaseOk(b, height)
    && |coinbase.outputs| == 1 && coinbase.outputs[0].lock == b.header.miner
    && coinbase.outputs[0].value <= allowed < U64_LIMIT
    && s.issued <= Emission.MAX_SUPPLY
    && s.issued + coinbase.outputs[0].value - FeeSum(r, v, txs, height, |txs|) <= Emission.MAX_SUPPLY
  }

  /** A body passes exactly when all of them hold. */
  lemma BodyPasses(r: Rules, s: State, b: Block, height: nat)
    requires |b.txs| > 0
    ensures CheckBody(r, s, b, height).Ok? <==> BodyOk(r, s, b, height)
    ensures CheckBody(r, s, b, height).Ok? ==>
              CheckBody(r, s, b, height).value == FeeSum(r, StartView(s.utxo), b.txs[1..], height, |b.txs| - 1)
  {
    hide CheckTxs, TxOk, ViewAt, HasMarker;
    var v, txs := StartView(s.utxo), b.txs[1..];
    assert txs[0..] == txs;
    StartsThere(r, v, txs, height);
    TxsPass(r, v, txs, height, 0);
    if |b.txs[0].outputs| == 1 { OneOutputSum(b.txs[0].outputs); }
  }

  lemma StartsThere(r: Rules, v: View, txs: seq<Tx>, height: nat)
    ensures ViewAt(r, v, txs, height, 0) == v && SpentBefore(txs, 0) == {}
  {
  }

  lemma OneOutputSum(outputs: seq<Output>)
    requires |outputs| == 1
    ensures OutputSum(outputs) == outputs[0].value
  {
    assert outputs[1..] == [];
  }

  // ------------------------------------------------------------------
  // What acceptance guarantees
  // ------------------------------------------------------------------

  lemma {:induction false} InputsAccepted(v: View, inputs: seq<OutPoint>, height: nat, seen: set<OutPoint>, total: nat)
    requires CheckInputs(v, inputs, height, seen, total).Ok?
    ensures forall o | o in inputs :: o !in seen && Lookup(v, o).Some?
    ensures forall i, j | 0 <= i < j < |inputs| :: inputs[i] != inputs[j]
    decreases inputs
  {
    if inputs != [] {
      var e := Lookup(v, inputs[0]).value;
      InputsAccepted(v, inputs[1..], height, seen + {inputs[0]}, total + e.output.value);
    }
  }

  /** The total the inputs were counted for is what they are worth. */
  lemma {:induction false} InputsValue(v: View, u: Utxo, inputs: seq<OutPoint>, height: nat, seen: set<OutPoint>,
                                       total: nat)
    requires CheckInputs(v, inputs, height, seen, total).Ok?
    requires forall o | o in inputs :: o in u && Lookup(v, o) == Some(u[o])
    ensures CheckInputs(v, inputs, height, seen, total).value == total + Value(u, inputs)
    decreases inputs
  {
    if inputs != [] {
      var o := inputs[0];
      InputsAccepted(v, inputs, height, seen, total);
      forall p | p in inputs[1..]
        ensures p in u - {o} && (u - {o})[p] == u[p]
      {
      }
      InputsValue(v, u - {o}, inputs[1..], height, seen + {o}, total + u[o].output.value);
    }
  }

  /** The block view shows exactly the running set, less the coinbase `cb` of the block. */
  ghost predicate Linked(v: View, u: Utxo, cb: Utxo) {
    && (forall o | o in u && o !in cb :: Lookup(v, o) == Some(u[o]))
    && (forall o :: Lookup(v, o).Some? ==> o in u && o !in cb)
  }

  ghost predicate IdsKnown(r: Rules, txs: seq<Tx>, points: set<OutPoint>) {
    forall o | o in points :: Known(r, txs, o.txid)
  }

  lemma IdsKnownGrows(r: Rules, txs: seq<Tx>, tx: Tx, points: set<OutPoint>)
    requires IdsKnown(r, txs, points)
    ensures IdsKnown(r, txs + [tx], points)
  {
    hide Known;
    forall o | o in points
      ensures Known(r, txs + [tx], o.txid)
    {
      KnownGrows(r, txs, tx, o.txid);
    }
  }

  lemma LinkedStep(r: Rules, txs: seq<Tx>, v: View, u: Utxo, cb: Utxo, tx: Tx, height: nat)
    requires Linked(v, u, cb)
    requires forall o | o in Inputs(tx) :: o in u && o !in cb
    requires IdsKnown(r, txs, v.spent) && IdsKnown(r, txs, cb.Keys) && IdsKnown(r, txs, u.Keys)
    requires !Known(r, txs, r.txid(tx))
    ensures Linked(ViewApply(r, v, tx, height), ApplyTx(r, u, tx, height), cb)
  {
    hide Known, Created, SpendAll, IdsKnown, Linked, ViewApply, ApplyTx;
    forall o
      ensures var after := ApplyTx(r, u, tx, height);
              Lookup(ViewApply(r, v, tx, height), o) == if o in after && o !in cb then Some(after[o]) else None
    {
      if o in Created(r, tx, height) {
        LinkedNew(r, txs, v, u, cb, tx, height, o);
      } else {
        LinkedOld(r, v, u, cb, tx, height, o);
      }
    }
    LinkedIs(ViewApply(r, v, tx, height), ApplyTx(r, u, tx, height), cb);
  }

  lemma LinkedIs(v: View, u: Utxo, cb: Utxo)
    ensures Linked(v, u, cb) <==> forall o :: Lookup(v, o) == if o in u && o !in cb then Some(u[o]) else None
  {
    hide Lookup;
  }

  /** An output just made is in both. */
  lemma LinkedNew(r: Rules, txs: seq<Tx>, v: View, u: Utxo, cb: Utxo, tx: Tx, height: nat, o: OutPoint)
    requires (forall i | i in Inputs(tx) :: i in u) && o in Created(r, tx, height) && !Known(r, txs, r.txid(tx))
    requires IdsKnown(r, txs, v.spent) && IdsKnown(r, txs, cb.Keys) && IdsKnown(r, txs, u.Keys)
    ensures var after := ApplyTx(r, u, tx, height);
            o in after && o !in cb && Lookup(ViewApply(r, v, tx, height), o) == Some(after[o])
  {
    hide Known, Created, SpendAll;
    CreatedIs(r, tx, height);
  }

  /** Any other is there if it was, and is not spent. */
  lemma LinkedOld(r: Rules, v: View, u: Utxo, cb: Utxo, tx: Tx, height: nat, o: OutPoint)
    requires Linked(v, u, cb) && o !in Created(r, tx, height)
    ensures var after := ApplyTx(r, u, tx, height);
            Lookup(ViewApply(r, v, tx, height), o) == if o in after && o !in cb then Some(after[o]) else None
  {
    hide Created, SpendAll;
    SpendAllIs(u, Inputs(tx));
  }

  /** Everything the proof keeps between two transactions of a block: the ids
      are unique, the view is exact, and `undo` records the way back to `u0`. */
  ghost predicate MidBlock(r: Rules, txs: seq<Tx>, u0: Utxo, u: Utxo, cb: Utxo, v: View, undo: Undo, height: nat) {
    && Unique(r, txs, u, height)
    && Linked(v, u, cb)
    && IdsKnown(r, txs, v.spent) && IdsKnown(r, txs, cb.Keys) && IdsKnown(r, txs, u0.Keys)
    && Tracks(u0, u, undo)
  }

  /** One accepted transaction. */
  lemma AcceptedTx(r: Rules, txs: seq<Tx>, u0: Utxo, u: Utxo, cb: Utxo, v: View, undo: Undo,
                   tx: Tx, height: nat, seen: set<OutPoint>)
    requires TxidOk(r)
    requires MidBlock(r, txs, u0, u, cb, v, undo, height + 1)
    requires CheckTx(r, v, tx, height, seen).Ok?
    ensures MidBlock(r, txs + [tx], u0, ApplyTx(r, u, tx, height), cb,
                     ViewApply(r, v, tx, height), RecordTx(r, u, tx, undo), height + 1)
    ensures Total(ApplyTx(r, u, tx, height)) + CheckTx(r, v, tx, height, seen).value == Total(u)
  {
    hide Created, Known, Unique, SpendAll, Total, Linked, CheckInputs, ApplyTx, RecordTx, Value, Lookup;
    InputsAccepted(v, tx.inputs, height, seen, 0);
    InputsLinked(v, u, cb, tx.inputs);
    InputsValue(v, u, tx.inputs, height, seen, 0);
    SpendIsFresh(r, txs, u, tx, height + 1);
    UniqueStep(r, txs, u, tx, height + 1, height, height + 1);
    UniqueIdsKnown(r, txs, u, height + 1);
    LinkedStep(r, txs, v, u, cb, tx, height);
    CreatedIs(r, tx, height);
    TracksStep(r, u0, u, undo, tx, height);
    TotalStep(r, u, tx, height);
    IdsKnownGrows(r, txs, tx, v.spent);
    IdsKnownGrows(r, txs, tx, cb.Keys);
    IdsKnownGrows(r, txs, tx, u0.Keys);
    InputIdsKnown(r, txs, tx, u);
  }

  lemma InputsLinked(v: View, u: Utxo, cb: Utxo, inputs: seq<OutPoint>)
    requires Linked(v, u, cb)
    requires forall o | o in inputs :: Lookup(v, o).Some?
    ensures forall o | o in inputs :: o in u && o !in cb && Lookup(v, o) == Some(u[o])
  {
    hide Lookup;
  }

  lemma UniqueIdsKnown(r: Rules, txs: seq<Tx>, u: Utxo, height: nat)
    requires Unique(r, txs, u, height)
    ensures IdsKnown(r, txs, u.Keys)
  {
    hide Known;
  }

  lemma InputIdsKnown(r: Rules, txs: seq<Tx>, tx: Tx, u: Utxo)
    requires IdsKnown(r, txs, u.Keys)
    requires forall o | o in Inputs(tx) :: o in u
    ensures IdsKnown(r, txs + [tx], ToSet(Inputs(tx)))
  {
    hide Known;
    IdsKnownGrows(r, txs, tx, u.Keys);
  }

  /** All the transactions after the coinbase: ids stay unique, the record
      stays exact, and the total drops by exactly the fees. */
  lemma {:induction false} AcceptedTxs(r: Rules, done: seq<Tx>, u0: Utxo, u: Utxo, cb: Utxo, v: View, undo: Undo,
                                       txs: seq<Tx>, height: nat, seen: set<OutPoint>, fees: nat)
    requires TxidOk(r)
    requires MidBlock(r, done, u0, u, cb, v, undo, height + 1)
    requires CheckTxs(r, v, txs, height, seen, fees).Ok?
    ensures Unique(r, done + txs, ApplyTxs(r, u, txs, height), height + 1)
    ensures Tracks(u0, ApplyTxs(r, u, txs, height), RecordTxs(r, u, txs, height, undo))
    ensures Total(ApplyTxs(r, u, txs, height)) + CheckTxs(r, v, txs, height, seen, fees).value == Total(u) + fees
    decreases txs
  {
    hide Unique, Tracks, Total, Linked, IdsKnown, CheckTx, ApplyTx, RecordTx;
    if txs == [] {
      assert done + txs == done;
    } else {
      var tx := txs[0];
      AcceptedTx(r, done, u0, u, cb, v, undo, tx, height, seen);
      var fee := CheckTx(r, v, tx, height, seen).value;
      AcceptedTxs(r, done + [tx], u0, ApplyTx(r, u, tx, height), cb, ViewApply(r, v, tx, height),
                  RecordTx(r, u, tx, undo), txs[1..], height, seen + ToSet(Inputs(tx)), fees + fee);
      assert done + [tx] + txs[1..] == done + txs;
    }
  }
}
