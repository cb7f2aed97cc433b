/** Where money comes from, over every valid chain: what a transaction consumes
    was created by an earlier one, and a coinbase rests 200 blocks before it is
    spent (src/validate.rs, src/utxo.rs). */
module Coins {
  import opened Prelude
  import opened Ledger
  import opened Validation
  import opened History
  import opened Index

  /** Output `o` is one of transaction `i` of block `g`, and its entry says so. */
  ghost predicate Origin(r: Rules, hist: seq<Block>, o: OutPoint, e: Entry, g: nat, i: nat) {
    && g < |hist| && i < |hist[g].txs|
    && var tx := hist[g].txs[i];
    && o.txid == r.txid(tx) && o.index < |tx.outputs|
    && e == Entry(tx.outputs[o.index], g, i == 0)
  }

  ghost predicate HasOrigin(r: Rules, hist: seq<Block>, o: OutPoint, e: Entry) {
    exists g, i :: Origin(r, hist, o, e, g, i)
  }

  /** Everything in the set has one. */
  ghost predicate Traced(r: Rules, hist: seq<Block>, u: Utxo) {
    forall o | o in u :: HasOrigin(r, hist, o, u[o])
  }

  lemma OriginStays(r: Rules, hist: seq<Block>, b: Block, o: OutPoint, e: Entry)
    requires HasOrigin(r, hist, o, e)
    ensures HasOrigin(r, hist + [b], o, e)
  {
    var g, i :| Origin(r, hist, o, e, g, i);
    assert Origin(r, hist + [b], o, e, g, i);
  }

  lemma TracedStays(r: Rules, hist: seq<Block>, b: Block, u: Utxo)
    requires Traced(r, hist, u)
    ensures Traced(r, hist + [b], u)
  {
    hide HasOrigin;
    forall o | o in u
      ensures HasOrigin(r, hist + [b], o, u[o])
    {
      OriginStays(r, hist, b, o, u[o]);
    }
  }

  /** What a transaction of the last block creates is traced to it. */
  lemma CreatedTraced(r: Rules, hist: seq<Block>, i: nat)
    requires hist != [] && i < |Last(hist).txs| && (Last(hist).txs[i].Coinbase? <==> i == 0)
    ensures Traced(r, hist, Created(r, Last(hist).txs[i], |hist| - 1))
  {
    var u := Created(r, Last(hist).txs[i], |hist| - 1);
    forall o | o in u
      ensures HasOrigin(r, hist, o, u[o])
    {
      assert Origin(r, hist, o, u[o], |hist| - 1, i);
    }
  }

  lemma TracedUnion(r: Rules, hist: seq<Block>, u: Utxo, w: Utxo)
    requires Traced(r, hist, u) && Traced(r, hist, w)
    ensures Traced(r, hist, u + w)
  {
    hide HasOrigin;
  }

  /** Only the first transaction of the last block is a coinbase. */
  ghost predicate OneCoinbase(b: Block) {
    forall i | 0 <= i < |b.txs| :: b.txs[i].Coinbase? <==> i == 0
  }

  lemma ShapeOneCoinbase(r: Rules, b: Block)
    requires ShapeOk(r, b)
    ensures OneCoinbase(b) && |b.txs| > 0
  {
  }

  lemma {:induction false} ApplyTraced(r: Rules, hist: seq<Block>, u: Utxo, i: nat)
    requires hist != [] && i <= |Last(hist).txs| && OneCoinbase(Last(hist)) && Traced(r, hist, u)
    ensures Traced(r, hist, ApplyTxs(r, u, Last(hist).txs[i..], |hist| - 1))
    decreases |Last(hist).txs| - i
  {
    hide HasOrigin, Created, Traced, SpendAll;
    var txs := Last(hist).txs;
    if i < |txs| {
      SpendTraced(r, hist, u, Inputs(txs[i]));
      CreatedTraced(r, hist, i);
      TracedUnion(r, hist, SpendAll(u, Inputs(txs[i])), Created(r, txs[i], |hist| - 1));
      assert txs[i..][0] == txs[i] && txs[i..][1..] == txs[i + 1..];
      ApplyTraced(r, hist, ApplyTx(r, u, txs[i], |hist| - 1), i + 1);
    }
  }

  lemma SpendTraced(r: Rules, hist: seq<Block>, u: Utxo, inputs: seq<OutPoint>)
    requires Traced(r, hist, u)
    ensures Traced(r, hist, SpendAll(u, inputs))
  {
    hide HasOrigin, SpendAll;
    SpendAllIs(u, inputs);
  }

  /** The replay of a valid chain holds nothing but what its blocks created. */
  lemma {:induction false} ReplayTraced(r: Rules, hist: seq<Block>)
    requires RulesOk(r) && ValidHistory(r, hist)
    ensures Traced(r, hist, Replay(r, hist).utxo)
    decreases |hist|
  {
    hide HasOrigin, Traced, ApplyTxs, ShapeOk, CheckBody, HeaderFault, Headers, RulesOk;
    GenesisRules(r);
    var b, h := Last(hist), |hist| - 1;
    ShapeOneCoinbase(r, b);
    assert b.txs[0..] == b.txs;
    if h == 0 {
      EmptyTraced(r, hist);
      ApplyTraced(r, hist, map[], 0);
    } else {
      ReplayTraced(r, Front(hist));
      assert hist == Front(hist) + [b];
      TracedStays(r, Front(hist), b, Replay(r, Front(hist)).utxo);
      ApplyTraced(r, hist, Replay(r, Front(hist)).utxo, 0);
    }
  }

  lemma EmptyTraced(r: Rules, hist: seq<Block>)
    ensures Traced(r, hist, map[])
  {
  }

  // ------------------------------------------------------------------
  // What a block may spend
  // ------------------------------------------------------------------

  /** Created in a block before the last, or in the last by one of its first `k`
      transactions after the coinbase. */
  ghost predicate Before(r: Rules, hist: seq<Block>, o: OutPoint, e: Entry, k: nat) {
    exists g: nat, i: nat ::
      Origin(r, hist, o, e, g, i) && (g + 1 < |hist| || (g + 1 == |hist| && 0 < i <= k))
  }

  /** All that the view shows was created before. */
  ghost predicate Shows(r: Rules, hist: seq<Block>, v: View, k: nat) {
    forall o | Lookup(v, o).Some? :: Before(r, hist, o, Lookup(v, o).value, k)
  }

  lemma ShowsStart(r: Rules, hist: seq<Block>)
    requires hist != [] && Traced(r, Front(hist), Replay(r, Front(hist)).utxo)
    ensures Shows(r, hist, StartView(Replay(r, Front(hist)).utxo), 0)
  {
    hide Replay;
    var u := Replay(r, Front(hist)).utxo;
    forall o | o in u
      ensures Before(r, hist, o, u[o], 0)
    {
      var g, i :| Origin(r, Front(hist), o, u[o], g, i);
      assert Origin(r, hist, o, u[o], g, i);
    }
  }

  lemma ShowsNext(r: Rules, hist: seq<Block>, v: View, k: nat)
    requires hist != [] && k + 1 < |Last(hist).txs| && OneCoinbase(Last(hist)) && Shows(r, hist, v, k)
    ensures Shows(r, hist, ViewApply(r, v, Last(hist).txs[k + 1], |hist| - 1), k + 1)
  {
    var tx := Last(hist).txs[k + 1];
    var w := ViewApply(r, v, tx, |hist| - 1);
    forall o | Lookup(w, o).Some?
      ensures Before(r, hist, o, Lookup(w, o).value, k + 1)
    {
      if o in Created(r, tx, |hist| - 1) {
        assert Origin(r, hist, o, Lookup(w, o).value, |hist| - 1, k + 1);
      } else {
        assert Lookup(w, o) == Lookup(v, o);
        LaterToo(r, hist, o, Lookup(v, o).value, k);
      }
    }
  }

  lemma LaterToo(r: Rules, hist: seq<Block>, o: OutPoint, e: Entry, k: nat)
    requires Before(r, hist, o, e, k)
    ensures Before(r, hist, o, e, k + 1)
  {
  }

  lemma {:induction false} ShowsAt(r: Rules, hist: seq<Block>, k: nat)
    requires hist != [] && OneCoinbase(Last(hist)) && |Last(hist).txs| > k
    requires Traced(r, Front(hist), Replay(r, Front(hist)).utxo)
    ensures Shows(r, hist, ViewAt(r, StartView(Replay(r, Front(hist)).utxo), Last(hist).txs[1..], |hist| - 1, k), k)
  {
    hide Replay, Shows, ViewApply, ViewAt, Traced;
    var v, txs := StartView(Replay(r, Front(hist)).utxo), Last(hist).txs[1..];
    if k == 0 {
      StartsThere(r, v, txs, |hist| - 1);
      ShowsStart(r, hist);
    } else {
      ShowsAt(r, hist, k - 1);
      NextView(r, v, txs, |hist| - 1, k - 1);
      ShowsNext(r, hist, ViewAt(r, v, txs, |hist| - 1, k - 1), k - 1);
    }
  }

  /** The rules of its body hold of every block of a valid chain. */
  lemma EveryBody(r: Rules, hist: seq<Block>, h: nat)
    requires RulesOk(r) && ValidHistory(r, hist) && 0 < h < |hist|
    ensures ValidHistory(r, hist[..h]) && ShapeOk(r, hist[h]) && |hist[h].txs| > 0
    ensures BodyOk(r, Replay(r, hist[..h]), hist[h], h)
  {
    hide RulesOk, ValidHistory, CheckBody, HeaderFault, Headers, Replay, ContextAt, BodyOk;
    GenesisRules(r);
    HistoryLinks(r, hist, h);
    HistoryLinks(r, hist, h - 1);
    BodyPasses(r, Replay(r, hist[..h]), hist[h], h);
  }

  /** What transaction `j` of block `h` consumes was created by an earlier one, in
      an earlier block or in front of it in the same; and 200 blocks earlier at
      least if by a coinbase. */
  lemma InputsEarned(r: Rules, hist: seq<Block>, h: nat, j: nat, o: OutPoint) returns (g: nat, i: nat, e: Entry)
    requires RulesOk(r) && ValidHistory(r, hist)
    requires h < |hist| && j < |hist[h].txs| && o in Inputs(hist[h].txs[j])
    ensures Origin(r, hist, o, e, g, i) && (g < h || (g == h && 0 < i < j)) && (i == 0 ==> g + 200 <= h)
  {
    hide RulesOk, ValidHistory, Replay, Traced, Shows, ViewAt, ShapeOk, Lookup, Acceptable, Headers;
    NotGenesis(r, hist, h, j);
    EveryBody(r, hist, h);
    ShapeOneCoinbase(r, hist[h]);
    ReplayTraced(r, hist[..h]);
    var upTo := hist[..h + 1];
    assert Front(upTo) == hist[..h] && Last(upTo) == hist[h];
    ShowsAt(r, upTo, j - 1);
    var v := ViewAt(r, StartView(Replay(r, hist[..h]).utxo), hist[h].txs[1..], h, j - 1);
    assert TxOk(r, v, hist[h].txs[1..][j - 1], h, SpentBefore(hist[h].txs[1..], j - 1));
    assert Spendable(v, o, h);
    e := Lookup(v, o).value;
    g, i := WhereFrom(r, upTo, v, o, j - 1);
    assert upTo[g] == hist[g];
  }

  lemma WhereFrom(r: Rules, hist: seq<Block>, v: View, o: OutPoint, k: nat) returns (g: nat, i: nat)
    requires Shows(r, hist, v, k) && Lookup(v, o).Some?
    ensures Origin(r, hist, o, Lookup(v, o).value, g, i) && (g + 1 < |hist| || (g + 1 == |hist| && 0 < i <= k))
  {
    hide Lookup, Origin;
    assert Before(r, hist, o, Lookup(v, o).value, k);
    g, i :| Origin(r, hist, o, Lookup(v, o).value, g, i) && (g + 1 < |hist| || (g + 1 == |hist| && 0 < i <= k));
  }

  /** A coinbase consumes nothing, and genesis is one. */
  lemma NotGenesis(r: Rules, hist: seq<Block>, h: nat, j: nat)
    requires RulesOk(r) && ValidHistory(r, hist)
    requires h < |hist| && j < |hist[h].txs| && Inputs(hist[h].txs[j]) != []
    ensures 0 < h && 0 < j
  {
    hide RulesOk, ValidHistory, Acceptable, Headers, Replay;
    GenesisRules(r);
    HistoryLinks(r, hist, h);
  }

  /** Over every valid chain, what a coinbase pays rests 200 blocks. */
  lemma CoinbasesRest(r: Rules, hist: seq<Block>, g: nat, h: nat, j: nat, o: OutPoint)
    requires RulesOk(r) && ValidHistory(r, hist) && |hist| <= HEIGHT_LIMIT
    requires g < |hist| && |hist[g].txs| > 0 && o.txid == r.txid(hist[g].txs[0])
    requires h < |hist| && j < |hist[h].txs| && o in Inputs(hist[h].txs[j])
    ensures g + 200 <= h
  {
    hide RulesOk, ValidHistory;
    var g', i, e := InputsEarned(r, hist, h, j, o);
    OneMint(r, hist, g, g', i);
  }

  /** No transaction but itself has the id of a coinbase. */
  lemma OneMint(r: Rules, hist: seq<Block>, g: nat, g': nat, i: nat)
    requires RulesOk(r) && ValidHistory(r, hist) && |hist| <= HEIGHT_LIMIT
    requires g < |hist| && |hist[g].txs| > 0 && g' < |hist| && i < |hist[g'].txs|
    requires r.txid(hist[g].txs[0]) == r.txid(hist[g'].txs[i])
    ensures g' == g && i == 0
  {
    hide RulesOk, ValidHistory, HasMarker, ShapeOk;
    CoinbaseAt(r, hist, g);
    CoinbaseAt(r, hist, g');
    SameCore(r, hist[g].txs[0], hist[g'].txs[i]);
    MarkerIsHeight(hist[g].txs[0], g, g');
  }

  lemma SameCore(r: Rules, a: Tx, b: Tx)
    requires RulesOk(r) && r.txid(a) == r.txid(b) && a.Coinbase?
    ensures a == b
  {
    assert Core(a) == Core(b);
  }

  lemma MarkerIsHeight(t: Tx, g: nat, g': nat)
    ensures HasMarker(t, g) && HasMarker(t, g') ==> g == g'
  {
  }

  /** The coinbase of each block, and no other transaction, is one, with its height. */
  lemma CoinbaseAt(r: Rules, hist: seq<Block>, g: nat)
    requires RulesOk(r) && ValidHistory(r, hist) && |hist| <= HEIGHT_LIMIT && g < |hist|
    ensures OneCoinbase(hist[g]) && |hist[g].txs| > 0
    ensures g > 0 ==> HasMarker(hist[g].txs[0], g)
    ensures g == 0 ==> forall k | 1 <= k < |hist| :: !HasMarker(hist[g].txs[0], k)
  {
    hide RulesOk, ValidHistory, Replay, HasMarker, TxsOk, Acceptable, Headers;
    GenesisRules(r);
    HistoryLinks(r, hist, g);
    if g > 0 {
      EveryBody(r, hist, g);
      ShapeOneCoinbase(r, hist[g]);
    } else {
      ShapeOneCoinbase(r, r.genesis);
    }
  }

  /** Over every valid chain: one coinbase a block, in front; every transaction pays
      something out, within the cap; every other one spends something; and the roots
      in the header are those of the transactions and the uncles. */
  lemma EveryShape(r: Rules, hist: seq<Block>, h: nat, i: nat)
    requires RulesOk(r) && ValidHistory(r, hist) && h < |hist| && i < |hist[h].txs|
    ensures var b, t := hist[h], hist[h].txs[i];
            && (t.Coinbase? <==> i == 0)
            && t.outputs != [] && OutputSum(t.outputs) <= 2_100_000_100_000_000
            && (t.Spend? ==> t.inputs != [])
            && b.header.merkleRoot == r.merkle(b.txs) && b.header.unclesRoot == r.unclesRoot(b.uncles)
  {
    hide RulesOk, ValidHistory, Replay, TxsOk, Acceptable, Headers, BodyOk;
    GenesisRules(r);
    HistoryLinks(r, hist, h);
    if h > 0 { EveryBody(r, hist, h); }
    assert hist[h].txs[i] in hist[h].txs;
  }

  // ------------------------------------------------------------------
  // Once
  // ------------------------------------------------------------------

  /** What the view shows and the set before the block does not have, one of the
      first transactions of the block created. */
  lemma {:induction false} CreatedHere(r: Rules, u: Utxo, txs: seq<Tx>, height: nat, k: nat, o: OutPoint)
    returns (i: nat)
    requires k <= |txs| && o !in u && Lookup(ViewAt(r, StartView(u), txs, height, k), o).Some?
    ensures i < k && o.txid == r.txid(txs[i])
  {
    hide ViewAt;
    StartsThere(r, StartView(u), txs, height);
    if k > 0 {
      NextView(r, StartView(u), txs, height, k - 1);
      if o.txid == r.txid(txs[k - 1]) {
        i := k - 1;
      } else {
        i := CreatedHere(r, u, txs, height, k - 1, o);
      }
    }
  }

  lemma {:induction false} InHistory(hist: seq<Block>, t: Tx) returns (g: nat, m: nat)
    requires t in AllTxs(hist)
    ensures g < |hist| && m < |hist[g].txs| && hist[g].txs[m] == t
  {
    var b := Last(hist);
    if t in b.txs {
      m :| m < |b.txs| && b.txs[m] == t;
      g := |hist| - 1;
    } else {
      g, m := InHistory(Front(hist), t);
    }
  }

  lemma {:induction false} HistoryHas(hist: seq<Block>, g: nat, m: nat)
    requires g < |hist| && m < |hist[g].txs|
    ensures hist[g].txs[m] in AllTxs(hist)
  {
    if g + 1 < |hist| { HistoryHas(Front(hist), g, m); }
  }

  /** The input passed at its place. */
  lemma PassedAt(r: Rules, hist: seq<Block>, h: nat, j: nat, o: OutPoint)
    requires RulesOk(r) && ValidHistory(r, hist)
    requires h < |hist| && j < |hist[h].txs| && o in Inputs(hist[h].txs[j])
    ensures 0 < h && 0 < j && ValidHistory(r, hist[..h]) && hist[h].txs[j].Spend?
    ensures Lookup(ViewAt(r, StartView(Replay(r, hist[..h]).utxo), hist[h].txs[1..], h, j - 1), o).Some?
    ensures o !in SpentBefore(hist[h].txs[1..], j - 1)
  {
    hide RulesOk, ValidHistory, Replay, ViewAt, ShapeOk, Lookup, SpentBefore;
    NotGenesis(r, hist, h, j);
    EveryBody(r, hist, h);
    var v := ViewAt(r, StartView(Replay(r, hist[..h]).utxo), hist[h].txs[1..], h, j - 1);
    assert TxOk(r, v, hist[h].txs[1..][j - 1], h, SpentBefore(hist[h].txs[1..], j - 1));
    assert Spendable(v, o, h);
  }

  /** Over every valid chain, no output is consumed twice. */
  lemma {:induction false} SpentOnce(r: Rules, hist: seq<Block>, g: nat, m: nat, h: nat, j: nat, o: OutPoint)
    requires RulesOk(r) && ValidHistory(r, hist) && |hist| <= HEIGHT_LIMIT
    requires g < |hist| && m < |hist[g].txs| && o in Inputs(hist[g].txs[m])
    requires h < |hist| && j < |hist[h].txs| && o in Inputs(hist[h].txs[j]) && g <= h
    ensures g == h && m == j
    decreases j
  {
    hide RulesOk, ValidHistory, Replay, ViewAt, Lookup, Unique, Total, Inputs;
    PassedAt(r, hist, h, j, o);
    PassedAt(r, hist, g, m, o);
    if g == h {
      NotTwice(hist[h].txs, m, j, o);
    } else {
      var t, i := Again(r, hist, g, m, h, j, o);
      var g', m' := InHistory(hist[..h], t);
      var o' := SameInput(r, hist, t, h, i);
      SpentOnce(r, hist, g', m', h, i, o');
    }
  }

  lemma NotTwice(txs: seq<Tx>, m: nat, j: nat, o: OutPoint)
    requires 0 < m < |txs| && 0 < j < |txs| && o in Inputs(txs[m]) && o in Inputs(txs[j])
    requires o !in SpentBefore(txs[1..], j - 1) && o !in SpentBefore(txs[1..], m - 1)
    ensures m == j
  {
    assert txs[1..][m - 1] == txs[m] && txs[1..][j - 1] == txs[j];
  }

  /** Consumed in an earlier block, it could be visible only if a transaction of
      this block had the id of an earlier one. */
  lemma Again(r: Rules, hist: seq<Block>, g: nat, m: nat, h: nat, j: nat, o: OutPoint) returns (t: Tx, i: nat)
    requires RulesOk(r) && ValidHistory(r, hist) && |hist| <= HEIGHT_LIMIT && g < h < |hist|
    requires m < |hist[g].txs| && o in Inputs(hist[g].txs[m]) && 0 < j < |hist[h].txs| && ValidHistory(r, hist[..h])
    requires Lookup(ViewAt(r, StartView(Replay(r, hist[..h]).utxo), hist[h].txs[1..], h, j - 1), o).Some?
    ensures t in AllTxs(hist[..h]) && 0 < i < j && r.txid(t) == r.txid(hist[h].txs[i])
  {
    hide RulesOk, ValidHistory, Replay, ViewAt, Lookup, Total;
    LedgerSound(r, hist[..h]);
    HistoryHas(hist[..h], g, m);
    var k := CreatedHere(r, Replay(r, hist[..h]).utxo, hist[h].txs[1..], h, j - 1, o);
    i := k + 1;
    t :| t in AllTxs(hist[..h]) && r.txid(t) == o.txid;
  }

  lemma SameInput(r: Rules, hist: seq<Block>, t: Tx, h: nat, i: nat) returns (o: OutPoint)
    requires RulesOk(r) && ValidHistory(r, hist) && h < |hist| && 0 < h && 0 < i < |hist[h].txs|
    requires r.txid(t) == r.txid(hist[h].txs[i])
    ensures o in Inputs(t) && o in Inputs(hist[h].txs[i])
  {
    hide ValidHistory, Replay;
    EveryBody(r, hist, h);
    var tx := hist[h].txs[i];
    assert tx == hist[h].txs[1..][i - 1] && tx.Spend? && tx.inputs != [];
    assert Core(t) == Core(tx);
    o := tx.inputs[0];
  }
}
