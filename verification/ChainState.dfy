/** What the fields of a chain have to do with the blocks it stands for. */
module ChainState {
  import opened Prelude
  import opened Ledger
  import opened Validation
  import opened History
  import opened Index
  import Emission

  const MAX_REORG_DEPTH: nat := 720
  const BODY_WINDOW: nat := MAX_REORG_DEPTH + 288

  // ------------------------------------------------------------------
  // The undo window
  // ------------------------------------------------------------------

  /** One record for each of the newest blocks, in their order. */
  ghost predicate UndosOk(r: Rules, hist: seq<Block>, undos: seq<Undo>) {
    && |undos| <= |hist|
    && |undos| <= BODY_WINDOW
    && (forall j | 0 <= j < |undos| :: undos[j] == UndoOf(r, hist[..|hist| - |undos| + j + 1]))
  }

  /** The emission column is exact over the undo window and one block below it. */
  ghost predicate IssuedOk(r: Rules, t: Tree, hist: seq<Block>, window: nat) {
    forall h | 0 <= h < |hist| && |hist| - 1 - window <= h ::
      r.blockId(hist[h].header) in t
      && t[r.blockId(hist[h].header)].issued == Replay(r, hist[..h + 1]).issued
  }

  /** Everything a chain keeps in agreement: the index is a tree that holds the
      active blocks, the active list is their ids, the unspent outputs and the
      counter are their replay, and the records reach back from there. */
  ghost predicate CoreOk(r: Rules, t: Tree, hist: seq<Block>, active: seq<Id>, s: State, undos: seq<Undo>) {
    && RulesOk(r)
    && TreeOk(r, t)
    && ValidHistory(r, hist)
    && Indexed(r, t, hist)
    && active == Ids(r, hist)
    && s == Replay(r, hist)
    && UndosOk(r, hist, undos)
    && IssuedOk(r, t, hist, |undos|)
  }

  function PushUndo(undos: seq<Undo>, u: Undo): seq<Undo> {
    if |undos| + 1 > BODY_WINDOW then (undos + [u])[1..] else undos + [u]
  }

  lemma UndosPush(r: Rules, hist: seq<Block>, undos: seq<Undo>, b: Block)
    requires UndosOk(r, hist, undos) && |hist| > 0
    ensures UndosOk(r, hist + [b], PushUndo(undos, UndoOf(r, hist + [b])))
    ensures |PushUndo(undos, UndoOf(r, hist + [b]))| == Min(|undos| + 1, BODY_WINDOW)
  {
    hide UndoOf;
    var all := hist + [b];
    var next := PushUndo(undos, UndoOf(r, all));
    forall j | 0 <= j < |next|
      ensures next[j] == UndoOf(r, all[..|all| - |next| + j + 1])
    {
      var n := |all| - |next| + j + 1;
      if n == |all| {
        assert all[..n] == all;
      } else {
        assert all[..n] == hist[..n];
      }
    }
  }

  lemma UndosPop(r: Rules, hist: seq<Block>, undos: seq<Undo>)
    requires UndosOk(r, hist, undos) && |undos| > 0
    ensures UndosOk(r, Front(hist), Front(undos))
    ensures Last(undos) == UndoOf(r, hist)
  {
    hide UndoOf;
    assert hist[..|hist|] == hist;
    forall j | 0 <= j < |undos| - 1
      ensures undos[j] == UndoOf(r, Front(hist)[..|hist| - |undos| + j + 1])
    {
      assert Front(hist)[..|hist| - |undos| + j + 1] == hist[..|hist| - |undos| + j + 1];
    }
  }

  // ------------------------------------------------------------------
  // Connecting
  // ------------------------------------------------------------------

  /** The index entry of a block connected on the tip. */
  function ConnectedNode(r: Rules, t: Tree, b: Block, issued: nat): Node
    requires b.header.prev in t
  {
    Node(b.header, AddWork(t[b.header.prev].work, r.work(b.header.bits)), issued)
  }

  /** Being a tree does not depend on the emission column. */
  lemma SameTreeOk(r: Rules, t: Tree, t': Tree)
    requires TreeOk(r, t) && SameTree(t, t')
    ensures TreeOk(r, t')
  {
    hide AddWork;
    forall id | id in t' && id != GenesisId(r)
      ensures t'[id].header.prev in t' && Follows(r, t'[id], t'[t'[id].header.prev])
    {
      assert id in t;
      var p := t[id].header.prev;
      assert p in t && p in t';
    }
  }

  lemma TreeGrow(r: Rules, t: Tree, n: Node)
    requires TreeOk(r, t) && r.blockId(n.header) !in t
    requires n.header.prev in t && n.header.height < HEIGHT_LIMIT && Follows(r, n, t[n.header.prev])
    ensures TreeOk(r, t[r.blockId(n.header) := n])
  {
    hide Follows;
    var g := r.blockId(n.header);
    var t' := t[g := n];
    forall id | id in t' && id != GenesisId(r)
      ensures t'[id].header.prev in t' && Follows(r, t'[id], t'[t'[id].header.prev])
    {
      if id != g { assert id in t; }
    }
  }

  lemma TreeInsert(r: Rules, t: Tree, n: Node)
    requires RulesOk(r) && TreeOk(r, t)
    requires n.header.prev in t && n.header.height < HEIGHT_LIMIT && Follows(r, n, t[n.header.prev])
    ensures TreeOk(r, t[r.blockId(n.header) := n])
    ensures r.blockId(n.header) in t ==> SameTree(t, t[r.blockId(n.header) := n])
    ensures r.blockId(n.header) != GenesisId(r)
  {
    hide GenesisOk, TreeOk;
    var id := r.blockId(n.header);
    GenesisHeight(r);
    assert id != GenesisId(r);
    if id in t {
      TreeNode(r, t, id);
      assert t[id].header == n.header;
      SameTreeOk(r, t, t[id := n]);
    } else {
      TreeGrow(r, t, n);
    }
  }

  lemma GenesisHeight(r: Rules)
    requires RulesOk(r)
    ensures r.genesis.header.height == 0
  {
  }

  lemma IssuedPush(r: Rules, t: Tree, hist: seq<Block>, window: nat, b: Block, n: Node, newWindow: nat)
    requires RulesOk(r) && TreeOk(r, t) && ValidHistory(r, hist + [b]) && |hist| > 0
    requires IssuedOk(r, t, hist, window) && newWindow <= window + 1
    requires n.header == b.header && n.issued == Replay(r, hist + [b]).issued
    ensures IssuedOk(r, t[r.blockId(b.header) := n], hist + [b], newWindow)
  {
    hide Replay, ValidHistory, ShapeOk, TreeOk;
    var all := hist + [b];
    var id := r.blockId(b.header);
    forall h | 0 <= h < |all| && |all| - 1 - newWindow <= h
      ensures r.blockId(all[h].header) in t[id := n]
      ensures t[id := n][r.blockId(all[h].header)].issued == Replay(r, all[..h + 1]).issued
    {
      if h == |hist| {
        assert all[..h + 1] == all;
      } else {
        assert all[..h + 1] == hist[..h + 1];
        HistoryLinks(r, all, h);
        HistoryLinks(r, all, |hist|);
        assert all[h].header.height != b.header.height;
      }
    }
  }

  lemma StepReplay(r: Rules, hist: seq<Block>, b: Block)
    requires |hist| > 0
    ensures Replay(r, hist + [b]) == Step(r, Replay(r, hist), b, |hist|)
    ensures UndoOf(r, hist + [b]) == RecordTxs(r, Replay(r, hist).utxo, b.txs, |hist|, NOTHING_UNDONE)
  {
    assert Front(hist + [b]) == hist;
    assert Last(hist + [b]) == b;
  }

  lemma ExtendHistory(r: Rules, hist: seq<Block>, b: Block)
    requires ValidHistory(r, hist)
    ensures ValidHistory(r, hist + [b]) <==> Acceptable(r, Headers(hist), Replay(r, hist), b)
  {
    hide Acceptable, Replay;
    assert Front(hist + [b]) == hist;
    assert Last(hist + [b]) == b;
  }

  /** Attaching an acceptable block to the tip keeps everything in agreement. */
  lemma ConnectKeeps(r: Rules, t: Tree, hist: seq<Block>, active: seq<Id>, s: State, undos: seq<Undo>, b: Block)
    requires CoreOk(r, t, hist, active, s, undos) && 0 < |hist| < HEIGHT_LIMIT
    requires Acceptable(r, Headers(hist), s, b)
    ensures b.header.prev in t && b.header.prev == Last(active)
    ensures var s' := Step(r, s, b, |hist|);
            var u := RecordTxs(r, s.utxo, b.txs, |hist|, NOTHING_UNDONE);
            var id := r.blockId(b.header);
            var t' := t[id := ConnectedNode(r, t, b, s'.issued)];
            && CoreOk(r, t', hist + [b], active + [id], s', PushUndo(undos, u))
            && |PushUndo(undos, u)| == Min(|undos| + 1, BODY_WINDOW)
            && (id in t ==> SameTree(t, t'))
  {
    hide Replay, ValidHistory, Acceptable, UndoOf, TreeOk, RecordTxs, Step, RulesOk, UndosOk, IssuedOk, Indexed,
         Headers, PushUndo, SameTree, ConnectedNode, Ids;
    StepReplay(r, hist, b);
    ConnectTree(r, t, hist, s, b, Step(r, s, b, |hist|).issued);
    UndosPush(r, hist, undos, b);
    ExtendHistory(r, hist, b);
    var next := PushUndo(undos, UndoOf(r, hist + [b]));
    var n := ConnectedNode(r, t, b, Step(r, s, b, |hist|).issued);
    IssuedPush(r, t, hist, |undos|, b, n, |next|);
    IndexedPush(r, t, hist, b, n);
  }

  lemma ConnectTree(r: Rules, t: Tree, hist: seq<Block>, s: State, b: Block, issued: nat)
    requires RulesOk(r) && TreeOk(r, t) && ValidHistory(r, hist) && Indexed(r, t, hist) && 0 < |hist| < HEIGHT_LIMIT
    requires Acceptable(r, Headers(hist), s, b)
    ensures b.header.prev in t && b.header.prev == Last(Ids(r, hist))
    ensures var n := ConnectedNode(r, t, b, issued);
            var id := r.blockId(b.header);
            && n.header == b.header && n.issued == issued
            && TreeOk(r, t[id := n])
            && (id in t ==> SameTree(t, t[id := n]))
  {
    hide ValidHistory, Acceptable, TreeOk, RulesOk, SameTree, Headers, AddWork;
    AcceptableLinks(r, hist, s, b);
    ActiveNode(r, t, hist, |hist| - 1);
    TreeInsert(r, t, ConnectedNode(r, t, b, issued));
  }

  lemma HistoryNonempty(r: Rules, hist: seq<Block>)
    requires ValidHistory(r, hist)
    ensures |hist| > 0
  {
  }

  lemma IndexedPush(r: Rules, t: Tree, hist: seq<Block>, b: Block, n: Node)
    requires Indexed(r, t, hist)
    ensures Indexed(r, t[r.blockId(b.header) := n], hist + [b])
    ensures Ids(r, hist + [b]) == Ids(r, hist) + [r.blockId(b.header)]
  {
  }

  // ------------------------------------------------------------------
  // Disconnecting
  // ------------------------------------------------------------------

  /** Popping the last record restores the previous state exactly, counter included. */
  lemma DisconnectKeeps(r: Rules, t: Tree, hist: seq<Block>, active: seq<Id>, s: State, undos: seq<Undo>)
    requires CoreOk(r, t, hist, active, s, undos) && |hist| >= 2 && |undos| > 0
    ensures active[|active| - 2] in t
    ensures CoreOk(r, t, Front(hist), Front(active),
                   State(UndoBlock(s.utxo, Last(undos)), t[active[|active| - 2]].issued), Front(undos))
  {
    hide Replay, UndoOf, TreeOk, UndoBlock, Acceptable;
    assert ValidHistory(r, Front(hist));
    assert |hist| <= HEIGHT_LIMIT by { ActiveNode(r, t, hist, |hist| - 1); }
    UndosPop(r, hist, undos);
    UndoReverts(r, hist);
    ActiveNode(r, t, hist, |hist| - 2);
    assert hist[..|hist| - 2 + 1] == Front(hist);
    assert Ids(r, Front(hist)) == Front(Ids(r, hist));
    IssuedPop(r, t, hist, |undos|);
  }

  lemma IssuedPop(r: Rules, t: Tree, hist: seq<Block>, window: nat)
    requires IssuedOk(r, t, hist, window) && |hist| >= 2 && window > 0
    ensures IssuedOk(r, t, Front(hist), window - 1)
  {
    hide Replay;
    forall h | 0 <= h < |hist| - 1 && |hist| - 2 - (window - 1) <= h
      ensures r.blockId(hist[h].header) in t
      ensures t[r.blockId(hist[h].header)].issued == Replay(r, Front(hist)[..h + 1]).issued
    {
      assert Front(hist)[..h + 1] == hist[..h + 1];
    }
  }

  /** Cutting subtrees that hold no active block keeps everything in agreement. */
  lemma PruneKeeps(r: Rules, t: Tree, hist: seq<Block>, active: seq<Id>, s: State, undos: seq<Undo>, gone: set<Id>)
    requires CoreOk(r, t, hist, active, s, undos)
    requires ClosedDown(r, t, gone) && (forall id | id in active :: id !in gone)
    requires GenesisId(r) in active
    ensures CoreOk(r, t - gone, hist, active, s, undos)
  {
    hide Replay, ValidHistory, TreeOk, RulesOk, UndosOk;
    TreePrune(r, t, gone);
    forall i | 0 <= i < |hist|
      ensures r.blockId(hist[i].header) in t - gone
    {
      assert active[i] in active;
    }
  }

  /** Indexing a side block keeps everything in agreement. */
  lemma GrowKeeps(r: Rules, t: Tree, hist: seq<Block>, active: seq<Id>, s: State, undos: seq<Undo>, n: Node)
    requires CoreOk(r, t, hist, active, s, undos)
    requires r.blockId(n.header) !in t && n.header.prev in t && n.header.height < HEIGHT_LIMIT
    requires Follows(r, n, t[n.header.prev])
    ensures CoreOk(r, t[r.blockId(n.header) := n], hist, active, s, undos)
  {
    hide Replay, ValidHistory, TreeOk, RulesOk, UndosOk, Follows;
    TreeGrow(r, t, n);
  }

  // ------------------------------------------------------------------
  // Reading
  // ------------------------------------------------------------------

  /** The money in circulation is covered by what was issued, which is within
      the schedule and the cap, whatever the interleaving that led here. */
  lemma SupplySafe(r: Rules, t: Tree, hist: seq<Block>, active: seq<Id>, s: State, undos: seq<Undo>)
    requires CoreOk(r, t, hist, active, s, undos)
    ensures Total(s.utxo) <= s.issued
    ensures s.issued <= Emission.GENESIS_PREMINT + Emission.Cumulative(|active| - 1) <= Emission.MAX_SUPPLY
  {
    hide Replay, UndosOk, IssuedOk, Total, TreeOk, Emission.Cumulative;
    ActiveNode(r, t, hist, |hist| - 1);
    LedgerSound(r, hist);
  }

  /** Undoing the last `k` records gives the replay of the chain shortened by `k`. */
  function Rewind(u: Utxo, undos: seq<Undo>, k: nat): Utxo
    requires k <= |undos|
  {
    if k == 0 then u else UndoBlock(Rewind(u, undos, k - 1), undos[|undos| - k])
  }

  lemma {:induction false} RewindIs(r: Rules, t: Tree, hist: seq<Block>, active: seq<Id>, s: State, undos: seq<Undo>,
                                    k: nat)
    requires CoreOk(r, t, hist, active, s, undos)
    requires k <= |undos| && k < |hist|
    ensures Rewind(s.utxo, undos, k) == Replay(r, hist[..|hist| - k]).utxo
    ensures active[|hist| - 1 - k] in t
    ensures t[active[|hist| - 1 - k]].issued == Replay(r, hist[..|hist| - k]).issued
  {
    hide Replay, UndoOf, TreeOk, UndoBlock, ValidHistory, ShapeOk, Acceptable, RulesOk, Headers;
    ActiveNode(r, t, hist, |hist| - 1);
    GenesisRules(r);
    if k == 0 {
      assert hist[..|hist|] == hist;
    } else {
      RewindIs(r, t, hist, active, s, undos, k - 1);
      var longer := hist[..|hist| - k + 1];
      HistoryLinks(r, hist, |hist| - k);
      UndoReverts(r, longer);
      assert Front(longer) == hist[..|hist| - k];
    }
  }
}
