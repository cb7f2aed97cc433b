/** Stopping and starting again (src/chain.rs, `snapshot_at_depth`,
    `from_snapshot_preferring`): a chain resumed from its own snapshot and
    headers is the chain that stopped. */
module Resume {
  import opened Prelude
  import opened Ledger
  import opened Validation
  import opened History
  import opened Index
  import opened ChainState
  import opened Bodies
  import opened Trees = BlockTree
  import opened Engine = Chain

  datatype Snapshot = Snapshot(height: nat, tip: Id, issued: nat, utxo: Utxo)

  /** The snapshot of a chain at its tip. */
  function SnapshotOf(r: Rules, hist: seq<Block>): Snapshot
    requires |hist| > 0
  {
    Snapshot(|hist| - 1, r.blockId(Last(hist).header), Replay(r, hist).issued, Replay(r, hist).utxo)
  }

  function Depth(depth: nat, window: nat): nat { Min(depth, SatSub(window, 1)) }

  /** The state `depth` blocks below the tip, found by undoing: it is the state
      replaying those blocks from genesis gives. */
  method SnapshotAtDepth(c: Chain, depth: nat) returns (snap: Option<Snapshot>)
    requires c.Valid()
    ensures snap.None? <==> Depth(depth, |c.undos|) == 0
    ensures snap.Some? ==> 0 < Depth(depth, |c.undos|) < |c.hist|
    ensures snap.Some? ==> snap.value == SnapshotOf(c.rules, c.hist[..|c.hist| - Depth(depth, |c.undos|)])
  {
    hide CoreOk, StoreOk, BodiesOk, Replay, UndoBlock;
    c.ActiveLength();
    var d := Min(depth, SatSub(|c.undos|, 1));
    if d == 0 || |c.active| - 1 < d { return None; }
    var height := |c.active| - 1 - d;
    var tip := c.active[height];
    var utxo := c.utxo;
    for k := 0 to d
      invariant utxo == Rewind(c.utxo, c.undos, k)
    {
      utxo := UndoBlock(utxo, c.undos[|c.undos| - 1 - k]);
    }
    RewindIs(c.rules, c.index, c.hist, c.active, State(c.utxo, c.issued), c.undos, d);
    c.ForkNode(height);
    return Some(Snapshot(height, tip, c.index[tip].issued, utxo));
  }

  // ------------------------------------------------------------------
  // The tree of the headers of an index
  // ------------------------------------------------------------------

  /** These are the headers of the tree. */
  ghost predicate Describes(r: Rules, headers: seq<Header>, t: Tree) {
    && (forall h | h in headers :: r.blockId(h) in t && t[r.blockId(h)].header == h)
    && (forall id | id in t :: t[id].header in headers)
  }

  ghost predicate SameHeaders(byId: map<Id, Header>, t: Tree) {
    byId.Keys == t.Keys && forall id | id in t :: byId[id] == t[id].header
  }

  lemma DescribedById(r: Rules, headers: seq<Header>, t: Tree)
    requires RulesOk(r) && TreeOk(r, t) && Describes(r, headers, t)
    ensures SameHeaders(ById(r, headers), t)
    ensures RootOf(r, headers) == Some(GenesisId(r))
  {
    hide RulesOk, TreeOk;
    RootIs(r, headers);
    forall id | id in t
      ensures id in ById(r, headers) && ById(r, headers)[id] == t[id].header
    {
      TreeNode(r, t, id);
    }
    DescribedRoot(r, headers, t);
  }

  lemma DescribedRoot(r: Rules, headers: seq<Header>, t: Tree)
    requires RulesOk(r) && TreeOk(r, t) && Describes(r, headers, t)
    ensures RootOf(r, headers) == Some(GenesisId(r))
  {
    hide RulesOk, TreeOk;
    RootAmong(r, headers);
    GenesisRules(r);
    GenesisHeader(r, t);
    var g := RootOf(r, headers).value;
    OnlyGenesisAtZero(r, t, g);
  }

  lemma GenesisHeader(r: Rules, t: Tree)
    requires TreeOk(r, t)
    ensures GenesisId(r) in t && t[GenesisId(r)].header == r.genesis.header
  {
  }

  lemma {:induction false} RootAmong(r: Rules, headers: seq<Header>)
    ensures RootOf(r, headers).Some? ==>
              exists h | h in headers :: h.height == 0 && r.blockId(h) == RootOf(r, headers).value
    ensures RootOf(r, headers).None? ==> forall h | h in headers :: h.height != 0
  {
    RootIs(r, headers);
    if headers != [] && Last(headers).height != 0 {
      RootAmong(r, Front(headers));
    } else if headers != [] {
      assert Last(headers) in headers;
    }
  }

  /** Every block of an index hangs from genesis. */
  lemma {:induction false} IndexedRooted(r: Rules, t: Tree, byId: map<Id, Header>, id: Id)
    requires RulesOk(r) && TreeOk(r, t) && SameHeaders(byId, t) && id in t
    ensures Rooted(byId, GenesisId(r), id)
    decreases t[id].header.height
  {
    hide RulesOk, TreeOk, Rooted, AddWork;
    TreeNode(r, t, id);
    if id == GenesisId(r) {
      RootRooted(byId, id);
    } else {
      IndexedRooted(r, t, byId, t[id].header.prev);
      RootedStep(byId, GenesisId(r), id);
    }
  }

  /** The work counted from the headers is the work of the index. */
  lemma {:induction false} WorkRebuilt(r: Rules, t: Tree, tree: BlockTree, id: Id)
    requires RulesOk(r) && TreeOk(r, t) && SameHeaders(tree.byId, t) && tree.genesis == GenesisId(r)
    requires WorkOk(r, tree.byId, tree.genesis, tree.work) && id in t
    requires forall i | i in t :: i in tree.work
    ensures tree.work[id] == t[id].work
    decreases t[id].header.height
  {
    hide RulesOk, TreeOk, AddWork, WorkOk;
    TreeNode(r, t, id);
    WorkAt(r, tree.byId, tree.genesis, tree.work, id);
    if id == GenesisId(r) {
      GenesisNode(r, t);
      GenesisHeader(r, t);
    } else {
      WorkRebuilt(r, t, tree, t[id].header.prev);
    }
  }

  ghost predicate Rebuilt(r: Rules, t: Tree, tree: BlockTree) {
    && SameHeaders(tree.byId, t) && tree.genesis == GenesisId(r)
    && tree.work.Keys == t.Keys
    && (forall id | id in t :: tree.work[id] == t[id].work)
  }

  /** The headers of an index give the index back, circles and orphans excluded. */
  lemma TreeRebuilt(r: Rules, t: Tree, headers: seq<Header>, preferred: Option<Id>, tree: BlockTree)
    requires RulesOk(r) && TreeOk(r, t) && Describes(r, headers, t) && TreeOf(r, headers, preferred, tree)
    ensures Rebuilt(r, t, tree)
  {
    hide RulesOk, TreeOk, Describes, WorkOk, Rooted, IsBest, IsChain, ById, RootOf, SameHeaders;
    DescribedById(r, headers, t);
    forall id | id in t
      ensures id in tree.work
    {
      IndexedRooted(r, t, tree.byId, id);
    }
    forall id | id in tree.work
      ensures id in t
    {
      RootedNotOrphan(tree.byId, tree.genesis, id);
      assert id in tree.byId && SameHeaders(tree.byId, t);
      SameKeys(tree.byId, t, id);
    }
    forall id | id in t
      ensures tree.work[id] == t[id].work
    {
      WorkRebuilt(r, t, tree, id);
    }
  }

  lemma SameKeys(byId: map<Id, Header>, t: Tree, id: Id)
    requires SameHeaders(byId, t)
    ensures id in byId <==> id in t
  {
  }

  lemma NotEndless(r: Rules, t: Tree, headers: seq<Header>)
    requires RulesOk(r) && TreeOk(r, t) && Describes(r, headers, t)
    ensures RootOf(r, headers) == Some(GenesisId(r))
    ensures forall id | id in ById(r, headers) :: !Endless(ById(r, headers), GenesisId(r), id)
    ensures exists h | h in headers :: h.height == 0
  {
    hide RulesOk, TreeOk, Describes, ById, RootOf, Up;
    DescribedById(r, headers, t);
    RootAmong(r, headers);
    forall id | id in ById(r, headers)
      ensures !Endless(ById(r, headers), GenesisId(r), id)
    {
      SameKeys(ById(r, headers), t, id);
      IndexedRooted(r, t, ById(r, headers), id);
    }
  }

  // ------------------------------------------------------------------
  // Where the snapshot sits
  // ------------------------------------------------------------------

  /** A chain of the tree that passes through the snapshot at its height holds
      the snapshot's whole history. */
  lemma {:induction false} PassesThrough(r: Rules, t: Tree, tree: BlockTree, hist: seq<Block>, i: nat)
    requires RulesOk(r) && TreeOk(r, t) && Rebuilt(r, t, tree) && ValidHistory(r, hist) && |hist| > 0
    requires |tree.active| > 0 && IsChain(tree.byId, tree.genesis, Last(tree.active), tree.active)
    requires |hist| <= |tree.active| && tree.active[|hist| - 1] == r.blockId(Last(hist).header)
    requires i < |hist|
    ensures tree.active[i] == r.blockId(hist[i].header)
    decreases |hist| - i
  {
    hide RulesOk, TreeOk, ValidHistory, ShapeOk, Acceptable, Headers, Replay;
    if i < |hist| - 1 {
      PassesThrough(r, t, tree, hist, i + 1);
      GenesisRules(r);
      HistoryLinks(r, hist, i + 1);
      var id := tree.active[i + 1];
      TreeNode(r, t, id);
      HeaderIsUnique(r, t[id].header, hist[i + 1].header);
    }
  }

  /** The active chain of a tree passes through a snapshot of it. */
  lemma PassesIff(r: Rules, t: Tree, tree: BlockTree, hist: seq<Block>)
    requires RulesOk(r) && TreeOk(r, t) && Rebuilt(r, t, tree) && ValidHistory(r, hist) && |hist| > 0
    requires |tree.active| > 0 && IsChain(tree.byId, tree.genesis, Last(tree.active), tree.active)
    ensures |hist| <= |tree.active| && tree.active[|hist| - 1] == r.blockId(Last(hist).header)
       <==> Ids(r, hist) <= tree.active
    ensures Ids(r, hist) <= tree.active ==> Indexed(r, t, hist)
  {
    hide RulesOk, TreeOk, ValidHistory;
    if |hist| <= |tree.active| && tree.active[|hist| - 1] == r.blockId(Last(hist).header) {
      forall i | 0 <= i < |hist|
        ensures Ids(r, hist)[i] == tree.active[i]
      {
        PassesThrough(r, t, tree, hist, i);
      }
    }
    forall i | 0 <= i < |hist| && Ids(r, hist) <= tree.active
      ensures r.blockId(hist[i].header) in t
    {
      assert Ids(r, hist)[i] == tree.active[i];
    }
  }

  /** Chains to the same tip are the same. */
  lemma {:induction false} OneChain(byId: map<Id, Header>, root: Id, tip: Id, a: seq<Id>, b: seq<Id>)
    requires IsChain(byId, root, tip, a) && IsChain(byId, root, tip, b)
    ensures a == b
    decreases |a|
  {
    if tip != root {
      OneChain(byId, root, byId[tip].prev, Front(a), Front(b));
    }
  }

  /** The active chain of a node is a chain of the tree. */
  lemma ActiveIsChain(r: Rules, t: Tree, byId: map<Id, Header>, hist: seq<Block>)
    requires RulesOk(r) && TreeOk(r, t) && SameHeaders(byId, t) && ValidHistory(r, hist) && Indexed(r, t, hist)
    ensures |hist| > 0 && IsChain(byId, GenesisId(r), Last(Ids(r, hist)), Ids(r, hist))
  {
    hide RulesOk, TreeOk, ValidHistory, ShapeOk, Acceptable, Headers, Replay;
    HistoryNonempty(r, hist);
    GenesisRules(r);
    var ids := Ids(r, hist);
    ActiveNode(r, t, hist, 0);
    HistoryLinks(r, hist, 0);
    forall i | 0 <= i < |ids|
      ensures ids[i] in byId
    {
      ActiveNode(r, t, hist, i);
    }
    forall i | 0 < i < |ids|
      ensures ids[i] != GenesisId(r) && byId[ids[i]].prev == ids[i - 1]
    {
      ActiveNode(r, t, hist, i);
      HistoryLinks(r, hist, i);
      GenesisHeader(r, t);
    }
  }

  /** Starting again from all the headers, a node follows the chain it stopped
      on exactly when no indexed block carries more work than its tip. */
  lemma ResumesOn(r: Rules, t: Tree, hist: seq<Block>, tree: BlockTree)
    requires RulesOk(r) && TreeOk(r, t) && ValidHistory(r, hist) && Indexed(r, t, hist) && |hist| > 0
    requires Rebuilt(r, t, tree) && |tree.active| > 0
    requires IsBest(tree.work, Some(Last(Ids(r, hist))), Last(tree.active))
    requires IsChain(tree.byId, tree.genesis, Last(tree.active), tree.active)
    ensures Last(Ids(r, hist)) in t
    ensures tree.active == Ids(r, hist) <==> forall id | id in t :: t[id].work <= t[Last(Ids(r, hist))].work
  {
    hide RulesOk, TreeOk, ValidHistory, SameHeaders, IsChain;
    ActiveNode(r, t, hist, |hist| - 1);
    ActiveIsChain(r, t, tree.byId, hist);
    if Last(tree.active) == Last(Ids(r, hist)) {
      OneChain(tree.byId, tree.genesis, Last(tree.active), tree.active, Ids(r, hist));
    }
  }

  // ------------------------------------------------------------------
  // Starting again
  // ------------------------------------------------------------------

  /** The index of the rebuilt tree; the emission is known at the snapshot only. */
  function IndexOf(tree: BlockTree, snap: Snapshot): Tree {
    map id | id in tree.byId && id in tree.work ::
      Node(tree.byId[id], tree.work[id], if id == snap.tip then snap.issued else 0)
  }

  /** The headers are those of the valid index `t`, and the snapshot is that of
      the valid chain `hist`. */
  ghost predicate Fits(r: Rules, snap: Snapshot, headers: seq<Header>, t: Tree, hist: seq<Block>) {
    && RulesOk(r) && TreeOk(r, t) && Describes(r, headers, t)
    && ValidHistory(r, hist) && |hist| > 0 && snap == SnapshotOf(r, hist)
  }

  /** The active chain of the tree goes through the snapshot. */
  ghost predicate GoesThrough(tree: BlockTree, snap: Snapshot) {
    snap.height < |tree.active| && tree.active[snap.height] == snap.tip
  }

  /** Rebuilds a chain from any headers and any snapshot.  Headers without
      genesis, headers that go round in circles and a snapshot off the heaviest
      chain are refused, and nothing else.  Where headers and snapshot fit a
      valid index and a valid chain, what is rebuilt is valid. */
  method FromSnapshot(r: Rules, snap: Snapshot, headers: seq<Header>, preferred: Option<Id>, ghost t: Tree,
                      ghost hist: seq<Block>)
    returns (res: Result<(Chain, seq<Id>), ResumeError>, ghost tree: BlockTree)
    ensures res == Err(NoGenesis) <==> forall h | h in headers :: h.height != 0
    ensures res == Err(InconsistentIndex) <==>
              && RootOf(r, headers).Some?
              && exists id :: id in ById(r, headers) && Endless(ById(r, headers), RootOf(r, headers).value, id)
    ensures res.Ok? || res == Err(SnapshotOffChain) ==>
              TreeOf(r, headers, preferred, tree) && (res.Ok? <==> GoesThrough(tree, snap))
    ensures res.Ok? ==>
              var (c, toReplay) := res.value;
              && fresh(c) && c.rules == r && c.undos == [] && c.index == IndexOf(tree, snap)
              && c.utxo == snap.utxo && c.issued == snap.issued
              && tree.active == c.active + toReplay && |c.active| == snap.height + 1
    ensures Fits(r, snap, headers, t, hist) ==>
              && TreeOf(r, headers, preferred, tree) && Rebuilt(r, t, tree)
              && (res.Ok? <==> Ids(r, hist) <= tree.active)
    ensures Fits(r, snap, headers, t, hist) && res.Ok? ==>
              var (c, toReplay) := res.value;
              c.Valid() && c.hist == hist && SameTree(t, c.index) && toReplay == tree.active[|hist|..]
  {
    hide RulesOk, TreeOk, ValidHistory, Describes, WorkOk, Rooted, IsBest, IsChain, ById, RootOf, Rebuilt, Replay, Ids,
         CoreOk, StoreOk, Endless, IndexOf, SameTree;
    tree := BlockTree(map[], map[], [], 0);
    if Fits(r, snap, headers, t, hist) { NotEndless(r, t, headers); }
    var built := BlockTreePreferring(r, headers, preferred);
    if built.Err? { return Err(built.error), tree; }
    tree := built.value;
    if Fits(r, snap, headers, t, hist) {
      TreeRebuilt(r, t, headers, preferred, tree);
      PassesIff(r, t, tree, hist);
    }
    var at := snap.height;
    if |built.value.active| <= at || built.value.active[at] != snap.tip { return Err(SnapshotOffChain), tree; }
    if Fits(r, snap, headers, t, hist) { ResumedCore(r, t, tree, snap, hist); }
    var c := new Chain.AtSnapshot(r, IndexOf(built.value, snap), built.value.active[..at + 1],
                                  State(snap.utxo, snap.issued), hist);
    return Ok((c, built.value.active[at + 1..])), tree;
  }

  lemma ResumedCore(r: Rules, t: Tree, tree: BlockTree, snap: Snapshot, hist: seq<Block>)
    requires RulesOk(r) && TreeOk(r, t) && Rebuilt(r, t, tree) && ValidHistory(r, hist) && |hist| > 0
    requires snap == SnapshotOf(r, hist) && Ids(r, hist) <= tree.active && Indexed(r, t, hist)
    ensures SameTree(t, IndexOf(tree, snap))
    ensures |hist| <= |tree.active|
    ensures CoreOk(r, IndexOf(tree, snap), hist, tree.active[..|hist|], State(snap.utxo, snap.issued), [])
  {
    hide RulesOk, TreeOk, ValidHistory, Replay;
    var index := IndexOf(tree, snap);
    SameTreeOk(r, t, index);
    assert hist[..|hist|] == hist;
  }

  /** The blocks `ids` on top of `base` are those of the chain `whole`, and at hand. */
  ghost predicate Continues(r: Rules, base: seq<Block>, ids: seq<Id>, whole: seq<Block>, bodies: map<Id, Block>) {
    && ValidHistory(r, whole) && |whole| == |base| + |ids| && base == whole[..|base|]
    && (forall i | 0 <= i < |ids| :: ids[i] in bodies && ids[i] == r.blockId(whole[|base| + i].header))
  }

  /** `b` has the id of the block after `hist` in the chain `whole`. */
  ghost predicate NextOf(r: Rules, hist: seq<Block>, whole: seq<Block>, b: Block) {
    && ValidHistory(r, whole) && |hist| < |whole| && hist == whole[..|hist|]
    && r.blockId(b.header) == r.blockId(whole[|hist|].header)
  }

  /** Replays one block on the tip, at its own date.  If it is the next block
      of a chain that was active, it connects again. */
  method ReplayOne(c: Chain, b: Block, ghost whole: seq<Block>) returns (ok: bool)
    requires c.Valid() && c.rules.blockId(b.header) in c.index && ShapeOk(c.rules, b)
    modifies c
    ensures c.Valid() && SameTree(old(c.index), c.index)
    ensures ok ==> c.hist == old(c.hist) + [b] && |c.undos| == Min(|old(c.undos)| + 1, BODY_WINDOW)
    ensures ok ==> c.active == old(c.active) + [c.rules.blockId(b.header)]
    ensures NextOf(c.rules, old(c.hist), whole, b) ==> ok && b == whole[|old(c.hist)|]
  {
    hide CoreOk, StoreOk, BodiesOk, QueueOk, ValidHistory, SameTree, RulesOk, TreeOk, Indexed, Ids, Verdict, ShapeOk;
    c.CoreFacts();
    c.ActiveLength();
    KnownHeight(c.rules, c.index, b);
    if NextOf(c.rules, c.hist, whole, b) { ConnectsAgain(c.rules, whole, |c.hist|, b); }
    ActivePush(c.rules, c.hist, b);
    SameTreeRefl(c.index);
    var res := c.Connect(b, b.header.time + 1);
    c.CoreFacts();
    return res.Ok?;
  }

  /** Replays blocks on the tip, each at its own date.  Blocks of a chain that
      was active all connect again. */
  method ReplayIds(c: Chain, ids: seq<Id>, bodies: map<Id, Block>, ghost whole: seq<Block>) returns (ok: bool)
    requires c.Valid() && BodiesOk(c.rules, bodies) && (forall id | id in ids :: id in c.index)
    modifies c
    ensures c.Valid() && SameTree(old(c.index), c.index)
    ensures ok ==> c.active == old(c.active) + ids && forall id | id in ids :: id in bodies
    ensures Continues(c.rules, old(c.hist), ids, whole, bodies) ==>
              ok && c.hist == whole && |c.undos| == Min(|old(c.undos)| + |ids|, BODY_WINDOW)
  {
    hide CoreOk, StoreOk, BodiesOk, ValidHistory, SameTree, RulesOk, TreeOk, Indexed, Ids, Headers, CheckBlock,
         ContextAt, Replay, ClockAllows, ShapeOk, Continues;
    c.ActiveLength();
    SameTreeRefl(c.index);
    ghost var base := c.hist;
    ok := true;
    if Continues(c.rules, base, ids, whole, bodies) { ContinuesAt(c.rules, base, ids, whole, bodies, 0); }
    for i := 0 to |ids|
      invariant ok && c.Valid() && |c.hist| == |base| + i > 0
      invariant c.active == old(c.active) + ids[..i] && forall id | id in ids[..i] :: id in bodies
      invariant Continues(c.rules, base, ids, whole, bodies) ==>
                  c.hist == whole[..|c.hist|] && |c.undos| == Min(|old(c.undos)| + i, BODY_WINDOW)
      invariant SameTree(old(c.index), c.index)
    {
      if Continues(c.rules, base, ids, whole, bodies) { ContinuesAt(c.rules, base, ids, whole, bodies, i); }
      if ids[i] !in bodies { return false; }
      BodyAt(c.rules, bodies, ids[i]);
      var b := bodies[ids[i]];
      InSame(old(c.index), c.index, ids[i]);
      ghost var before := c.index;
      ok := ReplayOne(c, bodies[ids[i]], whole);
      SameTreeTrans(old(c.index), before, c.index);
      if !ok { return; }
      assert ids[..i + 1] == ids[..i] + [ids[i]];
    }
    assert ids[..|ids|] == ids;
  }

  lemma ContinuesAt(r: Rules, base: seq<Block>, ids: seq<Id>, whole: seq<Block>, bodies: map<Id, Block>, i: nat)
    requires Continues(r, base, ids, whole, bodies)
    ensures ValidHistory(r, whole) && |whole| == |base| + |ids| && base == whole[..|base|]
    ensures i < |ids| ==> ids[i] in bodies && ids[i] == r.blockId(whole[|base| + i].header)
  {
    hide ValidHistory;
  }

  lemma BodyAt(r: Rules, bodies: map<Id, Block>, id: Id)
    requires BodiesOk(r, bodies) && id in bodies
    ensures r.blockId(bodies[id].header) == id && ShapeOk(r, bodies[id])
  {
    hide ShapeOk;
  }

  lemma InSame(a: Tree, b: Tree, id: Id)
    requires SameTree(a, b) && id in a
    ensures id in b
  {
  }

  lemma ActivePush(r: Rules, hist: seq<Block>, b: Block)
    ensures Ids(r, hist + [b]) == Ids(r, hist) + [r.blockId(b.header)]
  {
  }

  /** On the state it was connected on, the body with a block's id connects
      again at the block's date. */
  lemma ConnectsAgain(r: Rules, whole: seq<Block>, k: nat, b: Block)
    requires RulesOk(r) && ValidHistory(r, whole) && 0 < k < |whole|
    requires r.blockId(b.header) == r.blockId(whole[k].header) && ShapeOk(r, b)
    ensures b == whole[k] && Accepted(r, whole[..k], b, b.header.time + 1)
  {
    hide ValidHistory, RulesOk, ShapeOk, Acceptable, Headers, Replay, ContextAt, CheckBlock;
    GenesisRules(r);
    HistoryLinks(r, whole, k);
    BodyIsUnique(r, b, whole[k]);
    HeadersLength(whole[..k]);
    ClockIsOneGate(r, Headers(whole[..k]), Replay(r, whole[..k]), b, b.header.time + 1);
  }

  lemma BelowValid(r: Rules, hist: seq<Block>, n: nat)
    requires RulesOk(r) && ValidHistory(r, hist) && 0 < n <= |hist|
    ensures ValidHistory(r, hist[..n]) && Ids(r, hist[..n]) == Ids(r, hist)[..n]
  {
    hide ValidHistory, RulesOk, ShapeOk, Acceptable, Headers, Replay;
    GenesisRules(r);
    HistoryLinks(r, hist, n - 1);
  }

  /** What a chain records is determined by its blocks. */
  lemma UndosAgree(r: Rules, hist: seq<Block>, undos: seq<Undo>, fewer: seq<Undo>)
    requires UndosOk(r, hist, undos) && UndosOk(r, hist, fewer) && |fewer| <= |undos|
    ensures fewer == Suffix(undos, |fewer|)
  {
    hide UndoOf;
    var suffix := Suffix(undos, |fewer|);
    forall j | 0 <= j < |fewer|
      ensures fewer[j] == suffix[j]
    {
      assert suffix[j] == undos[|undos| - |fewer| + j];
    }
  }

  /** The tree resumes on the chain `hist` exactly when nothing is heavier; then
      the blocks to replay are those of `hist` above the snapshot. */
  lemma Followed(r: Rules, t: Tree, hist: seq<Block>, headers: seq<Header>, tree: BlockTree, n: nat,
                 bodies: map<Id, Block>)
    requires RulesOk(r) && TreeOk(r, t) && ValidHistory(r, hist) && Indexed(r, t, hist) && 0 < n <= |hist|
    requires TreeOf(r, headers, Some(Last(Ids(r, hist))), tree) && Rebuilt(r, t, tree)
    ensures Last(Ids(r, hist)) in t
    ensures tree.active == Ids(r, hist) <==> forall id | id in t :: t[id].work <= t[Last(Ids(r, hist))].work
    ensures tree.active == Ids(r, hist) ==> Ids(r, hist)[..n] <= tree.active
    ensures tree.active == Ids(r, hist) ==>
              (Continues(r, hist[..n], tree.active[n..], hist, bodies)
               <==> forall id | id in tree.active[n..] :: id in bodies)
  {
    hide RulesOk, TreeOk, ValidHistory, Rebuilt, Indexed, Continues, Ids, WorkOk, ById, RootOf, Rooted, IsBest, IsChain;
    ResumesOn(r, t, hist, tree);
    if tree.active == Ids(r, hist) { ContinuesIff(r, hist, n, tree.active, bodies); }
  }

  /** The blocks above the snapshot are there exactly when their bodies are. */
  lemma ContinuesIff(r: Rules, hist: seq<Block>, n: nat, active: seq<Id>, bodies: map<Id, Block>)
    requires ValidHistory(r, hist) && 0 < n <= |hist| && active == Ids(r, hist)
    ensures Continues(r, hist[..n], active[n..], hist, bodies) <==> forall id | id in active[n..] :: id in bodies
  {
    hide ValidHistory, Ids;
    var ids := active[n..];
    forall i | n <= i < |hist|
      ensures ids[i - n] == active[i] == r.blockId(hist[i].header)
    {
      IdsAt(r, hist, i);
    }
  }

  lemma InTree(r: Rules, t: Tree, index: Tree, headers: seq<Header>, preferred: Option<Id>, tree: BlockTree,
               ids: seq<Id>, n: nat)
    requires SameTree(t, index) && Rebuilt(r, t, tree) && n <= |tree.active| && ids == tree.active[n..]
    requires TreeOf(r, headers, preferred, tree)
    ensures forall id | id in ids :: id in index
  {
    hide WorkOk, ById, RootOf, Rooted, IsBest;
  }

  /** Two nodes on the same blocks and the same tree hold the same state. */
  lemma SameState(c: Chain, rc: Chain)
    requires c.Valid() && rc.Valid() && c.rules == rc.rules && c.hist == rc.hist && SameTree(c.index, rc.index)
    ensures rc.active == c.active && rc.utxo == c.utxo && rc.issued == c.issued && rc.TotalWork() == c.TotalWork()
    ensures |rc.undos| <= |c.undos| ==> rc.undos == Suffix(c.undos, |rc.undos|)
  {
    hide CoreOk, StoreOk, BodiesOk, ValidHistory, RulesOk, TreeOk, Indexed, Ids, Replay, UndosOk;
    c.CoreFacts();
    rc.CoreFacts();
    c.ReplayState();
    rc.ReplayState();
    c.UndoRecords();
    rc.UndoRecords();
    if |rc.undos| <= |c.undos| { UndosAgree(c.rules, c.hist, c.undos, rc.undos); }
  }

  /** A node stops on its chain and starts again from a snapshot `depth` blocks
      down, all its headers and some bodies.  It comes back on the chain it
      stopped on exactly when no indexed block carries more work than its tip
      and the body of every block above the snapshot is there: same blocks,
      same money, same emission, same work, and the records to undo every
      replayed block. */
  method ResumeAt(c: Chain, depth: nat, headers: seq<Header>, bodies: map<Id, Block>) returns (resumed: Option<Chain>)
    requires c.Valid() && Describes(c.rules, headers, c.index) && BodiesOk(c.rules, bodies)
    requires Depth(depth, |c.undos|) > 0
    ensures resumed.Some? ==> fresh(resumed.value) && resumed.value.Valid() && resumed.value.rules == c.rules
    ensures resumed.Some? && resumed.value.hist == c.hist <==>
            && (forall id | id in c.index :: c.index[id].work <= c.TotalWork())
            && (forall id | id in Suffix(c.active, Depth(depth, |c.undos|)) :: id in bodies)
    ensures resumed.Some? && resumed.value.hist == c.hist ==>
              var rc := resumed.value;
              && rc.active == c.active && rc.utxo == c.utxo && rc.issued == c.issued
              && SameTree(c.index, rc.index) && rc.TotalWork() == c.TotalWork()
              && rc.undos == Suffix(c.undos, Depth(depth, |c.undos|))
  {
    hide CoreOk, StoreOk, BodiesOk, ValidHistory, SameTree, RulesOk, TreeOk, Indexed, Ids, Replay, Describes, TreeOf,
         Rebuilt, Continues, SnapshotOf;
    c.CoreFacts();
    c.TipNode();
    var snap := SnapshotAtDepth(c, depth);
    ghost var d := Depth(depth, |c.undos|);
    ghost var below := c.hist[..|c.hist| - d];
    BelowValid(c.rules, c.hist, |below|);
    var res;
    ghost var tree;
    res, tree := FromSnapshot(c.rules, snap.value, headers, Some(c.active[|c.active| - 1]), c.index, below);
    Followed(c.rules, c.index, c.hist, headers, tree, |below|, bodies);
    assert tree.active == c.active ==> tree.active[|below|..] == Suffix(c.active, d);
    if res.Err? { return None; }
    var (rc, toReplay) := res.value;
    InTree(c.rules, c.index, rc.index, headers, Some(Last(c.active)), tree, toReplay, |below|);
    ghost var start := rc.index;
    var ok := ReplayIds(rc, toReplay, bodies, c.hist);
    if !ok { return None; }
    SameTreeTrans(c.index, start, rc.index);
    c.ActiveLength();
    if rc.hist == c.hist { SameState(c, rc); }
    assert tree.active == c.active ==> toReplay == Suffix(c.active, d);
    return Some(rc);
  }
}
