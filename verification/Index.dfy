/** The tree of known headers (`Chain::index`) and the paths in it. */
module Index {
  import opened Prelude
  import opened Ledger
  import opened Validation
  import opened History

  /** A known header, the work accumulated up to it and, once it has been
      connected, the total issued up to it (`BlockIndex`). */
  datatype Node = Node(header: Header, work: nat, issued: nat)

  type Tree = map<Id, Node>

  const U256_LIMIT: nat := 0x1_0000_0000_0000_0000_0000_0000_0000_0000_0000_0000_0000_0000_0000_0000_0000_0000

  /** 256-bit addition that keeps the left operand on overflow. */
  function AddWork(a: nat, b: nat): (w: nat)
    ensures a <= w
  {
    if a + b < U256_LIMIT then a + b else a
  }

  /** The sum where 256 bits hold it, and no more than they hold in any case. */
  lemma WorkAdds(a: nat, b: nat)
    requires a < U256_LIMIT
    ensures AddWork(a, b) < U256_LIMIT && (AddWork(a, b) == a + b || (AddWork(a, b) == a && a + b >= U256_LIMIT))
  {
  }

  function GenesisId(r: Rules): Id { r.blockId(r.genesis.header) }

  /** A child follows its parent in height and in accumulated work. */
  predicate Follows(r: Rules, child: Node, parent: Node) {
    && child.header.height == parent.header.height + 1
    && child.work == AddWork(parent.work, r.work(child.header.bits))
  }

  /** Every indexed block but genesis has an indexed parent that it follows. */
  ghost predicate TreeOk(r: Rules, t: Tree) {
    && GenesisId(r) in t
    && t[GenesisId(r)].header == r.genesis.header
    && t[GenesisId(r)].work == r.work(r.genesis.header.bits)
    && (forall id | id in t :: r.blockId(t[id].header) == id && t[id].header.height < HEIGHT_LIMIT)
    && (forall id | id in t && id != GenesisId(r) ::
          t[id].header.prev in t && Follows(r, t[id], t[t[id].header.prev]))
  }

  lemma TreeNode(r: Rules, t: Tree, id: Id)
    requires TreeOk(r, t) && id in t
    ensures r.blockId(t[id].header) == id && t[id].header.height < HEIGHT_LIMIT
    ensures id != GenesisId(r) ==> t[id].header.prev in t && Follows(r, t[id], t[t[id].header.prev])
  {
    hide Follows;
  }

  /** Same blocks, same work: only the emission column may differ. */
  ghost predicate SameTree(a: Tree, b: Tree) {
    && a.Keys == b.Keys
    && (forall id | id in a :: a[id].header == b[id].header && a[id].work == b[id].work)
  }

  // ------------------------------------------------------------------
  // Ancestry
  // ------------------------------------------------------------------

  lemma OnlyGenesisAtZero(r: Rules, t: Tree, id: Id)
    requires TreeOk(r, t) && id in t && GenesisOk(r)
    ensures t[id].header.height == 0 <==> id == GenesisId(r)
  {
  }

  /** The headers from genesis to `id`. */
  ghost function Ancestry(r: Rules, t: Tree, id: Id): (hs: seq<Header>)
    requires TreeOk(r, t) && id in t
    ensures |hs| > 0 && Last(hs) == t[id].header
    decreases t[id].header.height
  {
    if id == GenesisId(r) then [t[id].header]
    else Ancestry(r, t, t[id].header.prev) + [t[id].header]
  }

  lemma AncestryStep(r: Rules, t: Tree, id: Id)
    requires RulesOk(r) && TreeOk(r, t) && id in t
    ensures t[id].header.height == 0 ==> Ancestry(r, t, id) == [t[id].header]
    ensures t[id].header.height > 0 ==>
              t[id].header.prev in t && Ancestry(r, t, id) == Ancestry(r, t, t[id].header.prev) + [t[id].header]
  {
    hide TxidOk, RootsOk;
    OnlyGenesisAtZero(r, t, id);
  }

  lemma {:induction false} AncestryLength(r: Rules, t: Tree, id: Id)
    requires TreeOk(r, t) && id in t && GenesisOk(r)
    ensures |Ancestry(r, t, id)| == t[id].header.height + 1
    decreases t[id].header.height
  {
    if id != GenesisId(r) { AncestryLength(r, t, t[id].header.prev); }
  }

  /** The block `k` steps above `id`, genesis being its own parent. */
  ghost function Ancestor(r: Rules, t: Tree, id: Id, k: nat): (a: Id)
    requires TreeOk(r, t) && id in t
    ensures a in t
    decreases k
  {
    if k == 0 || id == GenesisId(r) then id else Ancestor(r, t, t[id].header.prev, k - 1)
  }

  lemma {:induction false} AncestorNext(r: Rules, t: Tree, id: Id, k: nat)
    requires TreeOk(r, t) && id in t && Ancestor(r, t, id, k) != GenesisId(r)
    ensures t[Ancestor(r, t, id, k)].header.prev in t
    ensures Ancestor(r, t, id, k + 1) == t[Ancestor(r, t, id, k)].header.prev
    decreases k
  {
    hide TreeOk;
    TreeNode(r, t, id);
    if k == 0 {
      assert Ancestor(r, t, id, 0) == id;
      var p := t[id].header.prev;
      assert Ancestor(r, t, p, 0) == p;
    } else {
      AncestorNext(r, t, t[id].header.prev, k - 1);
    }
  }

  /** `branch` leads from a child of `base` upward, each block on the one before. */
  ghost predicate IsBranch(t: Tree, base: Id, branch: seq<Id>) {
    forall i | 0 <= i < |branch| :: branch[i] in t && t[branch[i]].header.prev == Below(base, branch, i)
  }

  /** The block a branch has before its block `i`. */
  function Below(base: Id, branch: seq<Id>, i: nat): Id
    requires i < |branch|
  {
    if i == 0 then base else branch[i - 1]
  }

  lemma BranchPrepend(t: Tree, id: Id, branch: seq<Id>)
    requires id in t && IsBranch(t, id, branch)
    ensures IsBranch(t, t[id].header.prev, [id] + branch)
  {
    var longer := [id] + branch;
    forall i | 0 <= i < |longer|
      ensures longer[i] in t && t[longer[i]].header.prev == Below(t[id].header.prev, longer, i)
    {
      if i > 0 { assert longer[i] == branch[i - 1]; }
    }
  }

  // ------------------------------------------------------------------
  // The active chain in the tree
  // ------------------------------------------------------------------

  function Ids(r: Rules, hist: seq<Block>): (ids: seq<Id>)
    ensures |ids| == |hist|
  {
    seq<Id>(|hist|, i requires 0 <= i < |hist| => r.blockId(hist[i].header))
  }

  lemma IdsAt(r: Rules, hist: seq<Block>, i: nat)
    requires i < |hist|
    ensures Ids(r, hist)[i] == r.blockId(hist[i].header)
  {
  }

  ghost predicate Indexed(r: Rules, t: Tree, hist: seq<Block>) {
    forall i | 0 <= i < |hist| :: r.blockId(hist[i].header) in t
  }

  lemma AcceptableLinks(r: Rules, hist: seq<Block>, s: State, b: Block)
    requires |hist| > 0 && Acceptable(r, Headers(hist), s, b)
    ensures b.header.prev == r.blockId(Last(hist).header) == Last(Ids(r, hist))
    ensures b.header.height == |hist|
    ensures ShapeOk(r, b)
  {
    hide CheckBody, ShapeOk;
  }

  /** Valid blocks are at their height and linked to the block below. */
  lemma {:induction false} HistoryLinks(r: Rules, hist: seq<Block>, h: nat)
    requires GenesisOk(r) && ValidHistory(r, hist) && h < |hist|
    ensures hist[h].header.height == h && ShapeOk(r, hist[h])
    ensures h == 0 ==> hist[h] == r.genesis
    ensures h > 0 ==> hist[h].header.prev == r.blockId(hist[h - 1].header)
    ensures ValidHistory(r, hist[..h + 1])
    ensures h > 0 ==> Acceptable(r, Headers(hist[..h]), Replay(r, hist[..h]), hist[h])
  {
    hide Replay, Acceptable, ShapeOk, Headers;
    if h == |hist| - 1 {
      assert hist[..h + 1] == hist;
      if h > 0 {
        assert hist[..h] == Front(hist);
        AcceptableLinks(r, Front(hist), Replay(r, Front(hist)), hist[h]);
      }
    } else {
      HistoryLinks(r, Front(hist), h);
      assert Front(hist)[..h + 1] == hist[..h + 1];
      assert Front(hist)[..h] == hist[..h];
    }
  }

  lemma ActiveNode(r: Rules, t: Tree, hist: seq<Block>, h: nat)
    requires RulesOk(r) && TreeOk(r, t) && ValidHistory(r, hist) && Indexed(r, t, hist) && h < |hist|
    ensures r.blockId(hist[h].header) in t
    ensures t[r.blockId(hist[h].header)].header == hist[h].header
    ensures hist[h].header.height == h < HEIGHT_LIMIT
  {
    hide ValidHistory;
    HistoryLinks(r, hist, h);
  }

  lemma HeadersSnoc(hist: seq<Block>, h: nat)
    requires h < |hist|
    ensures Headers(hist[..h + 1]) == Headers(hist[..h]) + [hist[h].header]
  {
  }

  /** Walking the index back from an active block reads the active chain. */
  lemma {:induction false} ActiveAncestry(r: Rules, t: Tree, hist: seq<Block>, h: nat)
    requires RulesOk(r) && TreeOk(r, t) && ValidHistory(r, hist) && Indexed(r, t, hist) && h < |hist|
    ensures r.blockId(hist[h].header) in t
    ensures Ancestry(r, t, r.blockId(hist[h].header)) == Headers(hist[..h + 1])
  {
    hide ValidHistory, ShapeOk, Headers, TreeOk, RulesOk;
    ActiveNode(r, t, hist, h);
    GenesisRules(r);
    HistoryLinks(r, hist, h);
    HeadersSnoc(hist, h);
    var id := r.blockId(hist[h].header);
    OnlyGenesisAtZero(r, t, id);
    if h > 0 {
      ActiveAncestry(r, t, hist, h - 1);
    } else {
      assert hist[..h] == [];
      assert Headers(hist[..h]) == [];
    }
  }

  lemma HeaderIsUnique(r: Rules, a: Header, b: Header)
    requires RulesOk(r) && r.blockId(a) == r.blockId(b)
    ensures a == b
  {
    hide TxidOk, RootsOk, GenesisOk;
  }

  lemma GenesisRules(r: Rules)
    requires RulesOk(r)
    ensures GenesisOk(r)
  {
  }

  /** Is this block on the active chain: one indexed read at its height. */
  predicate OnActive(t: Tree, active: seq<Id>, id: Id) {
    id in t && t[id].header.height < |active| && active[t[id].header.height] == id
  }

  lemma OnActiveIff(r: Rules, t: Tree, hist: seq<Block>, id: Id)
    requires RulesOk(r) && TreeOk(r, t) && ValidHistory(r, hist) && Indexed(r, t, hist)
    ensures OnActive(t, Ids(r, hist), id) <==> id in Ids(r, hist)
  {
    hide ValidHistory;
    if id in Ids(r, hist) {
      var h :| 0 <= h < |hist| && Ids(r, hist)[h] == id;
      ActiveNode(r, t, hist, h);
    }
  }

  /** The parent of an active block above genesis is active. */
  lemma ActiveParent(r: Rules, t: Tree, hist: seq<Block>, id: Id)
    requires RulesOk(r) && TreeOk(r, t) && ValidHistory(r, hist) && Indexed(r, t, hist)
    requires OnActive(t, Ids(r, hist), id) && id != GenesisId(r)
    ensures t[id].header.prev in t && OnActive(t, Ids(r, hist), t[id].header.prev)
  {
    hide ValidHistory, ShapeOk;
    var h := t[id].header.height;
    HistoryLinks(r, hist, h);
    OnlyGenesisAtZero(r, t, id);
    ActiveNode(r, t, hist, h);
    ActiveNode(r, t, hist, h - 1);
  }

  lemma ParentWork(r: Rules, t: Tree, id: Id)
    requires RulesOk(r) && TreeOk(r, t) && id in t && t[id].header.height > 0
    ensures t[id].header.prev in t && Follows(r, t[id], t[t[id].header.prev])
  {
    hide TxidOk, RootsOk, Follows;
    GenesisRules(r);
    OnlyGenesisAtZero(r, t, id);
  }

  /** Accumulated work never drops along a path. */
  lemma {:induction false} WorkGrows(r: Rules, t: Tree, hist: seq<Block>, a: nat, b: nat)
    requires RulesOk(r) && TreeOk(r, t) && ValidHistory(r, hist) && Indexed(r, t, hist)
    requires a <= b < |hist|
    ensures r.blockId(hist[a].header) in t && r.blockId(hist[b].header) in t
    ensures t[r.blockId(hist[a].header)].work <= t[r.blockId(hist[b].header)].work
    decreases b - a
  {
    hide ValidHistory, ShapeOk, Acceptable, Headers, Replay, RulesOk, TreeOk, AddWork;
    ActiveNode(r, t, hist, b);
    if a < b {
      WorkGrows(r, t, hist, a, b - 1);
      GenesisRules(r);
      HistoryLinks(r, hist, b);
      ParentWork(r, t, r.blockId(hist[b].header));
    }
  }

  /** The work of these blocks, genesis first: their sum, as long as 256 bits
      hold it. */
  function WorkOf(r: Rules, hist: seq<Block>): nat
    requires |hist| > 0
  {
    if |hist| == 1 then r.work(hist[0].header.bits)
    else AddWork(WorkOf(r, Front(hist)), r.work(Last(hist).header.bits))
  }

  lemma WorkSnoc(r: Rules, hist: seq<Block>, b: Block)
    requires |hist| > 0
    ensures WorkOf(r, hist + [b]) == AddWork(WorkOf(r, hist), r.work(b.header.bits))
  {
    assert Front(hist + [b]) == hist;
  }

  /** The work indexed at an active block is that of the blocks up to it. */
  lemma {:induction false} ActiveWork(r: Rules, t: Tree, hist: seq<Block>, h: nat)
    requires RulesOk(r) && TreeOk(r, t) && ValidHistory(r, hist) && Indexed(r, t, hist) && h < |hist|
    ensures r.blockId(hist[h].header) in t
    ensures t[r.blockId(hist[h].header)].work == WorkOf(r, hist[..h + 1])
  {
    hide ValidHistory, ShapeOk, Acceptable, Headers, Replay, RulesOk, TreeOk, AddWork, WorkOf;
    ActiveNode(r, t, hist, h);
    GenesisRules(r);
    HistoryLinks(r, hist, h);
    if h == 0 {
      GenesisNode(r, t);
      assert hist[..1] == [r.genesis];
      WorkOne(r, r.genesis);
    } else {
      ActiveWork(r, t, hist, h - 1);
      ParentWork(r, t, r.blockId(hist[h].header));
      assert hist[..h + 1] == hist[..h] + [hist[h]];
      WorkSnoc(r, hist[..h], hist[h]);
    }
  }

  lemma WorkOne(r: Rules, b: Block)
    ensures WorkOf(r, [b]) == r.work(b.header.bits)
  {
  }

  lemma WorkNext(r: Rules, hist: seq<Block>, n: nat)
    requires 0 < n < |hist|
    ensures WorkOf(r, hist[..n + 1]) == AddWork(WorkOf(r, hist[..n]), r.work(hist[n].header.bits))
  {
    hide WorkOf, AddWork;
    assert hist[..n + 1] == hist[..n] + [hist[n]];
    WorkSnoc(r, hist[..n], hist[n]);
  }

  /** The blocks from `m` to `n` add no more than the heaviest of them counts. */
  lemma {:induction false} WorkAtMost(r: Rules, hist: seq<Block>, m: nat, n: nat, hi: nat)
    requires 0 < m <= n <= |hist| && forall k | m <= k < n :: r.work(hist[k].header.bits) <= hi
    ensures WorkOf(r, hist[..n]) <= WorkOf(r, hist[..m]) + Product(n - m, hi)
    decreases n
  {
    hide WorkOf;
    if m < n {
      Distribute(n - 1 - m, 1, hi);
      WorkAtMost(r, hist, m, n - 1, hi);
      WorkNext(r, hist, n - 1);
    }
  }

  /** And no less than the lightest, as long as 256 bits hold the sum. */
  lemma {:induction false} WorkAtLeast(r: Rules, hist: seq<Block>, m: nat, n: nat, lo: nat, hi: nat)
    requires 0 < m <= n <= |hist| && forall k | m <= k < n :: lo <= r.work(hist[k].header.bits) <= hi
    requires WorkOf(r, hist[..m]) + Product(n - m, hi) < U256_LIMIT
    ensures WorkOf(r, hist[..m]) + Product(n - m, lo) <= WorkOf(r, hist[..n])
    decreases n
  {
    hide WorkOf;
    if m < n {
      Distribute(n - 1 - m, 1, lo);
      Distribute(n - 1 - m, 1, hi);
      WorkAtLeast(r, hist, m, n - 1, lo, hi);
      WorkAtMost(r, hist, m, n - 1, hi);
      WorkNext(r, hist, n - 1);
    }
  }

  /** Blocks that count the same, from block `m` on. */
  lemma UniformWork(r: Rules, hist: seq<Block>, m: nat, n: nat, w: nat)
    requires 0 < m <= n <= |hist| && (forall k | m <= k < n :: r.work(hist[k].header.bits) == w)
    requires WorkOf(r, hist[..m]) + Product(n - m, w) < U256_LIMIT
    ensures WorkOf(r, hist[..n]) == WorkOf(r, hist[..m]) + Product(n - m, w)
  {
    hide WorkOf;
    WorkAtMost(r, hist, m, n, w);
    WorkAtLeast(r, hist, m, n, w, w);
  }

  /** Every block above genesis counts from `lo` to `hi`. */
  ghost predicate Within(r: Rules, hist: seq<Block>, lo: nat, hi: nat) {
    forall i | 0 < i < |hist| :: lo <= r.work(hist[i].header.bits) <= hi
  }

  /** So do all blocks of any valid chain, where every difficulty the rules can
      ask for does. */
  lemma RulesWithin(r: Rules, hist: seq<Block>, lo: nat, hi: nat)
    requires GenesisOk(r) && ValidHistory(r, hist) && forall headers :: lo <= r.work(ExpectedBits(r, headers)) <= hi
    ensures Within(r, hist, lo, hi)
  {
    hide ValidHistory, Acceptable, ShapeOk, Headers, Replay, ExpectedBits;
    forall i | 0 < i < |hist|
      ensures lo <= r.work(hist[i].header.bits) <= hi
    {
      HistoryLinks(r, hist, i);
      AcceptedBits(r, hist[..i], Replay(r, hist[..i]), hist[i]);
    }
  }

  lemma AcceptedBits(r: Rules, hist: seq<Block>, s: State, b: Block)
    requires |hist| > 0 && Acceptable(r, Headers(hist), s, b)
    ensures b.header.bits == ExpectedBits(r, Headers(hist))
  {
    hide CheckBody, ShapeOk;
  }

  lemma GenesisNode(r: Rules, t: Tree)
    requires TreeOk(r, t)
    ensures GenesisId(r) in t && t[GenesisId(r)].work == r.work(r.genesis.header.bits)
  {
  }

  // ------------------------------------------------------------------
  // Forgetting side branches
  // ------------------------------------------------------------------

  /** The listed blocks that are indexed and not active. */
  function Listed(t: Tree, active: seq<Id>, ids: seq<Id>): set<Id> {
    set id | id in ids && id in t && !OnActive(t, active, id)
  }

  /** Some ancestor of `id`, or `id` itself, is in `roots`. */
  ghost predicate Descends(r: Rules, t: Tree, roots: set<Id>, id: Id)
    requires TreeOk(r, t) && id in t
  {
    exists k: nat :: Ancestor(r, t, id, k) in roots
  }

  /** The roots and everything built on them. */
  ghost function Descendants(r: Rules, t: Tree, roots: set<Id>): set<Id>
    requires TreeOk(r, t)
  {
    set id | id in t && Descends(r, t, roots, id)
  }

  lemma DescendsRoot(r: Rules, t: Tree, roots: set<Id>, id: Id)
    requires TreeOk(r, t) && id in t && id in roots
    ensures Descends(r, t, roots, id)
  {
    assert Ancestor(r, t, id, 0) == id;
  }

  lemma DescendsChild(r: Rules, t: Tree, roots: set<Id>, id: Id)
    requires TreeOk(r, t) && id in t && id != GenesisId(r)
    requires t[id].header.prev in t && Descends(r, t, roots, t[id].header.prev)
    ensures Descends(r, t, roots, id)
  {
    hide TreeOk;
    var k: nat :| Ancestor(r, t, t[id].header.prev, k) in roots;
    assert Ancestor(r, t, id, k + 1) == Ancestor(r, t, t[id].header.prev, k);
  }

  /** Whatever is built on a member is a member. */
  ghost predicate ClosedDown(r: Rules, t: Tree, gone: set<Id>) {
    forall c | c in t && c != GenesisId(r) && t[c].header.prev in gone :: c in gone
  }

  lemma {:induction false} ClosedHasDescendants(r: Rules, t: Tree, gone: set<Id>, id: Id, k: nat)
    requires TreeOk(r, t) && id in t && ClosedDown(r, t, gone)
    requires Ancestor(r, t, id, k) in gone
    ensures id in gone
    decreases k
  {
    hide TreeOk;
    TreeNode(r, t, id);
    if k > 0 && id != GenesisId(r) { ClosedHasDescendants(r, t, gone, t[id].header.prev, k - 1); }
  }

  lemma {:induction false} ActiveAncestors(r: Rules, t: Tree, hist: seq<Block>, id: Id, k: nat)
    requires RulesOk(r) && TreeOk(r, t) && ValidHistory(r, hist) && Indexed(r, t, hist)
    requires OnActive(t, Ids(r, hist), id)
    ensures OnActive(t, Ids(r, hist), Ancestor(r, t, id, k))
    decreases k
  {
    hide TreeOk, RulesOk, ValidHistory, Ids;
    if k > 0 && id != GenesisId(r) {
      ActiveParent(r, t, hist, id);
      ActiveAncestors(r, t, hist, t[id].header.prev, k - 1);
    }
  }

  /** Nothing active descends from a block that is not active. */
  lemma ActiveStays(r: Rules, t: Tree, hist: seq<Block>, ids: seq<Id>, id: Id)
    requires RulesOk(r) && TreeOk(r, t) && ValidHistory(r, hist) && Indexed(r, t, hist)
    requires OnActive(t, Ids(r, hist), id)
    ensures !Descends(r, t, Listed(t, Ids(r, hist), ids), id)
  {
    hide TreeOk, RulesOk, ValidHistory, Ids;
    forall k: nat
      ensures Ancestor(r, t, id, k) !in Listed(t, Ids(r, hist), ids)
    {
      ActiveAncestors(r, t, hist, id, k);
    }
  }

  /** Cutting whole subtrees leaves a tree. */
  lemma TreePrune(r: Rules, t: Tree, gone: set<Id>)
    requires TreeOk(r, t) && ClosedDown(r, t, gone) && GenesisId(r) !in gone
    ensures TreeOk(r, t - gone)
  {
    hide AddWork;
    var t' := t - gone;
    forall id | id in t' && id != GenesisId(r)
      ensures t'[id].header.prev in t' && Follows(r, t'[id], t'[t'[id].header.prev])
    {
      assert id in t;
      var p := t[id].header.prev;
      assert p in t && p !in gone;
    }
  }
}
