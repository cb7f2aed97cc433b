/** Valid chains beside the active one: the path to them, their work, and what
    fork choice answers when they lead. */
module Sides {
  import opened Prelude
  import opened Ledger
  import opened Validation
  import opened History
  import opened Index
  import opened ChainState
  import opened Bodies
  import opened ForkChoice
  import opened Reorg
  import opened Engine = Chain

  /** A scene of a valid chain. */
  ghost predicate Sound(s: Scene) {
    && RulesOk(s.rules) && TreeOk(s.rules, s.index)
    && ValidHistory(s.rules, s.hist) && Indexed(s.rules, s.index, s.hist) && s.active == Ids(s.rules, s.hist)
    && BodiesOk(s.rules, s.disk) && BodiesOk(s.rules, s.memory)
  }

  lemma SoundRules(s: Scene)
    requires Sound(s)
    ensures RulesOk(s.rules)
  {
  }

  lemma SoundNow(c: Chain)
    requires c.Valid()
    ensures Sound(c.Now()) && SceneOk(c.Now())
  {
    hide CoreOk, StoreOk, BodiesOk, RulesOk, TreeOk, ValidHistory, Indexed, Ids, SceneOk, QueueOk;
    c.CoreFacts();
    c.SceneValid();
    c.StoredBodies();
  }

  /** Blocks from genesis, each on the one before. */
  ghost predicate Chained(r: Rules, side: seq<Block>) {
    && |side| > 0 && side[0] == r.genesis
    && (forall i | 0 <= i < |side| :: side[i].header.height == i)
    && (forall i | 0 < i < |side| :: side[i].header.prev == r.blockId(side[i - 1].header))
  }

  lemma ValidChained(r: Rules, hist: seq<Block>)
    requires RulesOk(r) && ValidHistory(r, hist)
    ensures Chained(r, hist)
  {
    hide ValidHistory, RulesOk, ShapeOk, Acceptable, Headers, Replay;
    HistoryNonempty(r, hist);
    GenesisRules(r);
    HistoryLinks(r, hist, 0);
    forall i | 0 <= i < |hist|
      ensures hist[i].header.height == i && (i > 0 ==> hist[i].header.prev == r.blockId(hist[i - 1].header))
    {
      HistoryLinks(r, hist, i);
    }
  }

  /** The side chain leaves the active one after height `fork`. */
  ghost predicate Leaves(hist: seq<Block>, side: seq<Block>, fork: nat) {
    && fork < |hist| && fork + 1 < |side| && side[..fork + 1] == hist[..fork + 1]
    && (fork + 1 < |hist| ==> side[fork + 1].header != hist[fork + 1].header)
  }

  lemma {:induction false} StillApart(r: Rules, a: seq<Block>, b: seq<Block>, fork: nat, k: nat)
    requires RulesOk(r) && Chained(r, a) && Chained(r, b) && fork < k < |a| && k < |b|
    requires a[fork + 1].header != b[fork + 1].header
    ensures a[k].header != b[k].header
    decreases k
  {
    hide RulesOk;
    if k > fork + 1 && a[k].header == b[k].header {
      HeaderIsUnique(r, a[k - 1].header, b[k - 1].header);
      StillApart(r, a, b, fork, k - 1);
    }
  }

  lemma ChainedNode(r: Rules, t: Tree, side: seq<Block>, i: nat)
    requires RulesOk(r) && TreeOk(r, t) && Indexed(r, t, side) && i < |side|
    ensures r.blockId(side[i].header) in t && t[r.blockId(side[i].header)].header == side[i].header
  {
    hide RulesOk, TreeOk;
    TreeNode(r, t, r.blockId(side[i].header));
    HeaderIsUnique(r, t[r.blockId(side[i].header)].header, side[i].header);
  }

  lemma OffActive(s: Scene, side: seq<Block>, fork: nat, k: nat)
    requires Sound(s) && Chained(s.rules, side) && Indexed(s.rules, s.index, side) && Leaves(s.hist, side, fork)
    requires fork < k < |side|
    ensures !OnActive(s.index, s.active, s.rules.blockId(side[k].header))
  {
    hide RulesOk, TreeOk, ValidHistory, BodiesOk;
    ChainedNode(s.rules, s.index, side, k);
    if k < |s.hist| {
      ValidChained(s.rules, s.hist);
      StillApart(s.rules, side, s.hist, fork, k);
      if s.rules.blockId(s.hist[k].header) == s.rules.blockId(side[k].header) {
        HeaderIsUnique(s.rules, s.hist[k].header, side[k].header);
      }
    }
  }

  /** The ids of a side chain above its fork. */
  function IdsAbove(r: Rules, side: seq<Block>, fork: nat): (ids: seq<Id>)
    requires fork < |side|
    ensures |ids| == |side| - 1 - fork
  {
    Ids(r, side)[fork + 1..]
  }

  /** One step of the way to a side chain: indexed, on the block before, off the
      active chain. */
  lemma SideStep(s: Scene, side: seq<Block>, fork: nat, k: nat)
    requires Sound(s) && Chained(s.rules, side) && Indexed(s.rules, s.index, side) && Leaves(s.hist, side, fork)
    requires fork < k < |side|
    ensures var id := s.rules.blockId(side[k].header);
            && id in s.index && s.index[id].header.prev == s.rules.blockId(side[k - 1].header)
            && !OnActive(s.index, s.active, id)
  {
    hide RulesOk, TreeOk, ValidHistory, BodiesOk, OnActive, Indexed, Ids, Leaves;
    ChainedNode(s.rules, s.index, side, k);
    OffActive(s, side, fork, k);
  }

  lemma ForkId(s: Scene, side: seq<Block>, fork: nat)
    requires Sound(s) && Leaves(s.hist, side, fork)
    ensures fork < |s.active| == |s.hist| && fork < |side| && s.active[fork] == s.rules.blockId(side[fork].header)
  {
    hide RulesOk, TreeOk, ValidHistory, BodiesOk, Indexed;
    assert side[fork] == side[..fork + 1][fork] == s.hist[fork];
  }

  lemma AboveAt(r: Rules, side: seq<Block>, fork: nat, i: nat)
    requires fork + 1 + i < |side|
    ensures IdsAbove(r, side, fork)[i] == r.blockId(side[fork + 1 + i].header)
  {
  }

  lemma SidePath(s: Scene, side: seq<Block>, fork: nat)
    requires Sound(s) && Chained(s.rules, side) && Indexed(s.rules, s.index, side) && Leaves(s.hist, side, fork)
    requires |side| - 1 - fork <= Reach(s.binds)
    ensures PathOk(s, s.rules.blockId(Last(side).header), fork, IdsAbove(s.rules, side, fork))
  {
    hide Sound, Chained, Indexed, IdsAbove, OnActive;
    var branch := IdsAbove(s.rules, side, fork);
    ForkId(s, side, fork);
    forall i | 0 <= i < |branch|
      ensures branch[i] in s.index && s.index[branch[i]].header.prev == Below(s.active[fork], branch, i)
      ensures !OnActive(s.index, s.active, branch[i])
    {
      AboveAt(s.rules, side, fork, i);
      if i > 0 { AboveAt(s.rules, side, fork, i - 1); }
      SideStep(s, side, fork, fork + 1 + i);
    }
    AboveAt(s.rules, side, fork, |branch| - 1);
  }

  /** The indexed work of a chain. */
  lemma {:induction false} ChainedWork(r: Rules, t: Tree, side: seq<Block>)
    requires RulesOk(r) && TreeOk(r, t) && Chained(r, side) && Indexed(r, t, side)
    ensures r.blockId(Last(side).header) in t && t[r.blockId(Last(side).header)].work == WorkOf(r, side)
  {
    hide RulesOk, TreeOk, WorkOf, AddWork;
    var n := |side| - 1;
    ChainedNode(r, t, side, n);
    if n == 0 {
      assert side == [r.genesis];
      GenesisNode(r, t);
      WorkOne(r, r.genesis);
    } else {
      ChainedWork(r, t, Front(side));
      ParentWork(r, t, r.blockId(side[n].header));
      assert side == Front(side) + [side[n]];
      WorkSnoc(r, Front(side), side[n]);
    }
  }

  // ------------------------------------------------------------------
  // Bodies
  // ------------------------------------------------------------------

  /** Every block of `side` is on disk. */
  ghost predicate OnDisk(s: Scene, side: seq<Block>) {
    forall i | 0 <= i < |side| :: s.rules.blockId(side[i].header) in s.disk && ShapeOk(s.rules, side[i])
  }

  lemma HeldIs(s: Scene, side: seq<Block>, i: nat)
    requires Sound(s) && OnDisk(s, side) && i < |side|
    ensures s.rules.blockId(side[i].header) in Held(s) && Held(s)[s.rules.blockId(side[i].header)] == side[i]
  {
    hide RulesOk, TreeOk, ValidHistory, ShapeOk;
    BodyIsUnique(s.rules, Held(s)[s.rules.blockId(side[i].header)], side[i]);
  }

  lemma BranchAtHand(s: Scene, side: seq<Block>, fork: nat)
    requires Sound(s) && OnDisk(s, side) && OnDisk(s, s.hist) && fork < |side| && fork < |s.hist|
    ensures AtHand(s, fork, IdsAbove(s.rules, side, fork))
    ensures Fetched(s, IdsAbove(s.rules, side, fork)) == side[fork + 1..]
  {
    hide RulesOk, TreeOk, ValidHistory, BodiesOk, ShapeOk, OnDisk;
    var branch := IdsAbove(s.rules, side, fork);
    forall i | 0 <= i < |branch|
      ensures branch[i] in Held(s) && Held(s)[branch[i]] == side[fork + 1..][i]
    {
      HeldIs(s, side, fork + 1 + i);
    }
    var olds := s.active[fork + 1..];
    forall i | 0 <= i < |olds|
      ensures olds[i] in Held(s)
    {
      HeldIs(s, s.hist, fork + 1 + i);
    }
  }

  /** The blocks of a valid chain connect at any clock that allows them. */
  lemma ValidAccepted(r: Rules, side: seq<Block>, fork: nat, bodies: seq<Block>, n: nat, now: nat)
    requires RulesOk(r) && ValidHistory(r, side) && fork < |side| && n <= |bodies| && side[fork + 1..] == bodies[..n]
    requires Restorable(side, fork, now)
    ensures AllAccepted(r, side[..fork + 1], bodies, n, now)
  {
    hide RulesOk, ValidHistory, Accepted, Restorable;
    forall i | 0 <= i < n
      ensures Accepted(r, side[..fork + 1] + bodies[..i], bodies[i], now)
    {
      var k := fork + 1 + i;
      assert bodies[i] == bodies[..n][i] == side[k];
      assert side[..fork + 1] + bodies[..i] == side[..k];
      NextConnects(r, side, fork, k, now);
    }
  }

  lemma NextConnects(r: Rules, side: seq<Block>, fork: nat, k: nat, now: nat)
    requires RulesOk(r) && ValidHistory(r, side) && fork < k < |side| && Restorable(side, fork, now)
    ensures Accepted(r, side[..k], side[k], now)
  {
    hide RulesOk, ValidHistory, ShapeOk, Acceptable, Headers, Replay, CheckBlock, ContextAt, ClockAllows;
    GenesisRules(r);
    HistoryLinks(r, side, k);
    HeadersLength(side[..k]);
    ClockIsOneGate(r, Headers(side[..k]), Replay(r, side[..k]), side[k], now);
  }

  // ------------------------------------------------------------------
  // Answers
  // ------------------------------------------------------------------

  /** A valid chain whose terms are met, all on disk, takes over. */
  lemma ValidTakes(s: Scene, side: seq<Block>, fork: nat, now: nat)
    requires Sound(s) && SceneOk(s) && ValidHistory(s.rules, side) && Indexed(s.rules, s.index, side)
    requires Leaves(s.hist, side, fork)
    requires |side| - 1 - fork <= Reach(s.binds) && OnDisk(s, side) && OnDisk(s, s.hist) && Restorable(side, fork, now)
    requires s.rules.blockId(Last(side).header) in s.index
    requires TermsFault(s, s.rules.blockId(Last(side).header), fork).None?
    ensures Takes(s, s.rules.blockId(Last(side).header), now, fork, IdsAbove(s.rules, side, fork))
    ensures Fetched(s, IdsAbove(s.rules, side, fork)) == side[fork + 1..]
  {
    hide RulesOk, TreeOk, ValidHistory, BodiesOk, Indexed, OnDisk, Restorable, PathOk, TermsFault, AllAccepted, SceneOk,
         Ids;
    ValidChained(s.rules, side);
    SidePath(s, side, fork);
    BranchAtHand(s, side, fork);
    assert side[fork + 1..] == side[fork + 1..][..|side| - 1 - fork];
    ValidAccepted(s.rules, side, fork, side[fork + 1..], |side| - 1 - fork, now);
  }

  /** A valid chain with one more block that its rules refuse fails there. */
  lemma SpoiledFails(s: Scene, side: seq<Block>, b: Block, fork: nat, now: nat, e: ValidationError)
    requires Sound(s) && SceneOk(s) && ValidHistory(s.rules, side) && Chained(s.rules, side + [b])
    requires Indexed(s.rules, s.index, side + [b]) && Leaves(s.hist, side + [b], fork) && fork < |side|
    requires |side| - fork <= Reach(s.binds) && OnDisk(s, side + [b]) && OnDisk(s, s.hist)
    requires Restorable(side, fork, now)
    requires s.rules.blockId(b.header) in s.index && TermsFault(s, s.rules.blockId(b.header), fork).None?
    requires Verdict(s.rules, side, b, now) == Err(e)
    ensures FailsAt(s, s.rules.blockId(b.header), now, fork, IdsAbove(s.rules, side + [b], fork), |side| - 1 - fork, e)
    ensures Fetched(s, IdsAbove(s.rules, side + [b], fork)) == side[fork + 1..] + [b]
  {
    hide RulesOk, TreeOk, ValidHistory, BodiesOk, Indexed, OnDisk, Restorable, PathOk, TermsFault, AllAccepted, SceneOk,
         IdsAbove, Verdict, Chained, Found, Fetched, Sound, Leaves;
    SoundRules(s);
    assert fork < |s.hist| by { SplitAt(s.hist, side, b, fork); }
    SidePath(s, side + [b], fork);
    BranchAtHand(s, side + [b], fork);
    SplitAt(s.hist, side, b, fork);
    ValidAccepted(s.rules, side, fork, (side + [b])[fork + 1..], |side| - 1 - fork, now);
  }

  lemma SplitAt(hist: seq<Block>, side: seq<Block>, b: Block, fork: nat)
    requires Leaves(hist, side + [b], fork) && fork < |side|
    ensures fork < |hist|
    ensures var bodies, n := (side + [b])[fork + 1..], |side| - 1 - fork;
            && bodies == side[fork + 1..] + [b] && bodies[..n] == side[fork + 1..] && bodies[n] == b
            && hist[..fork + 1] == side[..fork + 1] && side[..fork + 1] + bodies[..n] == side
  {
    assert (side + [b])[..fork + 1] == side[..fork + 1];
  }

  // ------------------------------------------------------------------
  // Entering the index
  // ------------------------------------------------------------------

  lemma {:induction false} ChainedAncestor(r: Rules, t: Tree, side: seq<Block>, k: nat)
    requires RulesOk(r) && TreeOk(r, t) && Chained(r, side) && Indexed(r, t, side)
    ensures r.blockId(Last(side).header) in t
    ensures Ancestor(r, t, r.blockId(Last(side).header), k) == r.blockId(side[SatSub(|side| - 1, k)].header)
    decreases |side|
  {
    hide RulesOk, TreeOk, Ancestor;
    var n := |side| - 1;
    ChainedNode(r, t, side, n);
    if n == 0 || k == 0 {
      AncestorHere(r, t, r.blockId(side[n].header), k);
    } else {
      ChainedAncestor(r, t, Front(side), k - 1);
      ParentWork(r, t, r.blockId(side[n].header));
      AncestorParent(r, t, r.blockId(side[n].header), k);
    }
  }

  lemma AncestorHere(r: Rules, t: Tree, id: Id, k: nat)
    requires TreeOk(r, t) && id in t && (k == 0 || id == GenesisId(r))
    ensures Ancestor(r, t, id, k) == id
  {
  }

  lemma AncestorParent(r: Rules, t: Tree, id: Id, k: nat)
    requires RulesOk(r) && TreeOk(r, t) && id in t && t[id].header.height > 0 && k > 0
    ensures t[id].header.prev in t && Ancestor(r, t, id, k) == Ancestor(r, t, t[id].header.prev, k - 1)
  {
    hide TxidOk, RootsOk, TreeOk;
    GenesisRules(r);
    OnlyGenesisAtZero(r, t, id);
    TreeNode(r, t, id);
  }

  /** The block of `side` both chains share last is not sixteen times harder. */
  ghost predicate FairlyHard(r: Rules, side: seq<Block>, fork: nat, work: nat)
    requires fork < |side|
  {
    forall i | 0 <= i <= fork :: r.work(side[i].header.bits) <= work * SIDE_BRANCH_EASE_LIMIT
  }

  lemma NotTooEasy(s: Scene, side: seq<Block>, fork: nat, work: nat)
    requires Sound(s) && Chained(s.rules, side) && Indexed(s.rules, s.index, side)
    requires fork < |side| && fork < |s.hist| && (fork + 1 < |side| ==> Leaves(s.hist, side, fork))
    requires FairlyHard(s.rules, side, fork, work)
    ensures s.rules.blockId(Last(side).header) in s.index
    ensures !TooEasy(s, s.rules.blockId(Last(side).header), work)
  {
    hide RulesOk, TreeOk, ValidHistory, BodiesOk, Chained, OnActive, Indexed, Leaves;
    ChainedNode(s.rules, s.index, side, |side| - 1);
    forall k: nat | LeavesActiveAt(s, s.rules.blockId(Last(side).header), k)
      ensures var id := Ancestor(s.rules, s.index, s.rules.blockId(Last(side).header), k);
              work * SIDE_BRANCH_EASE_LIMIT >= s.rules.work(s.index[id].header.bits)
    {
      ChainedAncestor(s.rules, s.index, side, k);
      var i := SatSub(|side| - 1, k);
      ChainedNode(s.rules, s.index, side, i);
      if i > fork { OffActive(s, side, fork, i); }
    }
  }

  /** The next block of a valid chain is let in. */
  lemma ValidLetIn(s: Scene, side: seq<Block>, b: Block, fork: nat, now: nat)
    requires Sound(s) && SceneOk(s) && ValidHistory(s.rules, side) && Indexed(s.rules, s.index, side)
    requires fork < |side| && fork < |s.hist| && (fork + 1 < |side| ==> Leaves(s.hist, side, fork))
    requires s.binds ==> |s.hist| <= |side| + MAX_REORG_DEPTH
    requires HeaderFault(s.rules, ContextAt(s.rules, Headers(side)), b.header).None? && ClockAllows(b, now)
    requires ShapeOk(s.rules, b) && s.rules.size(b) <= MAX_BLOCK_SIZE && s.rules.powOk(b.header)
    requires FairlyHard(s.rules, side, fork, s.rules.work(b.header.bits))
    ensures b.header.prev == s.rules.blockId(Last(side).header) && b.header.prev in s.index && b.header.height == |side|
    ensures s.index[b.header.prev].header.height == |side| - 1
    ensures SideFault(s, b, now).None? && SideWork(s, b) == WorkOf(s.rules, side + [b])
  {
    hide RulesOk, TreeOk, ValidHistory, BodiesOk, Chained, OnActive, Indexed, Leaves, ShapeOk, FairlyHard, WorkOf,
         TooEasy, Ancestry, RecentTimes, ExpectedBits;
    ValidChained(s.rules, side);
    ChainedLast(s.rules, side);
    ChainedNode(s.rules, s.index, side, |side| - 1);
    NotTooEasy(s, side, fork, s.rules.work(b.header.bits));
    ActiveAncestry(s.rules, s.index, side, |side| - 1);
    assert side[..|side| - 1 + 1] == side;
    ChainedWork(s.rules, s.index, side);
    WorkSnoc(s.rules, side, b);
  }

  lemma ChainedLast(r: Rules, side: seq<Block>)
    requires Chained(r, side)
    ensures |side| > 0 && Last(side).header.height == |side| - 1
  {
  }

  lemma SceneLength(s: Scene)
    requires SceneOk(s)
    ensures |s.active| == |s.hist| > 0
  {
  }

  /** The work asked of a branch, in terms of the blocks. */
  lemma SceneTerms(s: Scene, fork: nat)
    requires Sound(s) && SceneOk(s) && fork < |s.hist|
    ensures var total, common := WorkOf(s.rules, s.hist), WorkOf(s.rules, s.hist[..fork + 1]);
            Required(s, fork) == if s.binds then Threshold(total, common, |s.hist| - 1 - fork) else total
  {
    hide RulesOk, TreeOk, ValidHistory, BodiesOk, WorkOf, Threshold;
    ActiveWork(s.rules, s.index, s.hist, fork);
    ActiveWork(s.rules, s.index, s.hist, |s.hist| - 1);
    assert s.hist[..|s.hist| - 1 + 1] == s.hist;
  }

  /** Another block beside a valid chain: still one, and all as it was. */
  lemma BesideSound(s: Scene, side: seq<Block>, b: Block, after: Scene)
    requires Sound(s) && SceneOk(s) && Beside(s, b, after) && s.rules.blockId(b.header) !in s.index
    requires ShapeOk(s.rules, b)
    requires b.header.height == s.index[b.header.prev].header.height + 1 < HEIGHT_LIMIT
    requires Indexed(s.rules, s.index, side)
    ensures Sound(after) && SceneOk(after) && Indexed(s.rules, after.index, side + [b])
    ensures after.index[s.rules.blockId(b.header)].work == SideWork(s, b)
  {
    hide RulesOk, TreeOk, ValidHistory, ShapeOk, AddWork;
    TreeGrow(s.rules, s.index, Node(b.header, SideWork(s, b), 0));
  }

  /** A new block on the valid chain `side`, which leaves the active one at
      `fork`: everything a side block is asked for. */
  ghost predicate LetIn(s: Scene, side: seq<Block>, b: Block, fork: nat, now: nat) {
    && ValidHistory(s.rules, side) && 0 < |side| < HEIGHT_LIMIT && Indexed(s.rules, s.index, side)
    && fork < |side| && fork < |s.hist| && (fork + 1 < |side| ==> Leaves(s.hist, side, fork))
    && (s.binds ==> |s.hist| <= |side| + MAX_REORG_DEPTH)
    && HeaderFault(s.rules, ContextAt(s.rules, Headers(side)), b.header).None? && ClockAllows(b, now)
    && ShapeOk(s.rules, b) && s.rules.size(b) <= MAX_BLOCK_SIZE && s.rules.powOk(b.header)
    && FairlyHard(s.rules, side, fork, s.rules.work(b.header.bits))
    && s.rules.blockId(b.header) !in s.index && b.header.prev != s.rules.blockId(Last(s.hist).header)
  }

  lemma LetInAside(s: Scene, side: seq<Block>, b: Block, fork: nat, now: nat)
    requires Sound(s) && SceneOk(s) && LetIn(s, side, b, fork, now)
    ensures TreeOk(s.rules, s.index) && Aside(s, b, now) && b.header.height == |side| < HEIGHT_LIMIT
    ensures ShapeOk(s.rules, b)
    ensures SideWork(s, b) == WorkOf(s.rules, side + [b])
    ensures Last(s.active) in s.index && s.index[Last(s.active)].work == WorkOf(s.rules, s.hist)
  {
    hide RulesOk, TreeOk, ValidHistory, BodiesOk, OnActive, Indexed, Leaves, ShapeOk, FairlyHard, WorkOf, SideFault,
         HeaderFault, ContextAt;
    ValidLetIn(s, side, b, fork, now);
    ActiveWork(s.rules, s.index, s.hist, |s.hist| - 1);
    assert s.hist[..|s.hist| - 1 + 1] == s.hist;
  }

  /** The block a side chain continues on is not the tip. */
  lemma NotTheTip(s: Scene, side: seq<Block>, fork: nat, i: nat)
    requires Sound(s) && Chained(s.rules, side) && Leaves(s.hist, side, fork) && fork <= i < |side|
    requires fork + 1 < |s.hist|
    ensures s.rules.blockId(side[i].header) != s.rules.blockId(Last(s.hist).header)
  {
    hide RulesOk, TreeOk, ValidHistory, BodiesOk, Indexed, Ids;
    ValidChained(s.rules, s.hist);
    if s.rules.blockId(side[i].header) == s.rules.blockId(Last(s.hist).header) {
      HeaderIsUnique(s.rules, side[i].header, Last(s.hist).header);
      assert i == |s.hist| - 1;
      StillApart(s.rules, side, s.hist, fork, i);
    }
  }

  /** The next block of a valid side chain is let in. */
  lemma NextLetIn(s: Scene, side: seq<Block>, i: nat, fork: nat, now: nat)
    requires Sound(s) && ValidHistory(s.rules, side) && i < HEIGHT_LIMIT && fork + 1 < |s.hist| && fork < i < |side|
    requires Leaves(s.hist, side, fork) && Indexed(s.rules, s.index, side[..i])
    requires s.rules.blockId(side[i].header) !in s.index
    requires (s.binds ==> |s.hist| <= i + MAX_REORG_DEPTH) && Restorable(side, fork, now)
    requires FairlyHard(s.rules, side, fork, s.rules.work(side[i].header.bits))
    ensures LetIn(s, side[..i], side[i], fork, now)
  {
    hide RulesOk, TreeOk, ValidHistory, BodiesOk, Indexed, Ids, ShapeOk, CheckBody, Replay, Headers, HeaderFault,
         ContextAt;
    ValidChained(s.rules, side);
    GenesisRules(s.rules);
    HistoryLinks(s.rules, side, i);
    HistoryLinks(s.rules, side, i - 1);
    HeadersLength(side[..i]);
    NotTheTip(s, side, fork, i - 1);
    assert side[..i][..fork + 1] == side[..fork + 1];
  }

  /** Above the fork no block of a side chain is one of the active chain's. */
  lemma ApartIds(r: Rules, hist: seq<Block>, side: seq<Block>, fork: nat, i: nat)
    requires RulesOk(r) && Chained(r, hist) && Chained(r, side) && Leaves(hist, side, fork) && fork < i < |side|
    ensures r.blockId(side[i].header) !in Ids(r, hist)
  {
    hide RulesOk;
    forall j | 0 <= j < |hist|
      ensures r.blockId(hist[j].header) != r.blockId(side[i].header)
    {
      if r.blockId(hist[j].header) == r.blockId(side[i].header) {
        HeaderIsUnique(r, hist[j].header, side[i].header);
        assert i == j;
        StillApart(r, side, hist, fork, i);
      }
    }
  }

  /** A block higher than a chain is none of its blocks. */
  lemma HigherIds(r: Rules, hist: seq<Block>, b: Block)
    requires RulesOk(r) && Chained(r, hist) && b.header.height >= |hist|
    ensures r.blockId(b.header) !in Ids(r, hist)
  {
    hide RulesOk;
    forall j | 0 <= j < |hist|
      ensures r.blockId(hist[j].header) != r.blockId(b.header)
    {
      if r.blockId(hist[j].header) == r.blockId(b.header) { HeaderIsUnique(r, hist[j].header, b.header); }
    }
  }
}
