/** The block tree, rebuilt from headers alone (src/chain.rs,
    `block_tree_preferring`).  Nothing is known of the headers: they may be
    out of order, orphaned, or run in circles. */
module BlockTree {
  import opened Prelude
  import opened Ledger
  import opened Index

  datatype ResumeError = NoGenesis | InconsistentIndex | SnapshotOffChain

  datatype BlockTree = BlockTree(byId: map<Id, Header>, work: map<Id, nat>, active: seq<Id>, genesis: Id)

  /** The headers by id; of two with the same id the last one counts. */
  function ById(r: Rules, headers: seq<Header>): map<Id, Header> {
    if headers == [] then map[] else ById(r, Front(headers))[r.blockId(Last(headers)) := Last(headers)]
  }

  /** The last header at height zero. */
  function RootOf(r: Rules, headers: seq<Header>): Option<Id> {
    if headers == [] then None
    else if Last(headers).height == 0 then Some(r.blockId(Last(headers)))
    else RootOf(r, Front(headers))
  }

  // ------------------------------------------------------------------
  // Walking up
  // ------------------------------------------------------------------

  /** `n` parents up from `id`, stopping at the root; none once a parent is missing. */
  ghost function Up(byId: map<Id, Header>, root: Id, id: Id, n: nat): Option<Id>
    decreases n
  {
    if id !in byId then None
    else if n == 0 || id == root then Some(id)
    else Up(byId, root, byId[id].prev, n - 1)
  }

  ghost predicate Rooted(byId: map<Id, Header>, root: Id, id: Id) {
    exists n: nat :: Up(byId, root, id, n) == Some(root)
  }

  ghost predicate Orphan(byId: map<Id, Header>, root: Id, id: Id) {
    exists n: nat :: Up(byId, root, id, n) == None
  }

  /** Parent after parent, all known, and never the root. */
  ghost predicate Endless(byId: map<Id, Header>, root: Id, id: Id) {
    forall n: nat :: Up(byId, root, id, n).Some? && Up(byId, root, id, n) != Some(root)
  }

  /** A path of parents. */
  ghost predicate IsPath(byId: map<Id, Header>, path: seq<Id>) {
    && (forall i | 0 <= i < |path| :: path[i] in byId)
    && (forall i | 0 < i < |path| :: byId[path[i - 1]].prev == path[i])
  }

  lemma RootedStep(byId: map<Id, Header>, root: Id, id: Id)
    requires id in byId && id != root
    ensures Rooted(byId, root, byId[id].prev) ==> Rooted(byId, root, id)
    ensures Orphan(byId, root, byId[id].prev) ==> Orphan(byId, root, id)
  {
    var prev := byId[id].prev;
    if Rooted(byId, root, prev) {
      var n: nat :| Up(byId, root, prev, n) == Some(root);
      assert Up(byId, root, id, n + 1) == Some(root);
    }
    if Orphan(byId, root, prev) {
      var n: nat :| Up(byId, root, prev, n) == None;
      assert Up(byId, root, id, n + 1) == None;
    }
  }

  /** Steps add up. */
  lemma {:induction false} UpAdd(byId: map<Id, Header>, root: Id, id: Id, k: nat, m: nat)
    requires Up(byId, root, id, k).Some?
    ensures Up(byId, root, id, k + m) == Up(byId, root, Up(byId, root, id, k).value, m)
    decreases k
  {
    if k > 0 && id != root {
      UpAdd(byId, root, byId[id].prev, k - 1, m);
    }
  }

  /** An orphan stays one further up, and the root is not an orphan. */
  lemma RootedNotOrphan(byId: map<Id, Header>, root: Id, id: Id)
    requires root in byId && Rooted(byId, root, id)
    ensures !Orphan(byId, root, id) && id in byId
  {
    var n: nat :| Up(byId, root, id, n) == Some(root);
    forall m: nat
      ensures Up(byId, root, id, m) != None
    {
      if m >= n { UpAdd(byId, root, id, n, m - n); }
      else if Up(byId, root, id, m) == None { NoneStays(byId, root, id, m, n); }
    }
  }

  lemma {:induction false} NoneStays(byId: map<Id, Header>, root: Id, id: Id, m: nat, n: nat)
    requires Up(byId, root, id, m) == None && m <= n
    ensures Up(byId, root, id, n) == None
    decreases m
  {
    if id in byId { NoneStays(byId, root, byId[id].prev, m - 1, n - 1); }
  }

  lemma {:induction false} PathUp(byId: map<Id, Header>, root: Id, path: seq<Id>, i: nat)
    requires IsPath(byId, path) && i < |path| && root !in path
    ensures Up(byId, root, path[0], i) == Some(path[i])
  {
    if i > 0 {
      PathUp(byId, root, path, i - 1);
      UpAdd(byId, root, path[0], i - 1, 1);
    }
  }

  /** More values than there are places: one comes twice. */
  lemma {:induction false} Pigeonhole(s: seq<Id>, places: set<Id>)
    requires (forall x | x in s :: x in places) && |s| > |places|
    ensures exists i, j :: 0 <= i < j < |s| && s[i] == s[j]
  {
    if Last(s) in Front(s) {
      var i :| 0 <= i < |s| - 1 && s[i] == Last(s);
      assert s[i] == s[|s| - 1];
    } else {
      Pigeonhole(Front(s), places - {Last(s)});
      var i, j :| 0 <= i < j < |Front(s)| && Front(s)[i] == Front(s)[j];
      assert s[i] == s[j];
    }
  }

  /** A path longer than the index comes back on itself, and never ends. */
  lemma LongPathIsEndless(byId: map<Id, Header>, root: Id, path: seq<Id>)
    requires IsPath(byId, path) && root !in path && |path| > |byId|
    ensures Endless(byId, root, path[0])
  {
    Pigeonhole(path, byId.Keys);
    var i, j :| 0 <= i < j < |path| && path[i] == path[j];
    forall n: nat
      ensures Up(byId, root, path[0], n).Some? && Up(byId, root, path[0], n) != Some(root)
    {
      LoopsOn(byId, root, path, i, j, n);
    }
  }

  lemma {:induction false} LoopsOn(byId: map<Id, Header>, root: Id, path: seq<Id>, i: nat, j: nat, n: nat)
    requires IsPath(byId, path) && root !in path && i < j < |path| && path[i] == path[j]
    ensures Up(byId, root, path[0], n).Some? && Up(byId, root, path[0], n) != Some(root)
  {
    if n < j {
      PathUp(byId, root, path, n);
    } else {
      PathUp(byId, root, path, i);
      PathUp(byId, root, path, j);
      UpAdd(byId, root, path[0], j, n - j);
      UpAdd(byId, root, path[0], i, n - j);
      LoopsOn(byId, root, path, i, j, n - (j - i));
    }
  }

  // ------------------------------------------------------------------
  // Cumulative work
  // ------------------------------------------------------------------

  /** Each counted block has the work of its parent and its own. */
  ghost predicate WorkOk(r: Rules, byId: map<Id, Header>, root: Id, work: map<Id, nat>) {
    && work.Keys <= byId.Keys
    && root in work && work[root] == r.work(byId[root].bits)
    && (forall id | id in work && id != root ::
          && byId[id].prev in work
          && work[id] == AddWork(work[byId[id].prev], r.work(byId[id].bits)))
  }

  lemma WorkAt(r: Rules, byId: map<Id, Header>, root: Id, work: map<Id, nat>, id: Id)
    requires WorkOk(r, byId, root, work) && id in work
    ensures root in byId && id in byId && work[root] == r.work(byId[root].bits)
    ensures id != root ==> byId[id].prev in work && work[id] == AddWork(work[byId[id].prev], r.work(byId[id].bits))
  {
    hide AddWork;
  }

  /** Walks up to a block already counted, a missing one, or too far. */
  method WalkUp(byId: map<Id, Header>, work: map<Id, nat>, start: Id) returns (stack: seq<Id>, top: Id)
    requires start in byId && start !in work
    ensures |stack| > 0 && stack[0] == start && IsPath(byId, stack)
    ensures forall id | id in stack :: id !in work
    ensures top == byId[Last(stack)].prev
    ensures |stack| > |byId| || top in work || top !in byId
  {
    stack, top := [start], byId[start].prev;
    while |stack| <= |byId| && top !in work && top in byId
      invariant |stack| > 0 && stack[0] == start && IsPath(byId, stack)
      invariant forall id | id in stack :: id !in work
      invariant top == byId[Last(stack)].prev
      decreases |byId| + 1 - |stack|
    {
      stack := stack + [top];
      top := byId[top].prev;
    }
  }

  /** Counts the blocks of a path whose end is counted, top first. */
  method CountDown(r: Rules, byId: map<Id, Header>, root: Id, work: map<Id, nat>, path: seq<Id>)
    returns (counted: map<Id, nat>)
    requires WorkOk(r, byId, root, work) && (forall id | id in work :: Rooted(byId, root, id))
    requires |path| > 0 && IsPath(byId, path) && root !in path && byId[Last(path)].prev in work
    ensures WorkOk(r, byId, root, counted) && (forall id | id in counted :: Rooted(byId, root, id))
    ensures work.Keys <= counted.Keys && path[0] in counted
  {
    hide Rooted, AddWork;
    counted := work;
    var stack := path;
    var w := work[byId[Last(path)].prev];
    while |stack| > 0
      invariant stack == path[..|stack|]
      invariant WorkOk(r, byId, root, counted) && (forall id | id in counted :: Rooted(byId, root, id))
      invariant work.Keys <= counted.Keys
      invariant |stack| > 0 ==> byId[Last(stack)].prev in counted && w == counted[byId[Last(stack)].prev]
      invariant |stack| < |path| ==> path[|stack|] in counted
    {
      var id := Last(stack);
      RootedStep(byId, root, id);
      w := AddWork(w, r.work(byId[id].bits));
      counted := counted[id := w];
      stack := Front(stack);
    }
  }

  /** Work of every block that hangs from the root.  Refused exactly when some
      headers run in a circle. */
  method CumulativeWork(r: Rules, byId: map<Id, Header>, root: Id) returns (res: Option<map<Id, nat>>)
    requires root in byId
    ensures res.None? <==> exists id :: id in byId && Endless(byId, root, id)
    ensures res.Some? ==> WorkOk(r, byId, root, res.value)
    ensures res.Some? ==> forall id :: id in res.value <==> Rooted(byId, root, id)
  {
    hide Rooted, Orphan, Endless, AddWork, IsPath;
    var work: map<Id, nat> := map[root := r.work(byId[root].bits)];
    RootRooted(byId, root);
    var todo := byId.Keys;
    while todo != {}
      invariant todo <= byId.Keys
      invariant WorkOk(r, byId, root, work) && (forall id | id in work :: Rooted(byId, root, id))
      invariant forall id | id in byId && id !in todo :: id in work || Orphan(byId, root, id)
    {
      var start :| start in todo;
      if start !in work {
        var stack, top := WalkUp(byId, work, start);
        if |stack| > |byId| {
          LongPathIsEndless(byId, root, stack);
          return None;
        } else if top in work {
          work := CountDown(r, byId, root, work, stack);
        } else {
          OrphanPath(byId, root, stack);
        }
      }
      todo := todo - {start};
    }
    NoneEndless(byId, root, work);
    return Some(work);
  }

  lemma RootRooted(byId: map<Id, Header>, root: Id)
    requires root in byId
    ensures Rooted(byId, root, root)
  {
    assert Up(byId, root, root, 0) == Some(root);
  }

  lemma OrphanPath(byId: map<Id, Header>, root: Id, path: seq<Id>)
    requires IsPath(byId, path) && root !in path && path != [] && byId[Last(path)].prev !in byId
    ensures Orphan(byId, root, path[0])
  {
    hide Orphan, Rooted;
    assert Orphan(byId, root, byId[Last(path)].prev) by { MissingIsOrphan(byId, root, byId[Last(path)].prev); }
    RootedStep(byId, root, Last(path));
    OrphanBelow(byId, root, path, |path| - 1);
  }

  lemma MissingIsOrphan(byId: map<Id, Header>, root: Id, id: Id)
    requires id !in byId
    ensures Orphan(byId, root, id)
  {
    assert Up(byId, root, id, 0) == None;
  }

  lemma {:induction false} OrphanBelow(byId: map<Id, Header>, root: Id, path: seq<Id>, i: nat)
    requires IsPath(byId, path) && root !in path && i < |path| && Orphan(byId, root, path[i])
    ensures Orphan(byId, root, path[0])
    decreases i
  {
    hide Orphan, Rooted;
    if i > 0 {
      RootedStep(byId, root, path[i - 1]);
      OrphanBelow(byId, root, path, i - 1);
    }
  }

  lemma NoneEndless(byId: map<Id, Header>, root: Id, work: map<Id, nat>)
    requires root in byId && (forall id | id in work :: Rooted(byId, root, id))
    requires forall id | id in byId :: id in work || Orphan(byId, root, id)
    ensures forall id | id in byId :: !Endless(byId, root, id)
    ensures forall id :: id in work <==> Rooted(byId, root, id)
  {
    hide Up;
    forall id
      ensures Rooted(byId, root, id) ==> id in work
    {
      if Rooted(byId, root, id) { RootedNotOrphan(byId, root, id); }
    }
  }

  // ------------------------------------------------------------------
  // The active chain
  // ------------------------------------------------------------------

  /** The most work; between equals `preferred`, else the smallest id. */
  ghost predicate IsBest(work: map<Id, nat>, preferred: Option<Id>, best: Id) {
    && best in work
    && (forall id | id in work :: work[id] <= work[best])
    && (if preferred.Some? && preferred.value in work && work[preferred.value] == work[best]
        then best == preferred.value
        else forall id | id in work && work[id] == work[best] :: best <= id)
  }

  method BestTip(work: map<Id, nat>, preferred: Option<Id>) returns (best: Id)
    requires work != map[]
    ensures IsBest(work, preferred, best)
  {
    best :| best in work;
    var todo := work.Keys - {best};
    while todo != {}
      invariant best in work && todo <= work.Keys
      invariant forall id | id in work && id !in todo :: work[id] < work[best] || (work[id] == work[best] && best <= id)
    {
      var id :| id in todo;
      if work[id] > work[best] || (work[id] == work[best] && id < best) { best := id; }
      todo := todo - {id};
    }
    if preferred.Some? && preferred.value in work && work[preferred.value] == work[best] {
      best := preferred.value;
    }
  }

  /** From the root to `tip`, parent before child. */
  ghost predicate IsChain(byId: map<Id, Header>, root: Id, tip: Id, chain: seq<Id>) {
    && |chain| > 0 && chain[0] == root && Last(chain) == tip
    && (forall i | 0 <= i < |chain| :: chain[i] in byId)
    && (forall i | 0 < i < |chain| :: chain[i] != root && byId[chain[i]].prev == chain[i - 1])
  }

  /** Walks back from the tip: the root is always reached, no parent is missing. */
  method ChainTo(byId: map<Id, Header>, root: Id, tip: Id) returns (path: seq<Id>)
    requires root in byId && Rooted(byId, root, tip)
    ensures IsChain(byId, root, tip, path)
  {
    RootedNotOrphan(byId, root, tip);
    ghost var n: nat :| Up(byId, root, tip, n) == Some(root);
    var current := tip;
    path := [tip];
    while current != root
      invariant |path| > 0 && path[0] == current && Last(path) == tip
      invariant Up(byId, root, current, n) == Some(root)
      invariant forall i | 0 <= i < |path| :: path[i] in byId
      invariant forall i | 0 < i < |path| :: path[i] != root && byId[path[i]].prev == path[i - 1]
      decreases n
    {
      current := byId[current].prev;
      n := n - 1;
      path := [current] + path;
    }
  }

  /** The tree of a set of headers: which hang from the root, what each weighs,
      and the chain that leads to the heaviest. */
  ghost predicate TreeOf(r: Rules, headers: seq<Header>, preferred: Option<Id>, tree: BlockTree) {
    && tree.byId == ById(r, headers)
    && RootOf(r, headers) == Some(tree.genesis) && tree.genesis in tree.byId
    && WorkOk(r, tree.byId, tree.genesis, tree.work)
    && (forall id :: id in tree.work <==> Rooted(tree.byId, tree.genesis, id))
    && |tree.active| > 0 && IsBest(tree.work, preferred, Last(tree.active))
    && IsChain(tree.byId, tree.genesis, Last(tree.active), tree.active)
  }

  method BlockTreePreferring(r: Rules, headers: seq<Header>, preferred: Option<Id>)
    returns (res: Result<BlockTree, ResumeError>)
    ensures res == Err(NoGenesis) <==> forall h | h in headers :: h.height != 0
    ensures res == Err(InconsistentIndex) <==>
              && RootOf(r, headers).Some?
              && exists id :: id in ById(r, headers) && Endless(ById(r, headers), RootOf(r, headers).value, id)
    ensures res.Ok? ==> TreeOf(r, headers, preferred, res.value)
    ensures res.Err? ==> res.error.NoGenesis? || res.error.InconsistentIndex?
  {
    hide Rooted, Endless, AddWork, IsBest, IsChain, Up;
    RootIs(r, headers);
    var byId, genesis := Gather(r, headers);
    if genesis.None? { return Err(NoGenesis); }
    var root := genesis.value;
    var work := CumulativeWork(r, byId, root);
    if work.None? { return Err(InconsistentIndex); }
    BestIsRooted(byId, root, work.value);
    var best := BestTip(work.value, preferred);
    BestInWork(work.value, preferred, best);
    var active := ChainTo(byId, root, best);
    ChainEnds(byId, root, best, active);
    return Ok(BlockTree(byId, work.value, active, root));
  }

  method Gather(r: Rules, headers: seq<Header>) returns (byId: map<Id, Header>, genesis: Option<Id>)
    ensures byId == ById(r, headers) && genesis == RootOf(r, headers)
  {
    byId, genesis := map[], None;
    for i := 0 to |headers|
      invariant byId == ById(r, headers[..i]) && genesis == RootOf(r, headers[..i])
    {
      assert Front(headers[..i + 1]) == headers[..i];
      var id := r.blockId(headers[i]);
      if headers[i].height == 0 { genesis := Some(id); }
      byId := byId[id := headers[i]];
    }
    assert headers[..|headers|] == headers;
  }

  lemma {:induction false} RootIs(r: Rules, headers: seq<Header>)
    ensures RootOf(r, headers).None? <==> forall h | h in headers :: h.height != 0
    ensures RootOf(r, headers).Some? ==> RootOf(r, headers).value in ById(r, headers)
    ensures forall h | h in headers :: r.blockId(h) in ById(r, headers)
    ensures forall id | id in ById(r, headers) ::
            r.blockId(ById(r, headers)[id]) == id && ById(r, headers)[id] in headers
  {
    if headers != [] {
      RootIs(r, Front(headers));
      forall h
        ensures h in headers <==> h in Front(headers) || h == Last(headers)
      {
        assert headers == Front(headers) + [Last(headers)];
      }
    }
  }

  lemma BestIsRooted(byId: map<Id, Header>, root: Id, work: map<Id, nat>)
    requires root in byId && (forall id :: id in work <==> Rooted(byId, root, id))
    ensures root in work
  {
    RootRooted(byId, root);
  }

  lemma BestInWork(work: map<Id, nat>, preferred: Option<Id>, best: Id)
    requires IsBest(work, preferred, best)
    ensures best in work
  {
  }

  lemma ChainEnds(byId: map<Id, Header>, root: Id, tip: Id, chain: seq<Id>)
    requires IsChain(byId, root, tip, chain)
    ensures |chain| > 0 && Last(chain) == tip
  {
  }
}
