/** Finding the common point of two chains (src/chain.rs, `locator` and
    `headers_from`). */
module Locator {
  import opened Prelude
  import opened Ledger
  import opened Validation
  import opened History
  import opened Index
  import opened ChainState
  import opened Bodies
  import opened Engine = Chain

  const LOCATOR_LIMIT: nat := 64

  /** From the tip down to genesis, never back up. */
  ghost predicate Waypoints(heights: seq<nat>, tip: nat) {
    && |heights| > 0 && heights[0] == tip && Last(heights) == 0
    && Descending(heights)
  }

  ghost predicate Descending(heights: seq<nat>) {
    forall k | 0 < k < |heights| :: heights[k] < heights[k - 1]
  }

  /** The next waypoint: one block down over the first ten, then less than
      twice as deep. */
  ghost predicate Spaced(heights: seq<nat>, tip: nat) {
    forall k | 0 < k < |heights| && k < LOCATOR_LIMIT :: tip - heights[k] <= NextDepth(tip - heights[k - 1])
  }

  function NextDepth(depth: int): int { if depth < 10 then depth + 1 else 2 * depth - 8 }

  ghost predicate AtHeights(active: seq<Id>, v: seq<Id>, heights: seq<nat>) {
    |v| == |heights| && forall k | 0 <= k < |v| :: heights[k] < |active| && v[k] == active[heights[k]]
  }

  lemma PushWaypoint(active: seq<Id>, v: seq<Id>, heights: seq<nat>, tip: nat, h: nat)
    requires AtHeights(active, v, heights) && |v| > 0 && h < |active| && h < Last(heights)
    requires Descending(heights) && Spaced(heights, tip)
    requires |v| < LOCATOR_LIMIT ==> tip - h <= NextDepth(tip - Last(heights))
    ensures AtHeights(active, v + [active[h]], heights + [h])
    ensures Descending(heights + [h]) && Spaced(heights + [h], tip)
  {
  }

  /** Genesis is there, once. */
  ghost predicate OneGenesis(active: seq<Id>) {
    |active| > 0 && forall i | 0 <= i < |active| :: active[i] == active[0] ==> i == 0
  }

  /** Waypoints of an active chain.  Their number grows with the logarithm of
      the height. */
  method Waypointed(active: seq<Id>) returns (v: seq<Id>, ghost heights: seq<nat>)
    requires OneGenesis(active)
    ensures AtHeights(active, v, heights) && |v| <= LOCATOR_LIMIT + 1
    ensures Waypoints(heights, |active| - 1) && Spaced(heights, |active| - 1)
    ensures 12 <= |v| <= LOCATOR_LIMIT ==> Pow2(|v| - 11) < |active| - 1
    ensures |v| > LOCATOR_LIMIT ==>
              Pow2(LOCATOR_LIMIT - 10) < |active| - 1 && heights[LOCATOR_LIMIT - 1] + 10 < |active| - 1
  {
    hide Pow2, Descending, Spaced, AtHeights, OneGenesis;
    Pow2Zero();
    FirstWaypoint(active);
    ghost var tip := |active| - 1;
    var step, i := 1, |active| - 1;
    v, heights := [active[i]], [i];
    while i != 0 && |v| < LOCATOR_LIMIT
      invariant i < |active| && 0 < |v| == |heights| <= LOCATOR_LIMIT
      invariant heights[0] == tip && Last(heights) == i
      invariant Descending(heights) && Spaced(heights, tip) && AtHeights(active, v, heights)
      invariant |v| <= 11 ==> step == 1 && (i > 0 ==> tip - i == |v| - 1)
      invariant |v| >= 11 ==> step == Pow2(|v| - 11) && (i > 0 ==> tip - i == 8 + 2 * step)
      invariant step > 0 && (|v| >= 12 ==> 1 < step < tip)
      decreases i
    {
      Pow2Next(|v|);
      if |v| > 10 { step := step * 2; }
      PushWaypoint(active, v, heights, tip, SatSub(i, step));
      i := SatSub(i, step);
      v := v + [active[i]];
      heights := heights + [i];
    }
    LastWaypoint(active, v, heights);
    if v[|v| - 1] != active[0] {
      Pow2Next(|v|);
      PushWaypoint(active, v, heights, tip, 0);
      v := v + [active[0]];
      heights := heights + [0];
    }
  }

  lemma FirstWaypoint(active: seq<Id>)
    requires OneGenesis(active)
    ensures |active| > 0
    ensures var top := |active| - 1;
            AtHeights(active, [active[top]], [top]) && Descending([top]) && Spaced([top], top)
  {
  }

  lemma LastWaypoint(active: seq<Id>, v: seq<Id>, heights: seq<nat>)
    requires OneGenesis(active) && AtHeights(active, v, heights) && |v| > 0
    ensures Last(v) == active[0] <==> Last(heights) == 0
  {
  }

  lemma Pow2Next(n: nat)
    ensures n >= 11 ==> Pow2(n - 10) == 2 * Pow2(n - 11)
  {
  }

  lemma Pow2Zero()
    ensures Pow2(0) == 1
  {
  }

  /** Only genesis has the id of genesis. */
  lemma ActiveDistinct(c: Chain)
    requires c.Valid()
    ensures OneGenesis(c.active)
  {
    hide CoreOk, StoreOk, BodiesOk, QueueOk, ValidHistory, RulesOk, TreeOk;
    c.CoreFacts();
    c.ActiveLength();
    forall i | 0 <= i < |c.active|
      ensures c.active[i] == c.active[0] ==> i == 0
    {
      ActiveNode(c.rules, c.index, c.hist, i);
      ActiveNode(c.rules, c.index, c.hist, 0);
    }
  }

  // ------------------------------------------------------------------
  // The answer
  // ------------------------------------------------------------------

  /** Height of the first waypoint on this active chain; genesis when there is none. */
  function Recognized(index: Tree, active: seq<Id>, locator: seq<Id>): (start: nat)
    ensures |active| > 0 ==> start < |active|
  {
    if locator == [] then 0
    else if OnActive(index, active, locator[0]) then index[locator[0]].header.height
    else Recognized(index, active, locator[1..])
  }

  /** Headers after the first recognized waypoint: up to the tip, `stop`, or
      `max` of them, but at least one where there is one. */
  method HeadersFrom(index: Tree, active: seq<Id>, locator: seq<Id>, stop: Id, max: nat) returns (v: seq<Header>)
    requires |active| > 0 && forall i | 0 <= i < |active| :: active[i] in index
    ensures var start := Recognized(index, active, locator);
            && |v| <= |active| - 1 - start && |v| <= Max(max, 1)
            && (forall i | start < i <= start + |v| :: v[i - start - 1] == index[active[i]].header)
            && (forall i | start < i < start + |v| :: active[i] != stop)
            && (|v| == |active| - 1 - start || |v| == Max(max, 1) || (|v| > 0 && active[start + |v|] == stop))
  {
    var start, found, i := 0, false, 0;
    while i < |locator| && !found
      invariant i <= |locator|
      invariant if found then start == Recognized(index, active, locator)
                else start == 0 && Recognized(index, active, locator) == Recognized(index, active, locator[i..])
      decreases |locator| - i, !found
    {
      var id := locator[i];
      if id in index {
        var h := index[id].header.height;
        if h < |active| && active[h] == id { start, found := h, true; }
      }
      i := i + 1;
    }
    v := [];
    var j := start + 1;
    while j < |active|
      invariant j == start + 1 + |v| <= |active|
      invariant |v| < Max(max, 1)
      invariant forall i | start < i < j :: v[i - start - 1] == index[active[i]].header && active[i] != stop
    {
      v := v + [index[active[j]].header];
      if |v| >= max || active[j] == stop { break; }
      j := j + 1;
    }
  }

  // ------------------------------------------------------------------
  // Two nodes
  // ------------------------------------------------------------------

  /** The chains part after block `f`. */
  ghost predicate PartAt(a: seq<Block>, b: seq<Block>, f: nat) {
    && f < |a| && f < |b| && a[..f + 1] == b[..f + 1]
    && (f + 1 < |a| && f + 1 < |b| ==> a[f + 1] != b[f + 1])
  }

  /** Valid chains that share a block share everything below it. */
  lemma {:induction false} SharedBelow(r: Rules, a: seq<Block>, b: seq<Block>, h: nat)
    requires RulesOk(r) && ValidHistory(r, a) && ValidHistory(r, b) && h < |a| && h < |b|
    requires r.blockId(a[h].header) == r.blockId(b[h].header)
    ensures a[..h + 1] == b[..h + 1]
  {
    hide ValidHistory, RulesOk, ShapeOk, Acceptable, Headers, Replay;
    GenesisRules(r);
    HistoryLinks(r, a, h);
    HistoryLinks(r, b, h);
    BodyIsUnique(r, a[h], b[h]);
    if h > 0 {
      SharedBelow(r, a, b, h - 1);
      assert a[..h + 1] == a[..h] + [a[h]];
      assert b[..h + 1] == b[..h] + [b[h]];
    }
  }

  /** A block of one chain is recognized by the other exactly up to where they part. */
  lemma RecognizedUpTo(r: Rules, t: Tree, mine: seq<Block>, theirs: seq<Block>, f: nat, h: nat)
    requires RulesOk(r) && TreeOk(r, t) && ValidHistory(r, mine) && ValidHistory(r, theirs) && Indexed(r, t, theirs)
    requires PartAt(mine, theirs, f) && h < |mine|
    ensures var id := r.blockId(mine[h].header);
            && (OnActive(t, Ids(r, theirs), id) <==> h <= f)
            && (h <= f ==> id in t && t[id].header.height == h)
  {
    hide ValidHistory, RulesOk, TreeOk, ShapeOk, Acceptable, Headers, Replay;
    var id := r.blockId(mine[h].header);
    GenesisRules(r);
    HistoryLinks(r, mine, h);
    if h <= f {
      assert mine[..f + 1][h] == theirs[..f + 1][h];
      ActiveNode(r, t, theirs, h);
    } else if OnActive(t, Ids(r, theirs), id) {
      var h' := t[id].header.height;
      ActiveNode(r, t, theirs, h');
      HeaderIsUnique(r, mine[h].header, theirs[h'].header);
      SharedBelow(r, mine, theirs, h);
    }
  }

  /** The first waypoint at or below `f`. */
  ghost function FirstBelow(heights: seq<nat>, f: nat): (k: nat)
    requires |heights| > 0 && Last(heights) <= f
    ensures k < |heights| && heights[k] <= f
    ensures forall j | 0 <= j < k :: heights[j] > f
  {
    if heights[0] <= f then 0 else 1 + FirstBelow(heights[1..], f)
  }

  lemma {:induction false} RecognizedAt(index: Tree, active: seq<Id>, v: seq<Id>, heights: seq<nat>, f: nat)
    requires |v| == |heights| > 0 && Last(heights) <= f
    requires forall k | 0 <= k < |v| :: OnActive(index, active, v[k]) <==> heights[k] <= f
    requires forall k | 0 <= k < |v| && heights[k] <= f :: v[k] in index && index[v[k]].header.height == heights[k]
    ensures Recognized(index, active, v) == heights[FirstBelow(heights, f)]
  {
    hide OnActive;
    if heights[0] > f {
      RecognizedAt(index, active, v[1..], heights[1..], f);
    }
  }

  /** The first waypoint at or below a point is that point within ten blocks of
      the tip, and less than twice as deep further down, unless it is the last
      one, genesis, added to a full list. */
  lemma CloseWaypoint(heights: seq<nat>, tip: nat, f: nat)
    requires Waypoints(heights, tip) && Spaced(heights, tip) && |heights| <= LOCATOR_LIMIT + 1 && f <= tip
    requires |heights| > LOCATOR_LIMIT ==> heights[LOCATOR_LIMIT - 1] + 10 < tip
    ensures var start := heights[FirstBelow(heights, f)];
            && start <= f
            && (if tip - f <= 10 then start == f else start == 0 || tip - start < 2 * (tip - f))
            && (|heights| <= LOCATOR_LIMIT && tip - f > 10 ==> tip - start < 2 * (tip - f))
  {
    var k := FirstBelow(heights, f);
    if k > 0 { assert heights[k - 1] > f; }
    if k == LOCATOR_LIMIT { assert heights[k] == Last(heights); }
  }

  /** A node's waypoints, read by another on the same rules: recognized at or
      below the block where their chains part, right at it when it is within
      ten blocks of the sender's tip, less than twice as deep otherwise.  Only
      a list that is full, past 2^54 blocks, can fall back to genesis. */
  lemma SyncPoint(r: Rules, t: Tree, mine: seq<Block>, theirs: seq<Block>, f: nat, v: seq<Id>, heights: seq<nat>)
    requires RulesOk(r) && TreeOk(r, t) && ValidHistory(r, mine) && ValidHistory(r, theirs) && Indexed(r, t, theirs)
    requires PartAt(mine, theirs, f)
    requires AtHeights(Ids(r, mine), v, heights) && Waypoints(heights, |mine| - 1) && Spaced(heights, |mine| - 1)
    requires |v| <= LOCATOR_LIMIT + 1 && (|v| > LOCATOR_LIMIT ==> heights[LOCATOR_LIMIT - 1] + 10 < |mine| - 1)
    ensures Near(|mine| - 1, f, Recognized(t, Ids(r, theirs), v), |v| <= LOCATOR_LIMIT)
  {
    hide ValidHistory, RulesOk, TreeOk, Indexed, Spaced, Descending, OnActive;
    forall k | 0 <= k < |v|
      ensures OnActive(t, Ids(r, theirs), v[k]) <==> heights[k] <= f
      ensures heights[k] <= f ==> v[k] in t && t[v[k]].header.height == heights[k]
    {
      RecognizedUpTo(r, t, mine, theirs, f, heights[k]);
    }
    RecognizedAt(t, Ids(r, theirs), v, heights, f);
    CloseWaypoint(heights, |mine| - 1, f);
  }

  /** Where an answer starts, for chains that part at `f`. */
  ghost predicate Near(tip: nat, f: nat, start: nat, short: bool) {
    && start <= f <= tip
    && (if tip - f <= 10 then start == f else start == 0 || tip - start < 2 * (tip - f))
    && (short && tip - f > 10 ==> tip - start < 2 * (tip - f))
  }

  /** Valid chains on the same rules part somewhere: they share genesis. */
  lemma {:induction false} PartSomewhere(a: seq<Block>, b: seq<Block>, h: nat) returns (f: nat)
    requires h < |a| && h < |b| && a[..h + 1] == b[..h + 1]
    ensures PartAt(a, b, f)
    decreases |a| - h
  {
    f := h;
    if h + 1 < |a| && h + 1 < |b| && a[h + 1] == b[h + 1] {
      assert a[..h + 2] == a[..h + 1] + [a[h + 1]];
      assert b[..h + 2] == b[..h + 1] + [b[h + 1]];
      f := PartSomewhere(a, b, h + 1);
    }
  }

  lemma SameGenesis(mine: Chain, theirs: Chain)
    requires mine.Valid() && theirs.Valid() && mine.rules == theirs.rules
    ensures |mine.hist| > 0 && |theirs.hist| > 0 && mine.hist[..1] == theirs.hist[..1]
  {
    hide CoreOk, StoreOk, BodiesOk, QueueOk, ValidHistory, RulesOk, TreeOk, Indexed, Ids;
    mine.CoreFacts();
    theirs.CoreFacts();
    HistoryNonempty(mine.rules, mine.hist);
    HistoryNonempty(mine.rules, theirs.hist);
    GenesisRules(mine.rules);
    HistoryLinks(mine.rules, mine.hist, 0);
    HistoryLinks(mine.rules, theirs.hist, 0);
    assert mine.hist[..1] == [mine.hist[0]];
    assert theirs.hist[..1] == [theirs.hist[0]];
  }

  /** One exchange between two nodes on the same rules, `f` being where their
      chains part: consecutive headers of the other's chain from a block both
      have, near `f`.  It is shorter than asked for only at their tip or at
      `stop`. */
  method Exchange(mine: Chain, theirs: Chain, stop: Id, max: nat)
    returns (answer: seq<Header>, ghost start: nat, ghost f: nat)
    requires mine.Valid() && theirs.Valid() && mine.rules == theirs.rules
    ensures PartAt(mine.hist, theirs.hist, f) && start < |theirs.hist|
    ensures Near(|mine.hist| - 1, f, start, |mine.hist| <= Pow2(LOCATOR_LIMIT - 10))
    ensures start + |answer| < |theirs.hist| && |answer| <= Max(max, 1)
    ensures forall i | 0 <= i < |answer| :: answer[i] == theirs.hist[start + 1 + i].header
    ensures |answer| == |theirs.hist| - 1 - start || |answer| == Max(max, 1)
            || (|answer| > 0 && theirs.active[start + |answer|] == stop)
  {
    hide CoreOk, StoreOk, BodiesOk, QueueOk, ValidHistory, RulesOk, TreeOk, Indexed, Ids, Pow2, Descending, Spaced,
         AtHeights, OneGenesis, Recognized, PartAt, Near, Waypoints;
    ActiveDistinct(mine);
    ghost var heights;
    var v;
    v, heights := Waypointed(mine.active);
    mine.ActiveLength();
    ReadNodes(theirs);
    answer := HeadersFrom(theirs.index, theirs.active, v, stop, max);
    start := Recognized(theirs.index, theirs.active, v);
    f := Meets(mine, theirs, v, heights);
  }

  /** Where the waypoints of one chain lead on another. */
  lemma Meets(mine: Chain, theirs: Chain, v: seq<Id>, heights: seq<nat>) returns (f: nat)
    requires mine.Valid() && theirs.Valid() && mine.rules == theirs.rules && |mine.active| > 0 && |theirs.active| > 0
    requires AtHeights(mine.active, v, heights) && |v| <= LOCATOR_LIMIT + 1
    requires Waypoints(heights, |mine.active| - 1) && Spaced(heights, |mine.active| - 1)
    requires |v| > LOCATOR_LIMIT ==>
               Pow2(LOCATOR_LIMIT - 10) < |mine.active| - 1 && heights[LOCATOR_LIMIT - 1] + 10 < |mine.active| - 1
    ensures PartAt(mine.hist, theirs.hist, f) && |mine.hist| > 0
    ensures Near(|mine.hist| - 1, f, Recognized(theirs.index, theirs.active, v),
                 |mine.hist| <= Pow2(LOCATOR_LIMIT - 10))
  {
    hide CoreOk, StoreOk, BodiesOk, QueueOk, ValidHistory, RulesOk, TreeOk, Indexed, Ids, Pow2, Descending, Spaced,
         AtHeights, OneGenesis, Recognized, PartAt, Waypoints;
    mine.CoreFacts();
    theirs.CoreFacts();
    SameGenesis(mine, theirs);
    f := PartSomewhere(mine.hist, theirs.hist, 0);
    SyncPoint(mine.rules, theirs.index, mine.hist, theirs.hist, f, v, heights);
  }

  lemma ReadNodes(c: Chain)
    requires c.Valid()
    ensures |c.active| == |c.hist| > 0
    ensures forall i | 0 <= i < |c.active| :: c.active[i] in c.index && c.index[c.active[i]].header == c.hist[i].header
  {
    hide CoreOk, StoreOk, BodiesOk, QueueOk, ValidHistory, RulesOk, TreeOk, Indexed, Ids;
    c.CoreFacts();
    c.ActiveLength();
    forall i | 0 <= i < |c.active|
      ensures c.active[i] in c.index && c.index[c.active[i]].header == c.hist[i].header
    {
      IdsAt(c.rules, c.hist, i);
      ActiveNode(c.rules, c.index, c.hist, i);
    }
  }
}
