/** A settled block that goes.  Wherever `ForkChoice.KeepsSettled` does not hold,
    here is a history of a `Chain` from genesis, finality binding throughout, in
    which a block 720 deep is replaced by two reorganizations that both pay the
    surcharge.  With `Runs.BuriedForGood` the condition is exact. */
module SettledBlock {
  import opened Prelude
  import opened Ledger
  import opened Validation
  import opened History
  import opened Index
  import opened ChainState
  import opened Bodies
  import opened ForkChoice
  import opened Reorg
  import opened Engine = Chain
  import opened Runs
  import opened Sides
  import opened Samples
  import opened Cases
  import opened Losses

  const EVEN: nat := 100_000

  // ------------------------------------------------------------------
  // The chains
  // ------------------------------------------------------------------

  function Same(n: nat, x: nat): (s: seq<nat>)
    ensures |s| == n && forall k | 0 <= k < n :: s[k] == x
  {
    seq(n, i => x)
  }

  /** What five blocks must count to replace six light ones with the surcharge. */
  function Goal(lo: nat): nat { 6 * lo + Shortening(lo) }

  /** The goal over five blocks, as evenly as can be. */
  function Share(lo: nat, k: nat): nat { Goal(lo) / 5 + if k < Goal(lo) % 5 then 1 else 0 }

  function Shares(lo: nat): (s: seq<nat>)
    ensures |s| == 5
  {
    [Share(lo, 0), Share(lo, 1), Share(lo, 2), Share(lo, 3), Share(lo, 4)]
  }

  /** `long` is light.  `first` leaves it seven blocks from its tip, for six blocks
      that count just enough.  `second` leaves at genesis and is as heavy as can be. */
  ghost predicate Three(lo: nat, hi: nat, r: Rules, long: seq<Block>, first: seq<Block>, second: seq<Block>) {
    && r == Free(lo, hi) && |long| == 722 && |first| == 721 && |second| == 723
    && long == Forged(r, [r.genesis], 10, Same(|long| - 1, lo))
    && first == Forged(r, long[..715], 800, Shares(lo) + [lo])
    && second == Forged(r, [r.genesis], 1, Same(|second| - 1, hi))
  }

  /** Not settled for good, and 256 bits hold all the work there is. */
  ghost predicate Uneven(lo: nat, hi: nat) {
    && 0 < lo <= hi && !KeepsSettled(lo, hi)
    && Product(lo + Product(HEIGHT_LIMIT, hi), 125) < U256_LIMIT
  }

  lemma Room(lo: nat, hi: nat)
    requires Uneven(lo, hi)
    ensures 1_000 * hi * 125 < U256_LIMIT
  {
    MulOrder(1_000, HEIGHT_LIMIT, hi);
    MulOrder(1_000 * hi, lo + Product(HEIGHT_LIMIT, hi), 125);
  }

  /** The shares are difficulties, and add up. */
  lemma SharesFit(lo: nat, hi: nat)
    requires Uneven(lo, hi)
    ensures forall k | 0 <= k < 5 :: lo <= Share(lo, k) <= hi
    ensures Share(lo, 0) + Share(lo, 1) + Share(lo, 2) + Share(lo, 3) + Share(lo, 4) == Goal(lo)
    ensures Share(lo, 4) >= Shortening(lo)
  {
    Divided(Goal(lo), 5);
    Divided(7 * lo, 100);
    GoalFits(lo, hi);
  }

  lemma GoalFits(lo: nat, hi: nat)
    requires Uneven(lo, hi)
    ensures Goal(lo) <= 5 * hi
  {
    Divided(7 * lo, 100);
    if lo <= 5 { assert Shortening(lo) == 1; }
  }

  lemma ThreeChains(lo: nat, hi: nat, r: Rules, long: seq<Block>, first: seq<Block>, second: seq<Block>)
    requires Uneven(lo, hi) && Three(lo, hi, r, long, first, second)
    ensures r == Free(lo, hi) && RulesOk(r) && !r.regtest && r.lastAnchor == 0
    ensures ValidHistory(r, long) && ValidHistory(r, first) && ValidHistory(r, second)
    ensures |long| == 722 && |first| == 721 && |second| == 723
    ensures Tagged(long, 1, 10, Same(721, lo)) && Tagged(second, 1, 1, Same(722, hi))
    ensures first[..715] == long[..715] && Tagged(first, 715, 800, Shares(lo) + [lo])
    ensures long[0] == first[0] == second[0] == r.genesis
    ensures r.genesis.header.time == 0 && r.genesis.header.nonce == lo
  {
    hide Free, Plain, RulesOk, ValidHistory, Forged, Shares, Tagged;
    FreePlain(lo, hi);
    FreeWork(lo, hi);
    PlainRules(r);
    GenesisValid(r);
    ForgedValid(r, [r.genesis], 10, Same(|long| - 1, lo));
    ForgedValid(r, [r.genesis], 1, Same(|second| - 1, hi));
    LongStarts(lo, r, long);
    ForgedValid(r, long[..715], 800, Shares(lo) + [lo]);
    assert long[0] == long[..1][0] && second[0] == second[..1][0] && first[0] == first[..715][0];
  }

  lemma LongStarts(lo: nat, r: Rules, long: seq<Block>)
    requires RulesOk(r) && ValidHistory(r, long) && |long| == 722 && Tagged(long, 1, 10, Same(721, lo))
    requires long[..1] == [r.genesis] && r.genesis.header.time == 0
    ensures ValidHistory(r, long[..715]) && Before(long[..715], 800)
  {
    hide RulesOk, ValidHistory, ShapeOk, Acceptable, Headers, Replay;
    GenesisRules(r);
    HistoryLinks(r, long, 714);
    assert long[0] == long[..1][0];
  }

  lemma ThreeLeave(lo: nat, hi: nat, r: Rules, long: seq<Block>, first: seq<Block>, second: seq<Block>)
    requires Uneven(lo, hi) && Three(lo, hi, r, long, first, second)
    ensures |long| == 722 && |first| == 721 && |second| == 723
    ensures Leaves(long, first, 714) && Leaves(first, second, 0) && Leaves(long, second, 0)
    ensures Restorable(long, 0, EVEN) && Restorable(first, 714, EVEN) && Restorable(second, 0, EVEN)
    ensures long[1] != second[1]
  {
    hide Free, Plain, RulesOk, ValidHistory, Forged, Shares, Three;
    ThreeChains(lo, hi, r, long, first, second);
    assert first[1] == first[..715][1] == long[..715][1] == long[1];
    assert second[..1] == long[..1] == first[..1] == [r.genesis];
  }

  /** The start of a side chain leaves where the chain does. */
  lemma LeavesPrefix(hist: seq<Block>, side: seq<Block>, fork: nat, n: nat, now: nat)
    requires Leaves(hist, side, fork) && fork + 1 < n <= |side| && Restorable(side, fork, now)
    ensures Leaves(hist, side[..n], fork) && Restorable(side[..n], fork, now)
  {
    assert side[..n][..fork + 1] == side[..fork + 1];
  }

  // ------------------------------------------------------------------
  // Their work
  // ------------------------------------------------------------------

  lemma LongWork(lo: nat, hi: nat, r: Rules, long: seq<Block>, n: nat)
    requires Uneven(lo, hi) && r == Free(lo, hi) && RulesOk(r) && ValidHistory(r, long) && 0 < n <= |long| == 722
    requires Tagged(long, 1, 10, Same(721, lo)) && long[0] == r.genesis && r.genesis.header.nonce == lo
    ensures WorkOf(r, long[..n]) == Product(n, lo)
  {
    hide Free, RulesOk, ValidHistory, WorkOf;
    Room(lo, hi);
    forall k | 0 <= k < n
      ensures r.work(long[k].header.bits) == lo
    {
      FreeBitsAt(lo, hi, long, k);
    }
    assert long[..1] == [r.genesis];
    WorkOne(r, r.genesis);
    MulOrder(n - 1, 1_000, lo);
    Distribute(n - 1, 1, lo);
    UniformWork(r, long, 1, n, lo);
  }

  /** What the first blocks of `second` count. */
  function Heavy(lo: nat, hi: nat, n: nat): nat
    requires n >= 2
  {
    2 * lo + Product(n - 2, hi)
  }

  lemma SecondWork(lo: nat, hi: nat, r: Rules, second: seq<Block>, n: nat)
    requires Uneven(lo, hi) && r == Free(lo, hi) && RulesOk(r) && ValidHistory(r, second) && 2 <= n <= |second| == 723
    requires Tagged(second, 1, 1, Same(722, hi)) && second[0] == r.genesis && r.genesis.header.nonce == lo
    ensures ValidHistory(r, second[..n]) && WorkOf(r, second[..n]) == Heavy(lo, hi, n)
  {
    hide Free, RulesOk, ValidHistory, WorkOf, ShapeOk, Acceptable, Headers, Replay;
    Room(lo, hi);
    GenesisRules(r);
    HistoryLinks(r, second, n - 1);
    FreeBitsAt(lo, hi, second, 0);
    FreeBitsAt(lo, hi, second, 1);
    forall k | 2 <= k < n
      ensures r.work(second[k].header.bits) == hi
    {
      FreeBitsAt(lo, hi, second, k);
    }
    assert second[..1] == [r.genesis];
    WorkOne(r, r.genesis);
    WorkNext(r, second, 1);
    MulOrder(n - 2, 998, hi);
    UniformWork(r, second, 2, n, hi);
  }

  /** What `first` counts: just more than asked for, and less before its last block. */
  lemma FirstWork(lo: nat, hi: nat, r: Rules, long: seq<Block>, first: seq<Block>)
    requires Uneven(lo, hi) && r == Free(lo, hi) && RulesOk(r) && ValidHistory(r, long) && ValidHistory(r, first)
    requires |long| == 722 && |first| == 721 && first[..715] == long[..715] && Tagged(long, 1, 10, Same(721, lo))
    requires Tagged(first, 715, 800, Shares(lo) + [lo]) && long[0] == r.genesis && r.genesis.header.nonce == lo
    ensures WorkOf(r, first) == 722 * lo + Shortening(lo) && WorkOf(r, first[..720]) <= 722 * lo
  {
    hide Free, RulesOk, ValidHistory, WorkOf, Share, Shares, Shortening, KeepsSettled, Tagged, AddWork;
    FirstBits(lo, hi, r, long, first);
    LongWork(lo, hi, r, long, 715);
    SharesFit(lo, hi);
    SixMore(r, first, 715);
    assert first[..721] == first;
    SixSums(lo, hi, Share(lo, 0), Share(lo, 1), Share(lo, 2), Share(lo, 3), Share(lo, 4));
  }

  lemma SixMore(r: Rules, hist: seq<Block>, n: nat)
    requires 0 < n && n + 6 <= |hist|
    ensures WorkOf(r, hist[..n + 6]) == AddWork(WorkOf(r, hist[..n + 5]), r.work(hist[n + 1 + 4].header.bits))
    ensures WorkOf(r, hist[..n + 5])
            == AddWork(AddWork(AddWork(AddWork(AddWork(WorkOf(r, hist[..n]), r.work(hist[n].header.bits)),
                                               r.work(hist[n + 1 + 0].header.bits)),
                                       r.work(hist[n + 1 + 1].header.bits)),
                               r.work(hist[n + 1 + 2].header.bits)),
                       r.work(hist[n + 1 + 3].header.bits))
  {
    hide WorkOf, AddWork;
    WorkNext(r, hist, n);
    WorkNext(r, hist, n + 1);
    WorkNext(r, hist, n + 2);
    WorkNext(r, hist, n + 3);
    WorkNext(r, hist, n + 4);
    WorkNext(r, hist, n + 5);
  }

  lemma FirstBits(lo: nat, hi: nat, r: Rules, long: seq<Block>, first: seq<Block>)
    requires Uneven(lo, hi) && r == Free(lo, hi) && RulesOk(r) && ValidHistory(r, long) && ValidHistory(r, first)
    requires |long| == 722 && |first| == 721 && first[..715] == long[..715] && Tagged(long, 1, 10, Same(721, lo))
    requires Tagged(first, 715, 800, Shares(lo) + [lo]) && long[0] == r.genesis && r.genesis.header.nonce == lo
    ensures r.work(first[715].header.bits) == lo
    ensures forall k | 0 <= k < 5 :: r.work(first[716 + k].header.bits) == Share(lo, k)
  {
    hide Free, RulesOk, ValidHistory, Shares, Share, Shortening, KeepsSettled;
    SharesFit(lo, hi);
    SharesAre(lo);
    assert first[714] == first[..715][714] == long[..715][714] == long[714];
    FreeBitsAt(lo, hi, first, 715);
    forall k | 0 <= k < 5
      ensures r.work(first[716 + k].header.bits) == Share(lo, k)
    {
      FreeBitsAt(lo, hi, first, 716 + k);
    }
  }

  lemma SixSums(lo: nat, hi: nat, a: nat, b: nat, c: nat, d: nat, e: nat)
    requires Uneven(lo, hi) && a <= hi && b <= hi && c <= hi && d <= hi && e <= hi
    requires a + b + c + d + e == Goal(lo) && e >= Shortening(lo)
    ensures var s := AddWork(AddWork(AddWork(AddWork(AddWork(Product(715, lo), lo), a), b), c), d);
            s <= 722 * lo && AddWork(s, e) == 722 * lo + Shortening(lo)
  {
    Room(lo, hi);
  }

  lemma SharesAre(lo: nat)
    ensures |Shares(lo)| == 5 && forall k | 0 <= k < 5 :: (Shares(lo) + [lo])[k] == Share(lo, k)
  {
    hide Share;
  }

  /** The work 720 blocks of `first` ask for. */
  function Price(lo: nat): nat { lo + Product(721 * lo + Shortening(lo), 125) / 100 }

  lemma PriceIs(lo: nat, hi: nat)
    requires Uneven(lo, hi)
    ensures Threshold(722 * lo + Shortening(lo), lo, 720) == Price(lo) < Heavy(lo, hi, 723)
    ensures 722 * lo + Shortening(lo) <= Price(lo)
  {
    hide Threshold;
    Room(lo, hi);
    Divided(7 * lo, 100);
    Surcharged(722 * lo + Shortening(lo), lo, 720);
    ExcessFrom(720);
    Divided(Product(721 * lo + Shortening(lo), 125), 100);
  }

  lemma SevenDeep(lo: nat, hi: nat)
    requires Uneven(lo, hi)
    ensures Threshold(722 * lo, 715 * lo, 7) < 722 * lo + Shortening(lo)
  {
    hide Threshold;
    Room(lo, hi);
    Surcharged(722 * lo, 715 * lo, 7);
    Divided(Product(7 * lo, 101), 100);
    Divided(7 * lo, 100);
  }

  // ------------------------------------------------------------------
  // The history
  // ------------------------------------------------------------------

  /** On one of the chains, finality binding, with all of them on disk. */
  ghost predicate On(lo: nat, hi: nat, s: Scene, hist: seq<Block>, undos: nat,
                     long: seq<Block>, first: seq<Block>, second: seq<Block>) {
    && Three(lo, hi, s.rules, long, first, second) && s.hist == hist && s.binds && s.undos == undos
    && s.disk == Shelf(s.rules, long + first + second)
  }

  lemma AllShapes(lo: nat, hi: nat, r: Rules, long: seq<Block>, first: seq<Block>, second: seq<Block>)
    requires Uneven(lo, hi) && Three(lo, hi, r, long, first, second)
    ensures var all := long + first + second; forall i | 0 <= i < |all| :: ShapeOk(r, all[i])
  {
    hide Free, Plain, RulesOk, ValidHistory, Forged, Three, ShapeOk, Tagged, Shares;
    ThreeChains(lo, hi, r, long, first, second);
    ValidShapes(r, long);
    ValidShapes(r, first);
    ValidShapes(r, second);
  }

  lemma AllOnDisk(lo: nat, hi: nat, s: Scene, hist: seq<Block>, undos: nat,
                  long: seq<Block>, first: seq<Block>, second: seq<Block>, side: seq<Block>)
    requires Uneven(lo, hi) && On(lo, hi, s, hist, undos, long, first, second)
    requires forall i | 0 <= i < |side| :: side[i] in long || side[i] in first || side[i] in second
    ensures OnDisk(s, side)
  {
    hide Three, Shelf, ShapeOk, OnDisk, Uneven;
    AllShapes(lo, hi, s.rules, long, first, second);
    ShelfHolds(s, long + first + second, side);
  }

  /** The records of a history so far: where it started, where it was on `long`,
      one time of the clock, finality binding. */
  ghost predicate SoFar(r: Rules, run: seq<Standing>, clock: seq<nat>, at: nat, long: seq<Block>) {
    && at < |run| && run[0] == Standing([r.genesis], true) && run[at] == Standing(long, true)
    && (forall i | 0 <= i < |clock| :: clock[i] == EVEN) && (forall i | 0 <= i < |run| :: run[i].binds)
  }

  lemma SoFarMore(r: Rules, run: seq<Standing>, clock: seq<nat>, at: nat, long: seq<Block>,
                  later: seq<Standing>, clockLater: seq<nat>)
    requires SoFar(r, run, clock, at, long) && Continued(run, clock, later, clockLater, EVEN, true)
    ensures SoFar(r, later, clockLater, at, long)
  {
    assert later[at] == run[at] && later[0] == run[0];
  }

  lemma SoFarOne(r: Rules, run: seq<Standing>, clock: seq<nat>, at: nat, long: seq<Block>, next: Standing)
    requires SoFar(r, run, clock, at, long) && next.binds
    ensures SoFar(r, run + [next], clock + [EVEN], at, long)
  {
  }

  /** Finality is bound for good. */
  ghost predicate Bound(c: Chain)
    reads c
  {
    c.finalityHold.Some? && !c.returning && c.bound
  }

  /** On `long`, with all but the last block of the branch beside it. */
  method Beginning(ghost lo: nat, ghost hi: nat, r: Rules, long: seq<Block>, first: seq<Block>, second: seq<Block>)
    returns (c: Chain, ghost run: seq<Standing>, ghost clock: seq<nat>, ghost at: nat)
    requires Uneven(lo, hi) && Three(lo, hi, r, long, first, second)
    ensures fresh(c) && Ran(c, run, clock) && c.rules == r && On(lo, hi, c.Now(), long, 722, long, first, second)
    ensures SoFar(r, run, clock, at, long) && Bound(c) && Indexed(r, c.index, first[..720])
    ensures c.index.Keys == {GenesisId(r)} + ToSet(Ids(r, long)) + ToSet(Ids(r, first[..720]))
  {
    hide CoreOk, StoreOk, BodiesOk, QueueOk, ValidHistory, RulesOk, TreeOk, Indexed, Outcome, Steps, Sound, SceneOk,
         Free, Plain, ShapeOk, WorkOf, Shelf, Ids, KeptAside, Forged, Three, Leaves, FairlyHard, ToSet, Restorable,
         Tagged, Shares, Uneven, Shortening, Continued;
    ThreeChains(lo, hi, r, long, first, second);
    ThreeLeave(lo, hi, r, long, first, second);
    FirstStarts(r, first);
    LeavesPrefix(long, first, 714, 720, EVEN);
    AllShapes(lo, hi, r, long, first, second);
    c := Fresh(r, long + first + second, true);
    run, clock := [Standing([r.genesis], true)], [];
    FirstsNew(r, long);
    assert long[..1] == [r.genesis];
    ghost var run0, clock0 := run, clock;
    run, clock := GrowTip(c, long, EVEN, run, clock);
    BindsOn(c);
    at := |run| - 1;
    Started(r, run0, clock0, run, clock, long);
    BranchNew(r, long, first, c.index);
    Lighter(lo, hi, r, long, first, second);
    BothFair(lo, hi, r, long, first, second);
    assert first[..720][..715] == first[..715];
    run0, clock0 := run, clock;
    run, clock := GrowAside(c, first[..720], 714, 715, EVEN, run, clock);
    BindsOn(c);
    SoFarMore(r, run0, clock0, at, long, run, clock);
  }

  lemma Started(r: Rules, run0: seq<Standing>, clock0: seq<nat>, run: seq<Standing>, clock: seq<nat>, long: seq<Block>)
    requires run0 == [Standing([r.genesis], true)] && clock0 == [] && Continued(run0, clock0, run, clock, EVEN, true)
    requires |run| > 0 && Last(run) == Standing(long, true)
    ensures SoFar(r, run, clock, |run| - 1, long)
  {
    assert run[0] == run0[0];
  }

  lemma FirstStarts(r: Rules, first: seq<Block>)
    requires RulesOk(r) && ValidHistory(r, first) && |first| == 721
    ensures ValidHistory(r, first[..720])
  {
    hide RulesOk, ValidHistory, ShapeOk, Acceptable, Headers, Replay;
    GenesisRules(r);
    HistoryLinks(r, first, 719);
  }

  lemma Lighter(lo: nat, hi: nat, r: Rules, long: seq<Block>, first: seq<Block>, second: seq<Block>)
    requires Uneven(lo, hi) && Three(lo, hi, r, long, first, second)
    ensures |long| == 722 && |first| == 721
    ensures WorkOf(r, first[..720]) <= WorkOf(r, long) < WorkOf(r, first)
    ensures WorkOf(r, long) == 722 * lo && WorkOf(r, long[..715]) == 715 * lo && WorkOf(r, [r.genesis]) == lo
    ensures WorkOf(r, first) == 722 * lo + Shortening(lo)
  {
    hide Free, RulesOk, ValidHistory, Forged, Shares, Three, WorkOf, KeepsSettled;
    ThreeChains(lo, hi, r, long, first, second);
    LongWork(lo, hi, r, long, 722);
    LongWork(lo, hi, r, long, 715);
    LongWork(lo, hi, r, long, 1);
    assert long[..722] == long && long[..1] == [r.genesis];
    FirstWork(lo, hi, r, long, first);
  }

  lemma BranchNew(r: Rules, long: seq<Block>, first: seq<Block>, t: Tree)
    requires RulesOk(r) && ValidHistory(r, long) && |first| == 721 && ValidHistory(r, first[..720])
    requires Leaves(long, first[..720], 714) && t.Keys == {GenesisId(r)} + ToSet(Ids(r, long))
    ensures Indexed(r, t, first[..715])
    ensures forall i | 715 <= i < 720 :: r.blockId(first[..720][i].header) !in t
  {
    hide RulesOk, ValidHistory, Ids;
    ValidChained(r, long);
    ValidChained(r, first[..720]);
    FirstsNew(r, first[..720]);
    forall i | 715 <= i < 720
      ensures r.blockId(first[..720][i].header) !in t
    {
      ApartIds(r, long, first[..720], 714, i);
    }
    forall i | 0 <= i < 715
      ensures r.blockId(first[i].header) in t
    {
      assert first[i] == first[..720][..715][i] == long[..715][i];
      IdsAt(r, long, i);
    }
  }

  /** The blocks both chains share are light: nothing is too easy beside them. */
  lemma Fair(lo: nat, hi: nat, r: Rules, side: seq<Block>, fork: nat)
    requires 0 < lo <= hi && r == Free(lo, hi) && RulesOk(r) && ValidHistory(r, side) && fork < |side|
    requires forall k | 0 <= k < fork :: side[k].header.nonce == lo
    ensures forall i | fork < i < |side| :: FairlyHard(r, side, fork, r.work(side[i].header.bits))
  {
    hide Free, RulesOk, ValidHistory;
    FreeWork(lo, hi);
    forall i | 0 <= i <= fork
      ensures r.work(side[i].header.bits) == lo
    {
      FreeBitsAt(lo, hi, side, i);
    }
  }

  /** No block of either branch is too easy. */
  lemma BothFair(lo: nat, hi: nat, r: Rules, long: seq<Block>, first: seq<Block>, second: seq<Block>)
    requires Uneven(lo, hi) && Three(lo, hi, r, long, first, second)
    ensures |first| == 721 && |second| == 723
    ensures forall i | 714 < i < 720 :: FairlyHard(r, first[..720], 714, r.work(first[..720][i].header.bits))
    ensures FairlyHard(r, first, 714, r.work(first[720].header.bits))
    ensures forall i | 0 < i < 723 :: FairlyHard(r, second, 0, r.work(second[i].header.bits))
  {
    hide Free, Plain, RulesOk, ValidHistory, Forged, Shares, Three, FairlyHard;
    ThreeChains(lo, hi, r, long, first, second);
    FirstStarts(r, first);
    forall k | 0 <= k < 714
      ensures first[k].header.nonce == lo
    {
      assert first[k] == first[..715][k] == long[..715][k] == long[k];
    }
    Fair(lo, hi, r, first[..720], 714);
    Fair(lo, hi, r, first, 714);
    Fair(lo, hi, r, second, 0);
  }

  /** The first reorganization: six blocks for seven. */
  method Shorten(ghost lo: nat, ghost hi: nat, r: Rules, long: seq<Block>, first: seq<Block>, second: seq<Block>)
    returns (c: Chain, ghost run: seq<Standing>, ghost clock: seq<nat>, ghost at: nat)
    requires Uneven(lo, hi) && Three(lo, hi, r, long, first, second)
    ensures fresh(c) && Ran(c, run, clock) && c.rules == r && On(lo, hi, c.Now(), first, 721, long, first, second)
    ensures SoFar(r, run, clock, at, long) && Bound(c)
    ensures c.index.Keys == {GenesisId(r)} + ToSet(Ids(r, long)) + ToSet(Ids(r, first))
  {
    hide CoreOk, StoreOk, BodiesOk, QueueOk, ValidHistory, RulesOk, TreeOk, Indexed, Outcome, Steps, Verdict, Sound,
         SceneOk, Free, Plain, ShapeOk, WorkOf, Shelf, Decided, Landed, Ids, LetIn, KeptAside, Forged, Three, Leaves,
         FairlyHard, ToSet, Restorable, Tagged, Shares, SameTree, Uneven, SoFar;
    ThreeChains(lo, hi, r, long, first, second);
    c, run, clock, at := Beginning(lo, hi, r, long, first, second);
    SoundNow(c);
    HardLetIn(lo, hi, c.Now(), long, first, second);
    ghost var tried;
    var res;
    res, tried := Lead(c, first[..720], first[720], 714, EVEN, run, clock);
    HardTakes(lo, hi, tried.scene, long, first, second, AsDepth(res), tried.fork, tried.failedAt, c.Now());
    BindsOn(c);
    KeysAfter(r, first, tried.scene.index, c.index, {GenesisId(r)} + ToSet(Ids(r, long)));
    SoFarOne(r, run, clock, at, long, c.Stand());
    run, clock := run + [c.Stand()], clock + [EVEN];
  }

  lemma HardLetIn(lo: nat, hi: nat, s: Scene, long: seq<Block>, first: seq<Block>, second: seq<Block>)
    requires Uneven(lo, hi) && Sound(s) && SceneOk(s) && On(lo, hi, s, long, 722, long, first, second) && |first| == 721
    requires Indexed(s.rules, s.index, first[..720])
    requires s.index.Keys == {GenesisId(s.rules)} + ToSet(Ids(s.rules, long)) + ToSet(Ids(s.rules, first[..720]))
    ensures LetIn(s, first[..720], first[720], 714, EVEN) && |s.hist| > 0
    ensures WorkOf(s.rules, first[..720] + [first[720]]) > WorkOf(s.rules, s.hist)
  {
    hide Free, Plain, RulesOk, ValidHistory, Forged, Three, WorkOf, Tagged, FairlyHard, Leaves, Restorable, LetIn,
         Shelf, Indexed, Ids, Sound, SceneOk, Shares, Uneven;
    var r := s.rules;
    SoundRules(s);
    ThreeChains(lo, hi, r, long, first, second);
    ThreeLeave(lo, hi, r, long, first, second);
    Lighter(lo, hi, r, long, first, second);
    BothFair(lo, hi, r, long, first, second);
    ValidChained(r, long);
    ValidChained(r, first);
    ApartIds(r, long, first, 714, 720);
    ChainedDistinct(r, first, 720);
    FirstsNew(r, first);
    NextLetIn(s, first, 720, 714, EVEN);
    assert first[..720] + [first[720]] == first;
  }

  lemma HardTakes(lo: nat, hi: nat, s: Scene, long: seq<Block>, first: seq<Block>, second: seq<Block>,
                  res: Result<nat, ChainError>, fork: nat, failedAt: Option<nat>, after: Scene)
    requires Uneven(lo, hi) && Sound(s) && SceneOk(s) && On(lo, hi, s, long, 722, long, first, second) && |first| == 721
    requires Indexed(s.rules, s.index, first[..720] + [first[720]]) && s.rules.blockId(first[720].header) in s.index
    requires s.index[s.rules.blockId(first[720].header)].work == WorkOf(s.rules, first[..720] + [first[720]])
    requires Decided(s, s.rules.blockId(first[720].header), EVEN, res, fork, failedAt)
    requires Landed(s, s.rules.blockId(first[720].header), EVEN, res.Ok?, fork, failedAt, after)
    ensures res.Ok? && after.hist == first && after.undos == 721 && after.disk == s.disk
    ensures SameTree(s.index, after.index)
  {
    hide Free, Plain, RulesOk, ValidHistory, Forged, Three, WorkOf, Tagged, Leaves, Restorable, Shelf, Indexed, Ids,
         Sound, SceneOk, Decided, OnDisk, Required, Takes, Fetched, IdsAbove, SameTree, Uneven, Shortening, Threshold,
         Shares;
    var r, tip := s.rules, s.rules.blockId(first[720].header);
    assert first[..720] + [first[720]] == first;
    ThreeChains(lo, hi, r, long, first, second);
    ThreeLeave(lo, hi, r, long, first, second);
    Lighter(lo, hi, r, long, first, second);
    SevenDeep(lo, hi);
    AllOnDisk(lo, hi, s, long, 722, long, first, second, first);
    AllOnDisk(lo, hi, s, long, 722, long, first, second, long);
    SceneTerms(s, 714);
    SceneLength(s);
    ValidTakes(s, first, 714, EVEN);
    MustTake(s, tip, EVEN, res, fork, failedAt, 714, IdsAbove(r, first, 714));
    LandsOn(s, first, 714, EVEN, failedAt, after);
  }

  /** A branch taken leaves the chain on it. */
  lemma LandsOn(s: Scene, side: seq<Block>, fork: nat, now: nat, failedAt: Option<nat>, after: Scene)
    requires SceneOk(s) && fork + 1 < |side| && fork < |s.hist| && s.hist[..fork + 1] == side[..fork + 1]
    requires Takes(s, s.rules.blockId(Last(side).header), now, fork, IdsAbove(s.rules, side, fork))
    requires Fetched(s, IdsAbove(s.rules, side, fork)) == side[fork + 1..]
    requires Landed(s, s.rules.blockId(Last(side).header), now, true, fork, failedAt, after)
    ensures after.hist == side && after.disk == s.disk && SameTree(s.index, after.index)
    ensures after.undos == Min(SatSub(s.undos, |s.hist| - 1 - fork) + |side| - 1 - fork, BODY_WINDOW)
  {
    hide SceneOk, IsBranch, OnActive, TermsFault, AllAccepted, Found, Fetched, IdsAbove, SameTree;
    SceneLength(s);
    var tip, ids := s.rules.blockId(Last(side).header), IdsAbove(s.rules, side, fork);
    var branch :| Takes(s, tip, now, fork, branch) && after.hist == s.hist[..fork + 1] + Fetched(s, branch)
                  && after.undos == Min(SatSub(s.undos, DepthAt(s, fork)) + |branch|, BODY_WINDOW);
    OnePath(s, tip, fork, ids, fork, branch);
    assert side[..fork + 1] + side[fork + 1..] == side;
  }

  lemma KeysAfter(r: Rules, first: seq<Block>, seen: Tree, t: Tree, known: set<Id>)
    requires |first| == 721 && SameTree(seen, t)
    requires seen.Keys == known + ToSet(Ids(r, first[..720])) + {r.blockId(first[720].header)}
    ensures t.Keys == known + ToSet(Ids(r, first))
  {
    hide Ids;
    IdsSnoc(r, first, 720);
    assert first[..721] == first;
  }

  lemma SecondNew(r: Rules, long: seq<Block>, first: seq<Block>, second: seq<Block>, t: Tree)
    requires RulesOk(r) && ValidHistory(r, long) && ValidHistory(r, first) && ValidHistory(r, second) && |second| == 723
    requires Leaves(long, second, 0) && Leaves(first, second, 0)
    requires t.Keys == {GenesisId(r)} + ToSet(Ids(r, long)) + ToSet(Ids(r, first))
    ensures forall i | 1 <= i < 723 :: r.blockId(second[i].header) !in t
    ensures Indexed(r, t, second[..1])
  {
    hide RulesOk, ValidHistory, Ids, Leaves;
    ValidChained(r, long);
    ValidChained(r, first);
    ValidChained(r, second);
    FirstsNew(r, second);
    forall i | 1 <= i < 723
      ensures r.blockId(second[i].header) !in t
    {
      ApartIds(r, long, second, 0, i);
      ApartIds(r, first, second, 0, i);
    }
  }

  /** On `first`, with the first `i` blocks of the branch from genesis beside it. */
  ghost predicate Climbing(lo: nat, hi: nat, c: Chain, long: seq<Block>, first: seq<Block>, second: seq<Block>, i: nat,
                           run: seq<Standing>, clock: seq<nat>, at: nat)
    reads c
  {
    && i <= |second| == 723 && Indexed(c.rules, c.index, second[..i])
    && (forall k | i <= k < |second| :: c.rules.blockId(second[k].header) !in c.index)
    && On(lo, hi, c.Now(), first, 721, long, first, second)
    && SoFar(c.rules, run, clock, at, long) && Bound(c) && Ran(c, run, clock)
  }

  /** One more block of the branch from genesis, short of the price: aside, or
      refused once it leads. */
  method Climb(lo: nat, hi: nat, c: Chain, long: seq<Block>, first: seq<Block>, second: seq<Block>, i: nat,
               ghost run0: seq<Standing>, ghost clock0: seq<nat>, ghost at: nat)
    returns (res: Result<Accept, ChainError>, ghost run: seq<Standing>, ghost clock: seq<nat>)
    requires Uneven(lo, hi) && Climbing(lo, hi, c, long, first, second, i, run0, clock0, at)
    requires 1 <= i < 723 && Heavy(lo, hi, i + 1) <= Price(lo)
    modifies c
    ensures Climbing(lo, hi, c, long, first, second, i + 1, run, clock, at)
    ensures res == if Heavy(lo, hi, i + 1) <= 722 * lo + Shortening(lo) then Ok(SideBranch)
                   else Err(InsufficientWorkForDepth(720))
  {
    hide CoreOk, StoreOk, BodiesOk, QueueOk, ValidHistory, RulesOk, TreeOk, Indexed, Outcome, Steps, Verdict, Sound,
         SceneOk, Free, Plain, ShapeOk, WorkOf, Shelf, Decided, Landed, Ids, LetIn, KeptAside, Forged, Three, Leaves,
         FairlyHard, ToSet, Restorable, Tagged, Shares, SameTree, Uneven, SoFar, On, Beside, Heavy, Price, Shortening;
    ghost var r, before := c.rules, c.Now();
    ThreeNow(lo, hi, before, long, first, second);
    SoundNow(c);
    SecondLetIn(lo, hi, before, long, first, second, i);
    assert second[..i] + [second[i]] == second[..i + 1];
    if Heavy(lo, hi, i + 1) > 722 * lo + Shortening(lo) {
      ghost var tried;
      res, tried := Lead(c, second[..i], second[i], 0, EVEN, run0, clock0);
      StillOn(lo, hi, before, second, i, tried.scene, long, first);
      TooLight(lo, hi, tried.scene, long, first, second, i, AsDepth(res), tried.fork, tried.failedAt);
    } else {
      res := PutAside(c, second[..i], second[i], 0, EVEN, run0, clock0);
      StillOn(lo, hi, before, second, i, c.Now(), long, first);
      IndexedBeside(before, second, i, c.Now());
    }
    BindsOn(c);
    SoFarOne(r, run0, clock0, at, long, c.Stand());
    run, clock := run0 + [c.Stand()], clock0 + [EVEN];
  }

  lemma StillOn(lo: nat, hi: nat, s: Scene, second: seq<Block>, i: nat, after: Scene, long: seq<Block>,
                first: seq<Block>)
    requires On(lo, hi, s, first, 721, long, first, second) && i < |second| == 723 && Beside(s, second[i], after)
    requires RulesOk(s.rules) && ValidHistory(s.rules, second)
    requires forall k | i <= k < 723 :: s.rules.blockId(second[k].header) !in s.index
    ensures after.rules == s.rules && On(lo, hi, after, first, 721, long, first, second)
    ensures forall k | i < k < 723 :: s.rules.blockId(second[k].header) !in after.index
  {
    hide Three, RulesOk, ValidHistory, Shelf, KeptAside;
    ValidChained(s.rules, second);
    forall k | i < k < 723
      ensures s.rules.blockId(second[k].header) !in after.index
    {
      if s.rules.blockId(second[k].header) == s.rules.blockId(second[i].header) {
        HeaderIsUnique(s.rules, second[k].header, second[i].header);
      }
    }
  }

  lemma IndexedPrefix(r: Rules, t: Tree, side: seq<Block>, n: nat, m: nat)
    requires m <= n <= |side| && Indexed(r, t, side[..n])
    ensures Indexed(r, t, side[..m])
  {
    forall i | 0 <= i < m
      ensures r.blockId(side[..m][i].header) in t
    {
      assert side[..m][i] == side[..n][i];
    }
  }

  lemma ThreeNow(lo: nat, hi: nat, s: Scene, long: seq<Block>, first: seq<Block>, second: seq<Block>)
    requires Uneven(lo, hi) && On(lo, hi, s, first, 721, long, first, second)
    ensures RulesOk(s.rules) && s.rules.lastAnchor == 0 && ValidHistory(s.rules, second) && |second| == 723
    ensures s.hist == first && |first| == 721 && s.binds
    ensures forall i | 2 <= i <= 723 ::
              ValidHistory(s.rules, second[..i]) && WorkOf(s.rules, second[..i]) == Heavy(lo, hi, i)
    ensures WorkOf(s.rules, first) == 722 * lo + Shortening(lo) && WorkOf(s.rules, first[..1]) == lo
  {
    hide Free, Plain, RulesOk, ValidHistory, Forged, Three, WorkOf, Shares, Shelf, Uneven, Heavy, Shortening;
    ThreeChains(lo, hi, s.rules, long, first, second);
    Lighter(lo, hi, s.rules, long, first, second);
    assert first[..1] == [s.rules.genesis];
    forall i | 2 <= i <= 723
      ensures ValidHistory(s.rules, second[..i]) && WorkOf(s.rules, second[..i]) == Heavy(lo, hi, i)
    {
      SecondWork(lo, hi, s.rules, second, i);
    }
  }

  lemma IndexedBeside(s: Scene, side: seq<Block>, i: nat, after: Scene)
    requires i < |side| && Indexed(s.rules, s.index, side[..i]) && Beside(s, side[i], after)
    ensures Indexed(s.rules, after.index, side[..i + 1])
  {
    hide Indexed, KeptAside;
    IndexedMore(s.rules, s.index, after.index, side, i);
  }

  lemma SecondLetIn(lo: nat, hi: nat, s: Scene, long: seq<Block>, first: seq<Block>, second: seq<Block>, i: nat)
    requires Uneven(lo, hi) && Sound(s) && SceneOk(s) && On(lo, hi, s, first, 721, long, first, second)
    requires 1 <= i < |second| == 723
    requires Indexed(s.rules, s.index, second[..i]) && s.rules.blockId(second[i].header) !in s.index
    ensures LetIn(s, second[..i], second[i], 0, EVEN) && |s.hist| > 0
  {
    hide Free, Plain, RulesOk, ValidHistory, Forged, Three, WorkOf, Tagged, FairlyHard, Leaves, Restorable, LetIn,
         Shelf, Indexed, Ids, Sound, SceneOk, Shares, Uneven;
    var r := s.rules;
    ThreeChains(lo, hi, r, long, first, second);
    ThreeLeave(lo, hi, r, long, first, second);
    BothFair(lo, hi, r, long, first, second);
    NextLetIn(s, second, i, 0, EVEN);
  }

  /** Short of the price of 720 blocks, a branch is refused. */
  lemma TooLight(lo: nat, hi: nat, s: Scene, long: seq<Block>, first: seq<Block>, second: seq<Block>, i: nat,
                 res: Result<nat, ChainError>, fork: nat, failedAt: Option<nat>)
    requires Uneven(lo, hi) && Sound(s) && SceneOk(s) && On(lo, hi, s, first, 721, long, first, second)
    requires 1 <= i < |second| == 723 && Heavy(lo, hi, i + 1) <= Price(lo)
    requires Indexed(s.rules, s.index, second[..i] + [second[i]]) && s.rules.blockId(second[i].header) in s.index
    requires s.index[s.rules.blockId(second[i].header)].work == WorkOf(s.rules, second[..i] + [second[i]])
    requires Decided(s, s.rules.blockId(second[i].header), EVEN, res, fork, failedAt)
    ensures failedAt == None && res == Err(InsufficientWorkForDepth(720))
  {
    hide Free, Plain, RulesOk, ValidHistory, Forged, Three, WorkOf, Tagged, Leaves, Restorable, Shelf, Indexed, Ids,
         Sound, SceneOk, Decided, Required, IdsAbove, PathOk, Threshold, Shares, Uneven, Heavy, Price, Shortening;
    ThreeNow(lo, hi, s, long, first, second);
    var r, side := s.rules, second[..i + 1];
    assert second[..i] + [second[i]] == side && Last(side) == second[i];
    ThreeLeave(lo, hi, r, long, first, second);
    LeavesPrefix(first, second, 0, i + 1, EVEN);
    ValidChained(r, side);
    SidePath(s, side, 0);
    SceneTerms(s, 0);
    SceneLength(s);
    PriceIs(lo, hi);
    MustRefuse(s, r.blockId(second[i].header), EVEN, res, fork, failedAt, 0, IdsAbove(r, side, 0));
  }

  /** Past the price, it is taken. */
  lemma HeavyTakes(lo: nat, hi: nat, s: Scene, long: seq<Block>, first: seq<Block>, second: seq<Block>, i: nat,
                   res: Result<nat, ChainError>, fork: nat, failedAt: Option<nat>, after: Scene)
    requires Uneven(lo, hi) && Sound(s) && SceneOk(s) && On(lo, hi, s, first, 721, long, first, second)
    requires 1 <= i < |second| == 723 && Heavy(lo, hi, i + 1) > Price(lo)
    requires Indexed(s.rules, s.index, second[..i] + [second[i]]) && s.rules.blockId(second[i].header) in s.index
    requires s.index[s.rules.blockId(second[i].header)].work == WorkOf(s.rules, second[..i] + [second[i]])
    requires Decided(s, s.rules.blockId(second[i].header), EVEN, res, fork, failedAt)
    requires Landed(s, s.rules.blockId(second[i].header), EVEN, res.Ok?, fork, failedAt, after)
    ensures res == Ok(720) && after.hist == second[..i + 1]
  {
    hide Free, Plain, RulesOk, ValidHistory, Forged, Three, WorkOf, Tagged, Leaves, Restorable, Shelf, Indexed, Ids,
         Sound, SceneOk, Decided, OnDisk, Required, Takes, Fetched, IdsAbove, SameTree, Threshold, Landed, Shares,
         Uneven, Heavy, Price, Shortening;
    ThreeNow(lo, hi, s, long, first, second);
    var r, tip, side := s.rules, s.rules.blockId(second[i].header), second[..i + 1];
    assert second[..i] + [second[i]] == side && Last(side) == second[i];
    ThreeLeave(lo, hi, r, long, first, second);
    LeavesPrefix(first, second, 0, i + 1, EVEN);
    AllOnDisk(lo, hi, s, first, 721, long, first, second, first);
    AllOnDisk(lo, hi, s, first, 721, long, first, second, side);
    SceneTerms(s, 0);
    SceneLength(s);
    PriceIs(lo, hi);
    assert s.hist[..0 + 1] == side[..0 + 1] by { LeavesAt(first, side); }
    ValidTakes(s, side, 0, EVEN);
    MustTake(s, tip, EVEN, res, fork, failedAt, 0, IdsAbove(r, side, 0));
    LandsOn(s, side, 0, EVEN, failedAt, after);
  }

  lemma LeavesAt(hist: seq<Block>, side: seq<Block>)
    requires Leaves(hist, side, 0)
    ensures hist[..1] == side[..1]
  {
  }

  /** The branch from genesis, up to the last block short of the price.  Every block
      that leads is refused, and stays in the index heavier than the tip. */
  method RefusedStaysIndexed(lo: nat, hi: nat, r: Rules, long: seq<Block>, first: seq<Block>, second: seq<Block>)
    returns (c: Chain, n: nat, answers: seq<Result<Accept, ChainError>>,
             ghost run: seq<Standing>, ghost clock: seq<nat>, ghost at: nat)
    requires Uneven(lo, hi) && Three(lo, hi, r, long, first, second)
    ensures fresh(c) && c.rules == r && Climbing(lo, hi, c, long, first, second, n, run, clock, at)
    ensures 2 <= n <= 722 && Heavy(lo, hi, n) <= Price(lo) < Heavy(lo, hi, n + 1) && |answers| == n - 1
    ensures c.TotalWork() == 722 * lo + Shortening(lo) && (hi <= 100 * lo ==> Heavy(lo, hi, n) > c.TotalWork())
    ensures forall i | 1 <= i < n ::
              var id := r.blockId(second[i].header);
              && id in c.index && c.index[id].work == Heavy(lo, hi, i + 1)
              && answers[i - 1] == if c.index[id].work <= c.TotalWork() then Ok(SideBranch)
                                   else Err(InsufficientWorkForDepth(720))
  {
    hide CoreOk, StoreOk, BodiesOk, QueueOk, ValidHistory, RulesOk, TreeOk, Indexed, Outcome, Steps, Verdict, Sound,
         SceneOk, Free, Plain, ShapeOk, WorkOf, Shelf, Decided, Landed, Ids, LetIn, KeptAside, Forged, Three, Leaves,
         FairlyHard, ToSet, Restorable, Tagged, Shares, SameTree, Uneven, SoFar, Beside, Heavy, Price, Shortening;
    ThreeChains(lo, hi, r, long, first, second);
    ThreeLeave(lo, hi, r, long, first, second);
    c, run, clock, at := Shorten(lo, hi, r, long, first, second);
    SecondNew(r, long, first, second, c.index);
    Prices(lo, hi);
    n, answers := 1, [];
    while Heavy(lo, hi, n + 1) <= Price(lo)
      invariant Climbing(lo, hi, c, long, first, second, n, run, clock, at) && c.rules == r
      invariant 1 <= n <= 722 && |answers| == n - 1 && (n > 1 ==> Heavy(lo, hi, n) <= Price(lo))
      invariant forall k | 0 <= k < |answers| ::
                  answers[k] == if Heavy(lo, hi, k + 2) <= 722 * lo + Shortening(lo) then Ok(SideBranch)
                                else Err(InsufficientWorkForDepth(720))
      decreases 722 - n
    {
      var res;
      res, run, clock := Climb(lo, hi, c, long, first, second, n, run, clock, at);
      n, answers := n + 1, answers + [res];
    }
    OutweighTip(lo, hi, c, long, first, second, n);
    Stretch(lo, hi, n);
  }

  lemma Prices(lo: nat, hi: nat)
    requires Uneven(lo, hi)
    ensures Heavy(lo, hi, 2) <= Price(lo) < Heavy(lo, hi, 723)
  {
    PriceIs(lo, hi);
  }

  /** Unless one block counts for more than the surcharge, some block leads and is
      refused. */
  lemma Stretch(lo: nat, hi: nat, n: nat)
    requires Uneven(lo, hi) && 2 <= n && Price(lo) < Heavy(lo, hi, n + 1)
    ensures hi <= 100 * lo ==> Heavy(lo, hi, n) > 722 * lo + Shortening(lo)
  {
    Distribute(n - 2, 1, hi);
    Divided(7 * lo, 100);
    Divided(Product(721 * lo + Shortening(lo), 125), 100);
  }

  lemma OutweighTip(lo: nat, hi: nat, c: Chain, long: seq<Block>, first: seq<Block>, second: seq<Block>, n: nat)
    requires Uneven(lo, hi) && c.Valid() && On(lo, hi, c.Now(), first, 721, long, first, second) && n <= |second| == 723
    requires Indexed(c.rules, c.index, second[..n])
    ensures c.TotalWork() == 722 * lo + Shortening(lo)
    ensures forall i | 1 <= i < n ::
              var id := c.rules.blockId(second[i].header); id in c.index && c.index[id].work == Heavy(lo, hi, i + 1)
  {
    hide CoreOk, StoreOk, BodiesOk, QueueOk, ValidHistory, RulesOk, TreeOk, Indexed, Three, WorkOf, Shelf, Ids, Free,
         Plain, Uneven, Heavy, Shortening;
    ThreeNow(lo, hi, c.Now(), long, first, second);
    c.CoreFacts();
    c.TotalIs();
    forall i | 1 <= i < n
      ensures var id := c.rules.blockId(second[i].header); id in c.index && c.index[id].work == Heavy(lo, hi, i + 1)
    {
      IndexedPrefix(c.rules, c.index, second, n, i + 1);
      ActiveWork(c.rules, c.index, second[..i + 1], i);
      assert second[..i + 1][..i + 1] == second[..i + 1];
    }
  }

  method Chains(lo: nat, hi: nat) returns (r: Rules, long: seq<Block>, first: seq<Block>, second: seq<Block>)
    ensures Three(lo, hi, r, long, first, second)
  {
    hide Free, Forged, Shares;
    r := Free(lo, hi);
    var m, n := 721, 722;
    long, second := Forged(r, [r.genesis], 10, Same(m, lo)), Forged(r, [r.genesis], 1, Same(n, hi));
    first := Forged(r, long[..715], 800, Shares(lo) + [lo]);
    assert |long| == 722 && |second| == 723;
  }

  lemma SteadyFree(lo: nat, hi: nat, run: seq<Standing>, clock: seq<nat>)
    requires Uneven(lo, hi)
    requires Steps(Free(lo, hi), run, clock) && RulesOk(Free(lo, hi))
    ensures AllSteady(Free(lo, hi), run, lo, hi)
  {
    hide Free, Steady, RulesOk, ValidHistory, Next, KeepsSettled;
    FreeWork(lo, hi);
    forall i | 0 <= i < |run|
      ensures Steady(Free(lo, hi), run[i].hist, lo, hi)
    {
      RulesSteady(Free(lo, hi), run[i].hist, lo, hi);
    }
  }

  /** In a run from genesis, finality binding throughout, the last chain is not the
      one at `at` in every settled block. */
  ghost predicate Loses(r: Rules, run: seq<Standing>, clock: seq<nat>, at: nat) {
    && at < |run| == |clock| + 1 && run[0].hist == [r.genesis] && (forall i | 0 <= i < |run| :: run[i].binds)
    && !SamePrefix(run[at].hist, Last(run).hist, Settled(|run[at].hist|))
    && IsRun(r, run, clock) && IsRun(r, run[at..], clock[at..])
  }

  /** Both from the beginning and from `long` on, it is a run. */
  lemma LosesSettled(r: Rules, run: seq<Standing>, clock: seq<nat>, at: nat, long: seq<Block>)
    requires Steps(r, run, clock) && SoFar(r, run, clock, at, long)
    requires Restorable(long, 0, EVEN) && Restorable([r.genesis], 0, EVEN)
    requires !SamePrefix(long, Last(run).hist, Settled(|long|))
    ensures Loses(r, run, clock, at)
  {
    hide Next, ValidHistory, Restorable, SamePrefix;
  }

  /** A block is 720 deep on a chain of 722.  A reorganization seven blocks deep
      makes the chain one block shorter and heavier; one 720 deep then replaces
      the block.  Finality binds throughout, and both pay their surcharge. */
  method SettledLost(lo: nat, hi: nat)
    returns (c: Chain, ghost run: seq<Standing>, ghost clock: seq<nat>, ghost at: nat)
    requires Uneven(lo, hi)
    ensures c.Valid() && c.rules.lastAnchor == 0 && AllSteady(c.rules, run, lo, hi)
    ensures Loses(c.rules, run, clock, at) && Last(run) == c.Stand()
  {
    hide CoreOk, StoreOk, BodiesOk, QueueOk, ValidHistory, RulesOk, TreeOk, Indexed, Outcome, Steps, Verdict, Sound,
         SceneOk, Free, Plain, ShapeOk, WorkOf, Shelf, Decided, Landed, Ids, LetIn, KeptAside, Forged, Three, Leaves,
         FairlyHard, ToSet, Tagged, Shares, SameTree, Uneven, Beside, Heavy, Price, Shortening;
    var r, long, first, second := Chains(lo, hi);
    ThreeChains(lo, hi, r, long, first, second);
    ThreeLeave(lo, hi, r, long, first, second);
    var n, answers;
    c, n, answers, run, clock, at := RefusedStaysIndexed(lo, hi, r, long, first, second);
    ghost var before := c.Now();
    ThreeNow(lo, hi, before, long, first, second);
    SoundNow(c);
    SecondLetIn(lo, hi, before, long, first, second, n);
    assert second[..n] + [second[n]] == second[..n + 1];
    PriceIs(lo, hi);
    ghost var tried;
    var res;
    res, tried := Lead(c, second[..n], second[n], 0, EVEN, run, clock);
    StillOn(lo, hi, before, second, n, tried.scene, long, first);
    HeavyTakes(lo, hi, tried.scene, long, first, second, n, AsDepth(res), tried.fork, tried.failedAt, c.Now());
    BindsOn(c);
    SoFarOne(r, run, clock, at, long, c.Stand());
    run, clock := run + [c.Stand()], clock + [EVEN];
    SteadyFree(lo, hi, run, clock);
    assert long[..2][1] != second[..n + 1][..2][1];
    LosesSettled(r, run, clock, at, long);
  }

  /** Settled blocks stay for good, in every run all blocks of which count from
      `lo` to `hi`. */
  ghost predicate AlwaysKept(lo: nat, hi: nat) {
    forall r: Rules, run: seq<Standing>, clock: seq<nat>, j: nat |
      && RulesOk(r) && r.lastAnchor == 0 && IsRun(r, run, clock) && AllSteady(r, run, lo, hi)
      && j < |run| && run[0].binds ::
      SamePrefix(run[0].hist, run[j].hist, Settled(|run[0].hist|))
  }

  /** They do if and only if `ForkChoice.KeepsSettled`. */
  method SettledExactly(lo: nat, hi: nat) returns (keeps: bool)
    requires 0 < lo <= hi && Product(lo + Product(HEIGHT_LIMIT, hi), 125) < U256_LIMIT
    ensures keeps == KeepsSettled(lo, hi) && (keeps <==> AlwaysKept(lo, hi))
  {
    hide Steady, RulesOk, Loses, KeepsSettled, AlwaysKept, CoreOk, StoreOk, BodiesOk, QueueOk;
    keeps := KeepsSettled(lo, hi);
    if keeps {
      KeptAlways(lo, hi);
    } else {
      var c;
      ghost var run, clock, at;
      c, run, clock, at := SettledLost(lo, hi);
      c.CoreFacts();
      NotAlways(c.rules, run, clock, at, lo, hi);
    }
  }

  lemma KeptAlways(lo: nat, hi: nat)
    requires KeepsSettled(lo, hi)
    ensures AlwaysKept(lo, hi)
  {
    hide Steady, RulesOk, IsRun, SamePrefix, KeepsSettled, Holds;
    forall r: Rules, run: seq<Standing>, clock: seq<nat>, j: nat |
      && RulesOk(r) && r.lastAnchor == 0 && IsRun(r, run, clock) && AllSteady(r, run, lo, hi)
      && j < |run| && run[0].binds
      ensures SamePrefix(run[0].hist, run[j].hist, Settled(|run[0].hist|))
    {
      BuriedForGood(r, run, clock, j, lo, hi);
      HoldsPrefix(r, run[0].hist, run[j].hist, lo);
    }
  }

  lemma HoldsPrefix(r: Rules, start: seq<Block>, hist: seq<Block>, lo: nat)
    requires Holds(r, start, hist, lo)
    ensures SamePrefix(start, hist, Settled(|start|))
  {
    hide WorkOf, Shortening, SamePrefix;
  }

  lemma NotAlways(r: Rules, run: seq<Standing>, clock: seq<nat>, at: nat, lo: nat, hi: nat)
    requires RulesOk(r) && AllSteady(r, run, lo, hi) && r.lastAnchor == 0 && Loses(r, run, clock, at)
    ensures !AlwaysKept(lo, hi)
  {
    hide Steady, RulesOk, IsRun, SamePrefix;
    var tail := run[at..];
    assert tail[0] == run[at] && tail[|tail| - 1] == Last(run);
  }
}
