/** Runs of a chain: any number of submissions, in any order, from any state.
    `Chain.Outcome` says what one submission does; these say what all do. */
module Runs {
  import opened Prelude
  import opened Ledger
  import opened Validation
  import opened History
  import opened Index
  import opened ChainState
  import opened ForkChoice
  import opened Reorg
  import opened Bodies
  import opened Engine = Chain

  /** One submission at the clock `now` leads from one standing to the next. */
  ghost predicate Next(r: Rules, before: Standing, after: Standing, now: nat) {
    exists block, res, fork, failedAt :: Outcome(r, before, after, block, now, res, fork, failedAt)
  }

  /** Valid chains, each reached from the one before by a submission. */
  ghost predicate Steps(r: Rules, run: seq<Standing>, clock: seq<nat>) {
    && |run| == |clock| + 1
    && (forall i | 0 <= i < |run| :: ValidHistory(r, run[i].hist) && 0 < |run[i].hist| <= HEIGHT_LIMIT)
    && (forall i | 0 <= i < |clock| :: Next(r, run[i], run[i + 1], clock[i]))
  }

  /** The clock does not go back, and allows the chain at the start. */
  ghost predicate Timely(run: seq<Standing>, clock: seq<nat>) {
    && (forall i, j | 0 <= i <= j < |clock| :: clock[i] <= clock[j])
    && (clock != [] && run != [] ==> Restorable(run[0].hist, 0, clock[0]))
  }

  ghost predicate IsRun(r: Rules, run: seq<Standing>, clock: seq<nat>) {
    Steps(r, run, clock) && Timely(run, clock)
  }

  /** Finality binds from `i` to `j`. */
  ghost predicate BindsAll(run: seq<Standing>, i: nat, j: nat) {
    j <= |run| && forall k | i <= k < j :: run[k].binds
  }

  /** The blocks buried deeper than a reorganization can reach. */
  function Settled(length: nat): nat { SatSub(length, MAX_REORG_DEPTH) }

  ghost predicate SamePrefix(a: seq<Block>, b: seq<Block>, n: nat) {
    n <= |a| && n <= |b| && a[..n] == b[..n]
  }

  lemma RestorableUp(hist: seq<Block>, fork: nat, now: nat, later: nat)
    requires Restorable(hist, 0, now) && now <= later
    ensures Restorable(hist, fork, later)
  {
  }

  lemma RestorableJoin(a: seq<Block>, b: seq<Block>, fork: nat, now: nat)
    requires Restorable(a, 0, now) && Restorable(b, fork, now) && SamePrefix(a, b, fork + 1)
    ensures Restorable(b, 0, now)
  {
    hide ClockAllows;
    forall i | 0 < i < |b|
      ensures ClockAllows(b[i], now)
    {
      if i <= fork { assert a[..fork + 1][i] == b[..fork + 1][i]; }
    }
  }

  /** One submission, with finality binding and a clock that allows the chain:
      a refusal changes nothing, work never drops, and the settled blocks stay. */
  lemma OutcomeSafe(r: Rules, before: Standing, after: Standing, block: Block, now: nat,
                    res: Result<Accept, ChainError>, fork: nat, failedAt: Option<nat>)
    requires Outcome(r, before, after, block, now, res, fork, failedAt)
    requires before.binds && Restorable(before.hist, 0, now)
    ensures res.Err? ==> after.hist == before.hist
    ensures WorkOf(r, after.hist) >= WorkOf(r, before.hist)
    ensures after.hist != before.hist && !(res == Ok(Extended)) ==> WorkOf(r, after.hist) > WorkOf(r, before.hist)
    ensures SamePrefix(before.hist, after.hist, Settled(|before.hist|))
    ensures Restorable(after.hist, 0, now)
  {
    hide Restorable, ClockAllows, WorkOf, Threshold;
    RestorableUp(before.hist, fork, now, now);
    match res {
      case Ok(Extended) =>
        ExtendRestorable(before.hist, block, now);
        WorkSnoc(r, before.hist, block);
      case Ok(Reorganized(depth)) =>
        PrefixShorter(before.hist, after.hist, fork + 1, Settled(|before.hist|));
        RestorableJoin(before.hist, after.hist, fork, now);
      case _ =>
    }
  }

  lemma ExtendRestorable(hist: seq<Block>, block: Block, now: nat)
    requires |hist| > 0 && Restorable(hist, 0, now) && ClockAllows(block, now)
    ensures Restorable(hist + [block], 0, now)
  {
    hide ClockAllows;
  }

  lemma PrefixShorter(a: seq<Block>, b: seq<Block>, n: nat, m: nat)
    requires SamePrefix(a, b, n) && m <= n
    ensures SamePrefix(a, b, m)
  {
    assert a[..m] == a[..n][..m];
    assert b[..m] == b[..n][..m];
  }

  lemma PrefixChain(a: seq<Block>, b: seq<Block>, c: seq<Block>, n: nat)
    requires SamePrefix(a, b, n) && SamePrefix(b, c, n)
    ensures SamePrefix(a, c, n)
  {
  }

  lemma SelfPrefix(a: seq<Block>, n: nat)
    requires n <= |a|
    ensures SamePrefix(a, a, n)
  {
  }

  lemma NextSafe(r: Rules, before: Standing, after: Standing, now: nat)
    requires Next(r, before, after, now) && before.binds && Restorable(before.hist, 0, now)
    ensures |before.hist| > 0 && |after.hist| > 0
    ensures WorkOf(r, after.hist) >= WorkOf(r, before.hist)
    ensures SamePrefix(before.hist, after.hist, Settled(|before.hist|))
    ensures Restorable(after.hist, 0, now)
    ensures |before.hist| > r.lastAnchor && (|after.hist| > r.lastAnchor ==> after.binds)
  {
    hide Restorable, SamePrefix, WorkOf, Threshold, ClockAllows;
    var block, res, fork, failedAt :| Outcome(r, before, after, block, now, res, fork, failedAt);
    OutcomeSafe(r, before, after, block, now, res, fork, failedAt);
  }

  lemma RunStep(r: Rules, run: seq<Standing>, clock: seq<nat>, i: nat)
    requires IsRun(r, run, clock) && i < |clock|
    ensures |run| == |clock| + 1 && Next(r, run[i], run[i + 1], clock[i])
    ensures ValidHistory(r, run[i].hist) && 0 < |run[i].hist| <= HEIGHT_LIMIT
    ensures ValidHistory(r, run[i + 1].hist) && 0 < |run[i + 1].hist| <= HEIGHT_LIMIT
    ensures i > 0 ==> clock[i - 1] <= clock[i]
    ensures i == 0 ==> Restorable(run[0].hist, 0, clock[0])
  {
    hide Next, ValidHistory, Restorable;
  }

  /** All through a run with finality binding the clock allows the chain. */
  lemma {:induction false} RunRestorable(r: Rules, run: seq<Standing>, clock: seq<nat>, i: nat)
    requires IsRun(r, run, clock) && i < |clock| && BindsAll(run, 0, i)
    ensures Restorable(run[i].hist, 0, clock[i])
  {
    hide Restorable, Next, SamePrefix, IsRun, ValidHistory, WorkOf;
    RunStep(r, run, clock, i);
    if i > 0 {
      RunStep(r, run, clock, i - 1);
      RunRestorable(r, run, clock, i - 1);
      NextSafe(r, run[i - 1], run[i], clock[i - 1]);
      RestorableUp(run[i].hist, 0, clock[i - 1], clock[i]);
    }
  }

  /** Over every run with finality binding the work of the active chain never drops. */
  lemma {:induction false} RunWork(r: Rules, run: seq<Standing>, clock: seq<nat>, i: nat, j: nat)
    requires IsRun(r, run, clock) && i <= j < |run| && BindsAll(run, 0, j)
    requires |run[i].hist| > 0 && |run[j].hist| > 0
    ensures WorkOf(r, run[i].hist) <= WorkOf(r, run[j].hist)
    decreases j - i
  {
    hide Restorable, Next, SamePrefix, ValidHistory, WorkOf;
    if i < j {
      RunStep(r, run, clock, j - 1);
      RunWork(r, run, clock, i, j - 1);
      RunRestorable(r, run, clock, j - 1);
      NextSafe(r, run[j - 1], run[j], clock[j - 1]);
    }
  }

  /** Rolling finality over a whole run: blocks deeper than a reorganization
      reaches, measured from the shortest the chain has been, never change. */
  lemma {:induction false} RunFinality(r: Rules, run: seq<Standing>, clock: seq<nat>, i: nat, j: nat, low: nat)
    requires IsRun(r, run, clock) && i <= j < |run| && BindsAll(run, 0, j)
    requires forall k | i <= k <= j :: low <= |run[k].hist|
    ensures SamePrefix(run[i].hist, run[j].hist, Settled(low))
    decreases j - i
  {
    hide Restorable, Next, SamePrefix, ValidHistory, WorkOf;
    if i == j {
      SelfPrefix(run[i].hist, Settled(low));
    } else {
      RunFinality(r, run, clock, i, j - 1, low);
      RunStep(r, run, clock, j - 1);
      RunRestorable(r, run, clock, j - 1);
      NextSafe(r, run[j - 1], run[j], clock[j - 1]);
      PrefixShorter(run[j - 1].hist, run[j].hist, Settled(|run[j - 1].hist|), Settled(low));
      PrefixChain(run[i].hist, run[j - 1].hist, run[j].hist, Settled(low));
    }
  }

  // ------------------------------------------------------------------
  // What the surcharge forbids
  // ------------------------------------------------------------------

  /** Every block above genesis counts from `lo` to `hi`, and 256 bits hold the
      work with its surcharge. */
  ghost predicate Steady(r: Rules, hist: seq<Block>, lo: nat, hi: nat) {
    0 < lo && Within(r, hist, lo, hi) && Product(r.work(r.genesis.header.bits) + Product(|hist|, hi), 125) < U256_LIMIT
  }

  ghost predicate AllSteady(r: Rules, run: seq<Standing>, lo: nat, hi: nat) {
    forall i | 0 <= i < |run| :: Steady(r, run[i].hist, lo, hi)
  }

  /** Blocks on one parent carry the same difficulty. */
  lemma Siblings(r: Rules, a: seq<Block>, b: seq<Block>, fork: nat)
    requires RulesOk(r) && ValidHistory(r, a) && ValidHistory(r, b) && fork + 1 < |a| && fork + 1 < |b|
    requires a[..fork + 1] == b[..fork + 1]
    ensures a[fork + 1].header.bits == b[fork + 1].header.bits
  {
    hide RulesOk, ValidHistory, Acceptable, Headers, Replay, ShapeOk, ExpectedBits;
    GenesisRules(r);
    HistoryLinks(r, a, fork + 1);
    HistoryLinks(r, b, fork + 1);
    AcceptedBits(r, a[..fork + 1], Replay(r, a[..fork + 1]), a[fork + 1]);
    AcceptedBits(r, b[..fork + 1], Replay(r, b[..fork + 1]), b[fork + 1]);
  }

  /** The work of a chain above a fork: one block, and the others. */
  lemma AboveFork(r: Rules, hist: seq<Block>, fork: nat, lo: nat, hi: nat)
    requires RulesOk(r) && Steady(r, hist, lo, hi) && ValidHistory(r, hist) && fork + 1 < |hist|
    ensures var w := r.work(hist[fork + 1].header.bits);
            var common := WorkOf(r, hist[..fork + 1]);
            && lo <= w <= hi && common + w <= WorkOf(r, hist)
            && Product(|hist| - 2 - fork, lo) <= WorkOf(r, hist) - common - w <= Product(|hist| - 2 - fork, hi)
    ensures Product(WorkOf(r, hist), 125) < U256_LIMIT
  {
    hide WorkOf, ValidHistory, RulesOk, Product;
    assert hist[..|hist|] == hist;
    WorkBelow(r, hist, |hist|, lo, hi);
    WorkAdds(r, hist, fork + 1, lo, hi);
    WorkRoom(r, hist, fork + 2, lo, hi);
    WorkAtMost(r, hist, fork + 2, |hist|, hi);
    WorkAtLeast(r, hist, fork + 2, |hist|, lo, hi);
  }

  /** 256 bits hold the first blocks and the rest at their heaviest. */
  lemma WorkRoom(r: Rules, hist: seq<Block>, n: nat, lo: nat, hi: nat)
    requires RulesOk(r) && Steady(r, hist, lo, hi) && ValidHistory(r, hist) && 0 < n <= |hist|
    ensures WorkOf(r, hist[..n]) + Product(|hist| - n, hi) < U256_LIMIT
  {
    hide WorkOf, ValidHistory, RulesOk, Within;
    WorkBelow(r, hist, n, lo, hi);
    Distribute(n - 1, |hist| - n, hi);
    MulOrder(|hist| - 1, |hist|, hi);
  }

  /** One block more adds its work. */
  lemma WorkAdds(r: Rules, hist: seq<Block>, n: nat, lo: nat, hi: nat)
    requires RulesOk(r) && Steady(r, hist, lo, hi) && ValidHistory(r, hist) && 0 < n < |hist|
    ensures WorkOf(r, hist[..n + 1]) == WorkOf(r, hist[..n]) + r.work(hist[n].header.bits)
  {
    hide WorkOf, ValidHistory, RulesOk, Product;
    WorkRoom(r, hist, n, lo, hi);
    WorkNext(r, hist, n);
    OneOf(|hist| - n, hi);
  }

  lemma OneOf(n: nat, hi: nat)
    requires n > 0
    ensures hi <= Product(n, hi)
  {
    MulOrder(1, n, hi);
  }

  /** What the first blocks of a chain count at most. */
  lemma WorkBelow(r: Rules, hist: seq<Block>, n: nat, lo: nat, hi: nat)
    requires RulesOk(r) && Steady(r, hist, lo, hi) && ValidHistory(r, hist) && 0 < n <= |hist|
    ensures WorkOf(r, hist[..n]) <= r.work(r.genesis.header.bits) + Product(n - 1, hi)
    ensures Product(WorkOf(r, hist[..n]), 125) < U256_LIMIT
  {
    hide WorkOf, ValidHistory, RulesOk, Acceptable, Headers, Replay, ShapeOk;
    GenesisRules(r);
    HistoryLinks(r, hist, 0);
    assert hist[..1] == [r.genesis];
    WorkOne(r, r.genesis);
    WorkAtMost(r, hist, 1, n, hi);
    MulOrder(n - 1, |hist|, hi);
    MulOrder(WorkOf(r, hist[..n]), r.work(r.genesis.header.bits) + Product(|hist|, hi), 125);
  }

  /** A branch that beats the surcharge is at least as long as what it replaces,
      where no block counts more than 293/250 of another. */
  lemma ReorgLength(r: Rules, was: seq<Block>, later: seq<Block>, fork: nat, lo: nat, hi: nat)
    requires RulesOk(r) && Steady(r, was, lo, hi) && Steady(r, later, lo, hi) && 250 * hi <= 293 * lo
    requires fork < |was| && fork + 1 < |later|
    requires ValidHistory(r, was) && ValidHistory(r, later) && was[..fork + 1] == later[..fork + 1]
    requires |was| - 1 - fork <= MAX_REORG_DEPTH
    requires WorkOf(r, later) > Threshold(WorkOf(r, was), WorkOf(r, was[..fork + 1]), |was| - 1 - fork)
    ensures |was| <= |later|
  {
    hide WorkOf, Threshold, ValidHistory, RulesOk, Within;
    if fork + 1 < |was| {
      Siblings(r, was, later, fork);
      AboveFork(r, was, fork, lo, hi);
      AboveFork(r, later, fork, lo, hi);
      var common, w := WorkOf(r, was[..fork + 1]), r.work(was[fork + 1].header.bits);
      NotShorter(lo, hi, common, w, |was| - 1 - fork, WorkOf(r, was) - common - w,
                 |later| - 1 - fork, WorkOf(r, later) - common - w);
    }
  }

  /** One submission with finality binding does not shorten the chain, where no
      block counts more than 293/250 of another. */
  lemma LengthKept(r: Rules, before: Standing, after: Standing, now: nat, lo: nat, hi: nat)
    requires RulesOk(r) && 250 * hi <= 293 * lo && Next(r, before, after, now)
    requires before.binds && Restorable(before.hist, 0, now)
    requires ValidHistory(r, before.hist) && Steady(r, before.hist, lo, hi)
    requires ValidHistory(r, after.hist) && Steady(r, after.hist, lo, hi)
    ensures |before.hist| <= |after.hist|
  {
    hide Restorable, ClockAllows, WorkOf, Threshold, ValidHistory, RulesOk, Steady;
    var block, res, fork, failedAt :| Outcome(r, before, after, block, now, res, fork, failedAt);
    RestorableUp(before.hist, fork, now, now);
    if res.Ok? && res.value.Reorganized? {
      ReorgLength(r, before.hist, after.hist, fork, lo, hi);
    }
  }

  /** Over every run with finality binding at the start the chain never gets
      shorter, and finality binds throughout. */
  lemma {:induction false} NeverShrinks(r: Rules, run: seq<Standing>, clock: seq<nat>, j: nat, lo: nat, hi: nat)
    requires RulesOk(r) && IsRun(r, run, clock) && j < |run| && run[0].binds
    requires AllSteady(r, run, lo, hi) && 250 * hi <= 293 * lo
    ensures BindsAll(run, 0, j + 1) && |run[0].hist| <= |run[j].hist|
  {
    hide Next, SamePrefix, Restorable, ValidHistory, RulesOk, Steady, IsRun, WorkOf;
    if j > 0 {
      RunLength(r, run, clock);
      NeverShrinks(r, run, clock, j - 1, lo, hi);
      RunStep(r, run, clock, j - 1);
      RunRestorable(r, run, clock, j - 1);
      NextSafe(r, run[j - 1], run[j], clock[j - 1]);
      LengthKept(r, run[j - 1], run[j], clock[j - 1], lo, hi);
    }
  }

  lemma RunLength(r: Rules, run: seq<Standing>, clock: seq<nat>)
    requires IsRun(r, run, clock)
    ensures |run| == |clock| + 1
  {
  }

  // ------------------------------------------------------------------
  // Settled for good
  // ------------------------------------------------------------------

  /** The blocks count as `ForkChoice.KeepsSettled` asks, which is up to about
      1.2487 of each other, and every anchor is settled at the start. */
  ghost predicate Level(r: Rules, run: seq<Standing>, lo: nat, hi: nat) {
    && AllSteady(r, run, lo, hi) && KeepsSettled(lo, hi)
    && |run| > 0 && r.lastAnchor < Max(Settled(|run[0].hist|), 1)
  }

  /** Same settled blocks as the chain the run started from, no less work, and if
      it is shorter, so much more work. */
  ghost predicate Holds(r: Rules, start: seq<Block>, hist: seq<Block>, lo: nat) {
    && |start| > 0 && |hist| > 0 && SamePrefix(start, hist, Settled(|start|))
    && WorkOf(r, hist) >= WorkOf(r, start)
    && (|hist| < |start| ==> WorkOf(r, hist) >= WorkOf(r, start) + Shortening(lo))
  }

  /** A reorganization that would reach a settled block asks for more work than
      any branch can have. */
  lemma CannotReach(r: Rules, start: seq<Block>, hist: seq<Block>, later: seq<Block>, fork: nat, lo: nat, hi: nat)
    requires RulesOk(r) && KeepsSettled(lo, hi) && ValidHistory(r, start) && Steady(r, start, lo, hi)
    requires ValidHistory(r, hist) && Steady(r, hist, lo, hi) && ValidHistory(r, later) && Steady(r, later, lo, hi)
    requires Holds(r, start, hist, lo)
    requires fork < |hist| && fork + 1 < |later| <= fork + MAX_REORG_DEPTH + 3
    requires hist[..fork + 1] == later[..fork + 1] && |hist| - 1 - fork <= MAX_REORG_DEPTH
    requires WorkOf(r, later) > Threshold(WorkOf(r, hist), WorkOf(r, hist[..fork + 1]), |hist| - 1 - fork)
    ensures Settled(|start|) <= fork + 1
  {
    hide WorkOf, Threshold, ValidHistory, RulesOk, Steady, SamePrefix, KeepsSettled, Shortening;
    if fork + 1 < Settled(|start|) {
      SharedAt(start, hist, Settled(|start|), fork);
      Siblings(r, hist, later, fork);
      AboveFork(r, start, fork, lo, hi);
      AboveFork(r, hist, fork, lo, hi);
      AboveFork(r, later, fork, lo, hi);
      var common, w := WorkOf(r, hist[..fork + 1]), r.work(hist[fork + 1].header.bits);
      Heavier(lo, hi, |start|, fork, |later|, WorkOf(r, start) - common - w, WorkOf(r, later) - common - w);
      SteadyPositive(r, hist, lo, hi);
      OutOfReach(lo, hi, common, w, |hist| - 1 - fork, WorkOf(r, hist) - common - w, WorkOf(r, later) - common - w);
    }
  }

  lemma SharedAt(a: seq<Block>, b: seq<Block>, n: nat, fork: nat)
    requires SamePrefix(a, b, n) && fork + 1 < n
    ensures n <= |a| && n <= |b| && a[..fork + 1] == b[..fork + 1] && a[fork + 1] == b[fork + 1]
  {
    assert a[..fork + 1] == a[..n][..fork + 1] == b[..n][..fork + 1] == b[..fork + 1];
    assert a[fork + 1] == a[..n][fork + 1] == b[..n][fork + 1] == b[fork + 1];
  }

  lemma SteadyPositive(r: Rules, hist: seq<Block>, lo: nat, hi: nat)
    requires Steady(r, hist, lo, hi)
    ensures 0 < lo
  {
  }

  /** The others of at least 721 blocks, and of at most 722. */
  lemma Heavier(lo: nat, hi: nat, length: nat, fork: nat, later: nat, started: nat, gain: nat)
    requires fork + 1 < Settled(length) && fork + 1 < later <= fork + MAX_REORG_DEPTH + 3
    requires Product(length - 2 - fork, lo) <= started && gain <= Product(later - 2 - fork, hi)
    ensures 720 * lo <= started && gain <= 721 * hi
  {
    MulOrder(720, length - 2 - fork, lo);
    MulOrder(later - 2 - fork, 721, hi);
  }

  /** A chain that gets shorter gets that much heavier. */
  lemma ShorterReorg(r: Rules, was: seq<Block>, later: seq<Block>, fork: nat, lo: nat, hi: nat)
    requires RulesOk(r) && Steady(r, was, lo, hi) && Steady(r, later, lo, hi) && KeepsSettled(lo, hi)
    requires fork < |was| && fork + 1 < |later| < |was|
    requires ValidHistory(r, was) && ValidHistory(r, later) && was[..fork + 1] == later[..fork + 1]
    requires |was| - 1 - fork <= MAX_REORG_DEPTH
    requires WorkOf(r, later) > Threshold(WorkOf(r, was), WorkOf(r, was[..fork + 1]), |was| - 1 - fork)
    ensures WorkOf(r, later) >= WorkOf(r, was) + Shortening(lo)
  {
    hide WorkOf, Threshold, ValidHistory, RulesOk, Steady, KeepsSettled, Shortening;
    SteadyPositive(r, was, lo, hi);
    KeepsSettledRatio(lo, hi);
    Siblings(r, was, later, fork);
    AboveFork(r, was, fork, lo, hi);
    AboveFork(r, later, fork, lo, hi);
    var common, w := WorkOf(r, was[..fork + 1]), r.work(was[fork + 1].header.bits);
    ShorterIsDearer(lo, hi, common, w, |was| - 1 - fork, WorkOf(r, was) - common - w,
                    |later| - 1 - fork, WorkOf(r, later) - common - w);
  }

  lemma HoldsNext(r: Rules, start: seq<Block>, before: Standing, after: Standing, now: nat, lo: nat, hi: nat)
    requires RulesOk(r) && KeepsSettled(lo, hi) && r.lastAnchor < Max(Settled(|start|), 1)
    requires ValidHistory(r, start) && Steady(r, start, lo, hi)
    requires Next(r, before, after, now) && before.binds && Restorable(before.hist, 0, now)
    requires Holds(r, start, before.hist, lo)
    requires ValidHistory(r, before.hist) && Steady(r, before.hist, lo, hi)
    requires ValidHistory(r, after.hist) && Steady(r, after.hist, lo, hi)
    ensures Holds(r, start, after.hist, lo) && after.binds
  {
    hide Restorable, ClockAllows, WorkOf, Threshold, ValidHistory, RulesOk, Steady, KeepsSettled, Shortening;
    var block, res, fork, failedAt :| Outcome(r, before, after, block, now, res, fork, failedAt);
    RestorableUp(before.hist, fork, now, now);
    var n := Settled(|start|);
    match res {
      case Ok(Extended) =>
        LongerWeighs(r, before.hist, block, lo, hi);
        assert after.hist[..n] == before.hist[..n];
      case Ok(Reorganized(depth)) =>
        CannotReach(r, start, before.hist, after.hist, fork, lo, hi);
        PrefixShorter(before.hist, after.hist, fork + 1, n);
        if |after.hist| < |before.hist| { ShorterReorg(r, before.hist, after.hist, fork, lo, hi); }
      case _ =>
    }
  }

  lemma LongerWeighs(r: Rules, hist: seq<Block>, b: Block, lo: nat, hi: nat)
    requires RulesOk(r) && |hist| > 0 && ValidHistory(r, hist + [b]) && Steady(r, hist + [b], lo, hi)
    ensures WorkOf(r, hist + [b]) > WorkOf(r, hist)
  {
    hide WorkOf, ValidHistory, RulesOk, Within;
    AboveFork(r, hist + [b], |hist| - 1, lo, hi);
    assert (hist + [b])[..|hist|] == hist;
  }

  /** Once a block is deeper than a reorganization reaches it stays, and finality
      goes on binding: at every later moment of every run. */
  lemma {:induction false} BuriedForGood(r: Rules, run: seq<Standing>, clock: seq<nat>, j: nat, lo: nat, hi: nat)
    requires RulesOk(r) && IsRun(r, run, clock) && j < |run| && run[0].binds && Level(r, run, lo, hi)
    ensures BindsAll(run, 0, j + 1) && Holds(r, run[0].hist, run[j].hist, lo)
  {
    hide Next, Holds, Restorable, ValidHistory, RulesOk, Steady, KeepsSettled, IsRun, WorkOf;
    RunLength(r, run, clock);
    if j == 0 {
      HoldsAtFirst(r, run, clock, lo);
    } else {
      BuriedForGood(r, run, clock, j - 1, lo, hi);
      RunStep(r, run, clock, 0);
      RunStep(r, run, clock, j - 1);
      RunRestorable(r, run, clock, j - 1);
      HoldsNext(r, run[0].hist, run[j - 1], run[j], clock[j - 1], lo, hi);
    }
  }

  lemma HoldsAtFirst(r: Rules, run: seq<Standing>, clock: seq<nat>, lo: nat)
    requires IsRun(r, run, clock)
    ensures |run| > 0 && Holds(r, run[0].hist, run[0].hist, lo)
  {
    hide Next, ValidHistory, Restorable;
    SelfPrefix(run[0].hist, Settled(|run[0].hist|));
  }

  /** The same from any moment at which finality binds, with the clock moving
      on and allowing the chain from there. */
  lemma BuriedSince(r: Rules, run: seq<Standing>, clock: seq<nat>, i: nat, j: nat, lo: nat, hi: nat)
    requires RulesOk(r) && Steps(r, run, clock) && i <= j < |run| && run[i].binds && Timely(run[i..], clock[i..])
    requires Level(r, run[i..], lo, hi)
    ensures SamePrefix(run[i].hist, run[j].hist, Settled(|run[i].hist|))
  {
    hide Next, SamePrefix, Restorable, ValidHistory, RulesOk, Level, Timely;
    BuriedForGood(r, run[i..], clock[i..], j - i, lo, hi);
  }

  // ------------------------------------------------------------------
  // On a chain
  // ------------------------------------------------------------------

  /** Submits blocks one after the other, each at its own time of the clock.
      `run` is where the chain stood before, between and after. */
  method SubmitAll(c: Chain, blocks: seq<Block>, clock: seq<nat>, ghost lo: nat, ghost hi: nat)
    returns (ghost run: seq<Standing>)
    requires c.Valid() && |blocks| == |clock| && forall b | b in blocks :: b.header.height < HEIGHT_LIMIT
    modifies c
    ensures c.Valid() && Steps(c.rules, run, clock) && run[0] == old(c.Stand()) && Last(run) == c.Stand()
    ensures AllSteady(c.rules, run, lo, hi) && 250 * hi <= 293 * lo && old(c.FinalityBinds()) && Timely(run, clock) ==>
              c.FinalityBinds() && |old(c.hist)| <= |c.hist|
    ensures Level(c.rules, run, lo, hi) && old(c.FinalityBinds()) && Timely(run, clock) ==>
              c.FinalityBinds() && SamePrefix(old(c.hist), c.hist, Settled(|old(c.hist)|))
  {
    hide CoreOk, StoreOk, BodiesOk, QueueOk, Outcome, Answer, Extends, Followed, Aside, SceneOk, TreeOk, ValidHistory,
         AllSteady, Level, SamePrefix, Timely, RulesOk, Indexed, Ids;
    c.CoreFacts();
    c.ActiveLength();
    run := [c.Stand()];
    for i := 0 to |blocks|
      invariant c.Valid() && |run| == i + 1 && run[0] == old(c.Stand()) && Last(run) == c.Stand()
      invariant Steps(c.rules, run, clock[..i])
    {
      ghost var before := c.Stand();
      var res;
      ghost var tried;
      res, tried := c.Submit(blocks[i], clock[i]);
      assert Next(c.rules, before, c.Stand(), clock[i]);
      c.CoreFacts();
      c.ActiveLength();
      StepsSnoc(c.rules, run, clock, i, c.Stand());
      run := run + [c.Stand()];
    }
    assert clock[..|blocks|] == clock;
    c.CoreFacts();
    if Timely(run, clock) && old(c.FinalityBinds()) {
      if AllSteady(c.rules, run, lo, hi) && 250 * hi <= 293 * lo {
        NeverShrinks(c.rules, run, clock, |blocks|, lo, hi);
      }
      if Level(c.rules, run, lo, hi) { BuriedForGood(c.rules, run, clock, |blocks|, lo, hi); }
    }
  }

  lemma StepsSnoc(r: Rules, run: seq<Standing>, clock: seq<nat>, i: nat, next: Standing)
    requires i < |clock| && |run| == i + 1 && Steps(r, run, clock[..i]) && Next(r, Last(run), next, clock[i])
    requires ValidHistory(r, next.hist) && 0 < |next.hist| <= HEIGHT_LIMIT
    ensures Steps(r, run + [next], clock[..i + 1])
  {
    hide Next, ValidHistory;
  }

  /** Where every difficulty the rules can ask for counts from `lo` to `hi`, every
      valid chain is steady. */
  lemma RulesSteady(r: Rules, hist: seq<Block>, lo: nat, hi: nat)
    requires RulesOk(r) && ValidHistory(r, hist) && |hist| <= HEIGHT_LIMIT && 0 < lo
    requires forall headers :: lo <= r.work(ExpectedBits(r, headers)) <= hi
    requires Product(r.work(r.genesis.header.bits) + Product(HEIGHT_LIMIT, hi), 125) < U256_LIMIT
    ensures Steady(r, hist, lo, hi)
  {
    hide ValidHistory, RulesOk, ExpectedBits, Within;
    GenesisRules(r);
    RulesWithin(r, hist, lo, hi);
    MulOrder(|hist|, HEIGHT_LIMIT, hi);
    MulOrder(r.work(r.genesis.header.bits) + Product(|hist|, hi),
             r.work(r.genesis.header.bits) + Product(HEIGHT_LIMIT, hi), 125);
  }

  /** On regtest every block counts the same: the case of `lo == hi`. */
  lemma RegtestSteady(r: Rules, run: seq<Standing>, clock: seq<nat>)
    requires r.regtest && r.work(INITIAL_BITS) > 0 && RulesOk(r) && Steps(r, run, clock)
    requires Product(r.work(r.genesis.header.bits) + Product(HEIGHT_LIMIT, r.work(INITIAL_BITS)), 125) < U256_LIMIT
    ensures AllSteady(r, run, r.work(INITIAL_BITS), r.work(INITIAL_BITS))
    ensures r.lastAnchor == 0 ==> Level(r, run, r.work(INITIAL_BITS), r.work(INITIAL_BITS))
  {
    hide ValidHistory, RulesOk, Steady, Next;
    var w := r.work(INITIAL_BITS);
    forall i | 0 <= i < |run|
      ensures Steady(r, run[i].hist, w, w)
    {
      RulesSteady(r, run[i].hist, w, w);
    }
    Divided(7 * w, 100);
  }
}
