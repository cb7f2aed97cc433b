/** Blocks a chain loses to a branch that fails past the undo window: a history
    of a `Chain` from genesis. */
module Losses {
  import opened Prelude
  import opened Ledger
  import opened Validation
  import opened History
  import opened Index
  import opened ChainState
  import opened Bodies
  import opened Reorg
  import opened Engine = Chain
  import opened Runs
  import opened Sides
  import opened Samples
  import opened Cases
  import Emission

  /** A chain of genesis alone with these blocks on its disk. */
  method Fresh(r: Rules, blocks: seq<Block>, binding: bool) returns (c: Chain)
    requires RulesOk(r) && !r.regtest && r.lastAnchor == 0 && forall i | 0 <= i < |blocks| :: ShapeOk(r, blocks[i])
    ensures fresh(c) && Ran(c, [Standing([r.genesis], binding)], []) && c.rules == r && c.source == Shelf(r, blocks)
    ensures c.hist == [r.genesis] && |c.undos| == 1 && c.index.Keys == {GenesisId(r)} && c.FinalityBinds() == binding
    ensures c.finalityHold.Some? && !c.returning && c.bound == binding
  {
    hide CoreOk, StoreOk, BodiesOk, QueueOk, ValidHistory, RulesOk, TreeOk, Indexed, Ids, Shelf, ShapeOk, Steps;
    c := new Chain(r);
    ShelfBodies(r, blocks);
    var disk := Shelf(r, blocks);
    c.SetBodySource(disk);
    if binding { c.BindFinality(); }
    c.ActiveLength();
    RanOne(c);
  }

  lemma ShelfBodies(r: Rules, blocks: seq<Block>)
    requires forall i | 0 <= i < |blocks| :: ShapeOk(r, blocks[i])
    ensures BodiesOk(r, Shelf(r, blocks))
  {
    hide ShapeOk, Shelf;
    ShelfOk(r, blocks);
  }

  /** What is on the shelf is on disk. */
  lemma ShelfHolds(s: Scene, blocks: seq<Block>, side: seq<Block>)
    requires s.disk == Shelf(s.rules, blocks) && forall i | 0 <= i < |blocks| :: ShapeOk(s.rules, blocks[i])
    requires forall i | 0 <= i < |side| :: side[i] in blocks
    ensures OnDisk(s, side)
  {
    hide ShapeOk, Shelf;
    ShelfOk(s.rules, blocks);
  }

  // ------------------------------------------------------------------
  // Past the undo window
  // ------------------------------------------------------------------

  const LATE: nat := 130_000

  /** The chains: `hist` hard, `side` longer and easy and of the same work, and a
      last block for `side` that is hard and takes too much. */
  ghost predicate LongBranch(r: Rules, hist: seq<Block>, side: seq<Block>, spoiled: Block) {
    && r == Sample(false) && |hist| == 802 && |side| == BODY_WINDOW + 2
    && hist == Grown(r, [r.genesis], 1, 1, |hist| - 1)
    && side == LongSide(r, |side| - 2)
    && spoiled == Mint(r, side, 120_962, Emission.MAX_SUPPLY)
  }

  function LongSide(r: Rules, n: nat): (side: seq<Block>)
    ensures |side| == n + 2
  {
    var slow := Grown(r, [r.genesis], 120, 120, n);
    slow + [Mint(r, slow, 120 * n + 1, 0)]
  }

  lemma LongChains(r: Rules, hist: seq<Block>, side: seq<Block>, spoiled: Block)
    requires LongBranch(r, hist, side, spoiled)
    ensures Plain(r) && RulesOk(r) && ValidHistory(r, hist) && ValidHistory(r, side)
    ensures |hist| == 802 && |side| == BODY_WINDOW + 2
    ensures Leaves(hist, side, 0) && Slow(side) && Before(side, 120_962) && Before(hist, LATE)
    ensures side[1].header.time == 120 && Spaced(hist, 1)
    ensures Last(side).header.time < side[|side| - 2].header.time + QUICK
  {
    hide Sample, Mint, Plain, RulesOk, ValidHistory, Grown, Slow;
    SamplePlain(false);
    PlainRules(r);
    var n := |side| - 2;
    QuickChain(r, |hist| - 1);
    SlowChain(r, n);
    var slow := Grown(r, [r.genesis], 120, 120, n);
    SlowSnoc(r, slow, 120 * n + 1);
    assert hist[..1] == [r.genesis] == slow[..1] == side[..1];
  }

  /** Two minutes from block to block. */
  lemma SlowChain(r: Rules, n: nat)
    requires r == Sample(false) && n < 0x1_0000
    ensures var slow := Grown(r, [r.genesis], 120, 120, n);
            && ValidHistory(r, slow) && Spaced(slow, 120) && slow[0] == r.genesis
  {
    hide Sample, Mint, Plain, RulesOk, ValidHistory, Grown, Date;
    var slow := Grown(r, [r.genesis], 120, 120, n);
    StartingChain(r);
    GrownValid(r, [r.genesis], 120, 120, n);
    assert slow[0] == slow[..1][0];
    forall k | 0 <= k <= n
      ensures slow[k].header.time == 120 * k
    {
      if k > 0 { DateFrom(120, 120, k); }
    }
  }

  /** A second from block to block. */
  lemma QuickChain(r: Rules, n: nat)
    requires r == Sample(false) && n < 0x1_0000
    ensures var quick := Grown(r, [r.genesis], 1, 1, n);
            && ValidHistory(r, quick) && Spaced(quick, 1) && quick[0] == r.genesis
  {
    hide Sample, Mint, Plain, RulesOk, ValidHistory, Grown, Date;
    var quick := Grown(r, [r.genesis], 1, 1, n);
    StartingChain(r);
    GrownValid(r, [r.genesis], 1, 1, n);
    assert quick[0] == quick[..1][0];
    forall k | 0 <= k <= n
      ensures quick[k].header.time == 1 * k
    {
      if k > 0 { DateFrom(1, 1, k); }
    }
  }

  lemma StartingChain(r: Rules)
    requires r == Sample(false)
    ensures Plain(r) && ValidHistory(r, [r.genesis]) && r.genesis.header.time == 0
  {
    hide Sample, Plain;
    SamplePlain(false);
    SampleWork(false);
    GenesisValid(r);
    GenesisFacts(r.genesis);
  }

  lemma DateFrom(start: nat, step: nat, k: nat)
    requires k > 0 && start == step
    ensures Date(start, step, k - 1) == step * k
  {
    Distribute(k - 1, 1, step);
  }

  /** One quick block on a slow chain. */
  lemma SlowSnoc(r: Rules, slow: seq<Block>, time: nat)
    requires Plain(r) && ValidHistory(r, slow) && 1 < |slow| < HEIGHT_LIMIT && Spaced(slow, 120)
    requires time == 120 * (|slow| - 1) + 1
    ensures var side := slow + [Mint(r, slow, time, 0)];
            && ValidHistory(r, side) && Slow(side) && Before(side, time + 1) && Last(side).header.time == time
  {
    hide Mint, Plain, ValidHistory;
    MintFields(r, slow, time, 0);
    MintVerdict(r, slow, time, 0, time);
  }

  lemma LongWorks(r: Rules, hist: seq<Block>, side: seq<Block>, spoiled: Block)
    requires LongBranch(r, hist, side, spoiled)
    ensures |hist| == 802 && WorkOf(r, hist) == WorkOf(r, side) == 50_500 && WorkOf(r, side + [spoiled]) == 50_563
    ensures r == Sample(false) && forall bits :: EASY_WORK <= r.work(bits) <= HARD_WORK
    ensures forall i | 0 <= i < |side| :: side[i].header.bits == INITIAL_BITS
  {
    hide Sample, Mint, Plain, RulesOk, ValidHistory, Grown, WorkOf;
    LongChains(r, hist, side, spoiled);
    SampleWork(false);
    GenesisFacts(r.genesis);
    SlowEasy(r, side);
    EasyWork(false, side);
    SampleExpected(r, side);
    MintFields(r, side, 120_962, Emission.MAX_SUPPLY);
    WorkSnoc(r, side, spoiled);
    QuickWork(r, hist);
  }

  /** Before finality binds, a branch of 1010 blocks whose last one is bad: the
      undo records end one block above the fork, and the chain is left there,
      neither on its old blocks nor at the fork. */
  method StrandedAboveFork()
    returns (c: Chain, res: Result<Accept, ChainError>, ghost run: seq<Standing>, ghost clock: seq<nat>)
    ensures Ran(c, run, clock) && |run| >= 2 && res == Err(Invalid(ExcessiveSubsidy))
    ensures var before := run[|run| - 2].hist;
            && |before| == 802 && |c.hist| == 2 && c.hist[0] == before[0] && c.hist[1] != before[1]
            && WorkOf(c.rules, c.hist) < WorkOf(c.rules, before)
  {
    hide CoreOk, StoreOk, BodiesOk, QueueOk, ValidHistory, RulesOk, TreeOk, Indexed, Outcome, Steps, Verdict, Sound,
         SceneOk, Sample, Mint, Plain, ShapeOk, WorkOf, Shelf, Decided, Landed, Ids, LetIn, KeptAside, Grown, LongSide,
         LongBranch, Leaves, Continued, FairlyHard, ToSet;
    var r := Sample(false);
    var n, m := 801, BODY_WINDOW;
    var hist, side := Grown(r, [r.genesis], 1, 1, n), LongSide(r, m);
    var spoiled := Mint(r, side, 120_962, Emission.MAX_SUPPLY);
    assert LongBranch(r, hist, side, spoiled) by { Named(r, hist, side, spoiled); }
    c, run, clock := BesideIt(r, hist, side, spoiled);
    ghost var was := c.Stand();
    LastLetIn(c.Now(), hist, side, spoiled);
    ghost var tried;
    res, tried := Lead(c, side, spoiled, 0, LATE, run, clock);
    LastFails(tried.scene, hist, side, spoiled, AsDepth(res), tried.fork, tried.failedAt, c.Now());
    run, clock := run + [c.Stand()], clock + [LATE];
    assert run[|run| - 2] == was;
  }

  lemma Named(r: Rules, hist: seq<Block>, side: seq<Block>, spoiled: Block)
    requires r == Sample(false) && |hist| == 802 && |side| == BODY_WINDOW + 2
    requires hist == Grown(r, [r.genesis], 1, 1, |hist| - 1) && side == LongSide(r, |side| - 2)
    requires spoiled == Mint(r, side, 120_962, Emission.MAX_SUPPLY)
    ensures LongBranch(r, hist, side, spoiled)
  {
    hide Sample, Grown, LongSide, Mint;
  }

  /** The chain on `hist`, with `side` indexed beside it. */
  ghost predicate BothKnown(s: Scene, hist: seq<Block>, side: seq<Block>, spoiled: Block) {
    && LongBranch(s.rules, hist, side, spoiled) && s.hist == hist && !s.binds && s.undos == 802
    && s.disk == Shelf(s.rules, hist + side + [spoiled])
  }

  method BesideIt(r: Rules, hist: seq<Block>, side: seq<Block>, spoiled: Block)
    returns (c: Chain, ghost run: seq<Standing>, ghost clock: seq<nat>)
    requires LongBranch(r, hist, side, spoiled)
    ensures fresh(c) && Ran(c, run, clock) && c.rules == r && BothKnown(c.Now(), hist, side, spoiled)
    ensures Sound(c.Now()) && SceneOk(c.Now()) && Indexed(r, c.index, side)
    ensures c.index.Keys == {GenesisId(r)} + ToSet(Ids(r, hist)) + ToSet(Ids(r, side))
  {
    hide CoreOk, StoreOk, BodiesOk, QueueOk, ValidHistory, RulesOk, TreeOk, Indexed, Outcome, Steps, Sound, SceneOk,
         Sample, Mint, Plain, ShapeOk, WorkOf, Shelf, Ids, KeptAside, Grown, LongSide, LongBranch, Continued,
         FairlyHard, ToSet, Leaves, Restorable;
    LongFacts(r, hist, side, spoiled);
    c := Fresh(r, hist + side + [spoiled], false);
    run, clock := [Standing([r.genesis], false)], [];
    FirstsNew(r, hist);
    run, clock := GrowTip(c, hist, LATE, run, clock);
    BindsOn(c);
    SidesNew(r, hist, side, c.index);
    run, clock := GrowAside(c, side, 0, 1, LATE, run, clock);
    BindsOn(c);
    SoundNow(c);
  }

  /** What is needed of the chains, in one place. */
  lemma LongFacts(r: Rules, hist: seq<Block>, side: seq<Block>, spoiled: Block)
    requires LongBranch(r, hist, side, spoiled)
    ensures RulesOk(r) && !r.regtest && r.lastAnchor == 0 && ValidHistory(r, hist) && ValidHistory(r, side)
    ensures |hist| == 802 && |side| == BODY_WINDOW + 2 && Leaves(hist, side, 0)
    ensures hist[..1] == [r.genesis] == side[..1]
    ensures Restorable(hist, 0, LATE) && Restorable(side, 0, LATE)
    ensures WorkOf(r, side) <= WorkOf(r, hist)
    ensures forall i | 1 <= i < |side| :: FairlyHard(r, side, 0, r.work(side[i].header.bits))
    ensures var all := hist + side + [spoiled]; forall i | 0 <= i < |all| :: ShapeOk(r, all[i])
  {
    hide Sample, Mint, Plain, RulesOk, ValidHistory, Grown, WorkOf, ShapeOk, LongBranch, Slow;
    LongChains(r, hist, side, spoiled);
    LongWorks(r, hist, side, spoiled);
    LongRegtest(r, hist, side, spoiled);
    ValidShapes(r, hist);
    ValidShapes(r, side);
    SpoiledShape(r, hist, side, spoiled);
    ValidChained(r, hist);
    ValidChained(r, side);
  }

  lemma LongRegtest(r: Rules, hist: seq<Block>, side: seq<Block>, spoiled: Block)
    requires LongBranch(r, hist, side, spoiled)
    ensures !r.regtest && r.lastAnchor == 0
  {
    hide Sample, Grown, Mint, LongSide;
    SampleWork(false);
  }

  lemma SpoiledShape(r: Rules, hist: seq<Block>, side: seq<Block>, spoiled: Block)
    requires LongBranch(r, hist, side, spoiled)
    ensures ShapeOk(r, spoiled) && spoiled.header.height == |side|
    ensures spoiled.header.prev == r.blockId(Last(side).header)
  {
    hide Sample, Grown, Mint, LongSide, ShapeOk;
    MintShape(r, side, 120_962, Emission.MAX_SUPPLY);
    MintFields(r, side, 120_962, Emission.MAX_SUPPLY);
  }

  lemma FirstsNew(r: Rules, hist: seq<Block>)
    requires RulesOk(r) && ValidHistory(r, hist)
    ensures forall i | 1 <= i < |hist| :: r.blockId(hist[i].header) != GenesisId(r)
  {
    hide RulesOk, ValidHistory;
    ValidChained(r, hist);
    forall i | 1 <= i < |hist|
      ensures r.blockId(hist[i].header) != GenesisId(r)
    {
      if r.blockId(hist[i].header) == GenesisId(r) { HeaderIsUnique(r, hist[i].header, hist[0].header); }
    }
  }

  lemma SidesNew(r: Rules, hist: seq<Block>, side: seq<Block>, t: Tree)
    requires RulesOk(r) && ValidHistory(r, hist) && ValidHistory(r, side) && Leaves(hist, side, 0)
    requires t.Keys == {GenesisId(r)} + ToSet(Ids(r, hist))
    ensures forall i | 1 <= i < |side| :: r.blockId(side[i].header) !in t
    ensures Indexed(r, t, side[..1])
  {
    hide RulesOk, ValidHistory, Ids, Leaves;
    ValidChained(r, hist);
    ValidChained(r, side);
    FirstsNew(r, side);
    forall i | 1 <= i < |side|
      ensures r.blockId(side[i].header) !in t
    {
      ApartIds(r, hist, side, 0, i);
    }
  }

  lemma LastLetIn(s: Scene, hist: seq<Block>, side: seq<Block>, spoiled: Block)
    requires Sound(s) && SceneOk(s) && BothKnown(s, hist, side, spoiled) && Indexed(s.rules, s.index, side)
    requires s.index.Keys == {GenesisId(s.rules)} + ToSet(Ids(s.rules, hist)) + ToSet(Ids(s.rules, side))
    ensures LetIn(s, side, spoiled, 0, LATE) && |s.hist| > 0
    ensures WorkOf(s.rules, side + [spoiled]) > WorkOf(s.rules, s.hist)
  {
    hide Sample, Mint, Plain, RulesOk, ValidHistory, Grown, WorkOf, ShapeOk, LongBranch, Slow, SceneOk, TreeOk,
         BodiesOk, Indexed, HeaderFault, ContextAt, Headers, Shelf, Leaves, Ids, FairlyHard;
    var r := s.rules;
    LongChains(r, hist, side, spoiled);
    LongWorks(r, hist, side, spoiled);
    SpoiledShape(r, hist, side, spoiled);
    SpoiledHeader(r, hist, side, spoiled);
    PlainRules(r);
    ValidChained(r, hist);
    ValidChained(r, side);
    HigherIds(r, hist, spoiled);
    HigherIds(r, side, spoiled);
    GenesisIn(r, side);
    NotTheTip(s, side, 0, |side| - 1);
    HardEnough(r, side, r.work(spoiled.header.bits));
  }

  lemma HardEnough(r: Rules, side: seq<Block>, work: nat)
    requires |side| > 0 && r.work(side[0].header.bits) <= HARD_WORK && work >= EASY_WORK
    ensures FairlyHard(r, side, 0, work)
  {
  }

  lemma GenesisIn(r: Rules, side: seq<Block>)
    requires Chained(r, side)
    ensures GenesisId(r) in Ids(r, side)
  {
    IdsAt(r, side, 0);
  }

  lemma SpoiledHeader(r: Rules, hist: seq<Block>, side: seq<Block>, spoiled: Block)
    requires LongBranch(r, hist, side, spoiled)
    ensures |side| > 0 && HeaderFault(r, ContextAt(r, Headers(side)), spoiled.header).None?
    ensures Verdict(r, side, spoiled, LATE) == Err(ExcessiveSubsidy)
    ensures spoiled.header.time == 120_962
  {
    hide Sample, Mint, Plain, RulesOk, ValidHistory, Grown, HeaderFault, ContextAt, Headers, Verdict, Slow, Leaves;
    LongChains(r, hist, side, spoiled);
    MintHeader(r, side, 120_962, Emission.MAX_SUPPLY);
    MintVerdict(r, side, 120_962, Emission.MAX_SUPPLY, LATE);
    MintFields(r, side, 120_962, Emission.MAX_SUPPLY);
  }

  lemma LastFails(s: Scene, hist: seq<Block>, side: seq<Block>, spoiled: Block,
                  res: Result<nat, ChainError>, fork: nat, failedAt: Option<nat>, after: Scene)
    requires Sound(s) && SceneOk(s) && BothKnown(s, hist, side, spoiled) && Indexed(s.rules, s.index, side + [spoiled])
    requires s.rules.blockId(spoiled.header) in s.index
    requires s.index[s.rules.blockId(spoiled.header)].work == WorkOf(s.rules, side + [spoiled])
    requires Decided(s, s.rules.blockId(spoiled.header), LATE, res, fork, failedAt)
    requires Landed(s, s.rules.blockId(spoiled.header), LATE, res.Ok?, fork, failedAt, after)
    ensures res == Err(Invalid(ExcessiveSubsidy)) && |hist| == 802
    ensures |after.hist| == 2 && after.hist[0] == hist[0] && after.hist[1] != hist[1]
    ensures WorkOf(s.rules, after.hist) < WorkOf(s.rules, hist)
  {
    hide Sample, Mint, Plain, RulesOk, ValidHistory, Grown, WorkOf, ShapeOk, LongBranch, Slow, SceneOk, TreeOk,
         BodiesOk, Indexed, Shelf, Leaves, Decided, Verdict, FailsAt, Sound, OnDisk, Restorable, Fetched, Chained,
         Required, IdsAbove, Found, IsBranch, OnActive, AllAccepted, Takes, SameTree;
    var r, all := s.rules, side + [spoiled];
    var tip := r.blockId(spoiled.header);
    LongFacts(r, hist, side, spoiled);
    LongWorks(r, hist, side, spoiled);
    SpoiledHeader(r, hist, side, spoiled);
    LastOnDisk(s, hist, side, spoiled);
    LastChained(r, hist, side, spoiled);
    SceneTerms(s, 0);
    SceneLength(s);
    SpoiledFails(s, side, spoiled, 0, LATE, ExcessiveSubsidy);
    MustFail(s, tip, LATE, res, fork, failedAt, 0, IdsAbove(r, all, 0), |side| - 1, ExcessiveSubsidy);
    var branch :| TermsOk(s, tip, fork, branch) && AtHand(s, fork, branch) && failedAt.value < |branch|
                  && after.hist == s.hist[..fork + 1] + Fetched(s, branch)[..failedAt.value - BODY_WINDOW];
    FailingPath(s, tip, LATE, 0, IdsAbove(r, all, 0), |side| - 1, ExcessiveSubsidy);
    OnePath(s, tip, 0, IdsAbove(r, all, 0), fork, branch);
    assert Fetched(s, branch)[..1] == [side[1]];
    assert after.hist == [hist[0], side[1]];
    LeftAt(r, hist, side, spoiled);
  }

  lemma FailingPath(s: Scene, tip: Id, now: nat, fork: nat, branch: seq<Id>, n: nat, e: ValidationError)
    requires SceneOk(s) && FailsAt(s, tip, now, fork, branch, n, e)
    ensures PathOk(s, tip, fork, branch)
  {
    hide SceneOk, AllAccepted, Found, Fetched, IsBranch, OnActive, Verdict, TermsFault;
  }

  lemma LeftAt(r: Rules, hist: seq<Block>, side: seq<Block>, spoiled: Block)
    requires LongBranch(r, hist, side, spoiled)
    ensures |hist| == 802 && |side| > 1 && side[1] != hist[1] && WorkOf(r, [hist[0], side[1]]) < WorkOf(r, hist)
  {
    hide Sample, Mint, Plain, RulesOk, ValidHistory, Grown, WorkOf, LongBranch, Slow;
    LongChains(r, hist, side, spoiled);
    LongWorks(r, hist, side, spoiled);
    assert hist[..1] == side[..1];
    assert hist[0] == side[0];
    assert [hist[0], side[1]] == side[..2];
    EasyWork(false, side[..2]);
  }

  lemma LastOnDisk(s: Scene, hist: seq<Block>, side: seq<Block>, spoiled: Block)
    requires BothKnown(s, hist, side, spoiled)
    ensures OnDisk(s, side + [spoiled]) && OnDisk(s, hist)
  {
    hide ShapeOk, Shelf, LongBranch, OnDisk, Leaves, RulesOk, ValidHistory, WorkOf, FairlyHard, Restorable;
    LongFacts(s.rules, hist, side, spoiled);
    ShelfHolds(s, hist + side + [spoiled], side + [spoiled]);
    ShelfHolds(s, hist + side + [spoiled], hist);
  }

  lemma LastChained(r: Rules, hist: seq<Block>, side: seq<Block>, spoiled: Block)
    requires LongBranch(r, hist, side, spoiled)
    ensures Chained(r, side + [spoiled]) && Leaves(hist, side + [spoiled], 0)
  {
    hide Sample, Mint, Plain, RulesOk, ValidHistory, Grown, LongBranch, Slow, ShapeOk;
    LongChains(r, hist, side, spoiled);
    SpoiledShape(r, hist, side, spoiled);
    ValidChained(r, side);
    assert (side + [spoiled])[..1] == side[..1];
  }
}
