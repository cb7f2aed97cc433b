/** Histories of a `Chain` with the rules of `Samples` and every block on its
    disk: the steps they are made of, and a clock set back. */
module Cases {
  import opened Prelude
  import opened Ledger
  import opened Validation
  import opened History
  import opened Index
  import opened ChainState
  import opened Bodies
  import opened ForkChoice
  import opened Reorg
  import opened Engine = Chain
  import opened Runs
  import opened Sides
  import opened Samples
  import Emission

  // ------------------------------------------------------------------
  // Steps of a run
  // ------------------------------------------------------------------

  /** A chain with these rules and this disk, and the run that led to it. */
  ghost predicate Ran(c: Chain, run: seq<Standing>, clock: seq<nat>)
    reads c
  {
    c.Valid() && |run| > 0 && Last(run) == c.Stand() && Steps(c.rules, run, clock)
  }

  lemma RanOne(c: Chain)
    requires c.Valid()
    ensures Ran(c, [c.Stand()], [])
  {
    hide CoreOk, StoreOk, BodiesOk, QueueOk, ValidHistory, RulesOk, TreeOk, Indexed, Ids;
    c.CoreFacts();
    c.ActiveLength();
  }

  lemma RanMore(c: Chain, run: seq<Standing>, clock: seq<nat>, now: nat)
    requires c.Valid() && |run| > 0 && Steps(c.rules, run, clock) && Runs.Next(c.rules, Last(run), c.Stand(), now)
    ensures Ran(c, run + [c.Stand()], clock + [now])
  {
    hide CoreOk, StoreOk, BodiesOk, QueueOk, ValidHistory, RulesOk, TreeOk, Indexed, Ids, Outcome, Runs.Next;
    c.CoreFacts();
    c.ActiveLength();
    assert (clock + [now])[..|clock|] == clock;
    StepsSnoc(c.rules, run, clock + [now], |clock|, c.Stand());
    assert (clock + [now])[..|clock| + 1] == clock + [now];
  }

  /** A run continued at one time of the clock, with finality as it was. */
  ghost predicate Continued(run: seq<Standing>, clock: seq<nat>, later: seq<Standing>, clockLater: seq<nat>, now: nat,
                            binds: bool) {
    && run <= later && clock <= clockLater
    && (forall i | |clock| <= i < |clockLater| :: clockLater[i] == now)
    && (forall i | |run| <= i < |later| :: later[i].binds == binds)
  }

  /** With no anchor, what binds finality does not depend on the blocks. */
  lemma BindsOn(c: Chain)
    requires c.Valid() && c.rules.lastAnchor == 0
    ensures c.FinalityBinds() == (!(c.finalityHold.Some? && c.returning) && (c.finalityHold.None? || c.bound))
  {
    hide CoreOk, StoreOk, BodiesOk, QueueOk;
    c.ActiveLength();
  }

  /** Nothing but the chain itself has changed. */
  twostate predicate Undisturbed(c: Chain)
    reads c
  {
    && c.source == old(c.source) && c.bound == old(c.bound)
    && c.returning == old(c.returning) && c.finalityHold == old(c.finalityHold)
  }

  /** A block the rules accept on the tip extends the chain. */
  method ExtendBy(c: Chain, b: Block, now: nat, ghost run: seq<Standing>, ghost clock: seq<nat>)
    requires Ran(c, run, clock) && c.rules.blockId(b.header) !in c.index && |c.hist| > 0
    requires Verdict(c.rules, c.hist, b, now).Ok? && b.header.height == |c.hist| < HEIGHT_LIMIT
    requires b.header.prev == c.rules.blockId(Last(c.hist).header)
    modifies c
    ensures Ran(c, run + [c.Stand()], clock + [now]) && Undisturbed(c)
    ensures Extends(old(c.Now()), b, c.Now())
  {
    hide CoreOk, StoreOk, BodiesOk, QueueOk, ValidHistory, RulesOk, TreeOk, Indexed, Outcome, Steps, Verdict, Followed,
         SideFault, Extends, Beside, Decided;
    c.TipNode();
    TipHeight(c);
    c.SceneValid();
    ghost var before := c.Stand();
    var res;
    ghost var tried;
    res, tried := c.Submit(b, now);
    assert Runs.Next(c.rules, before, c.Stand(), now);
    RanMore(c, run, clock, now);
  }

  lemma TipHeight(c: Chain)
    requires c.Valid()
    ensures |c.hist| > 0 && Last(c.hist).header.height == |c.hist| - 1
  {
    hide CoreOk, StoreOk, BodiesOk, QueueOk, ValidHistory, RulesOk, TreeOk, Indexed, Ids;
    c.CoreFacts();
    ValidChained(c.rules, c.hist);
  }

  /** Grows the active chain to `target`, a valid chain it is the start of. */
  method GrowTip(c: Chain, target: seq<Block>, now: nat, ghost run0: seq<Standing>, ghost clock0: seq<nat>)
    returns (ghost run: seq<Standing>, ghost clock: seq<nat>)
    requires Ran(c, run0, clock0) && c.rules.lastAnchor == 0 && ValidHistory(c.rules, target) && |target| < HEIGHT_LIMIT
    requires |c.hist| <= |target| && c.hist == target[..|c.hist|] && Restorable(target, 0, now)
    requires forall i | |c.hist| <= i < |target| :: c.rules.blockId(target[i].header) !in c.index
    modifies c
    ensures Ran(c, run, clock) && Continued(run0, clock0, run, clock, now, old(c.FinalityBinds())) && Undisturbed(c)
    ensures c.hist == target && |c.undos| == Min(|old(c.undos)| + |target| - |old(c.hist)|, BODY_WINDOW)
    ensures c.index.Keys == old(c.index).Keys + ToSet(Ids(c.rules, target))
  {
    hide CoreOk, StoreOk, BodiesOk, QueueOk, ValidHistory, RulesOk, TreeOk, Indexed, Outcome, Steps, Verdict,
         Restorable, Ids, ToSet, Continued, Extends;
    run, clock := run0, clock0;
    ContinuedSelf(run, clock, now, c.FinalityBinds());
    BindsOn(c);
    c.ActiveLength();
    ghost var start := |c.hist|;
    ghost var known := c.index.Keys;
    KnownIds(c);
    assert target[..start] == c.hist;
    var i := |c.active|;
    while i < |target|
      invariant Ran(c, run, clock) && Continued(run0, clock0, run, clock, now, old(c.FinalityBinds())) && Undisturbed(c)
      invariant 0 < start <= i == |c.hist| <= |target| && c.hist == target[..i]
      invariant |c.undos| == Min(|old(c.undos)| + i - start, BODY_WINDOW)
      invariant c.index.Keys == known + ToSet(Ids(c.rules, target[..i]))
    {
      c.CoreFacts();
      NextIsNew(c, target, i, known);
      NextAccepted(c.rules, target, i, now);
      ghost var scene := c.Now();
      ExtendBy(c, target[i], now, run, clock);
      Grew(scene, target, i, known, c.Now());
      BindsOn(c);
      ContinuedMore(run0, clock0, run, clock, now, c.Stand());
      run, clock := run + [c.Stand()], clock + [now];
      i := i + 1;
    }
    assert target[..|target|] == target;
  }

  lemma Grew(s: Scene, target: seq<Block>, i: nat, known: set<Id>, after: Scene)
    requires i < |target| && Extends(s, target[i], after) && s.hist == target[..i]
    requires s.index.Keys == known + ToSet(Ids(s.rules, target[..i]))
    ensures after.hist == target[..i + 1] && after.undos == Min(s.undos + 1, BODY_WINDOW) && after.disk == s.disk
    ensures after.index.Keys == known + ToSet(Ids(s.rules, target[..i + 1]))
  {
    hide Ids;
    IdsSnoc(s.rules, target, i);
  }

  lemma ContinuedSelf(run: seq<Standing>, clock: seq<nat>, now: nat, binds: bool)
    ensures Continued(run, clock, run, clock, now, binds)
  {
  }

  lemma ContinuedMore(run0: seq<Standing>, clock0: seq<nat>, run: seq<Standing>, clock: seq<nat>, now: nat,
                      next: Standing)
    requires Continued(run0, clock0, run, clock, now, next.binds)
    ensures Continued(run0, clock0, run + [next], clock + [now], now, next.binds)
  {
  }

  lemma KnownIds(c: Chain)
    requires c.Valid()
    ensures c.index.Keys == c.index.Keys + ToSet(Ids(c.rules, c.hist))
  {
    hide CoreOk, StoreOk, BodiesOk, QueueOk, ValidHistory, RulesOk, TreeOk, Ids;
    c.CoreFacts();
    forall id | id in Ids(c.rules, c.hist)
      ensures id in c.index
    {
      ActiveInIndex(c.rules, c.index, c.hist, id);
    }
  }

  lemma IdsSnoc(r: Rules, target: seq<Block>, i: nat)
    requires i < |target|
    ensures ToSet(Ids(r, target[..i + 1])) == ToSet(Ids(r, target[..i])) + {r.blockId(target[i].header)}
  {
    assert target[..i + 1] == target[..i] + [target[i]];
    ActiveIds(r, target[..i], target[i]);
  }

  lemma ActiveIds(r: Rules, hist: seq<Block>, b: Block)
    ensures Ids(r, hist + [b]) == Ids(r, hist) + [r.blockId(b.header)]
  {
  }

  lemma NextIsNew(c: Chain, target: seq<Block>, i: nat, known: set<Id>)
    requires c.Valid() && ValidHistory(c.rules, target) && i < |target| && c.rules.blockId(target[i].header) !in known
    requires c.index.Keys == known + ToSet(Ids(c.rules, target[..i]))
    ensures c.rules.blockId(target[i].header) !in c.index
  {
    hide CoreOk, StoreOk, BodiesOk, QueueOk, ValidHistory, RulesOk, TreeOk;
    c.CoreFacts();
    ValidChained(c.rules, target);
    ChainedDistinct(c.rules, target, i);
  }

  lemma ChainedDistinct(r: Rules, side: seq<Block>, i: nat)
    requires RulesOk(r) && Chained(r, side) && i < |side|
    ensures r.blockId(side[i].header) !in Ids(r, side[..i])
  {
    hide RulesOk;
    forall j | 0 <= j < i
      ensures r.blockId(side[j].header) != r.blockId(side[i].header)
    {
      if r.blockId(side[j].header) == r.blockId(side[i].header) { HeaderIsUnique(r, side[j].header, side[i].header); }
    }
  }

  lemma NextAccepted(r: Rules, target: seq<Block>, i: nat, now: nat)
    requires RulesOk(r) && ValidHistory(r, target) && 0 < i < |target| && Restorable(target, 0, now)
    ensures Verdict(r, target[..i], target[i], now).Ok?
    ensures target[i].header.height == i && target[i].header.prev == r.blockId(target[i - 1].header)
  {
    hide RulesOk, ValidHistory, ShapeOk, Acceptable, Headers, Replay, CheckBlock, ContextAt;
    GenesisRules(r);
    HistoryLinks(r, target, i);
    HeadersLength(target[..i]);
    ClockIsOneGate(r, Headers(target[..i]), Replay(r, target[..i]), target[i], now);
  }

  // ------------------------------------------------------------------
  // Beside the active chain
  // ------------------------------------------------------------------

  /** A side block that does not lead is kept aside. */
  method PutAside(c: Chain, side: seq<Block>, b: Block, ghost fork: nat, now: nat, ghost run: seq<Standing>,
                  ghost clock: seq<nat>)
    returns (res: Result<Accept, ChainError>)
    requires Ran(c, run, clock) && LetIn(c.Now(), side, b, fork, now)
    requires |c.hist| > 0 && WorkOf(c.rules, side + [b]) <= WorkOf(c.rules, c.hist)
    modifies c
    ensures Ran(c, run + [c.Stand()], clock + [now]) && Undisturbed(c)
    ensures res == Ok(SideBranch) && Beside(old(c.Now()), b, c.Now())
  {
    hide CoreOk, StoreOk, BodiesOk, QueueOk, ValidHistory, RulesOk, TreeOk, Indexed, Outcome, Steps, Verdict, SideFault,
         Extends, Beside, Decided, LetIn, WorkOf, SceneOk, Sound, Landed;
    SoundNow(c);
    LetInAside(c.Now(), side, b, fork, now);
    ghost var before := c.Stand();
    ghost var tried;
    res, tried := c.Submit(b, now);
    assert Runs.Next(c.rules, before, c.Stand(), now);
    RanMore(c, run, clock, now);
  }

  /** What a reorganization answered, as the submission passes it on. */
  function AsDepth(res: Result<Accept, ChainError>): Result<nat, ChainError> {
    match res
    case Ok(Reorganized(depth)) => Ok(depth)
    case Ok(_) => Ok(0)
    case Err(e) => Err(e)
  }

  /** A side block that leads sets off a reorganization. */
  method Lead(c: Chain, side: seq<Block>, b: Block, ghost fork: nat, now: nat, ghost run: seq<Standing>,
              ghost clock: seq<nat>)
    returns (res: Result<Accept, ChainError>, ghost tried: Attempt)
    requires Ran(c, run, clock) && LetIn(c.Now(), side, b, fork, now)
    requires |c.hist| > 0 && WorkOf(c.rules, side + [b]) > WorkOf(c.rules, c.hist)
    modifies c
    ensures Ran(c, run + [c.Stand()], clock + [now]) && Undisturbed(c)
    ensures SceneOk(tried.scene) && Sound(tried.scene) && Beside(old(c.Now()), b, tried.scene)
    ensures Indexed(c.rules, tried.scene.index, side + [b])
    ensures c.rules.blockId(b.header) in tried.scene.index
    ensures tried.scene.index[c.rules.blockId(b.header)].work == WorkOf(c.rules, side + [b])
    ensures res.Ok? ==> res.value.Reorganized?
    ensures Decided(tried.scene, c.rules.blockId(b.header), now, AsDepth(res), tried.fork, tried.failedAt)
    ensures Outcome(c.rules, old(c.Stand()), c.Stand(), b, now, res, tried.fork, tried.failedAt)
    ensures Landed(tried.scene, c.rules.blockId(b.header), now, res.Ok?, tried.fork, tried.failedAt, c.Now())
    ensures res.Err? && tried.failedAt.None? && res.error != Invalid(IncompleteHistory) ==> c.Now() == tried.scene
  {
    hide CoreOk, StoreOk, BodiesOk, QueueOk, ValidHistory, RulesOk, TreeOk, Indexed, Outcome, Steps, Verdict, SideFault,
         Extends, Decided, LetIn, WorkOf, SceneOk, Sound, Landed, KeptAside;
    SoundNow(c);
    LetInAside(c.Now(), side, b, fork, now);
    ghost var before, scene := c.Stand(), c.Now();
    LetInIndexed(scene, side, b, fork, now);
    res, tried := c.Submit(b, now);
    assert Runs.Next(c.rules, before, c.Stand(), now);
    RanMore(c, run, clock, now);
    BesideSound(scene, side, b, tried.scene);
  }

  lemma LetInIndexed(s: Scene, side: seq<Block>, b: Block, fork: nat, now: nat)
    requires LetIn(s, side, b, fork, now)
    ensures Indexed(s.rules, s.index, side)
  {
    hide ValidHistory, Indexed, ShapeOk, HeaderFault, Leaves, FairlyHard;
  }

  /** A valid chain that does not lead enters the index, block by block. */
  method GrowAside(c: Chain, side: seq<Block>, ghost fork: nat, from: nat, now: nat, ghost run0: seq<Standing>,
                   ghost clock0: seq<nat>)
    returns (ghost run: seq<Standing>, ghost clock: seq<nat>)
    requires Ran(c, run0, clock0) && c.rules.lastAnchor == 0 && ValidHistory(c.rules, side) && |side| < HEIGHT_LIMIT
    requires fork < from <= |side| && fork + 1 < |c.hist| && Leaves(c.hist, side, fork) && Restorable(side, fork, now)
    requires Indexed(c.rules, c.index, side[..from])
    requires forall i | from <= i < |side| :: c.rules.blockId(side[i].header) !in c.index
    requires forall i | from <= i < |side| :: FairlyHard(c.rules, side, fork, c.rules.work(side[i].header.bits))
    requires c.FinalityBinds() ==> |c.hist| <= from + MAX_REORG_DEPTH
    requires WorkOf(c.rules, side) <= WorkOf(c.rules, c.hist)
    modifies c
    ensures Ran(c, run, clock) && Continued(run0, clock0, run, clock, now, old(c.FinalityBinds())) && Undisturbed(c)
    ensures c.Now() == old(c.Now()).(index := c.index, memory := c.blocks) && Indexed(c.rules, c.index, side)
    ensures c.index.Keys == old(c.index).Keys + ToSet(Ids(c.rules, side))
  {
    hide CoreOk, StoreOk, BodiesOk, QueueOk, ValidHistory, RulesOk, TreeOk, Indexed, Outcome, Steps, Verdict,
         Restorable, Ids, ToSet, Continued, Sound, Leaves, LetIn, FairlyHard, WorkOf, KeptAside, SceneOk;
    run, clock := run0, clock0;
    ContinuedSelf(run, clock, now, c.FinalityBinds());
    BindsOn(c);
    ghost var known := c.index.Keys;
    IndexedIds(c.rules, c.index, side[..from]);
    for i := from to |side|
      invariant Ran(c, run, clock) && Continued(run0, clock0, run, clock, now, old(c.FinalityBinds())) && Undisturbed(c)
      invariant c.Now() == old(c.Now()).(index := c.index, memory := c.blocks) && Indexed(c.rules, c.index, side[..i])
      invariant c.index.Keys == known + ToSet(Ids(c.rules, side[..i]))
    {
      SoundNow(c);
      NextIsNew(c, side, i, known);
      NextLetIn(c.Now(), side, i, fork, now);
      assert side[..i] + [side[i]] == side[..i + 1];
      WorkPrefix(c.rules, side, i + 1);
      ghost var before := c.index;
      var _ := PutAside(c, side[..i], side[i], fork, now, run, clock);
      IndexedMore(c.rules, before, c.index, side, i);
      BindsOn(c);
      ContinuedMore(run0, clock0, run, clock, now, c.Stand());
      run, clock := run + [c.Stand()], clock + [now];
      IdsSnoc(c.rules, side, i);
    }
    assert side[..|side|] == side;
  }

  lemma IndexedIds(r: Rules, t: Tree, side: seq<Block>)
    requires Indexed(r, t, side)
    ensures t.Keys == t.Keys + ToSet(Ids(r, side))
  {
    hide Ids;
    forall id | id in Ids(r, side)
      ensures id in t
    {
      ActiveInIndex(r, t, side, id);
    }
  }

  lemma IndexedMore(r: Rules, t: Tree, t': Tree, side: seq<Block>, i: nat)
    requires i < |side| && Indexed(r, t, side[..i]) && t'.Keys == t.Keys + {r.blockId(side[i].header)}
    ensures Indexed(r, t', side[..i + 1])
  {
    forall j | 0 <= j < i
      ensures r.blockId(side[j].header) in t'
    {
      assert side[..i][j] == side[j];
    }
  }

  lemma {:induction false} WorkPrefix(r: Rules, side: seq<Block>, n: nat)
    requires 0 < n <= |side|
    ensures WorkOf(r, side[..n]) <= WorkOf(r, side)
    decreases |side|
  {
    hide AddWork;
    if n < |side| {
      WorkPrefix(r, Front(side), n);
      assert Front(side)[..n] == side[..n];
    } else {
      assert side[..n] == side;
    }
  }

  // ------------------------------------------------------------------
  // A clock set back
  // ------------------------------------------------------------------

  /** One block on genesis, two on a branch beside it; the second takes more
      than its subsidy. */
  lemma FirstBlocks(r: Rules, g: Block, a: Block, b: Block, spoiled: Block)
    requires r == Sample(true) && g == r.genesis && a == Mint(r, [g], 1_500, 0)
    requires b == Mint(r, [g], 50, 0) && spoiled == Mint(r, [g, b], 60, Emission.MAX_SUPPLY)
    ensures Plain(r) && RulesOk(r) && ValidHistory(r, [g, a]) && ValidHistory(r, [g, b])
    ensures a.header.time == 1_500 && b.header.time == 50 && spoiled.header.time == 60 && g.header.time == 0
    ensures spoiled.header.height == 2 && spoiled.header.prev == r.blockId(b.header)
    ensures HeaderFault(r, ContextAt(r, Headers([g, b])), spoiled.header).None? && ShapeOk(r, spoiled)
    ensures Verdict(r, [g, b], spoiled, 100) == Err(ExcessiveSubsidy)
    ensures Work3(r, g, a, b, spoiled)
  {
    hide Sample, Mint, Verdict, ValidHistory, ShapeOk, HeaderFault, ContextAt, Headers, Plain, RulesOk, WorkOf,
         ExpectedBits;
    SamplePlain(true);
    SampleWork(true);
    PlainRules(r);
    GenesisValid(r);
    GenesisFacts(g);
    MintFields(r, [g], 1_500, 0);
    MintFields(r, [g], 50, 0);
    MintVerdict(r, [g], 1_500, 0, 1_500);
    MintVerdict(r, [g], 50, 0, 50);
    assert [g] + [a] == [g, a] && [g] + [b] == [g, b] && Last([g, b]) == b;
    MintFields(r, [g, b], 60, Emission.MAX_SUPPLY);
    MintHeader(r, [g, b], 60, Emission.MAX_SUPPLY);
    MintShape(r, [g, b], 60, Emission.MAX_SUPPLY);
    MintVerdict(r, [g, b], 60, Emission.MAX_SUPPLY, 100);
    RegtestBits(r, [g]);
    RegtestBits(r, [g, b]);
    EasyWork(true, [g]);
    EasyWork(true, [g, a]);
    EasyWork(true, [g, b]);
    EasyWork(true, [g, b, spoiled]);
  }

  /** The work of each of the chains. */
  ghost predicate Work3(r: Rules, g: Block, a: Block, b: Block, spoiled: Block) {
    && WorkOf(r, [g]) == EASY_WORK && WorkOf(r, [g, a]) == WorkOf(r, [g, b]) == 2 * EASY_WORK
    && WorkOf(r, [g, b, spoiled]) == 3 * EASY_WORK
    && r.work(g.header.bits) == r.work(b.header.bits) == r.work(spoiled.header.bits) == EASY_WORK
  }

  lemma PlainRules(r: Rules)
    requires Plain(r)
    ensures RulesOk(r)
    ensures forall b :: r.size(b) <= MAX_BLOCK_SIZE
    ensures forall h :: r.powOk(h)
  {
  }

  lemma GenesisFacts(g: Block)
    requires g == SampleGenesis()
    ensures g.header.time == 0 && g.header.bits == INITIAL_BITS && g.header.height == 0
  {
  }

  lemma RegtestBits(r: Rules, hist: seq<Block>)
    requires r.regtest
    ensures ExpectedBits(r, Headers(hist)) == INITIAL_BITS
  {
  }

  /** A block accepted at one time is dated past the tolerance at an earlier
      one.  Then a branch with a bad block is refused, and the chain is cut at
      the fork all the same. */
  method ClockSetBack()
    returns (c: Chain, res: Result<Accept, ChainError>, ghost run: seq<Standing>, ghost clock: seq<nat>)
    ensures Ran(c, run, clock) && |run| == 4 && clock == [1_000, 100, 100]
    ensures run[2].binds && |run[2].hist| == 2
    ensures res == Err(Invalid(ExcessiveSubsidy)) && c.hist == run[2].hist[..1]
  {
    hide CoreOk, StoreOk, BodiesOk, QueueOk, ValidHistory, RulesOk, TreeOk, Indexed, Outcome, Steps, Verdict, Sound,
         SceneOk, Sample, Mint, Plain, ShapeOk, WorkOf, Shelf, Decided, Landed, Ids, LetIn, KeptAside;
    var r := Sample(true);
    var g := r.genesis;
    var a, b := Mint(r, [g], 1_500, 0), Mint(r, [g], 50, 0);
    var spoiled := Mint(r, [g, b], 60, Emission.MAX_SUPPLY);
    c := OneBlock(r, g, a, b, spoiled);
    ghost var start := Standing([g], true);
    run, clock := [start, c.Stand()], [1_000];
    SoundNow(c);
    LetInFirst(c.Now(), g, a, b, spoiled);
    var _ := PutAside(c, [g], b, 0, 100, run, clock);
    run, clock := run + [c.Stand()], clock + [100];
    SoundNow(c);
    LetInSecond(c.Now(), g, a, b, spoiled);
    ghost var tried;
    res, tried := Lead(c, [g, b], spoiled, 0, 100, run, clock);
    SecondFails(tried.scene, g, a, b, spoiled, AsDepth(res), tried.fork, tried.failedAt);
    CutAtFork(c.rules, Last(run), c.Stand(), spoiled, 100, res, tried.fork, tried.failedAt);
    run, clock := run + [c.Stand()], clock + [100];
  }

  /** The chain before the branch: one block on genesis. */
  method OneBlock(r: Rules, g: Block, a: Block, b: Block, spoiled: Block) returns (c: Chain)
    requires r == Sample(true) && g == r.genesis && a == Mint(r, [g], 1_500, 0)
    requires b == Mint(r, [g], 50, 0) && spoiled == Mint(r, [g, b], 60, Emission.MAX_SUPPLY)
    ensures Ran(c, [Standing([g], true), c.Stand()], [1_000]) && fresh(c)
    ensures ThreeBlocks(c.Now(), g, a, b, spoiled) && c.source == Shelf(r, [g, a, b, spoiled])
    ensures c.index.Keys == {r.blockId(g.header), r.blockId(a.header)}
  {
    hide CoreOk, StoreOk, BodiesOk, QueueOk, ValidHistory, RulesOk, TreeOk, Indexed, Outcome, Steps, Verdict, Sample,
         Mint, Plain, ShapeOk, HeaderFault, ContextAt, Headers, WorkOf, Shelf, Ids;
    FirstBlocks(r, g, a, b, spoiled);
    SampleWork(true);
    c := new Chain(r);
    var disk := Shelf(r, [g, a, b, spoiled]);
    ThreeOnDisk(r, g, a, b, spoiled);
    c.SetBodySource(disk);
    c.ActiveLength();
    RanOne(c);
    ThreeNew(r, g, a, b, spoiled);
    FirstVerdict(r, g, a, 1_000);
    ghost var run: seq<Standing>, clock: seq<nat> := [c.Stand()], [];
    ExtendBy(c, a, 1_000, run, clock);
    c.ActiveLength();
    assert c.hist == [g, a];
    assert run + [c.Stand()] == [Standing([g], true), c.Stand()] && clock + [1_000] == [1_000];
  }

  lemma ThreeOnDisk(r: Rules, g: Block, a: Block, b: Block, spoiled: Block)
    requires RulesOk(r) && ValidHistory(r, [g, a]) && ValidHistory(r, [g, b]) && ShapeOk(r, spoiled)
    ensures BodiesOk(r, Shelf(r, [g, a, b, spoiled]))
    ensures forall x | x in [g, a, b, spoiled] :: r.blockId(x.header) in Shelf(r, [g, a, b, spoiled]) && ShapeOk(r, x)
  {
    hide RulesOk, ValidHistory, ShapeOk, Shelf;
    ValidShapes(r, [g, a]);
    ValidShapes(r, [g, b]);
    assert [g, a][1] == a && [g, b][1] == b && [g, a][0] == g;
    var all := [g, a, b, spoiled];
    forall i | 0 <= i < |all|
      ensures ShapeOk(r, all[i])
    {
    }
    ShelfOk(r, all);
  }

  lemma ThreeNew(r: Rules, g: Block, a: Block, b: Block, spoiled: Block)
    requires RulesOk(r) && a.header.time == 1_500 && b.header.time == 50 && spoiled.header.time == 60
    requires g.header.time == 0
    ensures r.blockId(a.header) != r.blockId(g.header)
    ensures r.blockId(b.header) !in {r.blockId(g.header), r.blockId(a.header)}
    ensures r.blockId(spoiled.header) !in {r.blockId(g.header), r.blockId(a.header), r.blockId(b.header)}
  {
    hide TxidOk, RootsOk, GenesisOk;
    assert r.preimage.header(r.blockId(a.header)) == a.header;
    assert r.preimage.header(r.blockId(b.header)) == b.header;
    assert r.preimage.header(r.blockId(g.header)) == g.header;
    assert r.preimage.header(r.blockId(spoiled.header)) == spoiled.header;
  }

  lemma FirstVerdict(r: Rules, g: Block, a: Block, now: nat)
    requires RulesOk(r) && ValidHistory(r, [g, a]) && a.header.time <= now + MAX_FUTURE_TIME
    ensures Verdict(r, [g], a, now).Ok? && a.header.height == 1 && a.header.prev == r.blockId(g.header)
  {
    hide RulesOk, ValidHistory, Verdict;
    assert [g, a][..1] == [g];
    NextAccepted(r, [g, a], 1, now);
  }

  ghost predicate ThreeBlocks(s: Scene, g: Block, a: Block, b: Block, spoiled: Block) {
    && s.rules == Sample(true) && g == s.rules.genesis && a == Mint(s.rules, [g], 1_500, 0)
    && b == Mint(s.rules, [g], 50, 0) && spoiled == Mint(s.rules, [g, b], 60, Emission.MAX_SUPPLY)
    && s.hist == [g, a] && s.undos == 2 && s.binds
  }

  lemma LetInFirst(s: Scene, g: Block, a: Block, b: Block, spoiled: Block)
    requires Sound(s) && SceneOk(s) && ThreeBlocks(s, g, a, b, spoiled)
    requires s.index.Keys == {s.rules.blockId(g.header), s.rules.blockId(a.header)}
    ensures LetIn(s, [g], b, 0, 100)
    ensures WorkOf(s.rules, [g] + [b]) <= WorkOf(s.rules, s.hist)
  {
    hide RulesOk, ValidHistory, ShapeOk, HeaderFault, ContextAt, Headers, WorkOf, Mint, Sample, Plain, Verdict, TreeOk,
         BodiesOk, Ids, SceneOk;
    var r := s.rules;
    FirstBlocks(r, g, a, b, spoiled);
    PlainRules(r);
    ThreeNew(r, g, a, b, spoiled);
    GenesisValid(r);
    assert [g] + [b] == [g, b];
    FirstVerdict(r, g, b, 100);
    MintHeader(r, [g], 50, 0);
    MintShape(r, [g], 50, 0);
  }

  lemma LetInSecond(s: Scene, g: Block, a: Block, b: Block, spoiled: Block)
    requires Sound(s) && SceneOk(s) && ThreeBlocks(s, g, a, b, spoiled)
    requires s.index.Keys == {s.rules.blockId(g.header), s.rules.blockId(a.header), s.rules.blockId(b.header)}
    ensures LetIn(s, [g, b], spoiled, 0, 100)
    ensures WorkOf(s.rules, [g, b] + [spoiled]) > WorkOf(s.rules, s.hist)
  {
    hide RulesOk, ValidHistory, ShapeOk, HeaderFault, ContextAt, Headers, WorkOf, Mint, Sample, Plain, Verdict, TreeOk,
         BodiesOk, Ids, SceneOk;
    var r := s.rules;
    FirstBlocks(r, g, a, b, spoiled);
    PlainRules(r);
    ThreeNew(r, g, a, b, spoiled);
    assert [g, b] + [spoiled] == [g, b, spoiled];
    assert [g, b][..1] == [g, a][..1] == [g];
  }

  lemma SecondFails(s: Scene, g: Block, a: Block, b: Block, spoiled: Block, res: Result<nat, ChainError>, fork: nat,
                    failedAt: Option<nat>)
    requires Sound(s) && SceneOk(s) && ThreeBlocks(s, g, a, b, spoiled) && s.disk == Shelf(s.rules, [g, a, b, spoiled])
    requires Indexed(s.rules, s.index, [g, b] + [spoiled]) && s.rules.blockId(spoiled.header) in s.index
    requires s.index[s.rules.blockId(spoiled.header)].work == WorkOf(s.rules, [g, b] + [spoiled])
    requires Decided(s, s.rules.blockId(spoiled.header), 100, res, fork, failedAt)
    ensures fork == 0 && failedAt == Some(1) && res == Err(Invalid(ExcessiveSubsidy)) && !ClockAllows(s.hist[1], 100)
  {
    hide RulesOk, ValidHistory, ShapeOk, HeaderFault, ContextAt, Headers, WorkOf, Mint, Sample, Plain, Verdict, TreeOk,
         BodiesOk, Ids, SceneOk, Decided, Shelf, FailsAt, Required, Indexed;
    var r := s.rules;
    FirstBlocks(r, g, a, b, spoiled);
    ThreeOnDisk(r, g, a, b, spoiled);
    var all := [g, b] + [spoiled];
    assert all == [g, b, spoiled] && all[..1] == [g] == s.hist[..1];
    ValidChained(r, [g, b]);
    SceneTerms(s, 0);
    assert s.hist[..0 + 1] == [g];
    SpoiledFails(s, [g, b], spoiled, 0, 100, ExcessiveSubsidy);
    MustFail(s, r.blockId(spoiled.header), 100, res, fork, failedAt, 0, IdsAbove(r, all, 0), 1, ExcessiveSubsidy);
  }

  lemma CutAtFork(r: Rules, before: Standing, after: Standing, b: Block, now: nat, res: Result<Accept, ChainError>,
                  fork: nat, failedAt: Option<nat>)
    requires Outcome(r, before, after, b, now, res, fork, failedAt) && res.Err?
    requires failedAt.Some? && failedAt.value <= BODY_WINDOW && fork + 1 < |before.hist|
    requires !ClockAllows(before.hist[fork + 1], now)
    ensures after.hist == before.hist[..fork + 1]
  {
    hide WorkOf, Threshold, ClockAllows;
  }
}
