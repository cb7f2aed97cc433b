/** What fork choice decides, said without walking or undoing anything
    (src/chain.rs, `try_reorg`). */
module Reorg {
  import opened Prelude
  import opened Ledger
  import opened Validation
  import opened History
  import opened Index
  import opened ChainState
  import opened ForkChoice

  /** Why a block was not taken (`ChainError`). */
  datatype ChainError =
    | Invalid(error: ValidationError)
    | UnknownParent
    | ForkPointNotFound
    | BeyondFinality(depth: nat)
    | InsufficientWorkForDepth(depth: nat)
    | UndoWindowTooShort(depth: nat, available: nat)
    | SideBranchTooEasy

  /** What fork choice looks at. */
  datatype Scene = Scene(rules: Rules, hist: seq<Block>, index: Tree, active: seq<Id>,
                         undos: nat, binds: bool, disk: map<Id, Block>, memory: map<Id, Block>)

  /** Whatever memory or disk can give. */
  function Held(s: Scene): map<Id, Block> { s.disk + s.memory }

  /** The active ids are those of the blocks, each indexed at its height. */
  ghost predicate SceneOk(s: Scene) {
    && |s.active| == |s.hist| > 0
    && (forall h | 0 <= h < |s.active| :: s.active[h] in s.index && s.index[s.active[h]].header.height == h)
  }

  /** How many blocks back the fork is looked for. */
  function Reach(binds: bool): nat {
    if binds then MAX_REORG_DEPTH + 2 else BODY_WINDOW + 2
  }

  /** `branch` leads from the active block at height `fork` to `tip`, off the
      active chain and within reach. */
  ghost predicate PathOk(s: Scene, tip: Id, fork: nat, branch: seq<Id>) {
    && fork < |s.active| && 0 < |branch| <= Reach(s.binds)
    && IsBranch(s.index, s.active[fork], branch) && tip == Last(branch)
    && (forall i | 0 <= i < |branch| :: !OnActive(s.index, s.active, branch[i]))
  }

  function DepthAt(s: Scene, fork: nat): nat
    requires fork < |s.active|
  {
    |s.active| - 1 - fork
  }

  /** The work a branch that leaves at `fork` must exceed. */
  ghost function Required(s: Scene, fork: nat): nat
    requires SceneOk(s) && fork < |s.active|
  {
    var total := s.index[Last(s.active)].work;
    if s.binds then Threshold(total, s.index[s.active[fork]].work, DepthAt(s, fork)) else total
  }

  /** What stands against the branch to `tip`, apart from its blocks. */
  ghost function TermsFault(s: Scene, tip: Id, fork: nat): Option<ChainError>
    requires SceneOk(s) && fork < |s.active| && tip in s.index
  {
    var depth := DepthAt(s, fork);
    if s.binds && depth > MAX_REORG_DEPTH then Some(BeyondFinality(depth))
    else if s.index[tip].work <= Required(s, fork) then Some(InsufficientWorkForDepth(depth))
    else if s.undos < depth then Some(UndoWindowTooShort(depth, s.undos))
    else None
  }

  /** A path whose terms are met. */
  ghost predicate TermsOk(s: Scene, tip: Id, fork: nat, branch: seq<Id>)
    requires SceneOk(s)
  {
    PathOk(s, tip, fork, branch) && tip in s.index && TermsFault(s, tip, fork).None?
  }

  ghost predicate Found(s: Scene, ids: seq<Id>) {
    forall i | 0 <= i < |ids| :: ids[i] in Held(s)
  }

  ghost function Fetched(s: Scene, ids: seq<Id>): (bodies: seq<Block>)
    requires Found(s, ids)
    ensures |bodies| == |ids|
  {
    seq(|ids|, i requires 0 <= i < |ids| => Held(s)[ids[i]])
  }

  /** The first `n` of these blocks connect one after the other on `base`. */
  ghost predicate AllAccepted(r: Rules, base: seq<Block>, bodies: seq<Block>, n: nat, now: nat)
    requires |base| > 0 && n <= |bodies|
  {
    forall i | 0 <= i < n :: Accepted(r, base + bodies[..i], bodies[i], now)
  }

  /** Every body of the branch and of what it replaces is at hand. */
  ghost predicate AtHand(s: Scene, fork: nat, branch: seq<Id>)
    requires fork < |s.active|
  {
    Found(s, branch) && Found(s, s.active[fork + 1..])
  }

  /** The branch takes over: its terms are met, every body is at hand, and
      every block connects. */
  ghost predicate Takes(s: Scene, tip: Id, now: nat, fork: nat, branch: seq<Id>)
    requires SceneOk(s)
  {
    && TermsOk(s, tip, fork, branch) && AtHand(s, fork, branch)
    && AllAccepted(s.rules, s.hist[..fork + 1], Fetched(s, branch), |branch|, now)
  }

  /** Block `n` of the branch is the first that does not connect, for the
      reason `e`. */
  ghost predicate FailsAt(s: Scene, tip: Id, now: nat, fork: nat, branch: seq<Id>, n: nat, e: ValidationError)
    requires SceneOk(s)
  {
    && TermsOk(s, tip, fork, branch) && AtHand(s, fork, branch) && n < |branch|
    && var bodies := Fetched(s, branch);
    && AllAccepted(s.rules, s.hist[..fork + 1], bodies, n, now)
    && Verdict(s.rules, s.hist[..fork + 1] + bodies[..n], bodies[n], now) == Err(e)
  }

  /** Refused before anything is undone. */
  ghost predicate Refused(s: Scene, tip: Id, e: ChainError)
    requires SceneOk(s) && tip in s.index
  {
    || (e == ForkPointNotFound && forall fork, branch :: !PathOk(s, tip, fork, branch))
    || (exists fork, branch :: PathOk(s, tip, fork, branch) && TermsFault(s, tip, fork) == Some(e))
    || (&& e == Invalid(IncompleteHistory)
        && exists fork, branch :: TermsOk(s, tip, fork, branch) && !AtHand(s, fork, branch))
  }

  /** What a reorganization answers. */
  ghost predicate Decided(s: Scene, tip: Id, now: nat, res: Result<nat, ChainError>, fork: nat, failedAt: Option<nat>)
    requires SceneOk(s) && tip in s.index
  {
    match res
    case Ok(depth) =>
      failedAt.None? && exists branch :: Takes(s, tip, now, fork, branch) && depth == DepthAt(s, fork)
    case Err(e) =>
      match failedAt
      case None => Refused(s, tip, e)
      case Some(n) => e.Invalid? && exists branch :: FailsAt(s, tip, now, fork, branch, n, e.error)
  }

  // ------------------------------------------------------------------
  // What a side block meets before it is indexed
  // ------------------------------------------------------------------

  const SIDE_BRANCH_EASE_LIMIT: nat := 16

  /** What stands against a header at its place, body and work aside. */
  ghost function ContextFault(s: Scene, header: Header, now: nat): Option<ChainError>
    requires TreeOk(s.rules, s.index) && header.prev in s.index
  {
    if s.binds && |s.active| > header.height + MAX_REORG_DEPTH then
      Some(BeyondFinality(SatSub(|s.active|, header.height)))
    else
      match HeaderFault(s.rules, ContextAt(s.rules, Ancestry(s.rules, s.index, header.prev)), header)
      case Some(e) => Some(Invalid(e))
      case None => if header.time > now + MAX_FUTURE_TIME then Some(Invalid(TimestampInFuture)) else None
  }

  /** The nearest active ancestor is `k` blocks back. */
  ghost predicate LeavesActiveAt(s: Scene, id: Id, k: nat)
    requires TreeOk(s.rules, s.index) && id in s.index
  {
    && OnActive(s.index, s.active, Ancestor(s.rules, s.index, id, k))
    && (forall j: nat | j < k :: !OnActive(s.index, s.active, Ancestor(s.rules, s.index, id, j)))
  }

  /** Sixteen such blocks count less than the last block both sides share. */
  ghost predicate TooEasy(s: Scene, parent: Id, work: nat)
    requires TreeOk(s.rules, s.index) && parent in s.index
  {
    && work * SIDE_BRANCH_EASE_LIMIT < U256_LIMIT
    && exists k: nat | k <= BODY_WINDOW + 1 && LeavesActiveAt(s, parent, k) ::
         work * SIDE_BRANCH_EASE_LIMIT < s.rules.work(s.index[Ancestor(s.rules, s.index, parent, k)].header.bits)
  }

  /** The work of the branch through this block. */
  function SideWork(s: Scene, block: Block): nat
    requires block.header.prev in s.index
  {
    AddWork(s.index[block.header.prev].work, s.rules.work(block.header.bits))
  }

  /** What stands against a side block, in the order it is looked at. */
  ghost function SideFault(s: Scene, block: Block, now: nat): Option<ChainError>
    requires SceneOk(s) && TreeOk(s.rules, s.index) && block.header.prev in s.index
  {
    if ContextFault(s, block.header, now).Some? then ContextFault(s, block.header, now)
    else if SideWork(s, block) <= s.index[Last(s.active)].work
            && TooEasy(s, block.header.prev, s.rules.work(block.header.bits)) then
      Some(SideBranchTooEasy)
    else if !ShapeOk(s.rules, block) then Some(Invalid(Structure))
    else if s.rules.size(block) > MAX_BLOCK_SIZE then Some(Invalid(BlockTooLarge))
    else if !s.rules.powOk(block.header) then Some(Invalid(ProofOfWork))
    else None
  }

  // ------------------------------------------------------------------
  // The answer is determined
  // ------------------------------------------------------------------

  /** Counted back from a common tip, two paths agree. */
  lemma {:induction false} Aligned(s: Scene, tip: Id, fork: nat, branch: seq<Id>, fork': nat, branch': seq<Id>, j: nat)
    requires PathOk(s, tip, fork, branch) && PathOk(s, tip, fork', branch') && j < |branch| && j < |branch'|
    ensures branch[|branch| - 1 - j] == branch'[|branch'| - 1 - j]
  {
    hide IsBranch, OnActive;
    if j > 0 {
      Aligned(s, tip, fork, branch, fork', branch', j - 1);
      PathStep(s, tip, fork, branch, |branch| - j);
      PathStep(s, tip, fork', branch', |branch'| - j);
    }
  }

  lemma PathStep(s: Scene, tip: Id, fork: nat, branch: seq<Id>, i: nat)
    requires PathOk(s, tip, fork, branch) && i < |branch|
    ensures branch[i] in s.index
    ensures s.index[branch[i]].header.prev == if i == 0 then s.active[fork] else branch[i - 1]
  {
    hide OnActive;
  }

  lemma NotLonger(s: Scene, tip: Id, fork: nat, branch: seq<Id>, fork': nat, branch': seq<Id>)
    requires SceneOk(s) && PathOk(s, tip, fork, branch) && PathOk(s, tip, fork', branch')
    ensures |branch'| <= |branch|
  {
    hide IsBranch;
    assert OnActive(s.index, s.active, s.active[fork]);
    if |branch| < |branch'| {
      assert !OnActive(s.index, s.active, branch'[|branch'| - |branch| - 1]);
      PathStep(s, tip, fork, branch, 0);
      PathStep(s, tip, fork', branch', |branch'| - |branch|);
      Aligned(s, tip, fork, branch, fork', branch', |branch| - 1);
    }
  }

  /** A tip has one path to the active chain. */
  lemma OnePath(s: Scene, tip: Id, fork: nat, branch: seq<Id>, fork': nat, branch': seq<Id>)
    requires SceneOk(s) && PathOk(s, tip, fork, branch) && PathOk(s, tip, fork', branch')
    ensures fork == fork' && branch == branch'
  {
    hide PathOk;
    NotLonger(s, tip, fork, branch, fork', branch');
    NotLonger(s, tip, fork', branch', fork, branch);
    forall i | 0 <= i < |branch|
      ensures branch[i] == branch'[i]
    {
      Aligned(s, tip, fork, branch, fork', branch', |branch| - 1 - i);
    }
    PathLength(s, tip, fork, branch);
    PathLength(s, tip, fork', branch');
    PathStep(s, tip, fork, branch, 0);
    PathStep(s, tip, fork', branch', 0);
  }

  lemma PathLength(s: Scene, tip: Id, fork: nat, branch: seq<Id>)
    requires PathOk(s, tip, fork, branch)
    ensures |branch| > 0 && fork < |s.active|
  {
  }

  lemma BeforeFailure(s: Scene, tip: Id, now: nat, fork: nat, branch: seq<Id>, n: nat, e: ValidationError, i: nat)
    requires SceneOk(s) && FailsAt(s, tip, now, fork, branch, n, e) && i < n
    ensures var bodies := Fetched(s, branch); Verdict(s.rules, s.hist[..fork + 1] + bodies[..i], bodies[i], now).Ok?
  {
    hide IsBranch, OnActive, TermsFault, Verdict, Fetched;
    var bodies := Fetched(s, branch);
    assert Accepted(s.rules, s.hist[..fork + 1] + bodies[..i], bodies[i], now);
  }

  lemma FirstFailure(s: Scene, tip: Id, now: nat, fork: nat, branch: seq<Id>, n: nat, e: ValidationError, n': nat,
                     e': ValidationError)
    requires SceneOk(s) && FailsAt(s, tip, now, fork, branch, n, e) && FailsAt(s, tip, now, fork, branch, n', e')
    ensures n == n' && e == e'
  {
    hide IsBranch, OnActive, TermsFault, Verdict, Fetched, AllAccepted;
    if n < n' {
      BeforeFailure(s, tip, now, fork, branch, n', e', n);
    } else if n' < n {
      BeforeFailure(s, tip, now, fork, branch, n, e, n');
    }
  }

  lemma TakesAll(s: Scene, tip: Id, now: nat, fork: nat, branch: seq<Id>, i: nat)
    requires SceneOk(s) && Takes(s, tip, now, fork, branch) && i < |branch|
    ensures var bodies := Fetched(s, branch); Verdict(s.rules, s.hist[..fork + 1] + bodies[..i], bodies[i], now).Ok?
  {
    hide IsBranch, OnActive, TermsFault, Verdict, Fetched;
    var bodies := Fetched(s, branch);
    assert Accepted(s.rules, s.hist[..fork + 1] + bodies[..i], bodies[i], now);
  }

  lemma TakesOrFails(s: Scene, tip: Id, now: nat, fork: nat, branch: seq<Id>, n: nat, e: ValidationError)
    requires SceneOk(s) && FailsAt(s, tip, now, fork, branch, n, e)
    ensures !Takes(s, tip, now, fork, branch)
  {
    hide IsBranch, OnActive, TermsFault, Verdict, Fetched, AllAccepted;
    if Takes(s, tip, now, fork, branch) { TakesAll(s, tip, now, fork, branch, n); }
  }

  /** Where the path leads, if there is one. */
  lemma RefusedOnPath(s: Scene, tip: Id, e: ChainError, fork: nat, branch: seq<Id>)
    requires SceneOk(s) && tip in s.index && PathOk(s, tip, fork, branch) && Refused(s, tip, e)
    ensures TermsFault(s, tip, fork).Some? ==> TermsFault(s, tip, fork) == Some(e)
    ensures TermsFault(s, tip, fork).None? ==> e == Invalid(IncompleteHistory) && !AtHand(s, fork, branch)
  {
    hide IsBranch, OnActive, TermsFault, AtHand;
    if f, b :| PathOk(s, tip, f, b) && TermsFault(s, tip, f) == Some(e) {
      OnePath(s, tip, fork, branch, f, b);
    } else {
      var f, b :| TermsOk(s, tip, f, b) && !AtHand(s, f, b);
      OnePath(s, tip, fork, branch, f, b);
    }
  }

  /** The answer to a branch that takes over. */
  lemma MustTake(s: Scene, tip: Id, now: nat, res: Result<nat, ChainError>, at: nat, failedAt: Option<nat>, fork: nat,
                 branch: seq<Id>)
    requires SceneOk(s) && tip in s.index && Decided(s, tip, now, res, at, failedAt) && Takes(s, tip, now, fork, branch)
    ensures at == fork && failedAt == None && res == Ok(DepthAt(s, fork))
  {
    hide IsBranch, OnActive, TermsFault, Verdict, AllAccepted, Found, Fetched, Refused;
    match res {
      case Ok(depth) =>
        var b :| Takes(s, tip, now, at, b) && depth == DepthAt(s, at);
        OnePath(s, tip, fork, branch, at, b);
      case Err(e) =>
        match failedAt {
          case None =>
            RefusedOnPath(s, tip, e, fork, branch);
          case Some(n) =>
            var b :| FailsAt(s, tip, now, at, b, n, e.error);
            OnePath(s, tip, fork, branch, at, b);
            TakesOrFails(s, tip, now, fork, branch, n, e.error);
        }
    }
  }

  /** The answer to a branch with a block that does not connect. */
  lemma MustFail(s: Scene, tip: Id, now: nat, res: Result<nat, ChainError>, at: nat, failedAt: Option<nat>,
                 fork: nat, branch: seq<Id>, n: nat, e: ValidationError)
    requires SceneOk(s) && tip in s.index && Decided(s, tip, now, res, at, failedAt)
    requires FailsAt(s, tip, now, fork, branch, n, e)
    ensures at == fork && failedAt == Some(n) && res == Err(Invalid(e))
  {
    hide IsBranch, OnActive, TermsFault, Verdict, AllAccepted, Found, Fetched, Refused;
    match res {
      case Ok(depth) =>
        var b :| Takes(s, tip, now, at, b) && depth == DepthAt(s, at);
        OnePath(s, tip, fork, branch, at, b);
        TakesOrFails(s, tip, now, fork, branch, n, e);
      case Err(e') =>
        match failedAt {
          case None =>
            RefusedOnPath(s, tip, e', fork, branch);
          case Some(n') =>
            var b :| FailsAt(s, tip, now, at, b, n', e'.error);
            OnePath(s, tip, fork, branch, at, b);
            FirstFailure(s, tip, now, fork, branch, n, e, n', e'.error);
        }
    }
  }

  /** The answer to a branch whose terms are not met. */
  lemma MustRefuse(s: Scene, tip: Id, now: nat, res: Result<nat, ChainError>, at: nat, failedAt: Option<nat>,
                   fork: nat, branch: seq<Id>)
    requires SceneOk(s) && tip in s.index && Decided(s, tip, now, res, at, failedAt) && PathOk(s, tip, fork, branch)
    requires TermsFault(s, tip, fork).Some?
    ensures failedAt == None && res == Err(TermsFault(s, tip, fork).value)
  {
    hide IsBranch, OnActive, TermsFault, Verdict, AllAccepted, Found, Fetched, Refused;
    match res {
      case Ok(depth) =>
        var b :| Takes(s, tip, now, at, b) && depth == DepthAt(s, at);
        OnePath(s, tip, fork, branch, at, b);
      case Err(e') =>
        match failedAt {
          case None =>
            RefusedOnPath(s, tip, e', fork, branch);
          case Some(n') =>
            var b :| FailsAt(s, tip, now, at, b, n', e'.error);
            OnePath(s, tip, fork, branch, at, b);
        }
    }
  }

  /** One scene, one answer. */
  lemma OneAnswer(s: Scene, tip: Id, now: nat, res: Result<nat, ChainError>, at: nat, failedAt: Option<nat>,
                  res': Result<nat, ChainError>, at': nat, failedAt': Option<nat>)
    requires SceneOk(s) && tip in s.index
    requires Decided(s, tip, now, res, at, failedAt) && Decided(s, tip, now, res', at', failedAt')
    ensures res == res' && failedAt == failedAt'
  {
    hide IsBranch, OnActive, TermsFault, Verdict, AllAccepted, AtHand, Takes, FailsAt;
    if res.Ok? {
      var b :| Takes(s, tip, now, at, b);
      MustTake(s, tip, now, res', at', failedAt', at, b);
    } else if failedAt.Some? {
      var b :| FailsAt(s, tip, now, at, b, failedAt.value, res.error.error);
      MustFail(s, tip, now, res', at', failedAt', at, b, failedAt.value, res.error.error);
    } else if res'.Ok? {
      var b :| Takes(s, tip, now, at', b);
      MustTake(s, tip, now, res, at, failedAt, at', b);
    } else if failedAt'.Some? {
      var b :| FailsAt(s, tip, now, at', b, failedAt'.value, res'.error.error);
      MustFail(s, tip, now, res, at, failedAt, at', b, failedAt'.value, res'.error.error);
    } else {
      if f, b :| PathOk(s, tip, f, b) {
        RefusedOnPath(s, tip, res.error, f, b);
        RefusedOnPath(s, tip, res'.error, f, b);
      }
    }
  }
}
