/** The chain engine (src/chain.rs, `Chain`). */
module Chain {
  import opened Prelude
  import opened Sums
  import opened Ledger
  import opened Validation
  import opened History
  import opened Index
  import opened ChainState
  import opened Bodies
  import opened ForkChoice
  import opened Reorg

  /** The answers to a block that is not refused (`Accept`). */
  datatype Accept = Extended | SideBranch | Reorganized(depth: nat) | AlreadyKnown

  /** A chain as the outside sees it: its blocks, and whether finality binds. */
  datatype Standing = Standing(hist: seq<Block>, binds: bool)

  /** What a submission set off: what fork choice looked at, where the branch
      left the chain, and how many of its blocks connected before one failed. */
  datatype Attempt = Attempt(scene: Scene, fork: nat, failedAt: Option<nat>)

  /** A reorganization ready to be carried out. */
  datatype Plan = Plan(fork: nat, branch: seq<Id>, bodies: seq<Block>, oldBodies: seq<Block>)

  /** The default hold, in seconds. */
  const FINALITY_HOLD_SECS: nat := 3_600
  const RETURNED_BLOCKS: nat := 12

  class Chain {
    const rules: Rules
    var index: Tree
    var blocks: map<Id, Block>
    var bodyOrder: seq<Id>
    var bodyBytes: nat
    var sideBodies: seq<(Id, nat)>
    var sideBytes: nat
    /** What the disk can give back. */
    var source: map<Id, Block>
    var active: seq<Id>
    var utxo: Utxo
    var undos: seq<Undo>
    var issued: nat
    /** Blocks abandoned last, for their transactions. */
    var disconnected: seq<Block>
    /** Blocks whose bodies were missed, and go to disk next time. */
    var wanted: set<Id>
    /** The hold before finality binds, if there is one. */
    var finalityHold: Option<nat>
    var returning: bool
    var bound: bool
    /** The blocks of the active chain, genesis first: bodies may leave memory,
        the chain still stands for them. */
    ghost var hist: seq<Block>

    ghost predicate CoreValid()
      reads this
    {
      CoreOk(rules, index, hist, active, State(utxo, issued), undos)
    }

    ghost predicate StoreValid()
      reads this
    {
      StoreOk(rules, GenesisId(rules), blocks, bodyOrder, bodyBytes, sideBodies, sideBytes)
    }

    ghost predicate Valid()
      reads this
    {
      CoreValid() && StoreValid() && BodiesOk(rules, source) && QueueOk(index.Keys, bodyOrder, sideBodies)
    }

    /** A chain of the genesis block alone. */
    constructor (r: Rules)
      requires RulesOk(r)
      ensures Valid() && rules == r && hist == [r.genesis] && |undos| == 1 && index.Keys == {GenesisId(r)}
      ensures bound == returning == false && finalityHold == if r.regtest then None else Some(FINALITY_HOLD_SECS)
    {
      hide RulesOk, StoreOk, ApplyTxs, RecordTxs, TxsOutput, CoreOk;
      rules := r;
      var id := r.blockId(r.genesis.header);
      var supply := TxsOutput(r.genesis.txs);
      index := map[id := Node(r.genesis.header, r.work(r.genesis.header.bits), supply)];
      blocks, bodyOrder, bodyBytes := map[id := r.genesis], [id], r.size(r.genesis);
      sideBodies, sideBytes, source := [], 0, map[];
      active := [id];
      utxo, issued := ApplyTxs(r, map[], r.genesis.txs, 0), supply;
      undos := [RecordTxs(r, map[], r.genesis.txs, 0, NOTHING_UNDONE)];
      disconnected, wanted := [], {};
      finalityHold := if r.regtest then None else Some(FINALITY_HOLD_SECS);
      returning, bound := false, false;
      hist := [r.genesis];
      new;
      GenesisCore(r);
      GenesisStore(r);
    }

    /** A chain that starts from a snapshot: the state is loaded as it is, no
        block can be undone yet and no body is in memory.  It is valid if the
        state is that of some blocks `hist`. */
    constructor AtSnapshot(r: Rules, index: Tree, active: seq<Id>, state: State, ghost hist: seq<Block>)
      ensures rules == r && this.hist == hist && undos == []
      ensures this.index == index && this.active == active && utxo == state.utxo && issued == state.issued
      ensures CoreOk(r, index, hist, active, state, []) ==> Valid()
    {
      hide CoreOk, MapSum, BodiesOk;
      rules := r;
      this.index, this.active, this.hist := index, active, hist;
      blocks, bodyOrder, bodyBytes := map[], [], 0;
      sideBodies, sideBytes, source := [], 0, map[];
      utxo, issued, undos := state.utxo, state.issued, [];
      disconnected, wanted := [], {};
      finalityHold := if r.regtest then None else Some(FINALITY_HOLD_SECS);
      returning, bound := false, false;
      new;
      MapSumEmpty<Id, Block>(r.size);
      NoBodies(r);
    }

    // ----------------------------------------------------------------
    // Bodies in memory
    // ----------------------------------------------------------------

    /** Bodies leave from the front of the queue, and no further than both
        bounds ask for; genesis goes round instead. */
    method PruneBodies(window: nat, budget: nat) returns (ghost dropped: nat)
      requires |active| > 0 && active[0] == GenesisId(rules) && StoreValid()
      modifies this`blocks, this`bodyOrder, this`bodyBytes
      ensures StoreValid()
      ensures |bodyOrder| <= 1 || (|bodyOrder| <= window && bodyBytes <= budget)
      ensures var queue := Without(old(bodyOrder), {GenesisId(rules)});
              && PrunedTo(rules, old(blocks), |old(bodyOrder)|, queue, dropped, window, budget)
              && blocks == old(blocks) - ToSet(queue[..dropped])
              && Without(bodyOrder, {GenesisId(rules)}) == queue[dropped..]
      ensures forall id | id in bodyOrder :: id in old(bodyOrder)
    {
      hide StoreOk, Without, MapSum;
      var genesis := active[0];
      dropped := 0;
      ghost var queue := Without(bodyOrder, {genesis});
      while |bodyOrder| > 1 && (|bodyOrder| > window || bodyBytes > budget)
        invariant StoreValid()
        invariant PrunedTo(rules, old(blocks), |old(bodyOrder)|, queue, dropped, window, budget)
        invariant blocks == old(blocks) - ToSet(queue[..dropped])
        invariant Without(bodyOrder, {genesis}) == queue[dropped..] && |bodyOrder| == |old(bodyOrder)| - dropped
        invariant forall id | id in bodyOrder :: id in old(bodyOrder)
        decreases |bodyOrder|, if |bodyOrder| > 0 && bodyOrder[0] == genesis then 1 else 0
      {
        var oldest := bodyOrder[0];
        WithoutStep(bodyOrder, {genesis});
        if oldest == genesis {
          StoreRotate(rules, genesis, blocks, bodyOrder, bodyBytes, sideBodies, sideBytes);
          WithoutSnoc(bodyOrder[1..], genesis, {genesis});
          bodyOrder := bodyOrder[1..] + [oldest];
        } else {
          BytesExact();
          assert Over(rules, old(blocks), |old(bodyOrder)|, queue, dropped, window, budget);
          DropSet(queue, dropped);
          StoreDrop(rules, genesis, blocks, bodyOrder, bodyBytes, sideBodies, sideBytes);
          bodyOrder := bodyOrder[1..];
          if oldest in blocks {
            bodyBytes := SatSub(bodyBytes, rules.size(blocks[oldest]));
            blocks := blocks - {oldest};
          }
          dropped := dropped + 1;
        }
      }
    }

    lemma BytesExact()
      requires StoreValid()
      ensures bodyBytes == MapSum(blocks, rules.size)
    {
    }

    /** The body enters memory at the back of the queue, and the bounds are met
        again.  A body not queued before stays if it fits beside genesis. */
    method KeepBody(id: Id, block: Block) returns (ghost dropped: nat)
      requires |active| > 0 && active[0] == GenesisId(rules) && StoreValid() && RulesOk(rules)
      requires rules.blockId(block.header) == id != GenesisId(rules) && ShapeOk(rules, block)
      modifies this`blocks, this`bodyOrder, this`bodyBytes
      ensures StoreValid()
      ensures |bodyOrder| <= 1 || (|bodyOrder| <= BODY_WINDOW && bodyBytes <= BODY_BUDGET_BYTES)
      ensures var order := old(bodyOrder) + if id in old(blocks) then [] else [id];
              var queue := Without(order, {GenesisId(rules)});
              && PrunedTo(rules, old(blocks)[id := block], |order|, queue, dropped, BODY_WINDOW, BODY_BUDGET_BYTES)
              && blocks == old(blocks)[id := block] - ToSet(queue[..dropped])
      ensures id !in old(bodyOrder) && rules.size(block) + rules.size(rules.genesis) <= BODY_BUDGET_BYTES ==>
              id in blocks
      ensures forall i | i in bodyOrder :: i in old(bodyOrder) || i == id
    {
      hide StoreOk, RulesOk, ShapeOk, Without, PrunedTo;
      StoreInsert(rules, GenesisId(rules), blocks, bodyOrder, bodyBytes, sideBodies, sideBytes, id, block);
      var weight := rules.size(block);
      if id in blocks {
        bodyBytes := SatSub(bodyBytes, rules.size(blocks[id])) + weight;
      } else {
        bodyOrder := bodyOrder + [id];
        bodyBytes := bodyBytes + weight;
      }
      blocks := blocks[id := block];
      ghost var kept, order, bytes := blocks, bodyOrder, bodyBytes;
      assert order == old(bodyOrder) + if id in old(blocks) then [] else [id];
      dropped := PruneBodies(BODY_WINDOW, BODY_BUDGET_BYTES);
      if id !in old(bodyOrder) && weight + rules.size(rules.genesis) <= BODY_BUDGET_BYTES {
        if id in old(blocks) { AllQueued(old(blocks), old(bodyOrder), old(bodyBytes), id); }
        WithoutSnoc(old(bodyOrder), id, {GenesisId(rules)});
        LastStays(rules, kept, old(bodyOrder), bytes, sideBodies, sideBytes, id, dropped, BODY_WINDOW,
                  BODY_BUDGET_BYTES);
      }
    }

    lemma AllQueued(kept: map<Id, Block>, order: seq<Id>, bytes: nat, id: Id)
      requires StoreOk(rules, GenesisId(rules), kept, order, bytes, sideBodies, sideBytes) && id in kept
      ensures id in order
    {
    }

    // ----------------------------------------------------------------
    // Walking the index back
    // ----------------------------------------------------------------

    /** At most `n` headers ending at `parent`, oldest first. */
    method WalkBack(parent: Id, n: nat) returns (headers: seq<Header>)
      requires RulesOk(rules) && TreeOk(rules, index)
      ensures parent !in index ==> headers == []
      ensures parent in index ==> headers == Suffix(Ancestry(rules, index, parent), n)
    {
      hide RulesOk, TreeOk, Ancestry;
      headers := [];
      var current := parent;
      var i := 0;
      while i < n && current in index
        invariant i <= n && |headers| == i
        invariant parent !in index ==> i == 0 && current == parent
        invariant parent in index ==> current in index
        invariant parent in index ==> Ancestry(rules, index, parent) == Ancestry(rules, index, current) + headers
      {
        AncestryStep(rules, index, current);
        var node := index[current];
        headers := [node.header] + headers;
        i := i + 1;
        if node.header.height == 0 { return; }
        current := node.header.prev;
      }
    }

    /** Difficulty expected of a child of `parent`, on any branch. */
    method NextBitsAfter(parent: Id) returns (bits: nat)
      requires RulesOk(rules) && TreeOk(rules, index)
      ensures parent in index ==> bits == ExpectedBits(rules, Ancestry(rules, index, parent))
    {
      if rules.regtest { return INITIAL_BITS; }
      var headers := WalkBack(parent, LWMA_WINDOW + 1);
      bits := rules.nextBits(headers);
    }

    /** Timestamps of the last ancestors up to `parent`, on any branch. */
    method RecentTimesAfter(parent: Id) returns (times: seq<nat>)
      requires RulesOk(rules) && TreeOk(rules, index)
      ensures parent in index ==> times == RecentTimes(Ancestry(rules, index, parent))
    {
      var headers := WalkBack(parent, MEDIAN_TIME_SPAN);
      times := Times(headers);
    }

    /** The context of a child of the tip: walking the index back from it reads
        exactly the active chain. */
    method TipContext() returns (c: Context)
      requires CoreValid()
      ensures c == ContextAt(rules, Headers(hist))
    {
      hide ValidHistory, UndosOk, IssuedOk, Replay, TreeOk, RulesOk, RecentTimes, ExpectedBits;
      TipNode();
      TipAncestry();
      var tip := active[|active| - 1];
      var times := RecentTimesAfter(tip);
      var bits := NextBitsAfter(tip);
      c := Context(|active|, tip, times, index[tip].header.time, bits);
    }

    lemma TipNode()
      requires CoreValid()
      ensures |active| == |hist| > 0
      ensures Last(active) == rules.blockId(Last(hist).header) && Last(active) in index
      ensures index[Last(active)].header == Last(hist).header
    {
      hide CoreOk, ValidHistory, TreeOk, RulesOk, Indexed, Ids;
      CoreFacts();
      HistoryNonempty(rules, hist);
      IdsAt(rules, hist, |hist| - 1);
      ActiveNode(rules, index, hist, |hist| - 1);
    }

    lemma TipAncestry()
      requires CoreValid()
      ensures |active| > 0 && Last(active) in index && TreeOk(rules, index)
      ensures Ancestry(rules, index, Last(active)) == Headers(hist)
    {
      hide CoreOk, ValidHistory, TreeOk, RulesOk, Headers, Ancestry, Indexed, Ids;
      CoreFacts();
      TipNode();
      ActiveAncestry(rules, index, hist, |hist| - 1);
      assert hist[..|hist| - 1 + 1] == hist;
    }

    lemma GenesisFirst()
      requires CoreValid()
      ensures |active| > 0 && active[0] == GenesisId(rules)
    {
      hide Replay, UndosOk, IssuedOk;
      HistoryNonempty(rules, hist);
      HistoryLinks(rules, hist, 0);
    }

    // ----------------------------------------------------------------
    // The tip
    // ----------------------------------------------------------------

    /** One more block, if every rule accepts it here and now. */
    method Connect(block: Block, now: nat) returns (res: Result<nat, ValidationError>)
      requires Valid() && (block.header.height == |hist| ==> |hist| < HEIGHT_LIMIT)
      modifies this`index, this`blocks, this`bodyOrder, this`bodyBytes, this`active, this`utxo, this`undos, this`issued,
               this`hist
      ensures Valid()
      ensures |old(hist)| > 0 && res == Verdict(rules, old(hist), block, now)
      ensures res.Err? ==> Now() == old(Now()) && undos == old(undos)
      ensures res.Ok? ==> hist == old(hist) + [block] && |undos| == Min(|old(undos)| + 1, BODY_WINDOW)
      ensures res.Ok? && rules.blockId(block.header) in old(index) ==> SameTree(old(index), index)
      ensures res.Ok? ==> index.Keys == old(index).Keys + {rules.blockId(block.header)}
      ensures res.Ok? ==> ClockAllows(block, now) && block.header.height == |old(hist)|
      ensures res.Ok? ==> TotalWork() == AddWork(old(TotalWork()), rules.work(block.header.bits))
      ensures res.Ok? ==> forall i | i in blocks ::
                if i == rules.blockId(block.header) then blocks[i] == block
                else i in old(blocks) && blocks[i] == old(blocks)[i]
    {
      hide CoreOk, ValidHistory, Replay, TreeOk, RulesOk, Indexed, StoreOk, ContextAt, CheckBody, HeaderFault, Headers,
           ShapeOk, Acceptable, ApplyTxs, RecordTxs, BodiesOk, Ids, Emitted, Fees;
      CoreFacts();
      TipNode();
      GenesisFirst();
      ReplayState();
      var ctx := TipContext();
      res := CheckBlock(rules, ctx, State(utxo, issued), block, now);
      if res.Err? { return; }
      HeadersLength(hist);
      AcceptedNow(rules, Headers(hist), State(utxo, issued), block, now);
      Attach(block, res.value);
      AttachedTree(rules, old(index), old(active), block, issued);
      GenesisFirst();
      ghost var _ := KeepBody(rules.blockId(block.header), block);
    }

    /** Attaches a validated block to the tip; its body is not yet kept. */
    method Attach(block: Block, fees: nat)
      requires Valid() && 0 < |hist| == |Headers(hist)| < HEIGHT_LIMIT && |block.txs| > 0
      requires Acceptable(rules, Headers(hist), State(utxo, issued), block)
      requires Emitted(rules, State(utxo, issued), block, |hist|) == SatSub(OutputSum(block.txs[0].outputs), fees)
      modifies this`index, this`active, this`utxo, this`undos, this`issued, this`hist
      ensures Valid()
      ensures hist == old(hist) + [block] && |undos| == Min(|old(undos)| + 1, BODY_WINDOW)
      ensures rules.blockId(block.header) in old(index) ==> SameTree(old(index), index)
      ensures block.header.prev in old(index) && |old(active)| > 0 && block.header.prev == Last(old(active))
      ensures var id := rules.blockId(block.header);
              index == old(index)[id := ConnectedNode(rules, old(index), block, issued)] && active == old(active) + [id]
    {
      hide CoreOk, Replay, TreeOk, RulesOk, Indexed, StoreOk, ContextAt, CheckBody, HeaderFault, Headers, ShapeOk,
           Acceptable, ApplyTxs, RecordTxs, BodiesOk, Ids, Emitted, Fees, ValidHistory, PushUndo, SameTree, QueueOk,
           AddWork, Step;
      TipNode();
      ConnectKeeps(rules, index, hist, active, State(utxo, issued), undos, block);

      var id := rules.blockId(block.header);
      var undo := RecordTxs(rules, utxo, block.txs, |active|, NOTHING_UNDONE);
      var coins := ApplyTxs(rules, utxo, block.txs, |active|);
      var supply := issued + SatSub(OutputSum(block.txs[0].outputs), fees);
      assert State(coins, supply) == Step(rules, State(utxo, issued), block, |active|) by { StepIs(block, supply); }
      var node := Node(block.header, AddWork(index[block.header.prev].work, rules.work(block.header.bits)), supply);
      QueueGrows(index, id, node);
      utxo, issued := coins, supply;
      index := index[id := node];
      active := active + [id];
      undos := PushUndo(undos, undo);
      hist := hist + [block];
    }

    lemma StepIs(block: Block, supply: nat)
      requires supply == issued + Emitted(rules, State(utxo, issued), block, |active|)
      ensures State(ApplyTxs(rules, utxo, block.txs, |active|), supply)
              == Step(rules, State(utxo, issued), block, |active|)
    {
      hide Emitted, ApplyTxs;
    }

    lemma QueueGrows(t: Tree, id: Id, n: Node)
      requires QueueOk(t.Keys, bodyOrder, sideBodies)
      ensures QueueOk(t[id := n].Keys, bodyOrder, sideBodies)
    {
    }

    /** One block fewer: the last record leads back to the state before it. */
    method Disconnect() returns (ok: bool)
      requires Valid()
      modifies this`active, this`utxo, this`undos, this`issued, this`hist
      ensures Valid()
      ensures ok <==> |old(active)| > 1 && |old(undos)| > 0
      ensures ok ==> hist == Front(old(hist)) && undos == Front(old(undos))
      ensures !ok ==> hist == old(hist) && undos == old(undos)
    {
      hide ValidHistory, Replay, TreeOk, RulesOk, UndosOk, IssuedOk, Indexed, StoreOk, BodiesOk, Ids, UndoBlock;
      ActiveLength();
      if |active| <= 1 || |undos| == 0 { return false; }
      DisconnectKeeps(rules, index, hist, active, State(utxo, issued), undos);
      var parent := active[|active| - 2];
      var parentIssued := index[parent].issued;
      var undo := undos[|undos| - 1];
      undos := undos[..|undos| - 1];
      utxo := UndoBlock(utxo, undo);
      active := active[..|active| - 1];
      issued := parentIssued;
      hist := Front(hist);
      return true;
    }

    lemma ActiveLength()
      requires CoreValid()
      ensures |active| == |hist| > 0
      ensures |undos| <= |hist| && |undos| <= BODY_WINDOW
      ensures |hist| <= HEIGHT_LIMIT
    {
      hide ValidHistory, Replay, TreeOk, RulesOk, IssuedOk;
      HistoryNonempty(rules, hist);
      ActiveNode(rules, index, hist, |hist| - 1);
    }

    /** Goes back down to the block `fork`, or as far as the undo window reaches. */
    method UnwindTo(fork: nat)
      requires Valid() && fork < |hist|
      modifies this`active, this`utxo, this`undos, this`issued, this`hist
      ensures Valid()
      ensures hist == old(hist)[..Max(fork + 1, |old(hist)| - |old(undos)|)]
      ensures |undos| == |old(undos)| - (|old(hist)| - |hist|)
    {
      hide CoreOk, StoreOk, BodiesOk;
      ActiveLength();
      while |active| > fork + 1
        invariant Valid()
        invariant |active| == |hist| && |undos| <= |hist|
        invariant fork + 1 <= |hist| <= |old(hist)| && hist == old(hist)[..|hist|]
        invariant |undos| == |old(undos)| - (|old(hist)| - |hist|)
        decreases |hist|
      {
        var ok := Disconnect();
        ActiveLength();
        if !ok { break; }
      }
    }

    /** Connects blocks one after the other until one is refused. */
    method ConnectAll(bodies: seq<Block>, now: nat) returns (n: nat, fault: Option<ValidationError>)
      requires Valid() && KnownAll(rules, index, bodies)
      modifies this`index, this`blocks, this`bodyOrder, this`bodyBytes, this`active, this`utxo, this`undos, this`issued,
               this`hist
      ensures Valid() && n <= |bodies|
      ensures hist == old(hist) + bodies[..n]
      ensures fault.None? <==> n == |bodies|
      ensures forall i | 0 <= i < n :: ClockAllows(bodies[i], now) && bodies[i].header.height == |old(hist)| + i
      ensures |old(hist)| > 0 && AllAccepted(rules, old(hist), bodies, n, now)
      ensures n < |bodies| ==> |hist| > 0 && Verdict(rules, hist, bodies[n], now) == Err(fault.value)
      ensures |undos| == Min(|old(undos)| + n, BODY_WINDOW)
      ensures SameTree(old(index), index)
    {
      hide CoreOk, StoreOk, BodiesOk, QueueOk, Verdict, AllAccepted, SameTree, TreeOk, RulesOk, ValidHistory, Indexed,
           Ids, ClockAllows, KnownAll;
      n := 0;
      fault := None;
      ActiveLength();
      AcceptedNone(rules, hist, bodies, now);
      SameTreeRefl(index);
      while n < |bodies|
        invariant Valid() && n <= |bodies| && |active| == |hist|
        invariant hist == old(hist) + bodies[..n]
        invariant |undos| == Min(|old(undos)| + n, BODY_WINDOW)
        invariant SameTree(old(index), index)
        invariant forall i | 0 <= i < n :: ClockAllows(bodies[i], now) && bodies[i].header.height == |old(hist)| + i
        invariant AllAccepted(rules, old(hist), bodies, n, now)
      {
        ghost var before := index;
        NextKnown(old(index), bodies, n);
        var res := Connect(bodies[n], now);
        ActiveLength();
        if res.Err? {
          return n, Some(res.error);
        }
        SameTreeTrans(old(index), before, index);
        AcceptedSnoc(rules, old(hist), bodies, n, now);
        n := n + 1;
      }
    }

    lemma NextKnown(was: Tree, bodies: seq<Block>, n: nat)
      requires CoreValid() && KnownAll(rules, was, bodies) && SameTree(was, index) && n < |bodies|
      ensures rules.blockId(bodies[n].header) in index && bodies[n].header.height < HEIGHT_LIMIT
    {
      hide CoreOk, TreeOk, RulesOk, ValidHistory, Indexed, Ids;
      CoreFacts();
      KnownStays(rules, was, index, bodies, n);
      KnownHeight(rules, index, bodies[n]);
    }

    // ----------------------------------------------------------------
    // Side branches
    // ----------------------------------------------------------------

    /** Path from a block to the active chain: the height of the fork and the
        blocks to connect, oldest first.  Looks at most `reach` + 2 blocks back. */
    method PathToActive(tip: Id, reach: nat) returns (path: Option<(nat, seq<Id>)>)
      requires CoreValid() && tip in index
      ensures path.Some? ==>
                var (fork, branch) := path.value;
                && fork < |active| && |branch| <= reach + 1
                && IsBranch(index, active[fork], branch)
                && (if branch == [] then tip == active[fork] else tip == Last(branch))
                && (forall i | 0 <= i < |branch| :: !OnActive(index, active, branch[i]))
      ensures path.None? ==> forall k: nat | k <= reach + 1 :: !OnActive(index, active, Ancestor(rules, index, tip, k))
    {
      hide ValidHistory, Replay, RulesOk, TreeOk, UndosOk, IssuedOk, Indexed, Ids, Ancestor;
      var branch: seq<Id> := [];
      var current := tip;
      var i := 0;
      AncestorZero(rules, index, tip);
      while i <= reach + 1
        invariant i <= reach + 2 && |branch| == i
        invariant current in index && current == Ancestor(rules, index, tip, i)
        invariant IsBranch(index, current, branch)
        invariant if branch == [] then tip == current else tip == Last(branch)
        invariant forall j | 0 <= j < |branch| :: !OnActive(index, active, branch[j])
        invariant forall k: nat | k < i :: !OnActive(index, active, Ancestor(rules, index, tip, k))
      {
        var h := index[current].header.height;
        if h < |active| && active[h] == current {
          return Some((h, branch));
        }
        BranchPrepend(index, current, branch);
        branch := [current] + branch;
        OneBack(tip, i);
        if h == 0 { return None; }
        current := index[current].header.prev;
        i := i + 1;
      }
      return None;
    }

    /** A block off the active chain is not genesis: it has a parent. */
    lemma OneBack(tip: Id, i: nat)
      requires CoreValid() && TreeOk(rules, index) && tip in index
      requires !OnActive(index, active, Ancestor(rules, index, tip, i))
      ensures var current := Ancestor(rules, index, tip, i);
              && index[current].header.height > 0 && index[current].header.prev in index
              && Ancestor(rules, index, tip, i + 1) == index[current].header.prev
    {
      hide CoreOk, RulesOk, TreeOk, ValidHistory, Indexed, Ids, Ancestor;
      CoreFacts();
      GenesisActive();
      GenesisRules(rules);
      AncestorNext(rules, index, tip, i);
      OnlyGenesisAtZero(rules, index, Ancestor(rules, index, tip, i));
    }

    lemma GenesisActive()
      requires CoreValid()
      ensures OnActive(index, active, GenesisId(rules))
    {
      hide ValidHistory, Replay, UndosOk, IssuedOk;
      GenesisFirst();
      OnActiveIff(rules, index, hist, GenesisId(rules));
    }

    /** The listed blocks that are not active leave the index and memory, with
        all that descends from them, and nothing else does. */
    method ForgetSide(ids: seq<Id>)
      requires Valid()
      modifies this`index, this`blocks, this`bodyOrder, this`bodyBytes, this`sideBodies, this`sideBytes
      ensures Valid()
      ensures TreeOk(rules, old(index))
      ensures var gone := Descendants(rules, old(index), Listed(old(index), active, ids));
              index == old(index) - gone && blocks == old(blocks) - gone && forall id | id in active :: id !in gone
      ensures forall id | id in active :: id in index
    {
      hide CoreOk, StoreOk, BodiesOk, RulesOk, TreeOk, Descendants, Listed, ClosedDown, Freed, Without, SideWithout,
           Indexed, ValidHistory, Ids, QueueOk;
      CoreFacts();
      ListedIndexed(index, active, ids);
      var gone := WithDescendants(Listed(index, active, ids));
      ForgottenIs(gone, ids);
      Forget(gone);
    }

    /** These leave the index, memory and both queues. */
    method Forget(gone: set<Id>)
      requires Valid() && CoreOk(rules, index - gone, hist, active, State(utxo, issued), undos)
      modifies this`index, this`blocks, this`bodyOrder, this`bodyBytes, this`sideBodies, this`sideBytes
      ensures Valid() && index == old(index) - gone && blocks == old(blocks) - gone
    {
      hide CoreOk, StoreOk, BodiesOk, Freed, Without, SideWithout, QueueOk;
      RemoveBodies(gone);
      StoreForget(rules, GenesisId(rules), blocks, bodyOrder, bodyBytes, sideBodies, sideBytes, gone);
      QueueForget(index.Keys, bodyOrder, sideBodies, gone);
      index := index - gone;
      bodyOrder := Without(bodyOrder, gone);
      var freed := Freed(sideBodies, gone);
      sideBodies := SideWithout(sideBodies, gone);
      sideBytes := SatSub(sideBytes, freed);
    }

    /** The walk down from what goes: exactly the roots and what is built on them. */
    method WithDescendants(roots: set<Id>) returns (gone: set<Id>)
      requires RulesOk(rules) && TreeOk(rules, index) && roots <= index.Keys
      ensures gone == Descendants(rules, index, roots) <= index.Keys
      ensures ClosedDown(rules, index, gone)
    {
      hide RulesOk, TreeOk, Descends;
      gone := roots;
      forall id | id in gone
        ensures Descends(rules, index, roots, id)
      {
        DescendsRoot(rules, index, roots, id);
      }
      var todo := gone;
      while todo != {}
        invariant todo <= gone <= index.Keys && roots <= gone
        invariant forall id | id in gone :: Descends(rules, index, roots, id)
        invariant forall c | c in index && c != GenesisId(rules) && index[c].header.prev in gone ::
                    c in gone || index[c].header.prev in todo
        decreases index.Keys - gone, todo
      {
        var id :| id in todo;
        var children := set c | c in index && index[c].header.prev == id && c !in gone;
        forall c | c in children
          ensures Descends(rules, index, roots, c)
        {
          NotGenesisChild(c, id);
          DescendsChild(rules, index, roots, c);
        }
        todo := todo - {id} + children;
        gone := gone + children;
      }
      DescendantsIn(rules, index, roots, gone);
    }

    lemma CoreFacts()
      requires CoreValid()
      ensures RulesOk(rules) && TreeOk(rules, index) && ValidHistory(rules, hist) && Indexed(rules, index, hist)
      ensures active == Ids(rules, hist)
    {
    }

    lemma NotGenesisChild(c: Id, id: Id)
      requires RulesOk(rules) && TreeOk(rules, index) && c in index && id in index && index[c].header.prev == id
      ensures c != GenesisId(rules)
    {
      hide TreeOk, TxidOk, RootsOk;
      TreeNode(rules, index, id);
      TreeNode(rules, index, c);
      assert rules.blockId(index[id].header) != rules.genesis.header.prev;
    }

    /** No active block is among the forgotten ones. */
    lemma ForgottenIs(gone: set<Id>, ids: seq<Id>)
      requires CoreValid() && TreeOk(rules, index)
      requires gone == Descendants(rules, index, Listed(index, active, ids))
      requires ClosedDown(rules, index, gone)
      ensures CoreOk(rules, index - gone, hist, active, State(utxo, issued), undos)
      ensures forall id | id in active :: id in index && id !in gone
    {
      hide CoreOk, RulesOk, TreeOk, Listed, OnActive, Descends, ClosedDown, Ids;
      CoreFacts();
      GenesisFirst();
      forall id | id in active
        ensures id !in gone && id in index
      {
        OnActiveIff(rules, index, hist, id);
        ActiveInIndex(rules, index, hist, id);
        ActiveStays(rules, index, hist, ids, id);
      }
      assert active[0] in active;
      PruneKeeps(rules, index, hist, active, State(utxo, issued), undos, gone);
    }

    /** The bodies of these ids leave memory. */
    method RemoveBodies(gone: set<Id>)
      requires StoreValid()
      modifies this`blocks, this`bodyBytes
      ensures StoreValid() && blocks == old(blocks) - gone
    {
      hide StoreOk;
      var left := gone;
      while left != {}
        invariant left <= gone && StoreValid()
        invariant blocks == old(blocks) - (gone - left)
      {
        var id :| id in left;
        if id in blocks {
          StoreEvict(rules, GenesisId(rules), blocks, bodyOrder, bodyBytes, sideBodies, sideBytes, id);
          bodyBytes := SatSub(bodyBytes, rules.size(blocks[id]));
          blocks := blocks - {id};
        }
        left := left - {id};
      }
    }

    /** The side queue takes one more body, and drops from its front for as long
        as it weighs too much.  What is dropped leaves memory unless it has
        become active. */
    method KeepSideBody(id: Id, size: nat) returns (ghost dropped: nat)
      requires StoreValid()
      modifies this`blocks, this`bodyBytes, this`sideBodies, this`sideBytes
      ensures StoreValid()
      ensures sideBytes <= SIDE_BODY_BUDGET_BYTES
      ensures var all := old(sideBodies) + [(id, size)];
              && SideDropped(all, dropped) && sideBodies == all[dropped..]
              && blocks == old(blocks) - SideIds(index, active, all[..dropped])
    {
      hide StoreOk, OnActive, WeightSum, SideIds;
      NoSideIds(index, active);
      StoreQueueSide(rules, GenesisId(rules), blocks, bodyOrder, bodyBytes, sideBodies, sideBytes, (id, size));
      sideBodies := sideBodies + [(id, size)];
      sideBytes := sideBytes + size;
      ghost var all := sideBodies;
      dropped := 0;
      while sideBytes > SIDE_BODY_BUDGET_BYTES && |sideBodies| > 0
        invariant StoreValid()
        invariant SideDropped(all, dropped) && sideBodies == all[dropped..]
        invariant blocks == old(blocks) - SideIds(index, active, all[..dropped])
        decreases |sideBodies|
      {
        SideExact();
        SideEvicts(index, active, all, dropped, old(blocks), blocks);
        DropSide();
        dropped := dropped + 1;
      }
      EmptySide();
    }

    /** The oldest side body leaves its queue, and memory unless it is active. */
    method DropSide()
      requires StoreValid() && |sideBodies| > 0
      modifies this`blocks, this`bodyBytes, this`sideBodies, this`sideBytes
      ensures StoreValid() && sideBodies == old(sideBodies)[1..]
      ensures var id := old(sideBodies)[0].0;
              blocks == if !OnActive(index, active, id) && id in old(blocks) then old(blocks) - {id} else old(blocks)
    {
      hide StoreOk, OnActive;
      var oldest := sideBodies[0];
      StoreUnqueueSide(rules, GenesisId(rules), blocks, bodyOrder, bodyBytes, sideBodies, sideBytes);
      sideBodies := sideBodies[1..];
      sideBytes := SatSub(sideBytes, oldest.1);
      if !OnActive(index, active, oldest.0) && oldest.0 in blocks {
        StoreEvict(rules, GenesisId(rules), blocks, bodyOrder, bodyBytes, sideBodies, sideBytes, oldest.0);
        bodyBytes := SatSub(bodyBytes, rules.size(blocks[oldest.0]));
        blocks := blocks - {oldest.0};
      }
    }

    lemma SideExact()
      requires StoreValid()
      ensures sideBytes == WeightSum(sideBodies)
    {
    }

    lemma EmptySide()
      requires StoreValid()
      ensures sideBodies == [] ==> sideBytes == 0
    {
    }

    // ----------------------------------------------------------------
    // Fork choice
    // ----------------------------------------------------------------

    /** A body from memory, or else from disk. */
    function BlockById(id: Id): Option<Block>
      reads this
    {
      if id in blocks then Some(blocks[id])
      else if id in source then Some(source[id])
      else None
    }

    /** Another disk. */
    method SetBodySource(disk: map<Id, Block>)
      requires Valid() && BodiesOk(rules, disk)
      modifies this`source
      ensures Valid() && source == disk
    {
      hide CoreOk, StoreOk, BodiesOk, QueueOk;
      source := disk;
    }

    /** Finality binds from here on, as the data directory recorded. */
    method BindFinality()
      requires Valid()
      modifies this`bound
      ensures Valid() && bound
    {
      hide CoreOk, StoreOk, BodiesOk, QueueOk;
      bound := true;
    }

    /** What fork choice looks at. */
    ghost function Now(): Scene
      reads this
    {
      Scene(rules, hist, index, active, |undos|, FinalityBinds(), source, blocks)
    }

    lemma SceneValid()
      requires CoreValid()
      ensures SceneOk(Now()) && TreeOk(rules, index)
    {
      hide CoreOk, TreeOk, RulesOk, ValidHistory, Indexed, Ids;
      CoreFacts();
      TipNode();
      forall h | 0 <= h < |active|
        ensures active[h] in index && index[active[h]].header.height == h
      {
        IdsAt(rules, hist, h);
        ActiveNode(rules, index, hist, h);
      }
    }

    /** The depth limit and the surcharge apply: past every anchor, and once the
        hold is over or there is none. */
    predicate FinalityBinds()
      reads this
    {
      && |active| > rules.lastAnchor
      && !(finalityHold.Some? && returning)
      && (finalityHold.None? || bound)
    }

    /** The indexed work of the tip. */
    ghost function TotalWork(): nat
      reads this
    {
      if |active| > 0 && Last(active) in index then index[Last(active)].work else 0
    }

    /** The bodies of these ids, or the first of them that has none. */
    method FetchBodies(ids: seq<Id>) returns (bodies: seq<Block>, missing: Option<nat>)
      requires Valid()
      ensures missing.None? <==> Found(Now(), ids)
      ensures missing.None? ==> bodies == Fetched(Now(), ids) && BodiesOf(rules, ids, bodies)
      ensures missing.Some? ==>
                && missing.value < |ids| && BlockById(ids[missing.value]).None?
                && Found(Now(), ids[..missing.value])
    {
      hide CoreOk, StoreOk, QueueOk, BodiesOk, BlockById, BodiesOf, Held, Now;
      ghost var held := Held(Now());
      bodies, missing := [], None;
      for i := 0 to |ids|
        invariant |bodies| == i && forall j | 0 <= j < i :: ids[j] in held && bodies[j] == held[ids[j]]
      {
        HeldById(ids[i]);
        match BlockById(ids[i])
        case Some(b) => bodies := bodies + [b];
        case None => return bodies, Some(i);
      }
      StoredBodies();
      HeldBodies(ids, bodies);
    }

    lemma HeldById(id: Id)
      ensures BlockById(id) == if id in Held(Now()) then Some(Held(Now())[id]) else None
    {
    }

    lemma HeldBodies(ids: seq<Id>, bodies: seq<Block>)
      requires BodiesOk(rules, blocks) && BodiesOk(rules, source) && |bodies| == |ids|
      requires forall j | 0 <= j < |ids| :: ids[j] in Held(Now()) && bodies[j] == Held(Now())[ids[j]]
      ensures BodiesOf(rules, ids, bodies)
    {
      hide ShapeOk;
    }

    lemma StoredBodies()
      requires StoreValid()
      ensures BodiesOk(rules, blocks)
    {
    }

    /** Every check that comes before anything is undone, with its reason. */
    method ReorgTerms(newTip: Id) returns (terms: Result<(nat, seq<Id>), ChainError>)
      requires CoreValid() && newTip in index && !OnActive(index, active, newTip)
      ensures SceneOk(Now())
      ensures terms.Ok? ==> TermsOk(Now(), newTip, terms.value.0, terms.value.1)
      ensures terms.Err? ==> Refused(Now(), newTip, terms.error) && terms.error != Invalid(IncompleteHistory)
    {
      hide CoreOk, StoreOk, OnActive, IsBranch, Threshold, TreeOk, Ancestor;
      ActiveLength();
      SceneValid();
      var binds := FinalityBinds();
      var reach := if binds then MAX_REORG_DEPTH + 1 else BODY_WINDOW + 1;
      var path := PathToActive(newTip, reach);
      if path.None? {
        NoPath(newTip);
        return Err(ForkPointNotFound);
      }
      var (fork, branch) := path.value;
      ForkOnActive(fork);
      assert PathOk(Now(), newTip, fork, branch);
      var depth := |active| - 1 - fork;
      if binds && depth > MAX_REORG_DEPTH { return Err(BeyondFinality(depth)); }
      var total := index[active[|active| - 1]].work;
      var required := if binds then Threshold(total, index[active[fork]].work, depth) else total;
      if index[newTip].work <= required { return Err(InsufficientWorkForDepth(depth)); }
      if |undos| < depth { return Err(UndoWindowTooShort(depth, |undos|)); }
      return Ok((fork, branch));
    }

    /** No active block in reach: no path. */
    lemma NoPath(tip: Id)
      requires CoreValid() && TreeOk(rules, index) && tip in index
      requires forall k: nat | k <= Reach(FinalityBinds()) :: !OnActive(index, active, Ancestor(rules, index, tip, k))
      ensures forall fork, branch :: !PathOk(Now(), tip, fork, branch)
    {
      hide CoreOk, TreeOk, OnActive, Ancestor;
      forall fork: nat, branch
        ensures !PathOk(Now(), tip, fork, branch)
      {
        if PathOk(Now(), tip, fork, branch) {
          ForkOnActive(fork);
          PathAncestor(tip, fork, branch, |branch|);
        }
      }
    }

    /** Walking back along a path. */
    lemma {:induction false} PathAncestor(tip: Id, fork: nat, branch: seq<Id>, j: nat)
      requires CoreValid() && TreeOk(rules, index) && tip in index && PathOk(Now(), tip, fork, branch) && j <= |branch|
      ensures Ancestor(rules, index, tip, j) == if j < |branch| then branch[|branch| - 1 - j] else active[fork]
      decreases j
    {
      hide CoreOk, TreeOk, OnActive, Ancestor, IsBranch;
      if j == 0 {
        AncestorZero(rules, index, tip);
      } else {
        PathAncestor(tip, fork, branch, j - 1);
        GenesisActive();
        AncestorNext(rules, index, tip, j - 1);
        PathStep(Now(), tip, fork, branch, |branch| - j);
      }
    }

    /** The branch of a takeover outweighs the active chain, whatever the terms. */
    lemma TermsFacts(newTip: Id, fork: nat, branch: seq<Id>)
      requires CoreValid() && SceneOk(Now()) && TermsOk(Now(), newTip, fork, branch)
      ensures newTip in index && newTip == Last(branch) && |branch| > 0
      ensures fork < |hist| == |active| && |hist| - 1 - fork <= |undos|
      ensures index[newTip].work > Required(Now(), fork) >= TotalWork()
      ensures FinalityBinds() ==> |branch| <= MAX_REORG_DEPTH + 2 && |hist| - 1 - fork <= MAX_REORG_DEPTH
      ensures IsBranch(index, active[fork], branch) && !OnActive(index, active, branch[0])
    {
      hide CoreOk, OnActive, IsBranch, Threshold;
      ForkNode(fork);
      ThresholdCovers(index[Last(active)].work, index[active[fork]].work, DepthAt(Now(), fork));
    }

    lemma ForkNode(fork: nat)
      requires CoreValid() && fork < |active|
      ensures |active| == |hist| && active[fork] in index && Last(active) in index
      ensures active[fork] == rules.blockId(hist[fork].header)
      ensures index[active[fork]].work <= index[Last(active)].work
    {
      hide ValidHistory, Replay, TreeOk, RulesOk, UndosOk, IssuedOk;
      HistoryNonempty(rules, hist);
      WorkGrows(rules, index, hist, fork, |hist| - 1);
    }

    lemma ForkOnActive(fork: nat)
      requires CoreValid() && fork < |active|
      ensures OnActive(index, active, active[fork])
    {
      hide ValidHistory, Replay, TreeOk, RulesOk, UndosOk, IssuedOk, OnActive;
      OnActiveIff(rules, index, hist, active[fork]);
    }

    /** Leaves the active chain at `fork` for `bodies`, or comes back.

        If the branch fails after `connected` of its blocks, the old chain is
        restored exactly when these fit the undo window and the clock still
        allows every old block.  Otherwise the chain is left at the fork, or,
        past the window, as far down as the records reach. */
    method SwitchTo(fork: nat, bodies: seq<Block>, oldBodies: seq<Block>, now: nat)
      returns (fault: Option<ValidationError>, ghost connected: nat)
      requires Valid() && fork < |hist| && |hist| - 1 - fork <= |undos|
      requires oldBodies == hist[fork + 1..]
      requires KnownAll(rules, index, bodies)
      modifies this`index, this`blocks, this`bodyOrder, this`bodyBytes, this`active, this`utxo, this`undos, this`issued,
               this`hist
      ensures Valid() && SameTree(old(index), index)
      ensures connected <= |bodies| && AllAccepted(rules, old(hist)[..fork + 1], bodies, connected, now)
      ensures fault.None? <==> connected == |bodies|
      ensures fault.Some? ==>
                Verdict(rules, old(hist)[..fork + 1] + bodies[..connected], bodies[connected], now) == Err(fault.value)
      ensures fault.None? ==> hist == old(hist)[..fork + 1] + bodies
      ensures fault.None? ==> Restorable(hist, fork, now)
      ensures fault.None? ==> |undos| == Min(SatSub(|old(undos)|, |old(hist)| - 1 - fork) + |bodies|, BODY_WINDOW)
      ensures fault.Some? && connected > BODY_WINDOW ==>
              hist == old(hist)[..fork + 1] + bodies[..connected - BODY_WINDOW]
      ensures fault.Some? && connected <= BODY_WINDOW ==>
                hist == if Restorable(old(hist), fork, now) then old(hist) else old(hist)[..fork + 1]
    {
      hide CoreOk, StoreOk, BodiesOk, QueueOk, SameTree, KnownAll, AllAccepted, Verdict, ClockAllows, Restorable,
           ValidHistory, RulesOk, TreeOk, Indexed, Ids;
      ActiveLength();
      CoreFacts();
      SameTreeRefl(index);
      OldKnown(fork);
      ghost var was := hist;
      UnwindTo(fork);
      connected, fault := ConnectAll(bodies, now);
      if fault.None? {
        assert bodies[..|bodies|] == bodies;
        AllAllowed(was[..fork + 1], bodies, now);
        return;
      }
      KnownAcross(rules, old(index), index, oldBodies);
      label failed:
      ComeBack(fork, oldBodies, now, was, bodies[..connected]);
      SameTreeTrans(old(index), old@failed(index), index);
      assert connected > BODY_WINDOW ==>
          bodies[..connected][..connected - BODY_WINDOW] == bodies[..connected - BODY_WINDOW];
    }

    /** From the blocks `done` of a failed branch back to the chain `was`. */
    method ComeBack(fork: nat, oldBodies: seq<Block>, now: nat, ghost was: seq<Block>, ghost done: seq<Block>)
      requires Valid() && RulesOk(rules) && ValidHistory(rules, was)
      requires fork < |was| && oldBodies == was[fork + 1..] && |oldBodies| <= BODY_WINDOW
      requires hist == was[..fork + 1] + done && |undos| >= Min(|done|, BODY_WINDOW)
      requires KnownAll(rules, index, oldBodies)
      modifies this`index, this`blocks, this`bodyOrder, this`bodyBytes, this`active, this`utxo, this`undos, this`issued,
               this`hist
      ensures Valid() && SameTree(old(index), index)
      ensures |done| > BODY_WINDOW ==> hist == was[..fork + 1] + done[..|done| - BODY_WINDOW]
      ensures |done| <= BODY_WINDOW ==> hist == if Restorable(was, fork, now) then was else was[..fork + 1]
    {
      hide CoreOk, StoreOk, BodiesOk, QueueOk, SameTree, KnownAll, AllAccepted, Verdict, ClockAllows, Restorable,
           ValidHistory, RulesOk;
      ghost var atFork := was[..fork + 1];
      ActiveLength();
      UnwindTo(fork);
      assert hist == atFork + done[..SatSub(|done|, BODY_WINDOW)];
      label reconnect:
      var again, refused := ConnectAll(oldBodies, now);
      if |done| > BODY_WINDOW {
        ReconnectTooHigh(rules, was, fork, oldBodies, again, |old@reconnect(hist)|);
      } else {
        assert hist == was[..fork + 1 + again];
        ReconnectOld(rules, was, fork, oldBodies, again, now);
      }
      if refused.Some? {
        UnwindTo(fork);
      }
    }

    /** The blocks above the fork are indexed. */
    lemma OldKnown(fork: nat)
      requires CoreValid() && fork < |hist|
      ensures KnownAll(rules, index, hist[fork + 1..])
    {
      hide ValidHistory, Replay, TreeOk, RulesOk, UndosOk, IssuedOk;
      var olds := hist[fork + 1..];
      forall i | 0 <= i < |olds|
        ensures rules.blockId(olds[i].header) in index
      {
        assert olds[i] == hist[fork + 1 + i];
      }
    }

    /** Follows the branch to `newTip`, if it may and if all its blocks connect.
        `failedAt` says how many had when one was refused. */
    method TryReorg(newTip: Id, now: nat)
      returns (res: Result<nat, ChainError>, ghost fork: nat, ghost failedAt: Option<nat>)
      requires Valid() && newTip in index && !OnActive(index, active, newTip)
      modifies this
      ensures Valid() && TreePart(index, old(index)) && SceneOk(old(Now()))
      ensures unchanged(`bound) && unchanged(`returning) && unchanged(`finalityHold) && unchanged(`source)
      ensures Decided(old(Now()), newTip, now, res, fork, failedAt)
      ensures res.Ok? <==> exists at, branch :: Takes(old(Now()), newTip, now, at, branch)
      ensures res.Ok? ==> fork < |old(hist)| && res.value == |old(hist)| - 1 - fork
      ensures res.Ok? ==> |hist| > fork + 1 && hist[..fork + 1] == old(hist)[..fork + 1] && Restorable(hist, fork, now)
      ensures res.Ok? ==> Last(active) == newTip && TotalWork() > Required(old(Now()), fork) >= old(TotalWork())
      ensures res.Ok? && old(FinalityBinds()) ==> res.value <= MAX_REORG_DEPTH && |hist| <= fork + MAX_REORG_DEPTH + 3
      ensures res.Err? && failedAt.None? ==> hist == old(hist) && undos == old(undos)
      ensures res.Err? && failedAt.None? && res.error != Invalid(IncompleteHistory) ==> Now() == old(Now())
      ensures failedAt.Some? ==> res.Err? && fork < |old(hist)|
      ensures Landed(old(Now()), newTip, now, res.Ok?, fork, failedAt, Now())
      ensures failedAt.Some? ==>
                (hist == old(hist) <==> failedAt.value <= BODY_WINDOW && Restorable(old(hist), fork, now))
      ensures failedAt.Some? && failedAt.value <= BODY_WINDOW && !Restorable(old(hist), fork, now) ==>
                hist == old(hist)[..fork + 1]
      ensures failedAt.Some? && old(FinalityBinds()) ==> failedAt.value <= BODY_WINDOW
    {
      hide CoreOk, StoreOk, BodiesOk, QueueOk, OnActive, TreeOk, RulesOk, Restorable, ClockAllows, KnownAll,
           ValidHistory, Indexed, Ids, BodiesOf, IsBranch, SceneOk, PlanOk, Required, Takes, FailsAt, Refused, Decided,
           Landed, SameTree, TreePart, FinalityBinds, TermsFault;
      fork, failedAt := 0, None;
      ghost var scene := Now();
      var plan := PrepareReorg(newTip);
      if plan.Err? {
        NothingTried(scene, newTip, now, Now());
        RefusedDecided(scene, newTip, now, plan.error, fork);
        DecidedTakes(scene, newTip, now, Err(plan.error), fork, failedAt);
        return Err(plan.error), fork, failedAt;
      }
      fork := plan.value.fork;
      PlanFacts(newTip, plan.value);
      res, failedAt := CarryOut(newTip, plan.value, now);
      PlanLands(scene, newTip, now, plan.value, res, failedAt, Now());
      SameTreePart(scene.index, index);
      DecidedTakes(scene, newTip, now, res, fork, failedAt);
    }

    /** Carries out a plan: the branch is followed, or what the failure of one
        of its blocks leaves. */
    method CarryOut(newTip: Id, plan: Plan, now: nat)
      returns (res: Result<nat, ChainError>, ghost failedAt: Option<nat>)
      requires Valid() && SceneOk(Now()) && PlanOk(Now(), newTip, plan) && newTip in index
      modifies this`index, this`blocks, this`bodyOrder, this`bodyBytes, this`active, this`utxo, this`undos, this`issued,
               this`hist, this`disconnected
      ensures Valid() && SameTree(old(index), index) && plan.fork < |old(hist)|
      ensures Decided(old(Now()), newTip, now, res, plan.fork, failedAt)
      ensures res.Ok? <==> failedAt.None?
      ensures res.Ok? ==> res.value == |old(hist)| - 1 - plan.fork
      ensures res.Ok? ==> hist == old(hist)[..plan.fork + 1] + plan.bodies && Restorable(hist, plan.fork, now)
      ensures res.Ok? ==> |active| > 0 && Last(active) == newTip && TotalWork() == old(index)[newTip].work
      ensures res.Ok? ==> |undos| == Min(SatSub(|old(undos)|, res.value) + |plan.bodies|, BODY_WINDOW)
      ensures failedAt.Some? ==>
                (hist == old(hist) <==> failedAt.value <= BODY_WINDOW && Restorable(old(hist), plan.fork, now))
      ensures failedAt.Some? && failedAt.value <= BODY_WINDOW && !Restorable(old(hist), plan.fork, now) ==>
                hist == old(hist)[..plan.fork + 1]
      ensures failedAt.Some? && failedAt.value > BODY_WINDOW ==>
                hist == old(hist)[..plan.fork + 1] + plan.bodies[..failedAt.value - BODY_WINDOW]
      ensures failedAt.Some? ==> failedAt.value < |plan.bodies|
    {
      hide CoreOk, StoreOk, BodiesOk, QueueOk, OnActive, TreeOk, RulesOk, Restorable, ClockAllows, SameTree, KnownAll,
           ValidHistory, Indexed, Ids, BodiesOf, IsBranch, TotalWork, SceneOk, TermsOk, AtHand, Fetched, AllAccepted,
           Verdict, Required, Takes, FailsAt, Decided;
      failedAt := None;
      ghost var was, before, scene := hist, index, Now();
      ActiveLength();
      PlanFacts(newTip, plan);
      var fault;
      ghost var connected;
      fault, connected := SwitchTo(plan.fork, plan.bodies, plan.oldBodies, now);
      if fault.Some? {
        failedAt := Some(connected);
        PlanFails(scene, newTip, now, plan, connected, fault.value);
        FailedReorg(rules, before, was, hist, plan.fork, plan.branch, plan.bodies, connected, now);
        return Err(Invalid(fault.value)), failedAt;
      }
      disconnected := Suffix(plan.oldBodies, RETURNED_BLOCKS);
      PlanTakes(scene, newTip, now, plan);
      TakenReorg(newTip, was, before, plan.fork, plan.branch, plan.bodies);
      return Ok(|plan.oldBodies|), failedAt;
    }

    /** Everything a reorganization needs, gathered before anything is undone.
        A branch body that is nowhere is forgotten, with what is built on it. */
    method PrepareReorg(newTip: Id) returns (plan: Result<Plan, ChainError>)
      requires Valid() && newTip in index && !OnActive(index, active, newTip)
      modifies this`index, this`blocks, this`bodyOrder, this`bodyBytes, this`sideBodies, this`sideBytes, this`wanted
      ensures Valid() && TreePart(index, old(index)) && SceneOk(old(Now()))
      ensures plan.Ok? ==> Now() == old(Now()) && PlanOk(Now(), newTip, plan.value)
      ensures plan.Err? ==> Refused(old(Now()), newTip, plan.error)
      ensures plan.Err? && Now() != old(Now()) ==>
                && plan.error == Invalid(IncompleteHistory) && TreeOk(rules, old(index))
                && exists fork, branch, i | LacksFirst(old(Now()), newTip, fork, branch, i) ::
                     index == old(index) - Descendants(rules, old(index), Listed(old(index), active, branch[i..]))
    {
      hide CoreOk, StoreOk, BodiesOk, QueueOk, OnActive, IsBranch, TreeOk, RulesOk, BodiesOf, ValidHistory, Indexed,
           Ids, TermsOk, Fetched, Descendants, Listed, SceneOk, ToSet, Refused, LacksFirst, Required, FinalityBinds,
           TotalWork;
      CoreFacts();
      ActiveLength();
      var terms := ReorgTerms(newTip);
      if terms.Err? { return Err(terms.error); }
      var (fork, branch) := terms.value;
      TermsFacts(newTip, fork, branch);
      var bodies, missing := FetchBodies(branch);
      if missing.Some? {
        LacksBody(Now(), newTip, fork, branch, missing.value);
        wanted := if |wanted| + |branch| > 4 * (MAX_REORG_DEPTH + 1) then ToSet(branch) else wanted + ToSet(branch);
        ForgetSide(branch[missing.value..]);
        return Err(Invalid(IncompleteHistory));
      }
      var oldBodies, lost := FetchBodies(active[fork + 1..]);
      if lost.Some? {
        LacksOld(Now(), newTip, fork, branch);
        return Err(Invalid(IncompleteHistory));
      }
      OldBodies(fork, oldBodies);
      return Ok(Plan(fork, branch, bodies, oldBodies));
    }

    lemma PlanFacts(newTip: Id, p: Plan)
      requires CoreValid() && SceneOk(Now()) && PlanOk(Now(), newTip, p)
      ensures RulesOk(rules) && TreeOk(rules, index) && ValidHistory(rules, hist) && Indexed(rules, index, hist)
      ensures active == Ids(rules, hist) && !OnActive(index, active, p.branch[0])
      ensures KnownAll(rules, index, p.bodies)
      ensures newTip in index && newTip == Last(p.branch) && index[newTip].work > Required(Now(), p.fork) >= TotalWork()
      ensures |p.bodies| == |p.branch| > 0 && p.fork < |hist| && |hist| - 1 - p.fork <= |undos|
      ensures FinalityBinds() ==> |p.bodies| <= MAX_REORG_DEPTH + 2 && |hist| - 1 - p.fork <= MAX_REORG_DEPTH
    {
      hide CoreOk, OnActive, TreeOk, RulesOk, ValidHistory, Indexed, Ids, Required, TermsOk, SceneOk;
      CoreFacts();
      TermsFacts(newTip, p.fork, p.branch);
      BranchKnown(rules, index, active[p.fork], p.branch, p.bodies);
    }

    /** The tip is the one aimed at, with the work it was indexed with. */
    lemma TakenReorg(newTip: Id, was: seq<Block>, before: Tree, fork: nat, branch: seq<Id>, bodies: seq<Block>)
      requires CoreValid() && SameTree(before, index) && newTip in before
      requires fork < |was| && hist == was[..fork + 1] + bodies && BodiesOf(rules, branch, bodies)
      requires |branch| > 0 && newTip == Last(branch)
      ensures |active| > 0 && Last(active) == newTip && TotalWork() == before[newTip].work
    {
      hide CoreOk, TreeOk, RulesOk, ValidHistory, Indexed, Ids, BodiesOf;
      CoreFacts();
      BranchTip(rules, hist, branch, bodies, was[..fork + 1]);
    }

    /** Body by body, what memory or disk returns for the active chain is the active chain. */
    lemma OldBodies(fork: nat, bodies: seq<Block>)
      requires CoreValid() && fork < |hist| && |active| == |hist|
      requires BodiesOf(rules, active[fork + 1..], bodies)
      ensures bodies == hist[fork + 1..]
    {
      hide Replay, ValidHistory, TreeOk, RulesOk, UndosOk, IssuedOk, ShapeOk, Acceptable;
      GenesisRules(rules);
      var olds, ids := hist[fork + 1..], active[fork + 1..];
      forall i | 0 <= i < |olds|
        ensures bodies[i] == olds[i]
      {
        assert ids[i] == active[fork + 1 + i];
        assert olds[i] == hist[fork + 1 + i];
        HistoryLinks(rules, hist, fork + 1 + i);
        BodyIsUnique(rules, bodies[i], olds[i]);
      }
    }

    lemma ReplayState()
      requires CoreValid()
      ensures State(utxo, issued) == Replay(rules, hist)
    {
    }

    lemma UndoRecords()
      requires CoreValid()
      ensures UndosOk(rules, hist, undos)
    {
    }

    /** Whatever led here, the money in circulation is covered by what was
        issued, which is within the schedule and the cap. */
    lemma Supply()
      requires CoreValid()
      ensures Total(utxo) <= issued <= Emission.GENESIS_PREMINT + Emission.Cumulative(|hist| - 1) <= Emission.MAX_SUPPLY
    {
      hide CoreOk, Total, Emission.Cumulative;
      ActiveLength();
      SupplySafe(rules, index, hist, active, State(utxo, issued), undos);
    }

    /** On regtest the work of the chain is its length. */
    lemma RegtestWork()
      requires CoreValid() && rules.regtest
      requires rules.work(rules.genesis.header.bits) + HEIGHT_LIMIT * rules.work(INITIAL_BITS) < U256_LIMIT
      ensures |hist| > 0
      ensures TotalWork() == rules.work(rules.genesis.header.bits) + (|hist| - 1) * rules.work(INITIAL_BITS)
    {
      hide CoreOk, RulesOk, TreeOk, ValidHistory, Indexed, Ids, WorkOf;
      CoreFacts();
      ActiveLength();
      TotalIs();
      GenesisRules(rules);
      HistoryLinks(rules, hist, 0);
      assert hist[..1] == [rules.genesis] && hist[..|hist|] == hist;
      WorkOne(rules, rules.genesis);
      RulesWithin(rules, hist, rules.work(INITIAL_BITS), rules.work(INITIAL_BITS));
      MulOrder(|hist| - 1, HEIGHT_LIMIT, rules.work(INITIAL_BITS));
      UniformWork(rules, hist, 1, |hist|, rules.work(INITIAL_BITS));
    }

    /** The indexed work of active blocks is the work of the blocks. */
    lemma TotalIs()
      requires CoreValid()
      ensures |active| == |hist| > 0 && TotalWork() == WorkOf(rules, hist)
      ensures forall f | 0 <= f < |hist| :: active[f] in index && index[active[f]].work == WorkOf(rules, hist[..f + 1])
    {
      hide CoreOk, RulesOk, TreeOk, ValidHistory, Indexed, Ids, WorkOf;
      CoreFacts();
      TipNode();
      forall f | 0 <= f < |hist|
        ensures active[f] in index && index[active[f]].work == WorkOf(rules, hist[..f + 1])
      {
        IdsAt(rules, hist, f);
        ActiveWork(rules, index, hist, f);
      }
      assert hist[..|hist| - 1 + 1] == hist;
    }

    /** The work asked of a branch, in terms of the blocks. */
    lemma RequiredIs()
      requires CoreValid() && SceneOk(Now())
      ensures |active| == |hist| > 0
      ensures forall f: nat | f < |hist| ::
                Required(Now(), f)
                == if FinalityBinds() then Threshold(WorkOf(rules, hist), WorkOf(rules, hist[..f + 1]), |hist| - 1 - f)
                   else WorkOf(rules, hist)
    {
      hide CoreOk, Threshold, WorkOf;
      TotalIs();
    }

    // ----------------------------------------------------------------
    // Submission
    // ----------------------------------------------------------------

    /** The verdict on a header at its place: finality first, then exactly the
        header rules a block meets when it is connected on that branch, then
        the clock. */
    method CheckContext(header: Header, now: nat) returns (fault: Option<ChainError>)
      requires CoreValid() && header.prev in index && header.height == index[header.prev].header.height + 1
      ensures TreeOk(rules, index)
      ensures fault == ContextFault(Now(), header, now)
      ensures fault.None? <==>
              && !(FinalityBinds() && |active| > header.height + MAX_REORG_DEPTH)
              && HeaderFault(rules, ContextAt(rules, Ancestry(rules, index, header.prev)), header).None?
              && header.time <= now + MAX_FUTURE_TIME
      ensures fault.Some? ==>
              || (fault.value.BeyondFinality? && FinalityBinds() && |active| > header.height + MAX_REORG_DEPTH)
              || (fault == Some(Invalid(TimestampInFuture)) && header.time > now + MAX_FUTURE_TIME)
              || forall s, b: Block | b.header == header ::
                   !Acceptable(rules, Ancestry(rules, index, header.prev), s, b)
    {
      hide CoreOk, TreeOk, RulesOk, Ancestry, ValidHistory, Indexed, Ids, RecentTimes, ExpectedBits, ShapeOk, CheckBody;
      CoreFacts();
      ActiveLength();
      ParentContext(header.prev);
      var forkDepth := SatSub(|active| - 1, header.height - 1);
      if forkDepth > MAX_REORG_DEPTH && FinalityBinds() { return Some(BeyondFinality(forkDepth)); }
      var expected := NextBitsAfter(header.prev);
      if header.bits != expected { return Some(Invalid(BadDifficulty)); }
      var times := RecentTimesAfter(header.prev);
      if times != [] && header.time <= rules.median(times) { return Some(Invalid(TimestampTooOld)); }
      if header.height >= rules.strictFrom && header.time <= index[header.prev].header.time {
        return Some(Invalid(TimestampNotAfterParent));
      }
      if header.height in rules.anchors && rules.anchors[header.height] != rules.blockId(header) {
        return Some(Invalid(NotTheAnchor));
      }
      if header.time > now + MAX_FUTURE_TIME { return Some(Invalid(TimestampInFuture)); }
      return None;
    }

    lemma ParentContext(parent: Id)
      requires RulesOk(rules) && TreeOk(rules, index) && parent in index
      ensures var c := ContextAt(rules, Ancestry(rules, index, parent));
              && c.height == index[parent].header.height + 1
              && c.prevId == parent
              && c.parentTime == index[parent].header.time
    {
      hide TreeOk, Ancestry, TxidOk, RootsOk, RecentTimes, ExpectedBits;
      AncestryLength(rules, index, parent);
      TreeNode(rules, index, parent);
    }

    /** Walks back to where the branch leaves the active chain, and compares
        there.  Where that is out of reach nothing is too easy. */
    method TooEasyForSide(parent: Id, work: nat) returns (easy: bool)
      requires CoreValid() && parent in index
      ensures TreeOk(rules, index)
      ensures easy <==> TooEasy(Now(), parent, work)
    {
      hide CoreOk, RulesOk, TreeOk, Ancestor, ValidHistory, Indexed, Ids;
      CoreFacts();
      var current := parent;
      var i := 0;
      AncestorZero(rules, index, parent);
      while i <= BODY_WINDOW + 1
        invariant i <= BODY_WINDOW + 2
        invariant current in index && current == Ancestor(rules, index, parent, i)
        invariant forall k: nat | k < i :: !OnActive(index, active, Ancestor(rules, index, parent, k))
      {
        var h := index[current].header;
        if h.height < |active| && active[h.height] == current {
          assert LeavesActiveAt(Now(), parent, i);
          return work * SIDE_BRANCH_EASE_LIMIT < U256_LIMIT && work * SIDE_BRANCH_EASE_LIMIT < rules.work(h.bits);
        }
        OneBack(parent, i);
        if h.height == 0 { return false; }
        current := h.prev;
        i := i + 1;
      }
      return false;
    }

    /** Every check a side block meets before it is indexed, cheapest first.
        What passes lacks only what needs the branch's own state. */
    method CheckSide(block: Block, now: nat) returns (fault: Option<ChainError>)
      requires Valid() && block.header.prev in index
      requires block.header.height == index[block.header.prev].header.height + 1
      ensures TreeOk(rules, index) && SceneOk(Now())
      ensures fault == SideFault(Now(), block, now)
      ensures fault.None? ==>
                && HeaderFault(rules, ContextAt(rules, Ancestry(rules, index, block.header.prev)), block.header).None?
                && ClockAllows(block, now) && ShapeOk(rules, block)
                && rules.size(block) <= MAX_BLOCK_SIZE && rules.powOk(block.header)
    {
      hide CoreOk, StoreOk, BodiesOk, QueueOk, RulesOk, TreeOk, ValidHistory, Indexed, Ids, OnActive, ShapeOk,
           ContextAt, Ancestry, AddWork, TooEasy, HeaderFault;
      var header := block.header;
      SceneValid();
      fault := CheckContext(header, now);
      if fault.Some? { return; }
      var work := rules.work(header.bits);
      if AddWork(index[header.prev].work, work) <= index[active[|active| - 1]].work {
        var easy := TooEasyForSide(header.prev, work);
        if easy { return Some(SideBranchTooEasy); }
      }
      if !ShapeOk(rules, block) { return Some(Invalid(Structure)); }
      if rules.size(block) > MAX_BLOCK_SIZE { return Some(Invalid(BlockTooLarge)); }
      if !rules.powOk(header) { return Some(Invalid(ProofOfWork)); }
    }

    /** A side block enters the index and memory; the active chain does not move. */
    method IndexSide(block: Block)
      requires Valid() && block.header.prev in index && rules.blockId(block.header) !in index
      requires block.header.height == index[block.header.prev].header.height + 1 < HEIGHT_LIMIT
      requires ShapeOk(rules, block)
      modifies this`index, this`blocks, this`bodyOrder, this`bodyBytes, this`sideBodies, this`sideBytes
      ensures Valid() && Beside(old(Now()), block, Now())
      ensures !OnActive(index, active, rules.blockId(block.header))
    {
      hide CoreOk, StoreOk, BodiesOk, RulesOk, TreeOk, ValidHistory, Indexed, Ids, ShapeOk, QueueOk, AddWork, KeptAside,
           SideWork;
      GenesisFirst();
      var id := rules.blockId(block.header);
      var n := Node(block.header, AddWork(index[block.header.prev].work, rules.work(block.header.bits)), 0);
      WorkAside(block);
      GrowKeeps(rules, index, hist, active, State(utxo, issued), undos, n);
      NewIsNotActive(id);
      StoreSide(block);
      index := index[id := n];
      assert index.Keys == old(index).Keys + {id};
    }

    lemma WorkAside(block: Block)
      requires block.header.prev in index
      ensures SideWork(Now(), block) == AddWork(index[block.header.prev].work, rules.work(block.header.bits))
    {
    }

    /** The body of a side block enters memory and both queues, and is still
        there when its turn is over. */
    method StoreSide(block: Block)
      requires Valid() && rules.blockId(block.header) !in index && ShapeOk(rules, block)
      modifies this`blocks, this`bodyOrder, this`bodyBytes, this`sideBodies, this`sideBytes
      ensures StoreValid() && QueueOk(index.Keys + {rules.blockId(block.header)}, bodyOrder, sideBodies)
      ensures KeptAside(old(Now()), block, blocks)
    {
      hide CoreOk, StoreOk, BodiesOk, RulesOk, TreeOk, ValidHistory, Indexed, Ids, ShapeOk, PrunedTo, Without,
           WeightSum;
      CoreFacts();
      GenesisFirst();
      var id := rules.blockId(block.header);
      NewIsNotActive(id);
      ghost var queued := sideBodies;
      ghost var gone := KeepBody(id, block);
      gone := KeepSideBody(id, rules.size(block));
      SideIdsIn(index, active, queued + [(id, rules.size(block))], gone);
      if rules.size(block) <= SIDE_BODY_BUDGET_BYTES { NewestStays(queued, (id, rules.size(block)), gone); }
    }

    lemma NewIsNotActive(id: Id)
      requires CoreValid() && id !in index
      ensures id !in active && id != GenesisId(rules)
    {
      hide CoreOk, RulesOk, ValidHistory, Ids;
      CoreFacts();
      if id in active { ActiveInIndex(rules, index, hist, id); }
    }

    /** The active chain, and whether finality binds. */
    ghost function Stand(): Standing
      reads this
    {
      Standing(hist, FinalityBinds())
    }

    /** The block is not on a parent at the last height below the limit. */
    predicate Room(block: Block)
      reads this
    {
      && block.header.prev in index && block.header.height == index[block.header.prev].header.height + 1
      ==> block.header.height < HEIGHT_LIMIT
    }

    /** Any block, from anywhere: it extends the tip, is kept aside, sets off a
        reorganization, or is refused.  `Answer` says which, in every case;
        `Outcome` what becomes of the active chain. */
    method Submit(block: Block, now: nat) returns (res: Result<Accept, ChainError>, ghost tried: Attempt)
      requires Valid() && Room(block)
      modifies this
      ensures Valid() && SceneOk(old(Now())) && TreeOk(rules, old(index))
      ensures unchanged(`bound) && unchanged(`returning) && unchanged(`finalityHold) && unchanged(`source)
      ensures Answer(old(Now()), block, now, res, tried)
      ensures Outcome(rules, old(Stand()), Stand(), block, now, res, tried.fork, tried.failedAt)
      ensures !Aside(old(Now()), block, now) && res != Ok(Extended) ==> Now() == old(Now())
      ensures res == Ok(Extended) ==> Extends(old(Now()), block, Now())
      ensures Aside(old(Now()), block, now) ==> Followed(old(Now()), block, now, res, tried, Now())
    {
      hide CoreOk, StoreOk, BodiesOk, QueueOk, RulesOk, TreeOk, ValidHistory, Indexed, Ids, Restorable, ClockAllows,
           WorkOf, SideFault, Headers, CheckBlock, ContextAt, Replay, AddWork;
      var header := block.header;
      tried := Attempt(Now(), 0, None);
      SceneValid();
      TotalIs();
      if rules.blockId(header) in index { return Ok(AlreadyKnown), tried; }
      if header.prev !in index { return Err(UnknownParent), tried; }
      if header.height != index[header.prev].header.height + 1 { return Err(Invalid(BadHeight)), tried; }
      if header.prev == active[|active| - 1] {
        var fees := Connect(block, now);
        TipNode();
        TotalIs();
        return if fees.Err? then Err(Invalid(fees.error)) else Ok(Extended), tried;
      }
      res, tried := SubmitSide(block, now);
    }

    /** A block that does not extend the tip: checked, indexed, and followed if
        its branch leads. */
    method SubmitSide(block: Block, now: nat) returns (res: Result<Accept, ChainError>, ghost tried: Attempt)
      requires Valid() && block.header.prev in index && rules.blockId(block.header) !in index
      requires block.header.height == index[block.header.prev].header.height + 1 < HEIGHT_LIMIT
      requires |active| > 0 && block.header.prev != Last(active)
      modifies this
      ensures Valid() && SceneOk(old(Now())) && TreeOk(rules, old(index))
      ensures unchanged(`bound) && unchanged(`returning) && unchanged(`finalityHold) && unchanged(`source)
      ensures Answer(old(Now()), block, now, res, tried)
      ensures Outcome(rules, old(Stand()), Stand(), block, now, res, tried.fork, tried.failedAt)
      ensures !Aside(old(Now()), block, now) ==> Now() == old(Now())
      ensures Aside(old(Now()), block, now) ==> Followed(old(Now()), block, now, res, tried, Now())
      ensures res != Ok(Extended)
    {
      hide CoreOk, StoreOk, BodiesOk, QueueOk, RulesOk, TreeOk, ValidHistory, Indexed, Ids, OnActive, Restorable,
           TreePart, ShapeOk, ClockAllows, Ancestry, AddWork, HeaderFault, ContextAt, SideFault, Decided, SceneOk,
           WorkOf, Verdict, Takes, Required, Landed, KeptAside, Threshold, GenesisId;
      ghost var scene := Now();
      tried := Attempt(scene, 0, None);
      SceneValid();
      TotalIs();
      var fault := CheckSide(block, now);
      if fault.Some? { return Err(fault.value), tried; }
      var total := AddWork(index[block.header.prev].work, rules.work(block.header.bits));
      IndexSide(block);
      SceneValid();
      NothingTried(scene, rules.blockId(block.header), now, Now());
      if total <= index[active[|active| - 1]].work { return Ok(SideBranch), tried; }
      res, tried := FollowSide(block, now);
    }

    /** An indexed side block that leads: its branch is followed, or stays aside. */
    method FollowSide(block: Block, now: nat) returns (res: Result<Accept, ChainError>, ghost tried: Attempt)
      requires Valid() && rules.blockId(block.header) in index
      requires index[rules.blockId(block.header)].header == block.header
      requires !OnActive(index, active, rules.blockId(block.header))
      modifies this
      ensures Valid() && SceneOk(old(Now())) && tried.scene == old(Now())
      ensures unchanged(`bound) && unchanged(`returning) && unchanged(`finalityHold) && unchanged(`source)
      ensures res.Ok? ==> res.value.Reorganized?
      ensures Decided(old(Now()), rules.blockId(block.header), now,
                      if res.Ok? then Ok(res.value.depth) else Err(res.error), tried.fork, tried.failedAt)
      ensures Outcome(rules, old(Stand()), Stand(), block, now, res, tried.fork, tried.failedAt)
      ensures Landed(old(Now()), rules.blockId(block.header), now, res.Ok?, tried.fork, tried.failedAt, Now())
      ensures res.Err? && tried.failedAt.None? && res.error != Invalid(IncompleteHistory) ==> Now() == old(Now())
    {
      hide CoreOk, StoreOk, BodiesOk, QueueOk, RulesOk, TreeOk, ValidHistory, Indexed, Ids, OnActive, Restorable,
           TreePart, ClockAllows, Decided, SceneOk, WorkOf, Takes, Required, Landed, Threshold, GenesisId;
      ghost var seen := Now();
      SceneValid();
      TotalIs();
      RequiredIs();
      ghost var fork, failedAt;
      var depth;
      depth, fork, failedAt := TryReorg(rules.blockId(block.header), now);
      tried := Attempt(seen, fork, failedAt);
      TipStays(seen.index);
      TotalIs();
      return if depth.Err? then Err(depth.error) else Ok(Reorganized(depth.value)), tried;
    }

    /** A block still indexed has the header and the work it had. */
    lemma TipStays(was: Tree)
      requires CoreValid() && TreePart(index, was)
      ensures |active| == |hist| > 0 && Last(active) in index && Last(active) in was
      ensures Last(active) == rules.blockId(Last(hist).header)
      ensures index[Last(active)].header == was[Last(active)].header == Last(hist).header
      ensures TotalWork() == was[Last(active)].work
    {
      hide CoreOk;
      TipNode();
    }
  }

  /** The index after a block on the tip: one more key, and the work it adds. */
  lemma AttachedTree(r: Rules, t: Tree, active: seq<Id>, b: Block, issued: nat)
    requires b.header.prev in t && |active| > 0 && b.header.prev == Last(active)
    ensures var id := r.blockId(b.header);
            var t' := t[id := ConnectedNode(r, t, b, issued)];
            && t'.Keys == t.Keys + {id} && Last(active + [id]) == id
            && t'[id].work == AddWork(t[Last(active)].work, r.work(b.header.bits))
  {
    hide AddWork;
  }

  lemma GenesisCore(r: Rules)
    requires RulesOk(r)
    ensures var s := GenesisState(r);
            CoreOk(r, map[GenesisId(r) := Node(r.genesis.header, r.work(r.genesis.header.bits), s.issued)],
                   [r.genesis], [GenesisId(r)], s, [RecordTxs(r, map[], r.genesis.txs, 0, NOTHING_UNDONE)])
  {
    hide GenesisState, RecordTxs, TxidOk, RootsOk;
    var one := [r.genesis];
    assert one[..1] == one;
  }

  lemma NoBodies(r: Rules)
    ensures BodiesOk(r, map[])
  {
  }

  lemma GenesisStore(r: Rules)
    requires RulesOk(r)
    ensures StoreOk(r, GenesisId(r), map[GenesisId(r) := r.genesis], [GenesisId(r)], r.size(r.genesis), [], 0)
    ensures BodiesOk(r, map[])
  {
    hide TxidOk, RootsOk, MapSum;
    MapSumEmpty<Id, Block>(r.size);
    MapSumInsert(map[], r.size, GenesisId(r), r.genesis);
    assert map[][GenesisId(r) := r.genesis] == map[GenesisId(r) := r.genesis];
  }

  /** What a submission does to the active chain.  `fork` and `failedAt` are
      those of the reorganization it set off, if any. */
  ghost predicate Outcome(r: Rules, before: Standing, after: Standing, block: Block, now: nat,
                          res: Result<Accept, ChainError>, fork: nat, failedAt: Option<nat>)
  {
    && |before.hist| > 0 && |after.hist| > 0
    && (before.binds ==> |before.hist| > r.lastAnchor)
    && (before.binds && |after.hist| > r.lastAnchor ==> after.binds)
    && (match res
        case Ok(Extended) => after.hist == before.hist + [block] && ClockAllows(block, now)
        case Ok(Reorganized(depth)) =>
          && fork < |before.hist| && depth == |before.hist| - 1 - fork && (before.binds ==> depth <= MAX_REORG_DEPTH)
          && |after.hist| > fork + 1 && after.hist[..fork + 1] == before.hist[..fork + 1]
          && Last(after.hist).header == block.header && Restorable(after.hist, fork, now)
          && WorkOf(r, after.hist) > WorkOf(r, before.hist)
          && (before.binds ==> |after.hist| <= fork + MAX_REORG_DEPTH + 3)
          && (before.binds ==>
                WorkOf(r, after.hist) > Threshold(WorkOf(r, before.hist), WorkOf(r, before.hist[..fork + 1]), depth))
        case Ok(_) => after.hist == before.hist
        case Err(_) =>
          match failedAt
          case None => after.hist == before.hist
          case Some(connected) =>
            && fork < |before.hist|
            && (after.hist == before.hist <==> connected <= BODY_WINDOW && Restorable(before.hist, fork, now))
            && (connected <= BODY_WINDOW && after.hist != before.hist ==> after.hist == before.hist[..fork + 1])
            && (before.binds ==> connected <= BODY_WINDOW))
  }

  // ------------------------------------------------------------------
  // What a submission answers
  // ------------------------------------------------------------------

  /** A new block on a known parent off the tip, which every check lets in. */
  ghost predicate Aside(s: Scene, block: Block, now: nat)
    requires SceneOk(s) && TreeOk(s.rules, s.index)
  {
    && s.rules.blockId(block.header) !in s.index && block.header.prev in s.index
    && block.header.height == s.index[block.header.prev].header.height + 1
    && block.header.prev != Last(s.active) && SideFault(s, block, now).None?
  }

  /** The verdict on any block, case by case. */
  ghost predicate Answer(s: Scene, block: Block, now: nat, res: Result<Accept, ChainError>, tried: Attempt)
    requires SceneOk(s) && TreeOk(s.rules, s.index)
  {
    var id, prev := s.rules.blockId(block.header), block.header.prev;
    if id in s.index then res == Ok(AlreadyKnown)
    else if prev !in s.index then res == Err(UnknownParent)
    else if block.header.height != s.index[prev].header.height + 1 then res == Err(Invalid(BadHeight))
    else if prev == Last(s.active) then
      res == match Verdict(s.rules, s.hist, block, now)
             case Ok(_) => Ok(Extended)
             case Err(e) => Err(Invalid(e))
    else if SideFault(s, block, now).Some? then res == Err(SideFault(s, block, now).value)
    else if SideWork(s, block) <= s.index[Last(s.active)].work then res == Ok(SideBranch)
    else
      && Beside(s, block, tried.scene) && SceneOk(tried.scene)
      && match res
         case Ok(Reorganized(depth)) => Decided(tried.scene, id, now, Ok(depth), tried.fork, tried.failedAt)
         case Ok(_) => false
         case Err(e) => Decided(tried.scene, id, now, Err(e), tried.fork, tried.failedAt)
  }

  /** The block is on the tip, and the only one added to the index. */
  ghost predicate Extends(s: Scene, block: Block, after: Scene) {
    && after.hist == s.hist + [block] && after.disk == s.disk
    && after.undos == Min(s.undos + 1, BODY_WINDOW)
    && after.index.Keys == s.index.Keys + {s.rules.blockId(block.header)}
  }

  /** Only the index, with one node more, and memory have changed. */
  ghost predicate Beside(s: Scene, block: Block, after: Scene) {
    && block.header.prev in s.index
    && var id := s.rules.blockId(block.header);
    && after == s.(index := s.index[id := Node(block.header, SideWork(s, block), 0)], memory := after.memory)
    && KeptAside(s, block, after.memory)
  }

  /** Memory holds this body, if it may be that large, and others as they were. */
  ghost predicate KeptAside(s: Scene, block: Block, memory: map<Id, Block>) {
    && var id := s.rules.blockId(block.header);
    && (forall i | i in memory :: i in s.memory[id := block] && memory[i] == s.memory[id := block][i])
    && (s.rules.size(block) <= MAX_BLOCK_SIZE && s.rules.size(s.rules.genesis) <= MAX_BLOCK_SIZE ==> id in memory)
  }

  /** After a block was indexed aside: what a refusal leaves, and what it does not. */
  ghost predicate Followed(s: Scene, block: Block, now: nat, res: Result<Accept, ChainError>, tried: Attempt,
                           after: Scene) {
    && block.header.prev in s.index
    && (res == Ok(SideBranch) ==> Beside(s, block, after))
    && (res.Err? && tried.failedAt.None? && res.error != Invalid(IncompleteHistory) ==> after == tried.scene)
    && SceneOk(tried.scene)
    && Landed(tried.scene, s.rules.blockId(block.header), now, res.Ok? && res.value.Reorganized?, tried.fork,
              tried.failedAt, after)
  }

  /** A set closed under children and holding the roots holds every descendant. */
  lemma DescendantsIn(r: Rules, t: Tree, roots: set<Id>, gone: set<Id>)
    requires TreeOk(r, t) && roots <= gone && ClosedDown(r, t, gone)
    ensures forall id | id in t && Descends(r, t, roots, id) :: id in gone
  {
    hide TreeOk, ClosedDown;
    forall id | id in t && Descends(r, t, roots, id)
      ensures id in gone
    {
      var k: nat :| Ancestor(r, t, id, k) in roots;
      ClosedHasDescendants(r, t, gone, id, k);
    }
  }

  lemma ListedIndexed(t: Tree, active: seq<Id>, ids: seq<Id>)
    ensures Listed(t, active, ids) <= t.Keys
  {
  }

  lemma AncestorZero(r: Rules, t: Tree, id: Id)
    requires TreeOk(r, t) && id in t
    ensures Ancestor(r, t, id, 0) == id
  {
  }

  lemma ActiveInIndex(r: Rules, t: Tree, hist: seq<Block>, id: Id)
    requires Indexed(r, t, hist) && id in Ids(r, hist)
    ensures id in t
  {
  }

  /** The clock allows every block above the fork again. */
  ghost predicate Restorable(hist: seq<Block>, fork: nat, now: nat) {
    forall i | fork < i < |hist| :: ClockAllows(hist[i], now)
  }

  /** An old block does not fit on top of a chain longer than the fork. */
  lemma ReconnectTooHigh(r: Rules, was: seq<Block>, fork: nat, olds: seq<Block>, again: nat, start: nat)
    requires RulesOk(r) && ValidHistory(r, was) && fork < |was| && olds == was[fork + 1..]
    requires again <= |olds| && start > fork + 1
    requires forall i | 0 <= i < again :: olds[i].header.height == start + i
    ensures again == 0
  {
    hide ValidHistory, RulesOk, ShapeOk, Acceptable;
    if |olds| > 0 {
      GenesisRules(r);
      HistoryLinks(r, was, fork + 1);
      assert olds[0] == was[fork + 1];
    }
  }

  /** On the state they were connected on, old blocks are refused by the clock only. */
  lemma ReconnectOld(r: Rules, was: seq<Block>, fork: nat, olds: seq<Block>, again: nat, now: nat)
    requires RulesOk(r) && ValidHistory(r, was) && fork < |was| && olds == was[fork + 1..]
    requires again <= |olds|
    requires forall i | 0 <= i < again :: ClockAllows(olds[i], now)
    requires again < |olds| ==> !Accepted(r, was[..fork + 1 + again], olds[again], now)
    ensures again == |olds| <==> Restorable(was, fork, now)
  {
    hide ValidHistory, RulesOk, ShapeOk, Acceptable, Headers, Replay, ClockAllows, ContextAt, CheckBlock;
    var k := fork + 1 + again;
    if k < |was| {
      GenesisRules(r);
      HistoryLinks(r, was, k);
      HeadersLength(was[..k]);
      ClockIsOneGate(r, Headers(was[..k]), Replay(r, was[..k]), was[k], now);
      assert !ClockAllows(was[k], now);
    } else {
      forall i | fork < i < |was|
        ensures ClockAllows(was[i], now)
      {
        assert olds[i - fork - 1] == was[i];
      }
    }
  }

  lemma KnownAcross(r: Rules, t: Tree, t': Tree, bodies: seq<Block>)
    requires KnownAll(r, t, bodies) && SameTree(t, t')
    ensures KnownAll(r, t', bodies)
  {
  }

  lemma AllAllowed(base: seq<Block>, bodies: seq<Block>, now: nat)
    requires |base| > 0 && forall i | 0 <= i < |bodies| :: ClockAllows(bodies[i], now)
    ensures Restorable(base + bodies, |base| - 1, now)
  {
    hide ClockAllows;
  }

  lemma RestorableTip(hist: seq<Block>, fork: nat, now: nat)
    requires fork < |hist|
    ensures |hist| == fork + 1 ==> Restorable(hist, fork, now)
  {
  }

  /** A branch does not start with the block it competes with. */
  lemma NotOld(r: Rules, t: Tree, was: seq<Block>, at: nat, branch: seq<Id>, bodies: seq<Block>, k: nat)
    requires RulesOk(r) && TreeOk(r, t) && ValidHistory(r, was) && Indexed(r, t, was) && at < |was|
    requires BodiesOf(r, branch, bodies) && 0 < k <= |bodies| && !OnActive(t, Ids(r, was), branch[0])
    ensures was[..at + 1] + bodies[..k] != was
  {
    hide RulesOk, TreeOk, ValidHistory, OnActive, ShapeOk;
    OnActiveIff(r, t, was, branch[0]);
    var mixed := was[..at + 1] + bodies[..k];
    assert mixed[at + 1] == bodies[0];
    if at + 1 < |was| {
      assert Ids(r, was)[at + 1] == r.blockId(was[at + 1].header);
    }
  }

  /** The old chain is back exactly when nothing was lost. */
  lemma FailedReorg(r: Rules, t: Tree, was: seq<Block>, hist: seq<Block>, at: nat, branch: seq<Id>, bodies: seq<Block>,
                    connected: nat, now: nat)
    requires RulesOk(r) && TreeOk(r, t) && ValidHistory(r, was) && Indexed(r, t, was) && at < |was|
    requires BodiesOf(r, branch, bodies) && connected < |bodies| && !OnActive(t, Ids(r, was), branch[0])
    requires connected > BODY_WINDOW ==> hist == was[..at + 1] + bodies[..connected - BODY_WINDOW]
    requires connected <= BODY_WINDOW ==> hist == if Restorable(was, at, now) then was else was[..at + 1]
    ensures hist == was <==> connected <= BODY_WINDOW && Restorable(was, at, now)
  {
    hide RulesOk, TreeOk, ValidHistory, OnActive, Indexed, BodiesOf, Ids, Restorable;
    RestorableTip(was, at, now);
    if connected > BODY_WINDOW { NotOld(r, t, was, at, branch, bodies, connected - BODY_WINDOW); }
  }

  lemma BranchTip(r: Rules, hist: seq<Block>, branch: seq<Id>, bodies: seq<Block>, base: seq<Block>)
    requires BodiesOf(r, branch, bodies) && |branch| > 0 && hist == base + bodies
    ensures |Ids(r, hist)| > 0 && Last(Ids(r, hist)) == Last(branch)
  {
    hide ShapeOk;
    assert Last(hist) == Last(bodies);
  }

  /** The bodies of an indexed branch. */
  lemma BranchKnown(r: Rules, t: Tree, base: Id, branch: seq<Id>, bodies: seq<Block>)
    requires IsBranch(t, base, branch) && BodiesOf(r, branch, bodies)
    ensures KnownAll(r, t, bodies)
  {
    hide ShapeOk, Below;
  }

  /** The ids of these side bodies that have not become active. */
  ghost function SideIds(t: Tree, active: seq<Id>, side: seq<(Id, nat)>): set<Id> {
    set e | e in side && !OnActive(t, active, e.0) :: e.0
  }

  lemma SideIdsStep(t: Tree, active: seq<Id>, side: seq<(Id, nat)>, k: nat)
    requires k < |side|
    ensures SideIds(t, active, side[..k + 1])
         == SideIds(t, active, side[..k]) + if OnActive(t, active, side[k].0) then {} else {side[k].0}
  {
    assert side[..k + 1] == side[..k] + [side[k]];
  }

  /** The oldest side body leaves memory, if it is there and not active. */
  lemma SideEvicts(t: Tree, active: seq<Id>, side: seq<(Id, nat)>, k: nat, was: map<Id, Block>, kept: map<Id, Block>)
    requires k < |side| && kept == was - SideIds(t, active, side[..k])
    ensures was - SideIds(t, active, side[..k + 1])
            == if !OnActive(t, active, side[k].0) && side[k].0 in kept then kept - {side[k].0} else kept
  {
    hide OnActive, SideIds;
    SideIdsStep(t, active, side, k);
  }

  lemma NoSideIds(t: Tree, active: seq<Id>)
    ensures SideIds(t, active, []) == {}
  {
  }

  lemma SideIdsIn(t: Tree, active: seq<Id>, side: seq<(Id, nat)>, k: nat)
    requires k <= |side|
    ensures forall id | id in SideIds(t, active, side[..k]) :: exists i | 0 <= i < k :: side[i].0 == id
  {
  }

  lemma AcceptedNone(r: Rules, base: seq<Block>, bodies: seq<Block>, now: nat)
    requires |base| > 0
    ensures AllAccepted(r, base, bodies, 0, now)
  {
  }

  lemma AcceptedSnoc(r: Rules, base: seq<Block>, bodies: seq<Block>, n: nat, now: nat)
    requires |base| > 0 && n < |bodies| && AllAccepted(r, base, bodies, n, now)
    requires Verdict(r, base + bodies[..n], bodies[n], now).Ok?
    ensures AllAccepted(r, base, bodies, n + 1, now)
  {
    hide Verdict;
  }

  /** The plan meets its terms and holds every body it needs. */
  ghost predicate PlanOk(s: Scene, newTip: Id, p: Plan)
    requires SceneOk(s)
  {
    && TermsOk(s, newTip, p.fork, p.branch) && AtHand(s, p.fork, p.branch)
    && p.bodies == Fetched(s, p.branch) && BodiesOf(s.rules, p.branch, p.bodies)
    && p.oldBodies == s.hist[p.fork + 1..]
  }

  /** The branch may take over, and block `i` is the first whose body is nowhere. */
  ghost predicate LacksFirst(s: Scene, tip: Id, fork: nat, branch: seq<Id>, i: nat)
    requires SceneOk(s)
  {
    TermsOk(s, tip, fork, branch) && i < |branch| && branch[i] !in Held(s) && Found(s, branch[..i])
  }

  lemma LacksBody(s: Scene, tip: Id, fork: nat, branch: seq<Id>, i: nat)
    requires SceneOk(s) && tip in s.index && TermsOk(s, tip, fork, branch)
    requires i < |branch| && branch[i] !in Held(s) && Found(s, branch[..i])
    ensures LacksFirst(s, tip, fork, branch, i) && Refused(s, tip, Invalid(IncompleteHistory))
  {
    hide TermsFault, IsBranch, OnActive, SceneOk;
    assert !AtHand(s, fork, branch);
  }

  lemma LacksOld(s: Scene, tip: Id, fork: nat, branch: seq<Id>)
    requires SceneOk(s) && tip in s.index && TermsOk(s, tip, fork, branch) && !Found(s, s.active[fork + 1..])
    ensures Refused(s, tip, Invalid(IncompleteHistory))
  {
    hide TermsFault, IsBranch, OnActive, SceneOk, Found;
    assert !AtHand(s, fork, branch);
  }

  lemma PlanTakes(s: Scene, tip: Id, now: nat, p: Plan)
    requires SceneOk(s) && tip in s.index && PlanOk(s, tip, p)
    requires AllAccepted(s.rules, s.hist[..p.fork + 1], p.bodies, |p.bodies|, now)
    ensures Takes(s, tip, now, p.fork, p.branch)
    ensures Decided(s, tip, now, Ok(|p.oldBodies|), p.fork, None)
  {
    hide TermsFault, IsBranch, OnActive, AllAccepted, Fetched, BodiesOf;
  }

  lemma PlanFails(s: Scene, tip: Id, now: nat, p: Plan, n: nat, e: ValidationError)
    requires SceneOk(s) && tip in s.index && PlanOk(s, tip, p) && n < |p.bodies|
    requires AllAccepted(s.rules, s.hist[..p.fork + 1], p.bodies, n, now)
    requires Verdict(s.rules, s.hist[..p.fork + 1] + p.bodies[..n], p.bodies[n], now) == Err(e)
    ensures FailsAt(s, tip, now, p.fork, p.branch, n, e)
    ensures Decided(s, tip, now, Err(Invalid(e)), p.fork, Some(n))
  {
    hide TermsFault, IsBranch, OnActive, AllAccepted, Fetched, BodiesOf, Verdict;
  }

  /** Where a reorganization leaves the chain: on the whole branch if `taken`,
      or on the first blocks of one that failed past the undo window. */
  ghost predicate Landed(s: Scene, tip: Id, now: nat, taken: bool, fork: nat, failedAt: Option<nat>, after: Scene)
    requires SceneOk(s)
  {
    && after.disk == s.disk && after.rules == s.rules
    && (taken || failedAt.Some? ==> SameTree(s.index, after.index))
    && (taken ==> exists branch ::
          && Takes(s, tip, now, fork, branch) && after.hist == s.hist[..fork + 1] + Fetched(s, branch)
          && after.undos == Min(SatSub(s.undos, DepthAt(s, fork)) + |branch|, BODY_WINDOW))
    && (failedAt.Some? && failedAt.value > BODY_WINDOW ==> exists branch ::
          && TermsOk(s, tip, fork, branch) && AtHand(s, fork, branch) && failedAt.value < |branch|
          && after.hist == s.hist[..fork + 1] + Fetched(s, branch)[..failedAt.value - BODY_WINDOW])
  }

  lemma PlanLands(s: Scene, tip: Id, now: nat, p: Plan, res: Result<nat, ChainError>, failedAt: Option<nat>,
                  after: Scene)
    requires SceneOk(s) && tip in s.index && PlanOk(s, tip, p) && Decided(s, tip, now, res, p.fork, failedAt)
    requires after.disk == s.disk && after.rules == s.rules && SameTree(s.index, after.index)
             && (res.Ok? <==> failedAt.None?)
    requires res.Ok? ==> after.hist == s.hist[..p.fork + 1] + p.bodies
    requires res.Ok? ==> after.undos == Min(SatSub(s.undos, DepthAt(s, p.fork)) + |p.bodies|, BODY_WINDOW)
    requires failedAt.Some? ==> failedAt.value < |p.bodies|
    requires failedAt.Some? && failedAt.value > BODY_WINDOW ==>
               after.hist == s.hist[..p.fork + 1] + p.bodies[..failedAt.value - BODY_WINDOW]
    ensures Landed(s, tip, now, res.Ok?, p.fork, failedAt, after)
  {
    hide IsBranch, OnActive, TermsFault, AllAccepted, Found, Fetched, SameTree, BodiesOf;
    if res.Ok? {
      var branch :| Takes(s, tip, now, p.fork, branch);
      OnePath(s, tip, p.fork, p.branch, p.fork, branch);
    }
  }

  lemma NothingTried(s: Scene, tip: Id, now: nat, after: Scene)
    requires SceneOk(s) && after.disk == s.disk && after.rules == s.rules
    ensures Landed(s, tip, now, false, 0, None, after)
  {
    hide SceneOk;
  }

  lemma RefusedDecided(s: Scene, tip: Id, now: nat, e: ChainError, fork: nat)
    requires SceneOk(s) && tip in s.index && Refused(s, tip, e)
    ensures Decided(s, tip, now, Err(e), fork, None)
  {
    hide Refused;
  }

  /** A reorganization succeeds exactly when some branch takes over. */
  lemma DecidedTakes(s: Scene, tip: Id, now: nat, res: Result<nat, ChainError>, fork: nat, failedAt: Option<nat>)
    requires SceneOk(s) && tip in s.index && Decided(s, tip, now, res, fork, failedAt)
    ensures res.Ok? <==> exists at, branch :: Takes(s, tip, now, at, branch)
  {
    hide Takes, Refused, FailsAt;
    if at, branch :| Takes(s, tip, now, at, branch) { MustTake(s, tip, now, res, fork, failedAt, at, branch); }
  }

  /** Some blocks of a tree, with the same headers and work. */
  ghost predicate TreePart(a: Tree, b: Tree) {
    forall id | id in a :: id in b && a[id].header == b[id].header && a[id].work == b[id].work
  }

  lemma SameTreePart(a: Tree, b: Tree)
    requires SameTree(a, b)
    ensures TreePart(b, a)
  {
  }

  ghost predicate BodiesOf(r: Rules, ids: seq<Id>, bodies: seq<Block>) {
    && |bodies| == |ids|
    && (forall i | 0 <= i < |ids| :: r.blockId(bodies[i].header) == ids[i] && ShapeOk(r, bodies[i]))
  }

  ghost predicate KnownAll(r: Rules, t: Tree, bodies: seq<Block>) {
    forall i | 0 <= i < |bodies| :: r.blockId(bodies[i].header) in t
  }

  lemma KnownStays(r: Rules, t: Tree, t': Tree, bodies: seq<Block>, i: nat)
    requires KnownAll(r, t, bodies) && SameTree(t, t') && i < |bodies|
    ensures r.blockId(bodies[i].header) in t'
  {
  }

  lemma KnownHeight(r: Rules, t: Tree, b: Block)
    requires RulesOk(r) && TreeOk(r, t) && r.blockId(b.header) in t
    ensures t[r.blockId(b.header)].header == b.header && b.header.height < HEIGHT_LIMIT
  {
    hide TreeOk, TxidOk, RootsOk, GenesisOk;
    TreeNode(r, t, r.blockId(b.header));
  }

  lemma HeadersLength(hist: seq<Block>)
    ensures |Headers(hist)| == |hist|
  {
  }

  lemma SameTreeRefl(t: Tree)
    ensures SameTree(t, t)
  {
  }

  lemma SameTreeTrans(a: Tree, b: Tree, c: Tree)
    requires SameTree(a, b) && SameTree(b, c)
    ensures SameTree(a, c)
  {
  }

  /** An accepted block: its fees are what replaying it counts. */
  lemma AcceptedNow(r: Rules, headers: seq<Header>, s: State, b: Block, now: nat)
    requires |headers| > 0 && RulesOk(r)
    requires CheckBlock(r, ContextAt(r, headers), s, b, now).Ok?
    ensures Acceptable(r, headers, s, b) && ClockAllows(b, now)
    ensures |b.txs| > 0 && ShapeOk(r, b)
    ensures CheckBlock(r, ContextAt(r, headers), s, b, now).value == Fees(r, s, b, |headers|)
    ensures Emitted(r, s, b, |headers|) == SatSub(OutputSum(b.txs[0].outputs), Fees(r, s, b, |headers|))
    ensures r.blockId(b.header) != GenesisId(r)
    ensures b.header.height == |headers|
  {
    hide CheckTxs, HasMarker, TxidOk, RootsOk;
    GenesisHeight(r);
  }
}
