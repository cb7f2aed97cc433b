/** The block bodies a chain keeps in memory, and their budgets. */
module Bodies {
  import opened Prelude
  import opened Sums
  import opened Ledger

  const BODY_BUDGET_BYTES: nat := 1024 * 1024 * 1024
  const SIDE_BODY_BUDGET_BYTES: nat := 64 * 1024 * 1024

  /** Stored under its own id, and well formed: with collision-free roots the
      id then determines the whole block. */
  ghost predicate BodiesOk(r: Rules, blocks: map<Id, Block>) {
    forall id | id in blocks :: r.blockId(blocks[id].header) == id && ShapeOk(r, blocks[id])
  }

  lemma BodyIsUnique(r: Rules, a: Block, b: Block)
    requires RulesOk(r) && ShapeOk(r, a) && ShapeOk(r, b)
    requires r.blockId(a.header) == r.blockId(b.header)
    ensures a == b
  {
    hide GenesisOk, TxidOk;
  }

  function WeightSum(side: seq<(Id, nat)>): nat {
    if side == [] then 0 else side[0].1 + WeightSum(side[1..])
  }

  lemma {:induction false} WeightSumSnoc(side: seq<(Id, nat)>, e: (Id, nat))
    ensures WeightSum(side + [e]) == WeightSum(side) + e.1
  {
    if side != [] {
      WeightSumSnoc(side[1..], e);
      assert (side + [e])[1..] == side[1..] + [e];
    }
  }

  /** At most one occurrence. */
  ghost predicate AtMostOnce(s: seq<Id>, x: Id) {
    forall i, j | 0 <= i < j < |s| :: s[i] != x || s[j] != x
  }

  /** The two counters are exact, every body is queued, genesis is queued at most once. */
  ghost predicate StoreOk(r: Rules, genesis: Id, blocks: map<Id, Block>, order: seq<Id>, bytes: nat,
                          side: seq<(Id, nat)>, sideBytes: nat) {
    && BodiesOk(r, blocks)
    && bytes == MapSum(blocks, r.size)
    && (forall id | id in blocks :: id in order)
    && AtMostOnce(order, genesis)
    && sideBytes == WeightSum(side)
  }

  /** Elements of a queue that are not in `gone`, in order (`retain`). */
  function Without(s: seq<Id>, gone: set<Id>): (f: seq<Id>)
    ensures forall x :: x in f <==> x in s && x !in gone
  {
    if s == [] then []
    else (if s[0] in gone then [] else [s[0]]) + Without(s[1..], gone)
  }

  lemma {:induction false} WithoutAtMostOnce(s: seq<Id>, gone: set<Id>, x: Id)
    requires AtMostOnce(s, x)
    ensures AtMostOnce(Without(s, gone), x)
  {
    if s != [] {
      WithoutAtMostOnce(s[1..], gone, x);
      if s[0] == x {
        forall i | 0 <= i < |s[1..]|
          ensures s[1..][i] != x
        {
          assert s[i + 1] != x;
        }
      }
    }
  }

  function SideWithout(side: seq<(Id, nat)>, gone: set<Id>): seq<(Id, nat)> {
    if side == [] then []
    else (if side[0].0 in gone then [] else [side[0]]) + SideWithout(side[1..], gone)
  }

  /** Weight of the side bodies that leave. */
  function Freed(side: seq<(Id, nat)>, gone: set<Id>): nat {
    if side == [] then 0
    else (if side[0].0 in gone then side[0].1 else 0) + Freed(side[1..], gone)
  }

  lemma {:induction false} SideBalance(side: seq<(Id, nat)>, gone: set<Id>)
    ensures WeightSum(side) == WeightSum(SideWithout(side, gone)) + Freed(side, gone)
  {
    if side != [] {
      SideBalance(side[1..], gone);
      if side[0].0 in gone {
        assert SideWithout(side, gone) == SideWithout(side[1..], gone);
      } else {
        assert SideWithout(side, gone)[1..] == SideWithout(side[1..], gone);
      }
    }
  }

  lemma RemoveBody(r: Rules, blocks: map<Id, Block>, id: Id)
    requires id in blocks
    ensures MapSum(blocks, r.size) == r.size(blocks[id]) + MapSum(blocks - {id}, r.size)
  {
    MapSumRemove(blocks, r.size, id);
  }

  lemma RotateAtMostOnce(s: seq<Id>, x: Id)
    requires |s| > 0 && AtMostOnce(s, x) && s[0] == x
    ensures AtMostOnce(s[1..] + [x], x)
    ensures forall y :: y in s <==> y in s[1..] + [x]
  {
    var t := s[1..] + [x];
    forall i, j | 0 <= i < j < |t|
      ensures t[i] != x || t[j] != x
    {
      assert t[i] == s[i + 1];
      assert s[0] != x || s[i + 1] != x;
    }
  }

  lemma TailAtMostOnce(s: seq<Id>, x: Id)
    requires |s| > 0 && AtMostOnce(s, x)
    ensures AtMostOnce(s[1..], x)
    ensures forall y :: y in s <==> y == s[0] || y in s[1..]
  {
    forall i, j | 0 <= i < j < |s[1..]|
      ensures s[1..][i] != x || s[1..][j] != x
    {
      assert s[i + 1] != x || s[j + 1] != x;
    }
  }

  /** Genesis at the front goes to the back. */
  lemma StoreRotate(r: Rules, genesis: Id, blocks: map<Id, Block>, order: seq<Id>, bytes: nat,
                    side: seq<(Id, nat)>, sideBytes: nat)
    requires StoreOk(r, genesis, blocks, order, bytes, side, sideBytes)
    requires |order| > 1 && order[0] == genesis
    ensures StoreOk(r, genesis, blocks, order[1..] + [genesis], bytes, side, sideBytes)
    ensures (order[1..] + [genesis])[0] != genesis
  {
    hide BodiesOk, MapSum, WeightSum;
    assert order[0] != genesis || order[1] != genesis;
    RotateAtMostOnce(order, genesis);
  }

  /** The front leaves, with its body if it still has one. */
  lemma StoreDrop(r: Rules, genesis: Id, blocks: map<Id, Block>, order: seq<Id>, bytes: nat,
                  side: seq<(Id, nat)>, sideBytes: nat)
    requires StoreOk(r, genesis, blocks, order, bytes, side, sideBytes)
    requires |order| > 0
    ensures order[0] in blocks ==>
              && r.size(blocks[order[0]]) <= bytes
              && StoreOk(r, genesis, blocks - {order[0]}, order[1..], bytes - r.size(blocks[order[0]]), side, sideBytes)
    ensures order[0] !in blocks ==> StoreOk(r, genesis, blocks, order[1..], bytes, side, sideBytes)
  {
    hide MapSum, WeightSum, ShapeOk;
    TailAtMostOnce(order, genesis);
    if order[0] in blocks { RemoveBody(r, blocks, order[0]); }
  }

  /** A body leaves, its place in the queue stays. */
  lemma StoreEvict(r: Rules, genesis: Id, blocks: map<Id, Block>, order: seq<Id>, bytes: nat,
                   side: seq<(Id, nat)>, sideBytes: nat, id: Id)
    requires StoreOk(r, genesis, blocks, order, bytes, side, sideBytes) && id in blocks
    ensures r.size(blocks[id]) <= bytes
    ensures StoreOk(r, genesis, blocks - {id}, order, bytes - r.size(blocks[id]), side, sideBytes)
  {
    hide MapSum, WeightSum, ShapeOk, AtMostOnce;
    RemoveBody(r, blocks, id);
  }

  lemma StoreInsert(r: Rules, genesis: Id, blocks: map<Id, Block>, order: seq<Id>, bytes: nat,
                    side: seq<(Id, nat)>, sideBytes: nat, id: Id, b: Block)
    requires StoreOk(r, genesis, blocks, order, bytes, side, sideBytes)
    requires RulesOk(r) && r.blockId(b.header) == id != genesis && ShapeOk(r, b)
    ensures id !in blocks ==> StoreOk(r, genesis, blocks[id := b], order + [id], bytes + r.size(b), side, sideBytes)
    ensures id in blocks ==> blocks[id] == b && blocks[id := b] == blocks && r.size(b) <= bytes
  {
    hide MapSum, WeightSum, ShapeOk, RulesOk;
    if id in blocks {
      BodyIsUnique(r, blocks[id], b);
      RemoveBody(r, blocks, id);
    } else {
      MapSumInsert(blocks, r.size, id, b);
      forall i, j | 0 <= i < j < |order + [id]|
        ensures (order + [id])[i] != genesis || (order + [id])[j] != genesis
      {
      }
    }
  }

  /** Forgetting ids whose bodies have left: the queues shrink with them. */
  lemma StoreForget(r: Rules, genesis: Id, blocks: map<Id, Block>, order: seq<Id>, bytes: nat,
                    side: seq<(Id, nat)>, sideBytes: nat, gone: set<Id>)
    requires StoreOk(r, genesis, blocks, order, bytes, side, sideBytes)
    requires forall id | id in gone :: id !in blocks
    ensures Freed(side, gone) <= sideBytes
    ensures StoreOk(r, genesis, blocks, Without(order, gone), bytes, SideWithout(side, gone),
                    sideBytes - Freed(side, gone))
  {
    hide MapSum, ShapeOk, AtMostOnce;
    WithoutAtMostOnce(order, gone, genesis);
    SideBalance(side, gone);
  }

  /** A side body is queued and weighed. */
  lemma StoreQueueSide(r: Rules, genesis: Id, blocks: map<Id, Block>, order: seq<Id>, bytes: nat,
                       side: seq<(Id, nat)>, sideBytes: nat, e: (Id, nat))
    requires StoreOk(r, genesis, blocks, order, bytes, side, sideBytes)
    ensures StoreOk(r, genesis, blocks, order, bytes, side + [e], sideBytes + e.1)
  {
    hide MapSum, ShapeOk, AtMostOnce;
    WeightSumSnoc(side, e);
  }

  /** The oldest side body leaves the side queue. */
  lemma StoreUnqueueSide(r: Rules, genesis: Id, blocks: map<Id, Block>, order: seq<Id>, bytes: nat,
                         side: seq<(Id, nat)>, sideBytes: nat)
    requires StoreOk(r, genesis, blocks, order, bytes, side, sideBytes) && |side| > 0
    ensures side[0].1 <= sideBytes
    ensures StoreOk(r, genesis, blocks, order, bytes, side[1..], sideBytes - side[0].1)
  {
    hide MapSum, ShapeOk, AtMostOnce;
  }

  // ------------------------------------------------------------------
  // What leaves memory, and when it stops
  // ------------------------------------------------------------------

  /** Only known blocks are queued. */
  ghost predicate QueueOk(known: set<Id>, order: seq<Id>, side: seq<(Id, nat)>) {
    (forall id | id in order :: id in known) && (forall e | e in side :: e.0 in known)
  }

  lemma {:induction false} SideWithoutIn(side: seq<(Id, nat)>, gone: set<Id>)
    ensures forall e | e in SideWithout(side, gone) :: e in side && e.0 !in gone
  {
    if side != [] { SideWithoutIn(side[1..], gone); }
  }

  lemma QueueForget(known: set<Id>, order: seq<Id>, side: seq<(Id, nat)>, gone: set<Id>)
    requires QueueOk(known, order, side)
    ensures QueueOk(known - gone, Without(order, gone), SideWithout(side, gone))
  {
    SideWithoutIn(side, gone);
  }

  /** With the first `j` of `queue` gone, a bound is still exceeded. */
  ghost predicate Over(r: Rules, blocks: map<Id, Block>, length: nat, queue: seq<Id>, j: nat, window: nat, budget: nat)
    requires j <= |queue|
  {
    length - j > window || MapSum(blocks - ToSet(queue[..j]), r.size) > budget
  }

  /** The first `dropped` of `queue` went, each while a bound was exceeded. */
  ghost predicate PrunedTo(r: Rules, blocks: map<Id, Block>, length: nat, queue: seq<Id>, dropped: nat, window: nat,
                           budget: nat) {
    dropped <= |queue| && forall j | 0 <= j < dropped :: Over(r, blocks, length, queue, j, window, budget)
  }

  lemma WithoutStep(s: seq<Id>, gone: set<Id>)
    ensures s == [] ==> Without(s, gone) == []
    ensures s != [] ==> Without(s, gone) == (if s[0] in gone then [] else [s[0]]) + Without(s[1..], gone)
  {
  }

  lemma {:induction false} WithoutSnoc(s: seq<Id>, y: Id, gone: set<Id>)
    ensures Without(s + [y], gone) == Without(s, gone) + (if y in gone then [] else [y])
  {
    hide Without;
    WithoutStep(s, gone);
    WithoutStep(s + [y], gone);
    if s == [] {
      WithoutStep([], gone);
      assert (s + [y])[1..] == [];
    } else {
      WithoutSnoc(s[1..], y, gone);
      assert (s + [y])[1..] == s[1..] + [y];
      Regroup(if s[0] in gone then [] else [s[0]], Without(s[1..], gone), if y in gone then [] else [y]);
    }
  }

  lemma {:induction false} WithoutLength(s: seq<Id>, x: Id)
    requires AtMostOnce(s, x)
    ensures |s| <= |Without(s, {x})| + 1
    ensures x !in s ==> |s| <= |Without(s, {x})|
  {
    if s != [] {
      TailAtMostOnce(s, x);
      WithoutLength(s[1..], x);
      if s[0] == x {
        forall i | 0 <= i < |s[1..]|
          ensures s[1..][i] != x
        {
          assert s[i + 1] != x;
        }
      }
    }
  }

  lemma DropSet(queue: seq<Id>, k: nat)
    requires k < |queue|
    ensures ToSet(queue[..k + 1]) == ToSet(queue[..k]) + {queue[k]}
  {
    assert queue[..k + 1] == queue[..k] + [queue[k]];
  }

  /** Two bodies weigh what they weigh. */
  lemma TwoBodies(r: Rules, m: map<Id, Block>, a: Id, b: Id, most: nat)
    requires a != b && (forall id | id in m :: id == a || id == b)
    requires (if a in m then r.size(m[a]) else 0) + (if b in m then r.size(m[b]) else 0) <= most
    ensures MapSum(m, r.size) <= most
  {
    hide MapSum;
    MapSumEmpty<Id, Block>(r.size);
    var rest := if a in m then m - {a} else m;
    if a in m { RemoveBody(r, m, a); }
    if b in rest {
      RemoveBody(r, rest, b);
      assert rest - {b} == map[];
    } else {
      assert rest == map[];
    }
  }

  /** A body stored just now, and queued once, is the last to go: it stays when
      it fits the budget beside genesis. */
  lemma LastStays(r: Rules, blocks: map<Id, Block>, order: seq<Id>, bytes: nat, side: seq<(Id, nat)>, sideBytes: nat,
                  id: Id, dropped: nat, window: nat, budget: nat)
    requires RulesOk(r) && StoreOk(r, r.blockId(r.genesis.header), blocks, order + [id], bytes, side, sideBytes)
    requires id in blocks && id !in order && id != r.blockId(r.genesis.header)
    requires PrunedTo(r, blocks, |order| + 1, Without(order, {r.blockId(r.genesis.header)}) + [id], dropped, window,
                      budget)
    requires window >= 2 && r.size(blocks[id]) + r.size(r.genesis) <= budget
    ensures id !in (Without(order, {r.blockId(r.genesis.header)}) + [id])[..dropped]
  {
    hide MapSum, RulesOk, StoreOk, Without;
    var genesis := r.blockId(r.genesis.header);
    var queue := Without(order, {genesis}) + [id];
    WithoutSnoc(order, id, {genesis});
    StoreGenesis(r, blocks, order + [id], bytes, side, sideBytes);
    WithoutLength(order + [id], genesis);
    WithoutNot(order, {genesis}, id);
    if dropped == |queue| {
      assert queue[..|queue| - 1] == Without(order, {genesis});
      assert Over(r, blocks, |order| + 1, queue, |queue| - 1, window, budget);
      OnlyTwoLeft(r, blocks, order, bytes, side, sideBytes, id);
      TwoBodies(r, blocks - ToSet(Without(order, {genesis})), id, genesis, budget);
    }
  }

  lemma WithoutNot(s: seq<Id>, gone: set<Id>, x: Id)
    requires x !in s
    ensures x !in Without(s, gone)
  {
  }

  lemma StoreGenesis(r: Rules, blocks: map<Id, Block>, order: seq<Id>, bytes: nat, side: seq<(Id, nat)>, sideBytes: nat)
    requires RulesOk(r) && StoreOk(r, r.blockId(r.genesis.header), blocks, order, bytes, side, sideBytes)
    ensures AtMostOnce(order, r.blockId(r.genesis.header))
    ensures r.blockId(r.genesis.header) in blocks ==> blocks[r.blockId(r.genesis.header)] == r.genesis
  {
    hide MapSum, RulesOk, ShapeOk, AtMostOnce;
    if r.blockId(r.genesis.header) in blocks { GenesisBody(r, blocks); }
  }

  lemma OnlyTwoLeft(r: Rules, blocks: map<Id, Block>, order: seq<Id>, bytes: nat, side: seq<(Id, nat)>, sideBytes: nat,
                    id: Id)
    requires StoreOk(r, r.blockId(r.genesis.header), blocks, order + [id], bytes, side, sideBytes)
    ensures forall x | x in blocks - ToSet(Without(order, {r.blockId(r.genesis.header)})) ::
            x == id || x == r.blockId(r.genesis.header)
  {
    hide MapSum, BodiesOk, AtMostOnce;
  }

  lemma GenesisBody(r: Rules, blocks: map<Id, Block>)
    requires RulesOk(r) && BodiesOk(r, blocks) && r.blockId(r.genesis.header) in blocks
    ensures blocks[r.blockId(r.genesis.header)] == r.genesis
  {
    hide TxidOk, RootsOk;
    BodyIsUnique(r, blocks[r.blockId(r.genesis.header)], r.genesis);
  }

  // ------------------------------------------------------------------
  // The side budget
  // ------------------------------------------------------------------

  /** The first `dropped` of the side queue went, each while it was over its budget. */
  ghost predicate SideDropped(side: seq<(Id, nat)>, dropped: nat) {
    dropped <= |side| && forall j | 0 <= j < dropped :: WeightSum(side[j..]) > SIDE_BODY_BUDGET_BYTES
  }

  /** The newest side body is not dropped if it fits the budget alone. */
  lemma NewestStays(side: seq<(Id, nat)>, e: (Id, nat), dropped: nat)
    requires SideDropped(side + [e], dropped) && e.1 <= SIDE_BODY_BUDGET_BYTES
    ensures dropped <= |side|
  {
    assert (side + [e])[|side|..] == [e];
    assert WeightSum([e]) == e.1 + WeightSum([e][1..]);
    assert WeightSum((side + [e])[|side|..]) <= SIDE_BODY_BUDGET_BYTES;
  }
}
