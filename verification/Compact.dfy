/** Relaying a block as its header and short ids (src/compact.rs). */
module Compact {
  import opened Prelude
  import opened Ledger

  const MIN_TX_SIZE: nat := 64
  const MAX_TX_PER_BLOCK: nat := MAX_BLOCK_SIZE / MIN_TX_SIZE

  datatype CompactError =
    | TooManyTransactions(count: nat)
    | UnexpectedTransaction(index: nat)
    | MissingCoinbase
    | WrongTransactionCount(expected: nat, received: nat)
    | BadMerkleRoot

  /** A block announced: full transactions at their index, short ids for the rest. */
  datatype CompactBlock = CompactBlock(header: Header, nonce: nat, shortIds: seq<nat>, prefilled: seq<(nat, Tx)>,
                                       uncles: seq<Header>) {
    function Count(): nat { |shortIds| + |prefilled| }
  }

  /** Short ids under the key of a header and a nonce. */
  datatype Key = Key(short: (Header, nat, Id) -> nat, header: Header, nonce: nat) {
    function Of(id: Id): nat { short(header, nonce, id) }
  }

  type Slots = seq<Option<Tx>>

  /** A block being rebuilt: its slots, and the indexes still missing. */
  datatype Reconstruction = Reconstruction(header: Header, uncles: seq<Header>, slots: Slots, missing: seq<nat>)

  // ------------------------------------------------------------------
  // Announcing
  // ------------------------------------------------------------------

  method FromBlock(r: Rules, short: (Header, nat, Id) -> nat, b: Block, nonce: nat) returns (c: CompactBlock)
    ensures c.header == b.header && c.nonce == nonce && c.uncles == b.uncles
    ensures c.prefilled == if b.txs == [] then [] else [(0, b.txs[0])]
    ensures |c.shortIds| == SatSub(|b.txs|, 1)
    ensures forall k | 1 <= k < |b.txs| :: c.shortIds[k - 1] == short(b.header, nonce, r.txid(b.txs[k]))
  {
    var shortIds, prefilled := [], [];
    for i := 0 to |b.txs|
      invariant prefilled == if i == 0 then [] else [(0, b.txs[0])]
      invariant |shortIds| == SatSub(i, 1)
      invariant forall k | 1 <= k < i :: shortIds[k - 1] == short(b.header, nonce, r.txid(b.txs[k]))
    {
      if i == 0 {
        prefilled := prefilled + [(i, b.txs[i])];
      } else {
        shortIds := shortIds + [short(b.header, nonce, r.txid(b.txs[i]))];
      }
    }
    return CompactBlock(b.header, nonce, shortIds, prefilled, b.uncles);
  }

  // ------------------------------------------------------------------
  // Rebuilding
  // ------------------------------------------------------------------

  /** The one transaction of the pool with this short id; none if there are
      several, or none. */
  ghost function Known(pool: map<Id, Tx>, key: Key, sid: nat): Option<Tx> {
    if exists id :: OnlyOne(pool, key, sid, id)
    then var id :| OnlyOne(pool, key, sid, id); Some(pool[id])
    else None
  }

  ghost predicate OnlyOne(pool: map<Id, Tx>, key: Key, sid: nat, id: Id) {
    id in pool && key.Of(id) == sid && forall other | other in pool && key.Of(other) == sid :: other == id
  }

  /** The table of what the pool has: by short id, nothing when ambiguous. */
  method Table(pool: map<Id, Tx>, key: Key) returns (byId: map<nat, Option<Tx>>)
    ensures forall sid :: (if sid in byId then byId[sid] else None) == Known(pool, key, sid)
  {
    byId := map[];
    var todo := pool.Keys;
    ghost var done: map<Id, Tx> := map[];
    while todo != {}
      invariant todo <= pool.Keys && done == pool - todo
      invariant forall sid :: sid in byId <==> exists id :: id in done && key.Of(id) == sid
      invariant forall sid :: (if sid in byId then byId[sid] else None) == Known(done, key, sid)
    {
      var id :| id in todo;
      var sid := key.Of(id);
      ghost var before, was := done, byId;
      byId := byId[sid := if sid in byId then None else Some(pool[id])];
      todo := todo - {id};
      done := done[id := pool[id]];
      assert done == pool - todo;
      forall s
        ensures s in byId <==> exists i :: i in done && key.Of(i) == s
        ensures (if s in byId then byId[s] else None) == Known(done, key, s)
      {
        KnownGrows(before, key, id, pool[id], s);
        assert id in done;
      }
    }
    assert done == pool;
  }

  /** One more transaction: new under its short id, or making it ambiguous. */
  lemma KnownGrows(pool: map<Id, Tx>, key: Key, id: Id, tx: Tx, sid: nat)
    requires id !in pool
    ensures Known(pool[id := tx], key, sid) ==
            if key.Of(id) != sid then Known(pool, key, sid)
            else if exists other :: other in pool && key.Of(other) == sid then None
            else Some(tx)
  {
    var more := pool[id := tx];
    if key.Of(id) != sid {
      forall i
        ensures OnlyOne(more, key, sid, i) <==> OnlyOne(pool, key, sid, i)
      {
        assert i in pool ==> i in more;
        if OnlyOne(more, key, sid, i) {
          assert forall other | other in pool && key.Of(other) == sid :: other in more;
        }
      }
      OneKnown(pool, key, sid);
      OneKnown(more, key, sid);
    } else if exists other :: other in pool && key.Of(other) == sid {
      var other :| other in pool && key.Of(other) == sid;
      assert other in more && id in more;
    } else {
      assert OnlyOne(more, key, sid, id);
      OneKnown(more, key, sid);
    }
  }

  lemma OneKnown(pool: map<Id, Tx>, key: Key, sid: nat)
    ensures forall id | OnlyOne(pool, key, sid, id) :: Known(pool, key, sid) == Some(pool[id])
  {
  }

  /** The announced transactions in their slots, the last of two at one index;
      none when an index is out of range. */
  function Placed(slots: Slots, prefilled: seq<(nat, Tx)>): (res: Result<Slots, CompactError>)
    ensures res.Ok? ==> |res.value| == |slots|
    decreases |prefilled|
  {
    if prefilled == [] then Ok(slots)
    else if prefilled[0].0 >= |slots| then Err(UnexpectedTransaction(prefilled[0].0))
    else Placed(slots[prefilled[0].0 := Some(prefilled[0].1)], prefilled[1..])
  }

  /** Indexes of the empty slots from `i` on, in order. */
  function Free(slots: Slots, i: nat): (free: seq<nat>)
    requires i <= |slots|
    ensures forall k | 0 <= k < |free| :: i <= free[k] < |slots| && slots[free[k]] == None
    ensures forall k | 0 < k < |free| :: free[k - 1] < free[k]
    decreases |slots| - i
  {
    if i == |slots| then []
    else if slots[i] == None then [i] + Free(slots, i + 1)
    else Free(slots, i + 1)
  }

  /** Short ids into the free slots: filled from the pool, or missing. */
  ghost function Filled(slots: Slots, free: seq<nat>, sids: seq<nat>, pool: map<Id, Tx>, key: Key, missing: seq<nat>)
    : (res: (Slots, seq<nat>))
    requires |sids| <= |free| && forall k | 0 <= k < |free| :: free[k] < |slots|
    ensures |res.0| == |slots|
    decreases |sids|
  {
    if sids == [] then (slots, missing)
    else
      match Known(pool, key, sids[0])
      case Some(tx) => Filled(slots[free[0] := Some(tx)], free[1..], sids[1..], pool, key, missing)
      case None => Filled(slots, free[1..], sids[1..], pool, key, missing + [free[0]])
  }

  function NoSlots(n: nat): (slots: Slots)
    ensures |slots| == n && forall i | 0 <= i < n :: slots[i] == None
  {
    seq(n, i => None)
  }

  /** The reconstruction an announcement and a pool lead to. */
  ghost function Reconstructed(c: CompactBlock, pool: map<Id, Tx>, key: Key): Result<Reconstruction, CompactError> {
    if c.Count() > MAX_TX_PER_BLOCK then Err(TooManyTransactions(c.Count()))
    else
      match Placed(NoSlots(c.Count()), c.prefilled)
      case Err(e) => Err(e)
      case Ok(slots) =>
        if slots == [] || slots[0] == None then Err(MissingCoinbase)
        else
          var free := Free(slots, 0);
          if |free| < |c.shortIds| then Err(UnexpectedTransaction(c.Count()))
          else
            var (filled, missing) := Filled(slots, free, c.shortIds, pool, key, []);
            Ok(Reconstruction(c.header, c.uncles, filled, missing))
  }

  method FromCompact(short: (Header, nat, Id) -> nat, c: CompactBlock, pool: map<Id, Tx>)
    returns (res: Result<Reconstruction, CompactError>)
    ensures res == Reconstructed(c, pool, Key(short, c.header, c.nonce))
  {
    hide Known, Filled, Placed, Free;
    var total := c.Count();
    if total > MAX_TX_PER_BLOCK { return Err(TooManyTransactions(total)); }
    var key := Key(short, c.header, c.nonce);
    var byId := Table(pool, key);
    var placed := Place(NoSlots(total), c.prefilled);
    if placed.Err? { return Err(placed.error); }
    var slots := placed.value;
    if slots == [] || slots[0] == None { return Err(MissingCoinbase); }
    var free := Free(slots, 0);
    if |free| < |c.shortIds| { return Err(UnexpectedTransaction(total)); }
    ghost var start := slots;
    var missing: seq<nat> := [];
    FilledStart(slots, free, c.shortIds, pool, key);
    for k := 0 to |c.shortIds|
      invariant |slots| == |start|
      invariant Filled(slots, free[k..], c.shortIds[k..], pool, key, missing)
                == Filled(start, free, c.shortIds, pool, key, [])
    {
      var sid := c.shortIds[k];
      FilledStep(slots, free, c.shortIds, pool, key, missing, k);
      if sid in byId && byId[sid].Some? {
        slots := slots[free[k] := byId[sid]];
      } else {
        missing := missing + [free[k]];
      }
    }
    FilledEnd(slots, free, c.shortIds, pool, key, missing);
    return Ok(Reconstruction(c.header, c.uncles, slots, missing));
  }

  method Place(start: Slots, prefilled: seq<(nat, Tx)>) returns (res: Result<Slots, CompactError>)
    ensures res == Placed(start, prefilled)
  {
    var slots := start;
    for k := 0 to |prefilled|
      invariant |slots| == |start| && Placed(slots, prefilled[k..]) == Placed(start, prefilled)
    {
      assert prefilled[k..][0] == prefilled[k] && prefilled[k..][1..] == prefilled[k + 1..];
      var (i, tx) := prefilled[k];
      if i >= |slots| { return Err(UnexpectedTransaction(i)); }
      slots := slots[i := Some(tx)];
    }
    return Ok(slots);
  }

  lemma FilledStart(slots: Slots, free: seq<nat>, sids: seq<nat>, pool: map<Id, Tx>, key: Key)
    requires |sids| <= |free| && forall k | 0 <= k < |free| :: free[k] < |slots|
    ensures Filled(slots, free[0..], sids[0..], pool, key, []) == Filled(slots, free, sids, pool, key, [])
  {
    assert free[0..] == free && sids[0..] == sids;
  }

  lemma FilledStep(slots: Slots, free: seq<nat>, sids: seq<nat>, pool: map<Id, Tx>, key: Key, missing: seq<nat>, k: nat)
    requires k < |sids| <= |free| && forall j | 0 <= j < |free| :: free[j] < |slots|
    ensures Filled(slots, free[k..], sids[k..], pool, key, missing) ==
            if Known(pool, key, sids[k]).Some? then
              Filled(slots[free[k] := Known(pool, key, sids[k])], free[k + 1..], sids[k + 1..], pool, key, missing)
            else Filled(slots, free[k + 1..], sids[k + 1..], pool, key, missing + [free[k]])
  {
    assert free[k..][1..] == free[k + 1..] && sids[k..][1..] == sids[k + 1..];
  }

  lemma FilledEnd(slots: Slots, free: seq<nat>, sids: seq<nat>, pool: map<Id, Tx>, key: Key, missing: seq<nat>)
    requires |sids| <= |free| && forall j | 0 <= j < |free| :: free[j] < |slots|
    ensures Filled(slots, free[|sids|..], sids[|sids|..], pool, key, missing) == (slots, missing)
  {
  }

  /** Whatever the announcement, what is missing is in range, in order, and empty. */
  lemma {:induction false} FilledMissing(slots: Slots, free: seq<nat>, sids: seq<nat>, pool: map<Id, Tx>, key: Key,
                                         missing: seq<nat>)
    requires |sids| <= |free| && (forall k | 0 <= k < |free| :: free[k] < |slots| && slots[free[k]] == None)
    requires forall j, k | 0 <= j < k < |free| :: free[j] < free[k]
    requires Gaps(slots, missing) && forall j, k | 0 <= j < |missing| && 0 <= k < |free| :: missing[j] < free[k]
    ensures var (filled, gaps) := Filled(slots, free, sids, pool, key, missing); Gaps(filled, gaps)
    decreases |sids|
  {
    hide Known;
    if sids != [] {
      match Known(pool, key, sids[0])
      case Some(tx) => FilledMissing(slots[free[0] := Some(tx)], free[1..], sids[1..], pool, key, missing);
      case None => FilledMissing(slots, free[1..], sids[1..], pool, key, missing + [free[0]]);
    }
  }

  /** Empty slots, in increasing order. */
  ghost predicate Gaps(slots: Slots, missing: seq<nat>) {
    && (forall k | 0 <= k < |missing| :: missing[k] < |slots| && slots[missing[k]] == None)
    && (forall j, k | 0 <= j < k < |missing| :: missing[j] < missing[k])
  }

  lemma {:induction false} FreeOrdered(slots: Slots, i: nat)
    requires i <= |slots|
    ensures forall j, k | 0 <= j < k < |Free(slots, i)| :: Free(slots, i)[j] < Free(slots, i)[k]
    decreases |slots| - i
  {
    if i < |slots| { FreeOrdered(slots, i + 1); }
  }

  /** For any announcement and any pool: only empty slots are asked for, each
      once, in order. */
  lemma AsksForGaps(c: CompactBlock, pool: map<Id, Tx>, key: Key)
    requires Reconstructed(c, pool, key).Ok?
    ensures var rec := Reconstructed(c, pool, key).value; |rec.slots| == c.Count() && Gaps(rec.slots, rec.missing)
  {
    hide Filled, Known;
    var slots := Placed(NoSlots(c.Count()), c.prefilled).value;
    FreeOrdered(slots, 0);
    FilledMissing(slots, Free(slots, 0), c.shortIds, pool, key, []);
  }

  // ------------------------------------------------------------------
  // Completing
  // ------------------------------------------------------------------

  /** Supplied transactions in the missing slots, in order. */
  function Supplied(slots: Slots, missing: seq<nat>, txs: seq<Tx>): (res: Slots)
    requires |missing| == |txs| && forall k | 0 <= k < |missing| :: missing[k] < |slots|
    ensures |res| == |slots|
    decreases |missing|
  {
    if missing == [] then slots else Supplied(slots[missing[0] := Some(txs[0])], missing[1..], txs[1..])
  }

  /** The block of these transactions, if its root is the header's. */
  function Rooted(r: Rules, rec: Reconstruction, txs: seq<Tx>): Result<Block, CompactError> {
    if r.merkle(txs) == rec.header.merkleRoot then Ok(Block(rec.header, txs, rec.uncles)) else Err(BadMerkleRoot)
  }

  /** The block of the slots, if none is empty and its root is the header's. */
  method Finalize(r: Rules, rec: Reconstruction) returns (res: Result<Block, CompactError>)
    ensures res.Ok? ==>
              && res.value.header == rec.header && res.value.uncles == rec.uncles
              && r.merkle(res.value.txs) == rec.header.merkleRoot
              && |res.value.txs| == |rec.slots|
              && forall i | 0 <= i < |rec.slots| :: rec.slots[i] == Some(res.value.txs[i])
    ensures forall txs: seq<Tx> ::
              |txs| == |rec.slots| && (forall i | 0 <= i < |txs| :: rec.slots[i] == Some(txs[i]))
              ==> res == Rooted(r, rec, txs)
  {
    var txs: seq<Tx> := [];
    for i := 0 to |rec.slots|
      invariant |txs| == i && forall k | 0 <= k < i :: rec.slots[k] == Some(txs[k])
    {
      match rec.slots[i]
      case Some(tx) => txs := txs + [tx];
      case None => return Err(UnexpectedTransaction(i));
    }
    assert forall other: seq<Tx> ::
        |other| == |txs| && (forall i | 0 <= i < |other| :: rec.slots[i] == Some(other[i])) ==> other == txs;
    if r.merkle(txs) != rec.header.merkleRoot { return Err(BadMerkleRoot); }
    return Ok(Block(rec.header, txs, rec.uncles));
  }

  /** Completes a reconstruction.  Whatever was announced and supplied, a block
      that comes out has the Merkle root of its header. */
  method Complete(r: Rules, rec: Reconstruction, txs: seq<Tx>) returns (res: Result<Block, CompactError>)
    requires forall k | 0 <= k < |rec.missing| :: rec.missing[k] < |rec.slots|
    ensures |txs| != |rec.missing| ==> res == Err(WrongTransactionCount(|rec.missing|, |txs|))
    ensures res.Ok? ==> res.value.header == rec.header && r.merkle(res.value.txs) == rec.header.merkleRoot
    ensures |txs| == |rec.missing| ==> forall all: seq<Tx> ::
              && |all| == |rec.slots|
              && (forall i | 0 <= i < |all| :: Supplied(rec.slots, rec.missing, txs)[i] == Some(all[i]))
              ==> res == Rooted(r, rec, all)
  {
    if |txs| != |rec.missing| { return Err(WrongTransactionCount(|rec.missing|, |txs|)); }
    var slots := rec.slots;
    for k := 0 to |txs|
      invariant |slots| == |rec.slots|
      invariant Supplied(slots, rec.missing[k..], txs[k..]) == Supplied(rec.slots, rec.missing, txs)
    {
      assert rec.missing[k..][0] == rec.missing[k] && rec.missing[k..][1..] == rec.missing[k + 1..];
      assert txs[k..][0] == txs[k] && txs[k..][1..] == txs[k + 1..];
      slots := slots[rec.missing[k] := Some(txs[k])];
    }
    res := Finalize(r, rec.(slots := slots));
  }

  /** Finishes a reconstruction that misses nothing. */
  method Finish(r: Rules, rec: Reconstruction) returns (res: Result<Block, CompactError>)
    ensures rec.missing != [] ==> res == Err(WrongTransactionCount(|rec.missing|, 0))
    ensures res.Ok? ==>
              && rec.missing == [] && res.value.header == rec.header
              && r.merkle(res.value.txs) == rec.header.merkleRoot
    ensures rec.missing == [] ==> forall all: seq<Tx> ::
              |all| == |rec.slots| && (forall i | 0 <= i < |all| :: rec.slots[i] == Some(all[i]))
              ==> res == Rooted(r, rec, all)
  {
    if rec.missing != [] { return Err(WrongTransactionCount(|rec.missing|, 0)); }
    res := Finalize(r, rec);
  }

  // ------------------------------------------------------------------
  // An honest announcement
  // ------------------------------------------------------------------

  /** What `FromBlock` announces. */
  ghost predicate Announces(r: Rules, key: Key, b: Block, c: CompactBlock) {
    && b.txs != [] && c.header == b.header == key.header && c.nonce == key.nonce && c.uncles == b.uncles
    && c.prefilled == [(0, b.txs[0])]
    && |c.shortIds| == |b.txs| - 1
    && (forall k | 1 <= k < |b.txs| :: c.shortIds[k - 1] == key.Of(r.txid(b.txs[k])))
  }

  /** What the pool has under the short id of transaction `k`. */
  ghost function Found(r: Rules, key: Key, b: Block, pool: map<Id, Tx>, k: nat): Option<Tx>
    requires k < |b.txs|
  {
    Known(pool, key, key.Of(r.txid(b.txs[k])))
  }

  /** No transaction of the pool is alone under the short id of one of the block,
      but that one. */
  ghost predicate NoStranger(r: Rules, key: Key, b: Block, pool: map<Id, Tx>) {
    forall k, id | 1 <= k < |b.txs| && OnlyOne(pool, key, key.Of(r.txid(b.txs[k])), id) :: pool[id] == b.txs[k]
  }

  /** What the slots come to hold: the first transaction, what the pool has, and
      for the rest the block's own. */
  ghost function Together(r: Rules, key: Key, b: Block, pool: map<Id, Tx>): (txs: seq<Tx>)
    ensures |txs| == |b.txs|
  {
    seq(|b.txs|, k requires 0 <= k < |b.txs| =>
      if k > 0 && Found(r, key, b, pool, k).Some? then Found(r, key, b, pool, k).value else b.txs[k])
  }

  lemma TogetherIff(r: Rules, key: Key, b: Block, pool: map<Id, Tx>)
    ensures Together(r, key, b, pool) == b.txs <==> NoStranger(r, key, b, pool)
  {
    hide Known;
    var txs := Together(r, key, b, pool);
    forall k | 1 <= k < |b.txs|
      ensures txs[k] == b.txs[k] <==>
              forall id | OnlyOne(pool, key, key.Of(r.txid(b.txs[k])), id) :: pool[id] == b.txs[k]
    {
      FoundIff(pool, key, key.Of(r.txid(b.txs[k])), b.txs[k]);
    }
    if NoStranger(r, key, b, pool) { assert txs == b.txs; }
  }

  lemma FoundIff(pool: map<Id, Tx>, key: Key, sid: nat, tx: Tx)
    ensures Known(pool, key, sid) in {None, Some(tx)} <==> forall id | OnlyOne(pool, key, sid, id) :: pool[id] == tx
  {
    OneKnown(pool, key, sid);
  }

  /** Positions from `k` on for which the pool has nothing. */
  ghost function Absent(r: Rules, key: Key, b: Block, pool: map<Id, Tx>, k: nat): (gaps: seq<nat>)
    requires k <= |b.txs|
    ensures forall j | 0 <= j < |gaps| :: k <= gaps[j] < |b.txs|
    ensures forall i | k <= i < |b.txs| :: i in gaps <==> Found(r, key, b, pool, i).None?
    ensures forall j | 0 < j < |gaps| :: gaps[j - 1] < gaps[j]
    decreases |b.txs| - k
  {
    if k == |b.txs| then []
    else if Found(r, key, b, pool, k).Some? then Absent(r, key, b, pool, k + 1)
    else [k] + Absent(r, key, b, pool, k + 1)
  }

  function Range(i: nat, n: nat): (s: seq<nat>)
    requires i <= n
    ensures |s| == n - i && forall k | 0 <= k < |s| :: s[k] == i + k
  {
    seq(n - i, k => i + k)
  }

  lemma {:induction false} FreeRange(slots: Slots, i: nat)
    requires i <= |slots| && forall j | i <= j < |slots| :: slots[j] == None
    ensures Free(slots, i) == Range(i, |slots|)
    decreases |slots| - i
  {
    if i < |slots| {
      FreeRange(slots, i + 1);
      assert Range(i, |slots|) == [i] + Range(i + 1, |slots|);
    }
  }

  /** The slots with the first `k` decided. */
  ghost predicate Decided(r: Rules, key: Key, b: Block, pool: map<Id, Tx>, slots: Slots, k: nat) {
    && |slots| == |b.txs| >= k >= 1 && slots[0] == Some(b.txs[0])
    && (forall i | 1 <= i < k :: slots[i] == Found(r, key, b, pool, i))
    && (forall i | k <= i < |slots| :: slots[i] == None)
  }

  /** One slot more decided. */
  lemma DecidedNext(r: Rules, key: Key, b: Block, pool: map<Id, Tx>, slots: Slots, k: nat)
    requires Decided(r, key, b, pool, slots, k) && k < |b.txs|
    ensures var found := Found(r, key, b, pool, k);
            && Decided(r, key, b, pool, if found.Some? then slots[k := found] else slots, k + 1)
            && Absent(r, key, b, pool, k)
               == (if found.Some? then [] else [k]) + Absent(r, key, b, pool, k + 1)
  {
    hide Found;
  }

  lemma ShortAt(r: Rules, key: Key, b: Block, c: CompactBlock, k: nat)
    requires Announces(r, key, b, c)
    ensures |c.shortIds| == |b.txs| - 1
    ensures 1 <= k < |b.txs| ==> c.shortIds[k - 1] == key.Of(r.txid(b.txs[k]))
  {
  }

  lemma {:induction false} FilledHonest(r: Rules, key: Key, b: Block, pool: map<Id, Tx>, c: CompactBlock, slots: Slots,
                                        k: nat, missing: seq<nat>)
    requires Announces(r, key, b, c) && Decided(r, key, b, pool, slots, k)
    requires |slots| == |b.txs| >= k >= 1 && |c.shortIds| == |b.txs| - 1
    ensures var (filled, gaps) := Filled(slots, Range(1, |b.txs|)[k - 1..], c.shortIds[k - 1..], pool, key, missing);
            Decided(r, key, b, pool, filled, |b.txs|) && gaps == missing + Absent(r, key, b, pool, k)
    decreases |b.txs| - k
  {
    hide Known, Decided, Announces, Absent, Filled;
    var free := Range(1, |b.txs|);
    if k < |b.txs| {
      FilledStep(slots, free, c.shortIds, pool, key, missing, k - 1);
      ShortAt(r, key, b, c, k);
      DecidedNext(r, key, b, pool, slots, k);
      var found := Found(r, key, b, pool, k);
      if found.Some? {
        FilledHonest(r, key, b, pool, c, slots[k := found], k + 1, missing);
      } else {
        FilledHonest(r, key, b, pool, c, slots, k + 1, missing + [k]);
        Appended(missing, k, Absent(r, key, b, pool, k + 1));
      }
    } else {
      FilledEnd(slots, free, c.shortIds, pool, key, missing);
      AbsentEnd(r, key, b, pool);
    }
  }

  lemma Appended(a: seq<nat>, k: nat, b: seq<nat>)
    ensures a + [k] + b == a + ([k] + b)
  {
  }

  lemma AbsentEnd(r: Rules, key: Key, b: Block, pool: map<Id, Tx>)
    ensures Absent(r, key, b, pool, |b.txs|) == []
  {
  }

  /** The transactions at these positions. */
  function Pick(b: Block, at: seq<nat>): (txs: seq<Tx>)
    requires forall k | 0 <= k < |at| :: at[k] < |b.txs|
    ensures |txs| == |at| && forall k | 0 <= k < |at| :: txs[k] == b.txs[at[k]]
  {
    seq(|at|, k requires 0 <= k < |at| => b.txs[at[k]])
  }

  /** The slots and gaps of an announced block rebuilt from a pool. */
  lemma HonestSlots(r: Rules, key: Key, b: Block, pool: map<Id, Tx>, c: CompactBlock)
    requires Announces(r, key, b, c) && |b.txs| <= MAX_TX_PER_BLOCK
    ensures Reconstructed(c, pool, key).Ok?
    ensures var rec := Reconstructed(c, pool, key).value;
            && rec.header == b.header && rec.uncles == b.uncles
            && rec.missing == Absent(r, key, b, pool, 1) && Decided(r, key, b, pool, rec.slots, |b.txs|)
  {
    hide Filled, Absent, Free, Placed, Found;
    var empty, free := NoSlots(c.Count()), Range(1, |b.txs|);
    var slots := empty[0 := Some(b.txs[0])];
    PlacedOne(empty, b.txs[0]);
    FreeAfterFirst(slots);
    FilledStart(slots, free, c.shortIds, pool, key);
    FilledHonest(r, key, b, pool, c, slots, 1, []);
    assert [] + Absent(r, key, b, pool, 1) == Absent(r, key, b, pool, 1);
  }

  lemma FreeAfterFirst(slots: Slots)
    requires |slots| > 0 && slots[0].Some? && forall j | 1 <= j < |slots| :: slots[j] == None
    ensures Free(slots, 0) == Range(1, |slots|)
  {
    FreeRange(slots, 1);
  }

  /** A block announced, rebuilt from any pool: exactly the positions for which the
      pool has nothing are missing, in increasing order.  With the block's own
      transactions there every slot is full, and all are the block's exactly when
      the pool has no stranger. */
  lemma HonestRelay(r: Rules, key: Key, b: Block, pool: map<Id, Tx>, c: CompactBlock)
    requires Announces(r, key, b, c) && |b.txs| <= MAX_TX_PER_BLOCK
    ensures Reconstructed(c, pool, key).Ok?
    ensures var rec, txs := Reconstructed(c, pool, key).value, Together(r, key, b, pool);
            && rec.header == b.header && rec.uncles == b.uncles && |rec.slots| == |b.txs|
            && rec.missing == Absent(r, key, b, pool, 1)
            && (forall i | 0 <= i < |b.txs| ::
                Supplied(rec.slots, rec.missing, Pick(b, rec.missing))[i] == Some(txs[i]))
            && (txs == b.txs <==> NoStranger(r, key, b, pool))
  {
    hide Reconstructed, NoStranger, Supplied, Found;
    HonestSlots(r, key, b, pool, c);
    TogetherIff(r, key, b, pool);
    var rec, txs := Reconstructed(c, pool, key).value, Together(r, key, b, pool);
    forall i | 0 <= i < |b.txs|
      ensures Supplied(rec.slots, rec.missing, Pick(b, rec.missing))[i] == Some(txs[i])
    {
      SuppliedAt(rec.slots, rec.missing, b, i, txs[i]);
    }
  }

  lemma PlacedOne(slots: Slots, tx: Tx)
    requires |slots| > 0
    ensures Placed(slots, [(0, tx)]) == Ok(slots[0 := Some(tx)])
  {
    assert [(0, tx)][1..] == [];
  }

  lemma {:induction false} SuppliedAt(slots: Slots, missing: seq<nat>, b: Block, i: nat, tx: Tx)
    requires |slots| == |b.txs| && i < |slots| && forall k | 0 <= k < |missing| :: missing[k] < |slots|
    requires if i in missing then tx == b.txs[i] else slots[i] == Some(tx)
    ensures Supplied(slots, missing, Pick(b, missing))[i] == Some(tx)
    decreases |missing|
  {
    if missing != [] {
      assert Pick(b, missing)[1..] == Pick(b, missing[1..]);
      var next := slots[missing[0] := Some(b.txs[missing[0]])];
      if i == missing[0] && i !in missing[1..] { assert next[i] == Some(tx); }
      SuppliedAt(next, missing[1..], b, i, tx);
    }
  }

  /** The whole exchange: a block is announced, rebuilt from a pool, and
      completed with what was missing.  The block itself comes back if the pool has
      no stranger under its short ids, and otherwise the root gives it away. */
  method Relay(r: Rules, short: (Header, nat, Id) -> nat, b: Block, nonce: nat, pool: map<Id, Tx>)
    returns (res: Result<Block, CompactError>)
    requires b.txs != [] && |b.txs| <= MAX_TX_PER_BLOCK && r.merkle(b.txs) == b.header.merkleRoot && RootsOk(r)
    ensures res == if NoStranger(r, Key(short, b.header, nonce), b, pool) then Ok(b) else Err(BadMerkleRoot)
  {
    hide Reconstructed, Supplied, NoStranger, Absent, Together, RootsOk;
    ghost var key := Key(short, b.header, nonce);
    var c := FromBlock(r, short, b, nonce);
    var rec := FromCompact(short, c, pool);
    HonestRelay(r, key, b, pool, c);
    OneRoot(r, Together(r, key, b, pool), b.txs);
    res := Complete(r, rec.value, Pick(b, rec.value.missing));
    assert b == Block(b.header, b.txs, b.uncles);
  }

  lemma OneRoot(r: Rules, txs: seq<Tx>, others: seq<Tx>)
    requires RootsOk(r)
    ensures r.merkle(txs) == r.merkle(others) <==> txs == others
  {
    assert r.preimage.txs(r.merkle(txs)) == txs && r.preimage.txs(r.merkle(others)) == others;
  }
}
