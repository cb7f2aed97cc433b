/** Checking a whole chain of headers before adopting it (src/chain.rs,
    `check_work`, `check_range`, `check_segment`). */
module HeaderCheck {
  import opened Prelude
  import opened Ledger
  import opened Validation

  datatype AdoptionError = InvalidDifficulty(height: nat) | InvalidTimestamp(height: nat) | InvalidWork(height: nat)

  /** The fault of one header, found by slicing the chain before it. */
  function FaultAt(r: Rules, chain: seq<Header>, i: nat): Option<AdoptionError>
    requires 0 < i < |chain|
  {
    var h := chain[i];
    var from := SatSub(i - 1, LWMA_WINDOW);
    var expected := if r.regtest then INITIAL_BITS else r.nextBits(chain[from..i]);
    var recent := Times(chain[SatSub(i, MEDIAN_TIME_SPAN)..i]);
    if h.bits != expected then Some(InvalidDifficulty(h.height))
    else if (recent != [] && h.time <= r.median(recent)) || (h.height >= r.strictFrom && h.time <= chain[i - 1].time)
      then Some(InvalidTimestamp(h.height))
    else if !r.powOk(h) then Some(InvalidWork(h.height))
    else None
  }

  /** The lowest fault of a stretch of headers. */
  function FirstFault(r: Rules, chain: seq<Header>, lo: nat, hi: nat): Option<AdoptionError>
    requires 0 < lo <= hi <= |chain|
    decreases hi - lo
  {
    if lo == hi then None
    else if FaultAt(r, chain, lo).Some? then FaultAt(r, chain, lo)
    else FirstFault(r, chain, lo + 1, hi)
  }

  /** What a full node, anchors apart, has against header `i` after the ones before. */
  function Objection(r: Rules, chain: seq<Header>, i: nat): Option<ValidationError>
    requires 0 < i < |chain|
  {
    HeaderFault(r.(anchors := map[]), ContextAt(r, chain[..i]), chain[i])
  }

  /** Header `i` is the one at fault: a full node refuses its difficulty, or refuses
      its time, or only its work is missing. */
  ghost predicate FaultOf(r: Rules, chain: seq<Header>, i: nat, fault: AdoptionError)
    requires 0 < i < |chain|
  {
    && fault.height == i
    && match Objection(r, chain, i)
       case Some(BadDifficulty) => fault.InvalidDifficulty?
       case Some(TimestampTooOld) => fault.InvalidTimestamp?
       case Some(TimestampNotAfterParent) => fault.InvalidTimestamp?
       case Some(_) => false
       case None => fault.InvalidWork? && !r.powOk(chain[i])
  }

  /** The slices are the windows a connected block is checked against: what
      passes here passes every header rule of a full node but its links and
      anchors, and has its work; what does not is named after the rule it breaks. */
  lemma FaultIsRule(r: Rules, chain: seq<Header>, i: nat)
    requires 0 < i < |chain|
    requires chain[i].height == i && chain[i].prev == r.blockId(chain[i - 1])
    ensures FaultAt(r, chain, i).None? <==> Objection(r, chain, i).None? && r.powOk(chain[i])
    ensures FaultAt(r, chain, i).Some? ==> FaultOf(r, chain, i, FaultAt(r, chain, i).value)
  {
    var before := chain[..i];
    assert Suffix(before, LWMA_WINDOW + 1) == chain[SatSub(i - 1, LWMA_WINDOW)..i];
    assert Suffix(before, MEDIAN_TIME_SPAN) == chain[SatSub(i, MEDIAN_TIME_SPAN)..i];
  }

  lemma {:induction false} NoFault(r: Rules, chain: seq<Header>, lo: nat, hi: nat)
    requires 0 < lo <= hi <= |chain|
    ensures FirstFault(r, chain, lo, hi).None? <==> (forall i | lo <= i < hi :: FaultAt(r, chain, i).None?)
    decreases hi - lo
  {
    hide FaultAt;
    if lo < hi { NoFault(r, chain, lo + 1, hi); }
  }

  /** Each header is at its own height, on the one before. */
  ghost predicate InLine(r: Rules, chain: seq<Header>) {
    forall i | 0 < i < |chain| :: chain[i].height == i && chain[i].prev == r.blockId(chain[i - 1])
  }

  /** Every header passes the rules a full node has for it after the ones before,
      but for anchors, and has its work. */
  ghost predicate AllPass(r: Rules, chain: seq<Header>) {
    forall i | 0 < i < |chain| :: Objection(r, chain, i).None? && r.powOk(chain[i])
  }

  /** Everything before header `i` passes, and it is at fault for this. */
  ghost predicate FirstToFail(r: Rules, chain: seq<Header>, i: nat, fault: AdoptionError) {
    && 0 < i < |chain|
    && AllPass(r, chain[..i])
    && FaultOf(r, chain, i, fault)
  }

  /** For headers in line, no fault is the same as passing every rule, and a fault
      is that of the first header to fail. */
  lemma NoFaultIsRules(r: Rules, chain: seq<Header>)
    requires |chain| > 1 && InLine(r, chain)
    ensures FirstFault(r, chain, 1, |chain|).None? <==> AllPass(r, chain)
    ensures FirstFault(r, chain, 1, |chain|).Some? ==>
              var fault := FirstFault(r, chain, 1, |chain|).value; FirstToFail(r, chain, fault.height, fault)
  {
    hide FaultAt, FirstFault, Objection;
    NoFault(r, chain, 1, |chain|);
    forall i | 0 < i < |chain|
      ensures FaultAt(r, chain, i).None? <==> Objection(r, chain, i).None? && r.powOk(chain[i])
      ensures FaultAt(r, chain, i).Some? ==> FaultOf(r, chain, i, FaultAt(r, chain, i).value)
    {
      FaultIsRule(r, chain, i);
    }
    if FirstFault(r, chain, 1, |chain|).Some? {
      var i := FaultIsAt(r, chain, 1, |chain|);
      forall k | 0 < k < i
        ensures Objection(r, chain[..i], k).None? && r.powOk(chain[..i][k])
      {
        SameObjection(r, chain, i, k);
      }
    }
  }

  lemma SameObjection(r: Rules, chain: seq<Header>, i: nat, k: nat)
    requires 0 < k < i <= |chain|
    ensures Objection(r, chain[..i], k) == Objection(r, chain, k)
  {
    assert chain[..i][..k] == chain[..k];
  }

  /** Where the lowest fault is. */
  lemma {:induction false} FaultIsAt(r: Rules, chain: seq<Header>, lo: nat, hi: nat) returns (at: nat)
    requires 0 < lo <= hi <= |chain| && FirstFault(r, chain, lo, hi).Some?
    ensures lo <= at < hi && FaultAt(r, chain, at) == FirstFault(r, chain, lo, hi)
    ensures forall i | lo <= i < at :: FaultAt(r, chain, i).None?
    decreases hi - lo
  {
    hide FaultAt;
    at := lo;
    if FaultAt(r, chain, lo).None? { at := FaultIsAt(r, chain, lo + 1, hi); }
  }

  /** The lowest fault of two stretches in a row. */
  lemma {:induction false} FaultJoin(r: Rules, chain: seq<Header>, lo: nat, mid: nat, hi: nat)
    requires 0 < lo <= mid <= hi <= |chain|
    ensures FirstFault(r, chain, lo, hi) ==
            if FirstFault(r, chain, lo, mid).Some? then FirstFault(r, chain, lo, mid) else FirstFault(r, chain, mid, hi)
    decreases mid - lo
  {
    hide FaultAt;
    if lo < mid { FaultJoin(r, chain, lo + 1, mid, hi); }
  }

  method CheckSegment(r: Rules, chain: seq<Header>, lo: nat, hi: nat) returns (fault: Option<AdoptionError>)
    requires 0 < lo <= hi <= |chain|
    ensures fault == FirstFault(r, chain, lo, hi)
  {
    hide FaultAt;
    for i := lo to hi
      invariant FirstFault(r, chain, lo, hi) == FirstFault(r, chain, i, hi)
    {
      if FaultAt(r, chain, i).Some? { return FaultAt(r, chain, i); }
    }
    return None;
  }

  /** The first error of a list of verdicts. */
  function FirstError(results: seq<Option<AdoptionError>>): Option<AdoptionError> {
    if results == [] then None else if results[0].Some? then results[0] else FirstError(results[1..])
  }

  lemma {:induction false} FirstErrorPush(results: seq<Option<AdoptionError>>, last: Option<AdoptionError>)
    ensures FirstError(results + [last]) == if FirstError(results).Some? then FirstError(results) else last
  {
    if results == [] {
      assert [last][1..] == [];
    } else {
      assert (results + [last])[1..] == results[1..] + [last];
      FirstErrorPush(results[1..], last);
    }
  }

  /** Spreads a stretch over several threads.  However many there are, the
      verdict is the lowest fault. */
  method CheckRange(r: Rules, chain: seq<Header>, lo: nat, hi: nat, threads: nat) returns (fault: Option<AdoptionError>)
    requires 0 < lo <= hi <= |chain|
    ensures fault == FirstFault(r, chain, lo, hi)
  {
    hide FaultAt, FirstFault, FirstError;
    var n := hi - lo;
    var used := Max(Min(threads, n), 1);
    if used == 1 || n < 256 {
      fault := CheckSegment(r, chain, lo, hi);
      return;
    }
    var size := (n + used - 1) / used;
    var results := [];
    var d := lo;
    FirstErrorNone();
    FirstFaultNone(r, chain, lo);
    while d < hi
      invariant lo <= d <= hi
      invariant FirstError(results) == FirstFault(r, chain, lo, d)
    {
      var f := Min(d + size, hi);
      var one := CheckSegment(r, chain, d, f);
      FirstErrorPush(results, one);
      FaultJoin(r, chain, lo, d, f);
      results := results + [one];
      d := f;
    }
    return FirstError(results);
  }

  lemma FirstErrorNone()
    ensures FirstError([]) == None
  {
  }

  lemma FirstFaultNone(r: Rules, chain: seq<Header>, lo: nat)
    requires 0 < lo <= |chain|
    ensures FirstFault(r, chain, lo, lo) == None
  {
  }

  const POW_EPOCH_BLOCKS: nat := 51_200

  function EpochOf(height: nat): nat { height / POW_EPOCH_BLOCKS }

  /** Stretches that follow each other from `lo` to `hi`: each height is in one. */
  ghost predicate Tiles(stretches: seq<(nat, nat)>, lo: nat, hi: nat) {
    && (forall k | 0 <= k < |stretches| :: stretches[k].0 < stretches[k].1)
    && (forall k | 0 < k < |stretches| :: stretches[k].0 == stretches[k - 1].1)
    && (if stretches == [] then lo == hi else stretches[0].0 == lo && Last(stretches).1 == hi)
  }

  /** All heights of a stretch are of one epoch. */
  ghost predicate OneEpoch(chain: seq<Header>, stretch: (nat, nat)) {
    && stretch.0 < stretch.1 <= |chain|
    && forall i | stretch.0 <= i < stretch.1 :: EpochOf(chain[i].height) == EpochOf(chain[stretch.0].height)
  }

  /** No epoch is split: a stretch ends where the epoch changes. */
  ghost predicate EpochByEpoch(chain: seq<Header>, stretches: seq<(nat, nat)>) {
    && (forall k | 0 <= k < |stretches| :: OneEpoch(chain, stretches[k]))
    && (forall k | 0 < k < |stretches| ::
          EpochOf(chain[stretches[k].0].height) != EpochOf(chain[stretches[k - 1].0].height))
  }

  lemma NoStretch(chain: seq<Header>)
    ensures Tiles([], 1, 1) && EpochByEpoch(chain, [])
  {
  }

  lemma NextStretch(chain: seq<Header>, stretches: seq<(nat, nat)>, i: nat, j: nat)
    requires 1 <= i && Tiles(stretches, 1, i) && EpochByEpoch(chain, stretches) && OneEpoch(chain, (i, j))
    requires stretches != [] ==>
               Last(stretches).0 < |chain| && EpochOf(chain[i].height) != EpochOf(chain[Last(stretches).0].height)
    ensures Tiles(stretches + [(i, j)], 1, j) && EpochByEpoch(chain, stretches + [(i, j)])
  {
    hide EpochOf;
  }

  /** Checks every header after genesis, epoch by epoch.  The verdict is the
      lowest fault of the whole chain, whatever heights the headers claim and
      however many threads there are; for headers in line there is none exactly
      when each passes the rules of a full node, and else it names the first that
      does not and the rule it breaks.  `stretches` are those given to the
      threads: each header is in one of them, up to the fault or the end. */
  method CheckWork(r: Rules, chain: seq<Header>, threads: nat)
    returns (fault: Option<AdoptionError>, ghost stretches: seq<(nat, nat)>)
    ensures fault == if |chain| <= 1 then None else FirstFault(r, chain, 1, |chain|)
    ensures InLine(r, chain) ==> (fault.None? <==> AllPass(r, chain))
    ensures InLine(r, chain) && fault.Some? ==> FirstToFail(r, chain, fault.value.height, fault.value)
    ensures EpochByEpoch(chain, stretches)
    ensures |chain| > 1 && fault.None? ==> Tiles(stretches, 1, |chain|)
    ensures fault.Some? ==>
              && |stretches| > 0 && Tiles(stretches, 1, Last(stretches).1)
              && 0 < Last(stretches).0 && FirstFault(r, chain, Last(stretches).0, Last(stretches).1) == fault
  {
    hide FaultAt, FirstFault, EpochOf, Tiles, EpochByEpoch, Objection, FaultOf, FirstToFail, InLine;
    stretches := [];
    NoStretch(chain);
    if |chain| <= 1 { return None, stretches; }
    if InLine(r, chain) { NoFaultIsRules(r, chain); }
    FirstFaultNone(r, chain, 1);
    var i := 1;
    while i < |chain|
      invariant 1 <= i <= |chain|
      invariant FirstFault(r, chain, 1, i) == None
      invariant Tiles(stretches, 1, i) && EpochByEpoch(chain, stretches)
      invariant stretches != [] ==> Last(stretches).0 < |chain|
      invariant stretches != [] && i < |chain| ==> EpochOf(chain[i].height) != EpochOf(chain[Last(stretches).0].height)
    {
      var epoch := EpochOf(chain[i].height);
      var j := i + 1;
      while j < |chain| && EpochOf(chain[j].height) == epoch
        invariant i < j <= |chain|
        invariant forall k | i <= k < j :: EpochOf(chain[k].height) == epoch
      {
        j := j + 1;
      }
      FaultJoin(r, chain, 1, i, j);
      FaultJoin(r, chain, 1, j, |chain|);
      fault := CheckRange(r, chain, i, j, threads);
      NextStretch(chain, stretches, i, j);
      stretches := stretches + [(i, j)];
      if fault.Some? { return; }
      i := j;
    }
    return None, stretches;
  }
}
