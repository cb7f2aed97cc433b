/** The emission schedule (src/emission.rs).

    The reference point is per block and has no table, no epoch loop and no
    saturation: `Pay(h)` is what height `h` is worth, `Issued(n)` the sum of the
    first `n` heights, `Cumulative(h)` that sum clipped at the cap.  The epoch
    loop of the original node and the memo table of the current one are both
    proved equal to it at every 64-bit height. */
module Emission {
  import opened Prelude

  const UNITS_PER_COIN: nat := 100_000_000
  const MAX_SUPPLY: nat := 21_000_001 * UNITS_PER_COIN
  const GENESIS_PREMINT: nat := UNITS_PER_COIN
  const EMISSION_CAP: nat := MAX_SUPPLY - GENESIS_PREMINT
  const INITIAL_REWARD: nat := 1_382_743_055
  const DECAY_EPOCH_BLOCKS: nat := 4_320
  const DECAY_NUM: nat := 99_715_550
  const DECAY_DEN: nat := 100_000_000
  const SLOW_START_BLOCKS: nat := 20_000
  const TAIL_REWARD: nat := 1_000_000

  /** 64-bit `saturating_add` and `saturating_mul`. */
  function SatAdd(a: nat, b: nat): nat { Min(a + b, U64_LIMIT - 1) }
  function SatMul(a: nat, b: nat): nat { Min(a * b, U64_LIMIT - 1) }

  function NextBase(base: nat): nat { base * 99_715_550 / 100_000_000 }

  /** Base reward of an epoch: the decay applied once per epoch, rounded down each time. */
  function Base(epoch: nat): (r: nat)
    ensures r <= INITIAL_REWARD
  {
    if epoch == 0 then INITIAL_REWARD else NextBase(Base(epoch - 1))
  }

  function SlowStart(base: nat, height: nat): (r: nat)
    ensures r <= base
  {
    if height >= SLOW_START_BLOCKS then base
    else
      assert base * height <= base * SLOW_START_BLOCKS;
      base * height / SLOW_START_BLOCKS
  }

  // ------------------------------------------------------------------
  // The per-block definition
  // ------------------------------------------------------------------

  /** What the block of this height pays before clipping at the cap. */
  function Pay(height: nat): nat {
    SlowStart(Max(Base(height / 4_320), TAIL_REWARD), height)
  }

  /** Sum of `Pay` over the first `n` heights. */
  function Issued(n: nat): nat {
    if n == 0 then 0 else Issued(n - 1) + Pay(n - 1)
  }

  /** Everything mined up to this height, clipped. */
  function Cumulative(height: nat): nat { Min(Issued(height + 1), EMISSION_CAP) }

  lemma {:induction false} IssuedMonotone(a: nat, b: nat)
    requires a <= b
    ensures Issued(a) <= Issued(b)
    decreases b - a
  {
    if a < b { IssuedMonotone(a, b - 1); }
  }

  lemma CumulativeMonotone(a: nat, b: nat)
    requires a <= b
    ensures Cumulative(a) <= Cumulative(b) <= EMISSION_CAP
  {
    IssuedMonotone(a + 1, b + 1);
  }

  /** What a block may create: the difference of two totals, never negative. */
  function Subsidy(height: nat): (r: nat)
    ensures r <= EMISSION_CAP
  {
    if height == 0 then 0
    else
      CumulativeMonotone(height - 1, height);
      Cumulative(height) - Cumulative(height - 1)
  }

  function SubsidySum(height: nat): nat {
    if height == 0 then Subsidy(0) else SubsidySum(height - 1) + Subsidy(height)
  }

  /** The subsidies add up to the total, unit for unit. */
  lemma {:induction false} SubsidiesSumToTotal(height: nat)
    ensures SubsidySum(height) == Cumulative(height)
  {
    if height == 0 {
      assert Pay(0) == 0;
      assert Issued(1) == Issued(0) + Pay(0);
    } else {
      SubsidiesSumToTotal(height - 1);
    }
  }

  /** Past the slow start every block pays at least the floor. */
  lemma {:induction false} TailBound(n: nat)
    requires n >= SLOW_START_BLOCKS
    ensures Issued(n) >= (n - SLOW_START_BLOCKS) * TAIL_REWARD
  {
    if n > SLOW_START_BLOCKS {
      TailBound(n - 1);
      assert Pay(n - 1) >= TAIL_REWARD;
    }
  }

  // ------------------------------------------------------------------
  // One epoch at a time
  // ------------------------------------------------------------------

  method EpochBaseReward(epoch: nat) returns (reward: nat)
    ensures reward == Base(epoch)
  {
    reward := INITIAL_REWARD;
    var e := 0;
    while e < epoch
      invariant e <= epoch
      invariant reward == Base(e)
    {
      reward := reward * DECAY_NUM / DECAY_DEN;
      e := e + 1;
      if reward == 0 {
        ZeroStaysZero(e, epoch);
        return 0;
      }
    }
  }

  lemma {:induction false} ZeroStaysZero(e: nat, f: nat)
    requires e <= f && Base(e) == 0
    ensures Base(f) == 0
    decreases f - e
  {
    if e < f { ZeroStaysZero(e, f - 1); }
  }

  function EpochStart(e: nat): nat { e * 4_320 }

  /** What every block of epoch `e` is paid, slow start aside. */
  function Paid(e: nat): (r: nat)
    ensures TAIL_REWARD <= r <= INITIAL_REWARD
  {
    Max(Base(e), TAIL_REWARD)
  }

  lemma PayInEpoch(e: nat, h: nat)
    requires EpochStart(e) <= h < EpochStart(e + 1)
    ensures Pay(h) == SlowStart(Paid(e), h)
  {
    assert h / 4_320 == e;
  }

  lemma SlowStartOver(base: nat, h: nat)
    requires h >= SLOW_START_BLOCKS
    ensures SlowStart(base, h) == base
  {
  }

  /** A stretch of blocks all paid the same. */
  lemma {:induction false} FlatStretch(start: nat, n: nat, paid: nat)
    requires forall h | start <= h < start + n :: Pay(h) == paid
    ensures Issued(start + n) == Issued(start) + paid * n
  {
    hide Pay;
    if n > 0 {
      FlatStretch(start, n - 1, paid);
      assert Issued(start + n) == Issued(start + n - 1) + Pay(start + n - 1);
      assert paid * n == paid * (n - 1) + paid;
    }
  }

  /** An epoch past the slow start, or its beginning, is such a stretch. */
  lemma FlatEpoch(e: nat, n: nat)
    requires EpochStart(e) >= SLOW_START_BLOCKS && n <= DECAY_EPOCH_BLOCKS
    ensures Issued(EpochStart(e) + n) == Issued(EpochStart(e)) + Paid(e) * n
    ensures Paid(e) * n <= INITIAL_REWARD * DECAY_EPOCH_BLOCKS
  {
    hide Pay, Paid, SlowStart;
    forall h | EpochStart(e) <= h < EpochStart(e) + n
      ensures Pay(h) == Paid(e)
    {
      PayInEpoch(e, h);
      SlowStartOver(Paid(e), h);
    }
    FlatStretch(EpochStart(e), n, Paid(e));
    MulBound(Paid(e), n, INITIAL_REWARD, DECAY_EPOCH_BLOCKS);
  }

  lemma MulBound(a: nat, b: nat, c: nat, d: nat)
    requires a <= c && b <= d
    ensures a * b <= c * d
  {
    assert a * b <= c * b;
    assert c * b <= c * d;
  }

  /** The slow-start half of `add_epoch`: block by block. */
  method AddSlowEpoch(total: nat, paid: nat, start: nat, end: nat, ghost e: nat) returns (t: nat)
    requires EpochStart(e) == start <= end < EpochStart(e + 1)
    requires paid == Paid(e)
    requires total == Issued(start) < EMISSION_CAP
    ensures t == Issued(end + 1) <= total + INITIAL_REWARD * (end + 1 - start)
  {
    hide Pay, SlowStart, Paid;
    t := total;
    var h := start;
    while h <= end
      invariant start <= h <= end + 1
      invariant t == Issued(h) <= total + INITIAL_REWARD * (h - start)
    {
      PayInEpoch(e, h);
      t := SatAdd(t, SlowStart(paid, h));
      h := h + 1;
    }
  }

  /** What blocks `start..=end` of one epoch add to a running total (`add_epoch`).
      Below the cap the saturating additions never saturate: the result is the
      exact per-block sum. */
  method AddEpoch(total: nat, base: nat, start: nat, end: nat, ghost e: nat) returns (t: nat)
    requires EpochStart(e) == start <= end < EpochStart(e + 1)
    requires base == Base(e)
    requires total == Issued(start) < EMISSION_CAP
    ensures t == Issued(end + 1) <= total + INITIAL_REWARD * DECAY_EPOCH_BLOCKS < U64_LIMIT
  {
    hide Pay, SlowStart, Base, Issued;
    var paid := Max(base, TAIL_REWARD);
    if start < SLOW_START_BLOCKS {
      t := AddSlowEpoch(total, paid, start, end, e);
    } else {
      var n := end - start + 1;
      FlatEpoch(e, n);
      assert start + n == end + 1;
      t := SatAdd(total, SatMul(paid, n));
    }
  }

  // ------------------------------------------------------------------
  // The iterative reference and the memo table
  // ------------------------------------------------------------------

  /** The original, table-free computation. */
  method CumulativeReference(height: nat) returns (r: nat)
    requires height < U64_LIMIT
    ensures r == Cumulative(height)
  {
    hide Issued, Base, NextBase, EpochStart;
    var total, epoch, base := 0, 0, INITIAL_REWARD;
    AtStart();
    while EpochStart(epoch) <= height && total < EMISSION_CAP
      invariant base == Base(epoch)
      invariant EpochStart(epoch) <= height ==> total == Issued(EpochStart(epoch))
      invariant EpochStart(epoch) > height ==> total == Issued(height + 1)
      decreases height + 1 - EpochStart(epoch)
    {
      var start := EpochStart(epoch);
      var end := Min(height, start + DECAY_EPOCH_BLOCKS - 1);
      NextEpoch(epoch);
      total := AddEpoch(total, base, start, end, epoch);
      base := NextBase(base);
      epoch := epoch + 1;
    }
    if EpochStart(epoch) <= height {
      IssuedMonotone(EpochStart(epoch), height + 1);
    }
    r := Min(total, EMISSION_CAP);
  }

  lemma AtStart()
    ensures EpochStart(0) == 0 && Base(0) == INITIAL_REWARD && Issued(0) == 0
  {
  }

  lemma NextEpoch(e: nat)
    ensures EpochStart(e + 1) == EpochStart(e) + DECAY_EPOCH_BLOCKS && Base(e + 1) == NextBase(Base(e))
  {
  }

  /** What has been issued before an epoch, and its base reward. */
  ghost predicate Entries(table: seq<(nat, nat)>) {
    forall e | 0 <= e < |table| :: table[e] == (Issued(EpochStart(e)), Base(e))
  }

  ghost predicate AllBelowCap(table: seq<(nat, nat)>) {
    forall e | 0 <= e < |table| :: table[e].0 < EMISSION_CAP
  }

  /** One entry for each epoch that starts below the cap, and one past it. */
  ghost predicate TableOk(table: seq<(nat, nat)>) {
    && |table| > 0
    && Entries(table)
    && AllBelowCap(table[..|table| - 1])
    && table[|table| - 1].0 >= EMISSION_CAP
  }

  lemma PositivePay(paid: nat, h: nat)
    requires paid >= TAIL_REWARD && h >= 1
    ensures SlowStart(paid, h) > 0
  {
    assert paid * h >= TAIL_REWARD * h >= TAIL_REWARD;
  }

  /** An epoch always issues something: the table loop makes progress. */
  lemma EpochIssues(e: nat)
    ensures Issued(EpochStart(e)) < Issued(EpochStart(e + 1))
  {
    var last := EpochStart(e + 1) - 1;
    IssuedMonotone(EpochStart(e), last);
    PayInEpoch(e, last);
    PositivePay(Paid(e), last);
  }

  method EpochStarts() returns (table: seq<(nat, nat)>)
    ensures TableOk(table)
  {
    hide Pay, NextBase;
    table := [];
    var total, base, epoch := 0, INITIAL_REWARD, 0;
    while true
      invariant |table| == epoch
      invariant total == Issued(EpochStart(epoch)) && base == Base(epoch)
      invariant Entries(table) && AllBelowCap(table)
      decreases EMISSION_CAP - total
    {
      ghost var done := table;
      table := table + [(total, base)];
      if total >= EMISSION_CAP {
        assert table[..|table| - 1] == done;
        break;
      }
      EpochIssues(epoch);
      var start := epoch * 4_320;
      total := AddEpoch(total, base, start, start + DECAY_EPOCH_BLOCKS - 1, epoch);
      assert start + DECAY_EPOCH_BLOCKS == EpochStart(epoch + 1);
      base := NextBase(base);
      epoch := epoch + 1;
    }
  }

  /** The memoised total: for every 64-bit height it is the per-block sum clipped at the cap. */
  method CumulativeEmission(height: nat) returns (r: nat)
    requires height < U64_LIMIT
    ensures r == Cumulative(height)
  {
    hide Issued, Base;
    var table := EpochStarts();
    var epoch := height / 4_320;
    if epoch >= |table| {
      IssuedMonotone(EpochStart(|table| - 1), height + 1);
      return EMISSION_CAP;
    }
    var (total, base) := table[epoch];
    if total >= EMISSION_CAP {
      IssuedMonotone(EpochStart(epoch), height + 1);
      return EMISSION_CAP;
    }
    total := AddEpoch(total, base, EpochStart(epoch), height, epoch);
    r := Min(total, EMISSION_CAP);
  }

  /** The two implementations agree, hence so do the subsidies; the subtraction never underflows. */
  method BlockSubsidy(height: nat) returns (r: nat)
    requires height < U64_LIMIT
    ensures r == Subsidy(height)
  {
    if height == 0 { return 0; }
    var after := CumulativeEmission(height);
    var before := CumulativeEmission(height - 1);
    CumulativeMonotone(height - 1, height);
    r := after - before;
  }

  lemma FirstBlockIssuesNothing()
    ensures Cumulative(0) == 0
  {
    assert Issued(1) == Issued(0) + Pay(0);
  }

  /** Where emission ends.  The cap is hit exactly at the block before, that
      block still issues, and no later block ever does. */
  method EmissionEndHeight() returns (end: nat)
    ensures end >= 2
    ensures Cumulative(end - 1) == EMISSION_CAP
    ensures Subsidy(end - 1) > 0
    ensures forall h | h >= end :: Subsidy(h) == 0
    ensures forall h | h >= end :: Cumulative(h) + GENESIS_PREMINT == MAX_SUPPLY
  {
    hide Issued, Pay;
    var low, high := 0, EMISSION_CAP / TAIL_REWARD + SLOW_START_BLOCKS + DECAY_EPOCH_BLOCKS;
    TailBound(high + 1);
    FirstBlockIssuesNothing();
    while low < high
      invariant 0 <= low <= high < U64_LIMIT
      invariant Cumulative(high) == EMISSION_CAP
      invariant low > 0 ==> Cumulative(low - 1) < EMISSION_CAP
    {
      var m := low + (high - low) / 2;
      var c := CumulativeEmission(m);
      if c >= EMISSION_CAP { high := m; } else { low := m + 1; }
    }
    end := low + 1;
    forall h | h >= end
      ensures Subsidy(h) == 0 && Cumulative(h) == EMISSION_CAP
    {
      CumulativeMonotone(low, h - 1);
      CumulativeMonotone(low, h);
    }
  }

  // ------------------------------------------------------------------
  // The schedule in figures
  // ------------------------------------------------------------------

  /** Rounded down: `q` is how often `d` goes into `n`. */
  ghost predicate RoundedDown(q: nat, n: nat, d: nat) { q * d <= n < q * d + d }

  /** The ramp and the floor.  Over the first 20 000 heights a block pays its share
      of the reward of its epoch, rounded down, from nothing at height 0; after
      them the whole of it, never less than the floor. */
  lemma Ramp(height: nat)
    ensures height < 20_000 ==> RoundedDown(Pay(height), Paid(height / 4_320) * height, 20_000)
    ensures height >= 20_000 ==> Pay(height) == Paid(height / 4_320)
    ensures Paid(height / 4_320) == Max(Base(height / 4_320), 1_000_000)
    ensures Pay(0) == 0
  {
    hide Base;
    ShareOf(Paid(height / 4_320) * height);
  }

  lemma ShareOf(n: nat)
    ensures RoundedDown(n / 20_000, n, 20_000)
  {
  }

  /** An epoch is paid 99 715 550 parts in 100 000 000 of the one before, rounded down. */
  lemma Decay(epoch: nat)
    ensures Base(0) == 1_382_743_055
    ensures RoundedDown(Base(epoch + 1), Base(epoch) * 99_715_550, 100_000_000)
  {
  }

  function Power(q: real, n: nat): real { if n == 0 then 1.0 else q * Power(q, n - 1) }

  /** All these roundings cost less than 352 units: the reward is below the
      geometric one, and no further. */
  lemma {:induction false} NearlyGeometric(epoch: nat)
    ensures Base(epoch) as real <= 1_382_743_055.0 * Power(0.9971555, epoch) < Base(epoch) as real + 352.0
  {
    if epoch > 0 {
      NearlyGeometric(epoch - 1);
      var exact := 1_382_743_055.0 * Power(0.9971555, epoch - 1);
      assert 1_382_743_055.0 * Power(0.9971555, epoch) == 0.9971555 * exact;
      OneDecay(epoch - 1);
      Scaled(Base(epoch - 1) as real, exact, Base(epoch) as real);
    }
  }

  lemma OneDecay(epoch: nat)
    ensures 0.9971555 * Base(epoch) as real - 1.0 < Base(epoch + 1) as real <= 0.9971555 * Base(epoch) as real
  {
    Decay(epoch);
    var b, c := Base(epoch), Base(epoch + 1);
    assert c as real * 100_000_000.0 == (c * 100_000_000) as real;
    assert b as real * 99_715_550.0 == (b * 99_715_550) as real;
  }

  lemma Scaled(base: real, exact: real, next: real)
    requires base <= exact < base + 352.0
    requires 0.9971555 * base - 1.0 < next <= 0.9971555 * base
    ensures next <= 0.9971555 * exact < next + 352.0
  {
  }

  /** Past the ramp a block never pays more than the one before it. */
  lemma NeverRises(height: nat)
    requires height >= 20_000
    ensures 1_000_000 <= Pay(height + 1) <= Pay(height)
  {
    hide Pay, Base;
    Ramp(height);
    Ramp(height + 1);
    var e := height / 4_320;
    assert (height + 1) / 4_320 == e || (height + 1) / 4_320 == e + 1;
    Decay(e);
  }

  /** What a block may create is what its height pays, as long as that fits under
      the cap, and else whatever is left under it. */
  lemma SubsidyIs(height: nat)
    requires height > 0
    ensures Subsidy(height) == Min(Pay(height), SatSub(EMISSION_CAP, Issued(height)))
    ensures EMISSION_CAP == 2_100_000_000_000_000
  {
    hide Pay;
    assert Issued(height + 1) == Issued(height) + Pay(height);
  }
}
