/** When a competing branch may take over (src/chain.rs, `reorg_threshold`). */
module ForkChoice {
  import opened Prelude
  import opened Index
  import opened ChainState

  const REORG_PENALTY_FROM_DEPTH: nat := 6
  const REORG_PENALTY_PCT_PER_BLOCK: nat := 1
  const REORG_PENALTY_MAX_PCT: nat := 25

  /** 256-bit multiplication then division; divides first when the product overflows. */
  function MulDiv(a: nat, mul: nat, div: nat): Option<nat>
    requires div > 0
  {
    if Product(a, mul) < U256_LIMIT then Some(Product(a, mul) / div)
    else if Product(a / div, mul) < U256_LIMIT then Some(Product(a / div, mul))
    else None
  }

  /** Surcharge, in percent of the work since the fork. */
  function Excess(depth: nat): (e: nat)
    ensures e <= REORG_PENALTY_MAX_PCT
    ensures depth > REORG_PENALTY_FROM_DEPTH <==> e >= 1
  {
    Min(SatSub(depth, REORG_PENALTY_FROM_DEPTH) * REORG_PENALTY_PCT_PER_BLOCK, REORG_PENALTY_MAX_PCT)
  }

  /** Total work a branch must exceed to replace `depth` blocks of a chain of
      `total` work, `common` of it up to the fork. */
  function Threshold(total: nat, common: nat, depth: nat): nat {
    var sinceFork := SatSub(total, common);
    if depth <= REORG_PENALTY_FROM_DEPTH then total
    else
      var surcharged :=
        match MulDiv(sinceFork, 100 + Excess(depth), 100)
        case Some(w) => w
        case None => sinceFork;
      if common + surcharged < U256_LIMIT then common + surcharged else total
  }

  lemma MulDivGrows(a: nat, e: nat)
    requires e <= REORG_PENALTY_MAX_PCT
    ensures e >= 1 && MulDiv(a, 100 + e, 100).Some? ==> MulDiv(a, 100 + e, 100).value >= a
  {
    MulOrder(100, 100 + e, a);
    MulOrder(100 + e, 125, a);
    Quotient(Product(a, 100), a, 100, 0);
    DivOrder(Product(a, 100), Product(a, 100 + e), 100);
    Divided(a, 100);
    if e >= 1 { MulOrder(101, 100 + e, a / 100); }
  }

  /** The threshold never lets a lighter chain win and never asks for more than a
      quarter of the work since the fork, overflows included. */
  lemma ThresholdCovers(total: nat, common: nat, depth: nat)
    requires common <= total
    ensures total <= Threshold(total, common, depth) <= common + (total - common) * 125 / 100
  {
    hide MulDiv;
    MulDivGrows(total - common, Excess(depth));
    MulDivClose(total - common, 100 + Excess(depth));
    DivOrder(Product(total - common, 100), Product(total - common, 125), 100);
    Quotient(Product(total - common, 100), total - common, 100, 0);
  }

  /** Divided first, it is less by at most `mul`. */
  lemma MulDivClose(a: nat, mul: nat)
    requires 100 <= mul <= 125
    ensures match MulDiv(a, mul, 100)
            case Some(w) => w <= Product(a, mul) / 100 <= Min(Product(a, 125) / 100, w + mul)
            case None => Product(a, mul) / 100 >= U256_LIMIT
  {
    hide Product;
    HundredFirst(a, mul);
    Widen(a, mul);
  }

  lemma Widen(a: nat, mul: nat)
    requires mul <= 125
    ensures Product(a, mul) / 100 <= Product(a, 125) / 100
  {
    MulOrder(mul, 125, a);
    DivOrder(Product(a, mul), Product(a, 125), 100);
  }

  lemma HundredFirst(a: nat, mul: nat)
    ensures Product(a / 100, mul) <= Product(a, mul) / 100 <= Product(a / 100, mul) + mul
  {
    var k, m := a / 100, a % 100;
    Divided(a, 100);
    Distribute(100 * k, m, mul);
    assert Product(100 * k, mul) == 100 * Product(k, mul);
    MulOrder(m, 100, mul);
    Hundredth(Product(k, mul), Product(m, mul), mul);
  }

  lemma Hundredth(x: nat, y: nat, mul: nat)
    requires y <= 100 * mul
    ensures x <= (100 * x + y) / 100 <= x + mul
  {
  }

  /** The threshold where 256 bits hold the sum. */
  lemma Surcharged(total: nat, common: nat, depth: nat)
    requires common <= total && Product(total, 125) < U256_LIMIT
    ensures Threshold(total, common, depth) == common + Product(total - common, 100 + Excess(depth)) / 100
  {
    var since, e := total - common, Excess(depth);
    MulOrder(100 + e, 125, since);
    MulOrder(since, total, 125);
    DivOrder(Product(since, 100 + e), Product(since, 125), 100);
    if depth <= REORG_PENALTY_FROM_DEPTH { Quotient(Product(since, 100), since, 100, 0); }
  }

  /** Nothing up to six blocks deep, then one percent more of the work since the
      fork for each block, and a quarter from 31 blocks on. */
  lemma SurchargeIs(total: nat, common: nat, depth: nat)
    requires common <= total && Product(total, 125) < U256_LIMIT
    ensures depth <= 6 ==> Threshold(total, common, depth) == total
    ensures 6 <= depth <= 31 ==> Threshold(total, common, depth) == common + (total - common) * (94 + depth) / 100
    ensures depth >= 31 ==> Threshold(total, common, depth) == common + (total - common) * 125 / 100
  {
    hide Threshold;
    Surcharged(total, common, depth);
    Quotient(Product(total - common, 100), total - common, 100, 0);
  }

  /** The threshold for every total that 256 bits hold.  It fits them too; it is the
      surcharged work, less the rounding where the product does not fit; and the
      plain work where the surcharged work does not fit. */
  lemma SurchargeFits(total: nat, common: nat, depth: nat)
    requires common <= total < U256_LIMIT && depth > 6
    ensures var percent := if depth < 31 then 94 + depth else 125;
            var surcharged := common + (total - common) * percent / 100;
            && Threshold(total, common, depth) < U256_LIMIT
            && (surcharged < U256_LIMIT ==> surcharged - 125 <= Threshold(total, common, depth) <= surcharged)
            && (surcharged >= U256_LIMIT + 125 ==> Threshold(total, common, depth) == total)
  {
    hide MulDiv;
    MulDivClose(total - common, 100 + Excess(depth));
  }

  /** One block deeper costs one percent more from seven to 31 blocks, and nothing
      more elsewhere. */
  lemma SurchargeSteps(total: nat, common: nat, depth: nat)
    requires common <= total && Product(total, 125) < U256_LIMIT && (total - common) % 100 == 0
    ensures Threshold(total, common, depth + 1)
            == Threshold(total, common, depth) + if 6 <= depth < 31 then (total - common) / 100 else 0
  {
    hide Threshold;
    SurchargeIs(total, common, depth);
    SurchargeIs(total, common, depth + 1);
    var k := (total - common) / 100;
    Hundreds(total - common, k, 94 + depth);
    Hundreds(total - common, k, 95 + depth);
    Hundreds(total - common, k, 125);
    Distribute(94 + depth, 1, k);
  }

  lemma Hundreds(since: nat, k: nat, percent: nat)
    requires since == 100 * k
    ensures since * percent / 100 == k * percent
  {
    assert since * percent == 100 * (k * percent);
    Quotient(since * percent, k * percent, 100, 0);
  }

  /** A deeper fork below the same block never costs less, as long as 256 bits hold the sum. */
  lemma ThresholdMonotone(total: nat, common: nat, shallow: nat, deep: nat)
    requires common <= total && shallow <= deep
    requires Product(total, 125) < U256_LIMIT
    ensures Threshold(total, common, shallow) <= Threshold(total, common, deep)
  {
    hide Threshold;
    Surcharged(total, common, shallow);
    Surcharged(total, common, deep);
    var since := total - common;
    MulOrder(100 + Excess(shallow), 100 + Excess(deep), since);
    DivOrder(Product(since, 100 + Excess(shallow)), Product(since, 100 + Excess(deep)), 100);
  }

  // ------------------------------------------------------------------
  // What the surcharge forbids
  // ------------------------------------------------------------------

  /** Blocks that each count from `lo` to `hi`: `n` of them may replace `d` of
      them on top of a common past.  The first of either side have the same
      parent and so the same work `w`; `gain` and `since` are the others. */
  ghost predicate Displaces(lo: nat, hi: nat, common: nat, w: nat, d: nat, since: nat, n: nat, gain: nat) {
    && 0 < d <= MAX_REORG_DEPTH && 0 < n && lo <= w <= hi
    && Product(common + w + since, 125) < U256_LIMIT
    && Product(d - 1, lo) <= since <= Product(d - 1, hi)
    && Product(n - 1, lo) <= gain <= Product(n - 1, hi)
    && common + w + gain > Threshold(common + w + since, common, d)
  }

  /** No branch with fewer blocks than it replaces gets through. */
  ghost predicate NeverShorter(lo: nat, hi: nat) {
    forall common, w, d, since, n, gain | Displaces(lo, hi, common, w, d, since, n, gain) :: d <= n
  }

  /** The chain cannot get shorter if and only if no block counts more than
      293/250 of another.  The weakest place of the surcharge is twelve blocks
      deep: six percent there, and twelve against eleven. */
  lemma NeverShorterIff(lo: nat, hi: nat)
    requires 0 < lo <= hi && Product(Product(12, lo), 125) < U256_LIMIT
    ensures NeverShorter(lo, hi) <==> 250 * hi <= 293 * lo
  {
    hide Displaces;
    if 250 * hi <= 293 * lo {
      forall common, w, d, since, n, gain | Displaces(lo, hi, common, w, d, since, n, gain)
        ensures d <= n
      {
        NotShorter(lo, hi, common, w, d, since, n, gain);
      }
    } else {
      TwelveAgainstEleven(lo, hi);
    }
  }

  /** What getting past the threshold means, in percent. */
  lemma PastThreshold(common: nat, w: nat, d: nat, since: nat, gain: nat)
    requires Product(common + w + since, 125) < U256_LIMIT
    requires common + w + gain > Threshold(common + w + since, common, d)
    ensures 100 * gain > Product(since, 100 + Excess(d)) + Product(w, Excess(d))
  {
    hide Threshold;
    var e := Excess(d);
    Surcharged(common + w + since, common, d);
    Divided(Product(w + since, 100 + e), 100);
    Distribute(w, since, 100 + e);
    assert Product(w, 100 + e) == 100 * w + Product(w, e);
  }

  lemma NotShorter(lo: nat, hi: nat, common: nat, w: nat, d: nat, since: nat, n: nat, gain: nat)
    requires 0 < lo && 250 * hi <= 293 * lo && Displaces(lo, hi, common, w, d, since, n, gain)
    ensures d <= n
  {
    hide Threshold, Excess;
    PastThreshold(common, w, d, since, gain);
    var e := Excess(d);
    if n < d {
      LessByOne(d);
      MulOrder(Product(d - 1, lo), since, 100 + e);
      MulOrder(lo, w, e);
      MulOrder(n - 1, d - 2, hi);
      ShorterWeighs(lo, hi, d, e);
    }
  }

  /** In percent of one light block: `d` of them with their surcharge, and
      `d - 2` heavy ones beside the one both sides have. */
  lemma ShorterWeighs(lo: nat, hi: nat, d: nat, e: nat)
    requires d >= 2 && 250 * hi <= 293 * lo && 29_300 * (d - 2) <= 250 * (Product(d - 1, 100 + e) + e)
    ensures 100 * Product(d - 2, hi) <= Product(Product(d - 1, lo), 100 + e) + Product(lo, e)
  {
    var k := Product(d - 1, 100 + e) + e;
    MulOrder(250 * hi, 293 * lo, 100 * (d - 2));
    MulOrder(29_300 * (d - 2), 250 * k, lo);
    calc {
      250 * (100 * Product(d - 2, hi));
      { MulAssoc(100, d - 2, hi); MulAssoc(250, hi, 100 * (d - 2)); }
      (250 * hi) * (100 * (d - 2));
    <=
      (293 * lo) * (100 * (d - 2));
      { MulAssoc(293, lo, 100 * (d - 2)); MulAssoc(100, d - 2, lo); }
      (29_300 * (d - 2)) * lo;
    <=
      (250 * k) * lo;
      { MulAssoc(250, k, lo); Distribute(Product(d - 1, 100 + e), e, lo); Turned(d, e, lo); }
      250 * (Product(Product(d - 1, lo), 100 + e) + Product(lo, e));
    }
  }

  lemma Turned(d: nat, e: nat, lo: nat)
    requires d > 0
    ensures Product(Product(d - 1, 100 + e), lo) == Product(Product(d - 1, lo), 100 + e)
  {
    MulAssoc(d - 1, 100 + e, lo);
    MulAssoc(d - 1, lo, 100 + e);
  }

  /** The balance at every depth. */
  lemma LessByOne(d: nat)
    requires d >= 2
    ensures 29_300 * (d - 2) <= 250 * (Product(d - 1, 100 + Excess(d)) + Excess(d))
  {
    if d <= REORG_PENALTY_FROM_DEPTH {
    } else if d <= REORG_PENALTY_FROM_DEPTH + REORG_PENALTY_MAX_PCT {
      assert Excess(d) == d - 6;
      Parabola(d);
    } else {
      assert Excess(d) == 25;
    }
  }

  lemma Parabola(d: nat)
    requires d >= 7
    ensures 29_300 * (d - 2) <= 250 * ((d - 1) * (94 + d) + (d - 6))
  {
    if d <= 11 {
      assert d == 7 || d == 8 || d == 9 || d == 10 || d == 11;
    } else {
      var x := d - 12;
      assert 250 * ((d - 1) * (94 + d) + (d - 6)) == 29_300 * (d - 2) + 50 * (x * (5 * x + 4));
    }
  }

  lemma TwelveAgainstEleven(lo: nat, hi: nat)
    requires 0 < lo <= hi && Product(Product(12, lo), 125) < U256_LIMIT && 250 * hi > 293 * lo
    ensures Displaces(lo, hi, 0, lo, 12, 11 * lo, 11, 10 * hi) && !NeverShorter(lo, hi)
  {
    Surcharged(12 * lo, 0, 12);
    Divided(Product(12 * lo, 106), 100);
    assert Displaces(lo, hi, 0, lo, 12, 11 * lo, 11, 10 * hi);
    if NeverShorter(lo, hi) { assert false; }
  }

  /** What a branch with fewer blocks than it replaces costs at least, beyond what
      it replaces: it is seven blocks deep or more. */
  function Shortening(lo: nat): nat { 7 * lo / 100 + 1 }

  lemma ShorterIsDearer(lo: nat, hi: nat, common: nat, w: nat, d: nat, since: nat, n: nat, gain: nat)
    requires 0 < lo && 4 * hi <= 5 * lo && Displaces(lo, hi, common, w, d, since, n, gain) && n < d
    ensures gain >= since + Shortening(lo)
  {
    hide Threshold, Excess;
    PastThreshold(common, w, d, since, gain);
    MulOrder(n - 1, d - 2, hi);
    ExcessFrom(d);
    if d <= 6 {
      SixForFive(lo, hi, d);
    } else {
      MulOrder(6, d - 1, lo);
      OnePercent(lo, w, since, gain, Excess(d));
    }
  }

  /** Up to six blocks deep, fewer blocks count no more. */
  lemma SixForFive(lo: nat, hi: nat, d: nat)
    requires 4 * hi <= 5 * lo && 2 <= d <= 6
    ensures Product(d - 2, hi) <= Product(d - 1, lo)
  {
    assert d == 2 || d == 3 || d == 4 || d == 5 || d == 6;
  }

  /** One percent and more of seven blocks. */
  lemma OnePercent(lo: nat, w: nat, since: nat, gain: nat, e: nat)
    requires e >= 1 && lo <= w && 6 * lo <= since
    requires Product(gain, 100) > Product(since, 100 + e) + Product(w, e)
    ensures gain >= since + Shortening(lo)
  {
    MulOrder(1, e, since);
    MulOrder(1, e, w);
    assert Product(since, 100 + e) == 100 * since + Product(e, since);
    Divided(7 * lo, 100);
  }

  lemma ExcessFrom(d: nat)
    ensures d <= 6 ==> Excess(d) == 0
    ensures d > 6 ==> Excess(d) >= 1
    ensures d >= 31 ==> Excess(d) == 25
  {
  }

  /** Blocks that count from `lo` to `hi` can never reach 720 deep again after the
      chain got shorter: the most that 722 of them can count, against the least
      that 721 of them count with what getting shorter costs and a quarter. */
  predicate KeepsSettled(lo: nat, hi: nat) {
    100 * lo + 72_100 * hi <= 125 * (721 * lo + Shortening(lo))
  }

  lemma KeepsSettledRatio(lo: nat, hi: nat)
    requires 0 < lo && KeepsSettled(lo, hi)
    ensures 4 * hi <= 5 * lo
  {
    Divided(7 * lo, 100);
    if lo == 1 { assert Shortening(lo) == 1; }
  }

  /** So much work above the fork, behind the block both sides share, is out of
      reach of any branch, however it is made. */
  lemma OutOfReach(lo: nat, hi: nat, common: nat, w: nat, d: nat, since: nat, gain: nat)
    requires 0 < lo <= w <= hi && KeepsSettled(lo, hi)
    requires 0 < d && Product(common + w + since, 125) < U256_LIMIT
    requires 720 * lo + Shortening(lo) <= since <= Product(d - 1, hi) && gain <= 721 * hi
    ensures common + w + gain <= Threshold(common + w + since, common, d)
  {
    hide Threshold, Excess, Shortening;
    KeepsSettledRatio(lo, hi);
    assert Product(w, 25) >= 25 * lo && Product(since, 125) >= 125 * (720 * lo + Shortening(lo));
    if common + w + gain > Threshold(common + w + since, common, d) {
      PastThreshold(common, w, d, since, gain);
      if d <= 30 { MulOrder(d - 1, 29, hi); }
      ExcessFrom(d);
    }
  }
}
