/** Bech32m (src/bech32.rs; BIP-173 with the constant of BIP-350).  Strings are
    their bytes, one character each; the 30-bit register and the 5-bit symbols
    are lists of bits. */
module Bech32m {
  import opened Prelude
  import opened Bits

  // ------------------------------------------------------------------
  // The checksum
  // ------------------------------------------------------------------

  const BECH32M_CONST: nat := 0x2bc8_30a3

  function Generator(i: nat): nat
    requires i < 5
  {
    if i == 0 then 0x3b6a_57b2 else if i == 1 then 0x2650_8e6d else if i == 2 then 0x1ea1_19fa
    else if i == 3 then 0x3d42_33dd else 0x2a14_62b3
  }

  predicate Register(w: Word) { |w| == 30 }

  predicate Symbols(syms: seq<Word>) { forall i | 0 <= i < |syms| :: |syms[i]| == 5 }

  /** Mixes in the generators of the first `n` bits that left the register. */
  function Mixed(w: Word, top: Word, n: nat): (m: Word)
    requires Register(w) && |top| == 5 && n <= 5
    ensures Register(m)
  {
    if n == 0 then w
    else if top[5 - n] then Xor(Mixed(w, top, n - 1), ToBits(Generator(n - 1), 30))
    else Mixed(w, top, n - 1)
  }

  function Step(chk: Word, sym: Word): (w: Word)
    requires Register(chk) && |sym| == 5
    ensures Register(w)
  {
    Mixed(chk[5..] + sym, chk[..5], 5)
  }

  function Steps(chk: Word, syms: seq<Word>): (w: Word)
    requires Register(chk) && Symbols(syms)
    ensures Register(w)
    decreases |syms|
  {
    if syms == [] then chk else Steps(Step(chk, syms[0]), syms[1..])
  }

  /** Symbols as bits. */
  function AsBits(values: seq<nat>): (syms: seq<Word>)
    ensures |syms| == |values| && Symbols(syms)
    ensures forall i | 0 <= i < |values| :: syms[i] == ToBits(values[i], 5)
  {
    seq(|values|, i requires 0 <= i < |values| => ToBits(values[i], 5))
  }

  function Checksum(values: seq<nat>): (w: Word)
    ensures Register(w)
  {
    Steps(ToBits(1, 30), AsBits(values))
  }

  method Polymod(values: seq<nat>) returns (chk: Word)
    ensures chk == Checksum(values)
  {
    hide ToBits;
    chk := ToBits(1, 30);
    ghost var syms := AsBits(values);
    assert syms[0..] == syms;
    for k := 0 to |values|
      invariant Register(chk) && Symbols(syms[k..])
      invariant Steps(chk, syms[k..]) == Checksum(values)
    {
      var b := chk[..5];
      ghost var before := chk;
      chk := chk[5..] + ToBits(values[k], 5);
      ghost var shifted := chk;
      for i := 0 to 5
        invariant Register(chk) && chk == Mixed(shifted, b, i)
      {
        if b[4 - i] { chk := Xor(chk, ToBits(Generator(i), 30)); }
      }
      assert syms[k..][0] == ToBits(values[k], 5) && syms[k..][1..] == syms[k + 1..];
      assert chk == Step(before, syms[k]);
    }
  }

  // ------------------------------------------------------------------
  // The checksum is linear
  // ------------------------------------------------------------------

  lemma {:induction false} MixedLinear(w: Word, x: Word, top: Word, tip: Word, n: nat)
    requires Register(w) && Register(x) && |top| == |tip| == 5 && n <= 5
    ensures Mixed(Xor(w, x), Xor(top, tip), n) == Xor(Mixed(w, top, n), Mixed(x, tip, n))
    decreases n
  {
    hide ToBits;
    if n > 0 {
      MixedLinear(w, x, top, tip, n - 1);
      var a, b, g := Mixed(w, top, n - 1), Mixed(x, tip, n - 1), ToBits(Generator(n - 1), 30);
      XorCases(a, b, g);
    }
  }

  lemma XorCases(a: Word, b: Word, g: Word)
    requires |a| == |b| == |g|
    ensures Xor(Xor(a, g), Xor(b, g)) == Xor(a, b)
    ensures Xor(Xor(a, g), b) == Xor(Xor(a, b), g) == Xor(a, Xor(b, g))
  {
  }

  lemma StepLinear(a: Word, b: Word, s: Word, t: Word)
    requires Register(a) && Register(b) && |s| == |t| == 5
    ensures Step(Xor(a, b), Xor(s, t)) == Xor(Step(a, s), Step(b, t))
  {
    hide Mixed;
    XorJoin(a[5..], s, b[5..], t);
    assert Xor(a, b)[5..] == Xor(a[5..], b[5..]);
    assert Xor(a, b)[..5] == Xor(a[..5], b[..5]);
    MixedLinear(a[5..] + s, b[5..] + t, a[..5], b[..5], 5);
  }

  function XorAll(u: seq<Word>, v: seq<Word>): (d: seq<Word>)
    requires |u| == |v| && Symbols(u) && Symbols(v)
    ensures |d| == |u| && Symbols(d) && forall i | 0 <= i < |d| :: d[i] == Xor(u[i], v[i])
  {
    seq(|u|, i requires 0 <= i < |u| => Xor(u[i], v[i]))
  }

  lemma {:induction false} StepsLinear(a: Word, b: Word, u: seq<Word>, v: seq<Word>)
    requires Register(a) && Register(b) && |u| == |v| && Symbols(u) && Symbols(v)
    ensures Steps(Xor(a, b), XorAll(u, v)) == Xor(Steps(a, u), Steps(b, v))
    decreases |u|
  {
    hide Step;
    if u != [] {
      StepLinear(a, b, u[0], v[0]);
      assert XorAll(u, v)[1..] == XorAll(u[1..], v[1..]);
      StepsLinear(Step(a, u[0]), Step(b, v[0]), u[1..], v[1..]);
    }
  }

  lemma {:induction false} StepsJoin(a: Word, u: seq<Word>, v: seq<Word>)
    requires Register(a) && Symbols(u) && Symbols(v)
    ensures Symbols(u + v) && Steps(a, u + v) == Steps(Steps(a, u), v)
    decreases |u|
  {
    hide Step;
    if u == [] {
      assert u + v == v;
    } else {
      StepsJoin(Step(a, u[0]), u[1..], v);
      assert (u + v)[1..] == u[1..] + v;
    }
  }

  lemma {:induction false} MixedNothing(w: Word, n: nat)
    requires Register(w) && n <= 5
    ensures Mixed(w, Zeros(5), n) == w
  {
    if n > 0 { MixedNothing(w, n - 1); }
  }

  function Silence(n: nat): (z: seq<Word>)
    ensures |z| == n && Symbols(z) && forall i | 0 <= i < n :: z[i] == Zeros(5)
  {
    seq(n, i => Zeros(5))
  }

  function Join(syms: seq<Word>): Word {
    if syms == [] then [] else Join(Front(syms)) + Last(syms)
  }

  lemma {:induction false} JoinLength(syms: seq<Word>)
    requires Symbols(syms)
    ensures |Join(syms)| == 5 * |syms|
    decreases |syms|
  {
    if syms != [] { JoinLength(Front(syms)); }
  }

  lemma StepFits(x: Word, sym: Word, k: nat)
    requires k < 6 && |x| == 5 * k && |sym| == 5
    ensures Step(Zeros(30 - 5 * k) + x, sym) == Zeros(25 - 5 * k) + (x + sym)
  {
    hide Mixed;
    var a := Zeros(30 - 5 * k) + x;
    assert a[..5] == Zeros(5);
    assert a[5..] + sym == Zeros(25 - 5 * k) + (x + sym);
    MixedNothing(a[5..] + sym, 5);
  }

  lemma StepsOne(a: Word, sym: Word)
    requires Register(a) && |sym| == 5
    ensures Steps(a, [sym]) == Step(a, sym)
  {
    hide Step;
    assert [sym][1..] == [];
  }

  /** Up to six symbols into an empty register just stand in it. */
  lemma {:induction false} StepsPack(syms: seq<Word>)
    requires Symbols(syms) && |syms| <= 6
    ensures |Join(syms)| == 5 * |syms|
    ensures Steps(Zeros(30), syms) == Zeros(30 - 5 * |syms|) + Join(syms)
    decreases |syms|
  {
    hide Step, Steps;
    JoinLength(syms);
    if syms == [] {
      StepsNone(Zeros(30));
      assert Zeros(30) == Zeros(30) + [];
    } else {
      var f, last := Front(syms), Last(syms);
      StepsPack(f);
      assert syms == f + [last];
      StepsJoin(Zeros(30), f, [last]);
      StepsOne(Steps(Zeros(30), f), last);
      StepFits(Join(f), last, |f|);
    }
  }

  lemma StepsNone(a: Word)
    requires Register(a)
    ensures Steps(a, []) == a
  {
  }

  // ------------------------------------------------------------------
  // Errors in six symbols in a row are always seen
  // ------------------------------------------------------------------

  /** The low bits of the generators, as a matrix: it is invertible. */
  lemma GeneratorBits()
    ensures ToBits(Generator(0), 30)[25..] == [true, false, false, true, false]
    ensures ToBits(Generator(1), 30)[25..] == [false, true, true, false, true]
    ensures ToBits(Generator(2), 30)[25..] == [true, true, false, true, false]
    ensures ToBits(Generator(3), 30)[25..] == [true, true, true, false, true]
    ensures ToBits(Generator(4), 30)[25..] == [true, false, false, true, true]
  {
    hide ToBits;
    LowBits(Generator(0));
    LowBits(Generator(1));
    LowBits(Generator(2));
    LowBits(Generator(3));
    LowBits(Generator(4));
  }

  lemma LowBits(v: nat)
    ensures ToBits(v, 30)[25..] == [v / 16 % 2 == 1, v / 8 % 2 == 1, v / 4 % 2 == 1, v / 2 % 2 == 1, v % 2 == 1]
  {
    hide ToBits, Halved;
    forall j: nat | j < 5
      ensures ToBits(v, 30)[29 - j] == (Halved(v, j) % 2 == 1)
    {
      BitAt(v, 30, j);
    }
    var w := ToBits(v, 30);
    assert w[29] == (Halved(v, 0) % 2 == 1);
    assert w[28] == (Halved(v, 1) % 2 == 1);
    assert w[27] == (Halved(v, 2) % 2 == 1);
    assert w[26] == (Halved(v, 3) % 2 == 1);
    assert w[25] == (Halved(v, 4) % 2 == 1);
    HalvedFour(v);
  }

  lemma HalvedFour(v: nat)
    ensures Halved(v, 0) == v && Halved(v, 1) == v / 2 && Halved(v, 2) == v / 4
    ensures Halved(v, 3) == v / 8 && Halved(v, 4) == v / 16
  {
    var a, b, c := v / 2, v / 4, v / 8;
    assert a / 2 == b && b / 2 == c && c / 2 == v / 16;
    assert Halved(c, 1) == v / 16 && Halved(b, 1) == c && Halved(a, 1) == b;
    assert Halved(b, 2) == v / 16 && Halved(a, 2) == c;
    assert Halved(a, 3) == v / 16;
  }

  /** Bit `k` after mixing. */
  lemma MixedAt(w: Word, top: Word, k: nat)
    requires Register(w) && |top| == 5 && k < 30
    ensures Mixed(w, top, 5)[k] ==
            (((((w[k] != (top[4] && ToBits(Generator(0), 30)[k])) != (top[3] && ToBits(Generator(1), 30)[k]))
            != (top[2] && ToBits(Generator(2), 30)[k])) != (top[1] && ToBits(Generator(3), 30)[k]))
            != (top[0] && ToBits(Generator(4), 30)[k]))
  {
    hide ToBits, Generator;
    assert Mixed(w, top, 0) == w;
    var m1 := Mixed(w, top, 1);
    assert m1[k] == (w[k] != (top[4] && ToBits(Generator(0), 30)[k]));
    var m2 := Mixed(w, top, 2);
    assert m2[k] == (m1[k] != (top[3] && ToBits(Generator(1), 30)[k]));
    var m3 := Mixed(w, top, 3);
    assert m3[k] == (m2[k] != (top[2] && ToBits(Generator(2), 30)[k]));
    var m4 := Mixed(w, top, 4);
    assert m4[k] == (m3[k] != (top[1] && ToBits(Generator(3), 30)[k]));
  }

  /** With nothing coming in, only the empty register leads to the empty one. */
  lemma StepKernel(a: Word)
    requires Register(a)
    ensures Step(a, Zeros(5)) == Zeros(30) <==> a == Zeros(30)
  {
    hide Mixed, ToBits, Generator;
    var w, top := a[5..] + Zeros(5), a[..5];
    if Step(a, Zeros(5)) == Zeros(30) {
      TopIsEmpty(w, top);
      MixedNothing(w, 5);
      assert forall i | 5 <= i < 30 :: a[i] == w[i - 5];
      assert forall i | 0 <= i < 5 :: a[i] == top[i];
    } else if a == Zeros(30) {
      assert w == Zeros(30) && top == Zeros(5);
      MixedNothing(w, 5);
    }
  }

  lemma HighFive(w: Word)
    requires |w| == 30
    ensures |w[25..]| == 5 && forall k | 0 <= k < 5 :: w[25 + k] == w[25..][k]
    ensures w[25..] == [w[25], w[26], w[27], w[28], w[29]]
  {
  }

  lemma TopIsEmpty(w: Word, top: Word)
    requires Register(w) && |top| == 5 && w[25..] == Zeros(5) && Mixed(w, top, 5) == Zeros(30)
    ensures top == Zeros(5)
  {
    hide Mixed, ToBits, Generator;
    GeneratorBits();
    MixedAt(w, top, 25);
    MixedAt(w, top, 26);
    MixedAt(w, top, 27);
    MixedAt(w, top, 28);
    MixedAt(w, top, 29);
    HighFive(ToBits(Generator(0), 30));
    HighFive(ToBits(Generator(1), 30));
    HighFive(ToBits(Generator(2), 30));
    HighFive(ToBits(Generator(3), 30));
    HighFive(ToBits(Generator(4), 30));
    HighFive(w);
    assert !top[0] && !top[1] && !top[2] && !top[3] && !top[4];
  }

  lemma {:induction false} SilentSteps(a: Word, n: nat)
    requires Register(a)
    ensures Steps(a, Silence(n)) == Zeros(30) <==> a == Zeros(30)
    decreases n
  {
    hide Step;
    if n > 0 {
      StepKernel(a);
      assert Silence(n)[1..] == Silence(n - 1);
      SilentSteps(Step(a, Zeros(5)), n - 1);
    }
  }

  lemma {:induction false} JoinZeros(syms: seq<Word>, i: nat)
    requires Symbols(syms) && i < |syms| && Join(syms) == Zeros(5 * |syms|)
    ensures syms[i] == Zeros(5)
    decreases |syms|
  {
    JoinLength(Front(syms));
    var f, last := Front(syms), Last(syms);
    assert last == Join(syms)[5 * |f|..];
    assert Join(f) == Join(syms)[..5 * |f|];
    if i < |f| { JoinZeros(f, i); }
  }

  /** Up to six symbols, not all silent, with silence around: never an empty register. */
  lemma BurstHeard(before: nat, burst: seq<Word>, later: nat, i: nat)
    requires Symbols(burst) && |burst| <= 6 && i < |burst| && burst[i] != Zeros(5)
    ensures Steps(Zeros(30), Silence(before) + (burst + Silence(later))) != Zeros(30)
  {
    hide Steps, Step, Join;
    StepsJoin(Zeros(30), Silence(before), burst + Silence(later));
    SilentSteps(Zeros(30), before);
    StepsJoin(Zeros(30), burst, Silence(later));
    StepsPack(burst);
    SilentSteps(Steps(Zeros(30), burst), later);
    BurstStands(burst, i);
  }

  /** The lists differ at `i`, and only from `p` to `e`, at most six symbols. */
  ghost predicate BurstAt(u: seq<Word>, v: seq<Word>, p: nat, e: nat, i: nat) {
    && |u| == |v| && Symbols(u) && Symbols(v) && p <= i < e <= |u| && e <= p + 6 && u[i] != v[i]
    && (forall j | 0 <= j < |u| && !(p <= j < e) :: u[j] == v[j])
  }

  /** The difference of two lists of symbols: silence around a burst. */
  lemma Difference(u: seq<Word>, v: seq<Word>, p: nat, e: nat, i: nat) returns (burst: seq<Word>)
    requires BurstAt(u, v, p, e, i)
    ensures |u| == |v| && Symbols(u) && Symbols(v) && p <= i < e <= |u| && e <= p + 6
    ensures Symbols(burst) && |burst| == e - p && burst[i - p] != Zeros(5)
    ensures XorAll(u, v) == Silence(p) + (burst + Silence(|u| - e))
  {
    var d := XorAll(u, v);
    burst := d[p..e];
    XorIsZero(u[i], v[i]);
    var back := Silence(p) + (burst + Silence(|u| - e));
    forall j | 0 <= j < |d|
      ensures d[j] == back[j]
    {
      XorZeros(u[j]);
    }
  }

  /** Symbols that differ somewhere, and only within six in a row, never have
      the same checksum, however long they are. */
  lemma BurstSeen(a: Word, u: seq<Word>, v: seq<Word>, p: nat, e: nat, i: nat)
    requires Register(a) && Symbols(u) && Symbols(v) && BurstAt(u, v, p, e, i)
    ensures Steps(a, u) != Steps(a, v)
  {
    hide Steps, Step, Join, XorAll, Silence, Symbols, BurstAt;
    var burst := Difference(u, v, p, e, i);
    BurstHeard(p, burst, |u| - e, i - p);
    Apart(a, u, v);
  }

  /** Where the difference is heard from an empty register, the results differ. */
  lemma Apart(a: Word, u: seq<Word>, v: seq<Word>)
    requires Register(a) && |u| == |v| && Symbols(u) && Symbols(v)
    requires Steps(Zeros(30), XorAll(u, v)) != Zeros(30)
    ensures Steps(a, u) != Steps(a, v)
  {
    hide Steps, Step, XorAll, Symbols;
    StepsLinear(a, a, u, v);
    XorZeros(a);
    XorIsZero(Steps(a, u), Steps(a, v));
  }

  lemma BurstStands(burst: seq<Word>, i: nat)
    requires Symbols(burst) && |burst| <= 6 && i < |burst| && burst[i] != Zeros(5)
    requires |Join(burst)| == 5 * |burst|
    ensures Zeros(30 - 5 * |burst|) + Join(burst) != Zeros(30)
  {
    hide Join;
    var whole := Zeros(30 - 5 * |burst|) + Join(burst);
    if Join(burst) == Zeros(5 * |burst|) {
      JoinZeros(burst, i);
    } else {
      assert Join(burst) == whole[30 - 5 * |burst|..];
      assert Zeros(30)[30 - 5 * |burst|..] == Zeros(5 * |burst|);
    }
  }

  // ------------------------------------------------------------------
  // Regrouping bits
  // ------------------------------------------------------------------

  function Stream(data: seq<nat>, width: nat): Word {
    if data == [] then [] else Stream(Front(data), width) + ToBits(Last(data), width)
  }

  /** The whole groups of `width` bits, as numbers. */
  function Groups(w: Word, width: nat): seq<nat>
    requires width > 0
    decreases |w|
  {
    if |w| < width then [] else [Val(w[..width])] + Groups(w[width..], width)
  }

  /** The bits after the last whole group. */
  function Rest(w: Word, width: nat): (r: Word)
    requires width > 0
    ensures |r| < width
    decreases |w|
  {
    if |w| < width then w else Rest(w[width..], width)
  }

  lemma {:induction false} GroupsJoin(a: Word, b: Word, width: nat)
    requires width > 0
    ensures Groups(a + b, width) == Groups(a, width) + Groups(Rest(a, width) + b, width)
    ensures Rest(a + b, width) == Rest(Rest(a, width) + b, width)
    decreases |a|
  {
    hide Val;
    if |a| >= width {
      GroupsJoin(a[width..], b, width);
      assert (a + b)[width..] == a[width..] + b;
      assert (a + b)[..width] == a[..width];
    }
  }

  /** Regrouped numbers of `width` bits; none for one too large, or for a
      remainder that padding cannot explain. */
  function Converted(data: seq<nat>, width: nat, target: nat, pad: bool): Option<seq<nat>>
    requires target > 0
  {
    if exists i | 0 <= i < |data| :: data[i] >= Pow2(width) then None
    else
      var w := Stream(data, width);
      var groups, rest := Groups(w, target), Rest(w, target);
      if pad then Some(if rest == [] then groups else groups + [Val(rest) * Pow2(target - |rest|)])
      else if |rest| >= width || Val(rest) != 0 then None
      else Some(groups)
  }

  const WORD: nat := 0x1_0000_0000

  lemma WordIs()
    ensures Pow2(32) == WORD
  {
    hide Pow2;
    assert Pow2(8) == 256 by { Pow2Eight(); }
    Pow2Add(8, 8);
    Pow2Add(16, 16);
  }

  lemma Pow2Eight()
    ensures Pow2(8) == 256
  {
  }

  /** Cutting to a word keeps the low bits. */
  lemma LowKept(x: nat, m: nat)
    requires m <= 32
    ensures x % WORD % Pow2(m) == x % Pow2(m)
  {
    hide Pow2;
    WordIs();
    Pow2Add(32 - m, m);
    var y, p, up := x % WORD, Pow2(m), Pow2(32 - m);
    var k, j, s := x / WORD, y / p, y % p;
    Divided(x, WORD);
    Divided(y, p);
    MulAssoc(k, up, p);
    Distribute(k * up, j, p);
    Quotient(x, k * up + j, p, s);
  }

  lemma ShiftedLow(acc: nat, p: nat, w: nat, value: nat)
    requires p > 0 && value < w
    ensures (acc * w + value) % (p * w) == acc % p * w + value
  {
    var k, low := acc / p, acc % p;
    Divided(acc, p);
    Distribute(k * p, low, w);
    MulAssoc(k, p, w);
    MulOrder(low + 1, p, w);
    Distribute(low, 1, w);
    Quotient(acc * w + value, k, p * w, low * w + value);
  }

  /** Shifting a number into the accumulator. */
  lemma ShiftedIn(acc: nat, bits: nat, width: nat, value: nat)
    requires bits + width <= 32 && value < Pow2(width)
    ensures (acc * Pow2(width) + value) % WORD % Pow2(bits + width) == acc % Pow2(bits) * Pow2(width) + value
  {
    hide Pow2;
    LowKept(acc * Pow2(width) + value, bits + width);
    Pow2Add(bits, width);
    ShiftedLow(acc, Pow2(bits), Pow2(width), value);
  }

  /** Taking the top group out of the accumulator. */
  lemma TakenOut(acc: nat, first: Word, later: Word)
    requires acc % Pow2(|first| + |later|) == Val(first + later)
    ensures acc / Pow2(|later|) % Pow2(|first|) == Val(first)
    ensures acc % Pow2(|later|) == Val(later)
  {
    hide Pow2, Val;
    var p, f := Pow2(|later|), Pow2(|first|);
    Pow2Add(|first|, |later|);
    ValJoin(first, later);
    ValBound(first);
    ValBound(later);
    var k := acc / (f * p);
    Divided(acc, f * p);
    MulAssoc(k, f, p);
    Distribute(k * f, Val(first), p);
    Quotient(acc, k * f + Val(first), p, Val(later));
    Quotient(k * f + Val(first), k, f, Val(first));
  }

  /** Takes whole groups out of the accumulator. */
  method Drain(acc: nat, bits: nat, target: nat, ghost rest: Word)
    returns (groups: seq<nat>, left: nat, ghost remains: Word)
    requires target > 0 && |rest| == bits && Val(rest) == acc % Pow2(bits)
    ensures groups == Groups(rest, target) && remains == Rest(rest, target)
    ensures |remains| == left < target && Val(remains) == acc % Pow2(left)
  {
    hide Pow2, Val, Groups, Rest;
    groups, left, remains := [], bits, rest;
    while left >= target
      invariant |remains| == left && Val(remains) == acc % Pow2(left)
      invariant groups + Groups(remains, target) == Groups(rest, target)
      invariant Rest(remains, target) == Rest(rest, target)
    {
      left := left - target;
      GroupOut(remains, target);
      assert remains == remains[..target] + remains[target..];
      TakenOut(acc, remains[..target], remains[target..]);
      groups := groups + [acc / Pow2(left) % Pow2(target)];
      remains := remains[target..];
    }
    NoGroup(remains, target);
  }

  method ConvertBits(data: seq<nat>, width: nat, target: nat, pad: bool) returns (out: Option<seq<nat>>)
    requires 0 < width <= 8 && 0 < target <= 8
    ensures out == Converted(data, width, target, pad)
  {
    hide Pow2, Val, ToBits, Groups, Rest, Stream;
    var acc: nat, bits: nat := 0, 0;
    var groups: seq<nat> := [];
    ghost var rest: Word := [];
    ConvertStart(width, target);
    for k := 0 to |data|
      invariant forall i | 0 <= i < k :: data[i] < Pow2(width)
      invariant groups == Groups(Stream(data[..k], width), target) && rest == Rest(Stream(data[..k], width), target)
      invariant |rest| == bits < target && Val(rest) == acc % Pow2(bits)
    {
      var value := data[k];
      TooLarge(value, width);
      if value / Pow2(width) != 0 { return None; }
      StreamNext(data, k, width, target, rest);
      ShiftedIn(acc, bits, width, value);
      ValJoin(rest, ToBits(value, width));
      ValOfBits(value, width);
      acc := (acc * Pow2(width) + value) % WORD;
      bits := bits + width;
      var more;
      more, bits, rest := Drain(acc, bits, target, rest + ToBits(value, width));
      groups := groups + more;
    }
    assert data[..|data|] == data;
    PadIs(acc, bits, target);
    if pad {
      if bits > 0 {
        groups := groups + [acc * Pow2(target - bits) % WORD % Pow2(target)];
      }
    } else if bits >= width || acc * Pow2(target - bits) % WORD % Pow2(target) != 0 {
      return None;
    }
    return Some(groups);
  }

  lemma ConvertStart(width: nat, target: nat)
    requires target > 0
    ensures Groups(Stream([], width), target) == [] && Rest(Stream([], width), target) == []
    ensures Val([]) == 0 && Pow2(0) == 1
  {
  }

  lemma TooLarge(value: nat, width: nat)
    ensures value / Pow2(width) != 0 <==> value >= Pow2(width)
  {
    hide Pow2;
    var p, q := Pow2(width), value / Pow2(width);
    Divided(value, p);
    MulOrder(1, q, p);
    if q == 0 { assert p * q == 0; }
  }

  lemma StreamNext(data: seq<nat>, k: nat, width: nat, target: nat, rest: Word)
    requires k < |data| && target > 0 && rest == Rest(Stream(data[..k], width), target)
    ensures Groups(Stream(data[..k + 1], width), target)
         == Groups(Stream(data[..k], width), target) + Groups(rest + ToBits(data[k], width), target)
    ensures Rest(Stream(data[..k + 1], width), target) == Rest(rest + ToBits(data[k], width), target)
  {
    hide Groups, Rest, Val, ToBits;
    assert Front(data[..k + 1]) == data[..k];
    GroupsJoin(Stream(data[..k], width), ToBits(data[k], width), target);
  }

  lemma GroupOut(rest: Word, target: nat)
    requires 0 < target <= |rest|
    ensures Groups(rest, target) == [Val(rest[..target])] + Groups(rest[target..], target)
    ensures Rest(rest, target) == Rest(rest[target..], target)
  {
    hide Val;
  }

  lemma NoGroup(rest: Word, target: nat)
    requires |rest| < target
    ensures Groups(rest, target) == [] && Rest(rest, target) == rest
  {
  }

  lemma PadIs(acc: nat, bits: nat, target: nat)
    requires bits < target <= 8
    ensures acc * Pow2(target - bits) % WORD % Pow2(target) == acc % Pow2(bits) * Pow2(target - bits)
    ensures acc * Pow2(target - bits) % WORD % Pow2(target) == 0 <==> acc % Pow2(bits) == 0
  {
    hide Pow2;
    ShiftedIn(acc, bits, target - bits, 0);
    var low, p := acc % Pow2(bits), Pow2(target - bits);
    MulOrder(1, low, p);
    if low == 0 { assert low * p == 0; }
  }

  lemma {:induction false} StreamJoin(a: seq<nat>, b: seq<nat>, width: nat)
    ensures Stream(a + b, width) == Stream(a, width) + Stream(b, width)
    decreases |b|
  {
    hide ToBits;
    if b == [] {
      assert a + b == a;
    } else {
      StreamJoin(a, Front(b), width);
      assert Front(a + b) == a + Front(b) && Last(a + b) == Last(b);
      Regroup(Stream(a, width), Stream(Front(b), width), ToBits(Last(b), width));
    }
  }

  lemma StreamOne(v: nat, width: nat)
    ensures Stream([v], width) == ToBits(v, width)
  {
    hide ToBits;
    assert Front([v]) == [];
  }

  /** Regrouping loses nothing: the groups and the rest are the bits. */
  lemma {:induction false} GroupsBits(w: Word, width: nat)
    requires width > 0
    ensures Stream(Groups(w, width), width) + Rest(w, width) == w
    decreases |w|
  {
    hide Val, ToBits, Stream, Groups, Rest;
    if |w| < width {
      NoStream(width);
      NoGroup(w, width);
    } else {
      var first, later := w[..width], w[width..];
      GroupOut(w, width);
      GroupsBits(later, width);
      StreamJoin([Val(first)], Groups(later, width), width);
      StreamOne(Val(first), width);
      BitsOfVal(first);
      assert w == first + later;
    }
  }

  lemma {:induction false} GroupsFit(w: Word, width: nat)
    requires width > 0
    ensures forall i | 0 <= i < |Groups(w, width)| :: Groups(w, width)[i] < Pow2(width)
    decreases |w|
  {
    hide Val, Pow2;
    if |w| >= width {
      GroupsFit(w[width..], width);
      ValBound(w[..width]);
    }
  }

  lemma NoStream(width: nat)
    ensures Stream([], width) == []
  {
  }

  /** Numbers of the right width, joined and cut again at the same width. */
  lemma {:induction false} WholeGroups(data: seq<nat>, width: nat)
    requires width > 0 && forall i | 0 <= i < |data| :: data[i] < Pow2(width)
    ensures Groups(Stream(data, width), width) == data && Rest(Stream(data, width), width) == []
    decreases |data|
  {
    hide Val, ToBits, Pow2, Groups, Rest;
    if data == [] {
      NoGroup([], width);
    } else {
      var last := ToBits(Last(data), width);
      WholeGroups(Front(data), width);
      GroupsJoin(Stream(Front(data), width), last, width);
      assert [] + last == last;
      GroupOut(last, width);
      assert last[..width] == last && last[width..] == [];
      NoGroup([], width);
      ValOfBits(Last(data), width);
      assert data == Front(data) + [Last(data)];
    }
  }

  /** Bytes to symbols, padded, and back: nothing changes. */
  lemma RegroupedBack(data: seq<nat>)
    requires forall i | 0 <= i < |data| :: data[i] < Pow2(8)
    ensures Converted(data, 8, 5, true).Some?
    ensures forall i | 0 <= i < |Converted(data, 8, 5, true).value| :: Converted(data, 8, 5, true).value[i] < Pow2(5)
    ensures Converted(Converted(data, 8, 5, true).value, 5, 8, false) == Some(data)
  {
    hide Val, ToBits, Pow2, Groups, Rest, Stream;
    var w := Stream(data, 8);
    var fives, rest := Converted(data, 8, 5, true).value, Rest(w, 5);
    GroupsBits(w, 5);
    GroupsFit(w, 5);
    var pad := Zeros(if rest == [] then 0 else 5 - |rest|);
    if rest == [] {
      assert w + pad == w;
    } else {
      PaddedGroup(rest);
      StreamJoin(Groups(w, 5), [Val(rest) * Pow2(5 - |rest|)], 5);
      StreamOne(Val(rest) * Pow2(5 - |rest|), 5);
      assert Stream(Groups(w, 5), 5) + (rest + pad) == w + pad;
    }
    assert Stream(fives, 5) == w + pad;
    WholeGroups(data, 8);
    GroupsJoin(w, pad, 8);
    assert [] + pad == pad;
    NoGroup(pad, 8);
    ValZeros(|pad|);
    assert data + [] == data;
  }

  lemma PaddedGroup(rest: Word)
    requires 0 < |rest| < 5
    ensures Val(rest) * Pow2(5 - |rest|) < Pow2(5)
    ensures ToBits(Val(rest) * Pow2(5 - |rest|), 5) == rest + Zeros(5 - |rest|)
  {
    hide Val, ToBits, Pow2;
    var w := rest + Zeros(5 - |rest|);
    ValJoin(rest, Zeros(5 - |rest|));
    ValZeros(5 - |rest|);
    ValBound(w);
    BitsOfVal(w);
  }

  // ------------------------------------------------------------------
  // Text
  // ------------------------------------------------------------------

  datatype Bech32Error =
    | InvalidHrp
    | InvalidChar
    | MixedCase
    | InvalidChecksum
    | TooShort
    | TooLong
    | MissingSeparator
    | InvalidPadding

  /** The character of a symbol. */
  function Letter(v: nat): char
    requires v < 32
  {
    if v == 0 then 'q' else if v == 1 then 'p' else if v == 2 then 'z' else if v == 3 then 'r'
    else if v == 4 then 'y' else if v == 5 then '9' else if v == 6 then 'x' else if v == 7 then '8'
    else if v == 8 then 'g' else if v == 9 then 'f' else if v == 10 then '2' else if v == 11 then 't'
    else if v == 12 then 'v' else if v == 13 then 'd' else if v == 14 then 'w' else if v == 15 then '0'
    else if v == 16 then 's' else if v == 17 then '3' else if v == 18 then 'j' else if v == 19 then 'n'
    else if v == 20 then '5' else if v == 21 then '4' else if v == 22 then 'k' else if v == 23 then 'h'
    else if v == 24 then 'c' else if v == 25 then 'e' else if v == 26 then '6' else if v == 27 then 'm'
    else if v == 28 then 'u' else if v == 29 then 'a' else if v == 30 then '7' else 'l'
  }

  /** The symbol of a character. */
  function Position(c: char): Option<nat> {
    if c == 'q' then Some(0) else if c == 'p' then Some(1) else if c == 'z' then Some(2)
    else if c == 'r' then Some(3) else if c == 'y' then Some(4) else if c == '9' then Some(5)
    else if c == 'x' then Some(6) else if c == '8' then Some(7) else if c == 'g' then Some(8)
    else if c == 'f' then Some(9) else if c == '2' then Some(10) else if c == 't' then Some(11)
    else if c == 'v' then Some(12) else if c == 'd' then Some(13) else if c == 'w' then Some(14)
    else if c == '0' then Some(15) else if c == 's' then Some(16) else if c == '3' then Some(17)
    else if c == 'j' then Some(18) else if c == 'n' then Some(19) else if c == '5' then Some(20)
    else if c == '4' then Some(21) else if c == 'k' then Some(22) else if c == 'h' then Some(23)
    else if c == 'c' then Some(24) else if c == 'e' then Some(25) else if c == '6' then Some(26)
    else if c == 'm' then Some(27) else if c == 'u' then Some(28) else if c == 'a' then Some(29)
    else if c == '7' then Some(30) else if c == 'l' then Some(31)
    else None
  }

  predicate IsUpper(c: char) { 'A' <= c <= 'Z' }
  predicate IsLower(c: char) { 'a' <= c <= 'z' }

  /** A character allowed in a prefix. */
  predicate Printable(c: char) { 33 <= c as int <= 126 }

  lemma LetterFacts(v: nat)
    requires v < 32
    ensures Position(Letter(v)) == Some(v) && !IsUpper(Letter(v)) && Letter(v) != '1'
  {
  }

  lemma PositionBound(c: char)
    ensures Position(c).Some? ==> Position(c).value < 32
  {
  }

  function HrpExpand(hrp: string): seq<nat> {
    seq(|hrp|, i requires 0 <= i < |hrp| => hrp[i] as int / 32) + [0]
    + seq(|hrp|, i requires 0 <= i < |hrp| => hrp[i] as int % 32)
  }

  /** A register as six symbols. */
  function SixSymbols(w: Word): (syms: seq<nat>)
    requires Register(w)
    ensures |syms| == 6
  {
    seq(6, i requires 0 <= i < 6 => Val(w[5 * i..5 * i + 5]))
  }

  predicate AllSymbols(values: seq<nat>) { forall i | 0 <= i < |values| :: values[i] < 32 }

  function Letters(values: seq<nat>): (text: string)
    requires AllSymbols(values)
    ensures |text| == |values|
  {
    seq(|values|, i requires 0 <= i < |values| => Letter(values[i]))
  }

  /** The symbols that close a payload. */
  function Closing(hrp: string, values: seq<nat>): seq<nat> {
    SixSymbols(Xor(Checksum(HrpExpand(hrp) + values + [0, 0, 0, 0, 0, 0]), ToBits(BECH32M_CONST, 30)))
  }

  predicate HrpOk(hrp: string) {
    0 < |hrp| <= 83 && forall i | 0 <= i < |hrp| :: Printable(hrp[i])
  }

  /** The text of a prefix and a payload of bytes. */
  function Encoded(hrp: string, data: seq<nat>): Result<string, Bech32Error> {
    if !HrpOk(hrp) then Err(InvalidHrp)
    else if exists i | 0 <= i < |hrp| :: IsUpper(hrp[i]) then Err(MixedCase)
    else
      match Converted(data, 8, 5, true)
      case None => Err(InvalidChar)
      case Some(fives) =>
        FivesFit(data);
        ClosingFits(hrp, fives);
        var out := hrp + "1" + Letters(fives) + Letters(Closing(hrp, fives));
        if |out| > 90 then Err(TooLong) else Ok(out)
  }

  lemma FivesFit(data: seq<nat>)
    requires Converted(data, 8, 5, true).Some?
    ensures AllSymbols(Converted(data, 8, 5, true).value)
  {
    hide Converted, Pow2;
    ConvertedSmall(data);
    RegroupedBack(data);
    assert Pow2(5) == 32 by { Pow2Five(); }
  }

  lemma Pow2Five()
    ensures Pow2(5) == 32
  {
  }

  lemma ConvertedSmall(data: seq<nat>)
    requires Converted(data, 8, 5, true).Some?
    ensures forall i | 0 <= i < |data| :: data[i] < Pow2(8)
  {
    hide Pow2, Stream, Groups, Rest, Val;
  }

  lemma SixFit(w: Word)
    requires Register(w)
    ensures AllSymbols(SixSymbols(w))
  {
    hide Val, Pow2;
    Pow2Five();
    forall i | 0 <= i < 6
      ensures Val(w[5 * i..5 * i + 5]) < 32
    {
      ValBound(w[5 * i..5 * i + 5]);
    }
  }

  lemma ClosingFits(hrp: string, values: seq<nat>)
    ensures AllSymbols(Closing(hrp, values)) && |Closing(hrp, values)| == 6
  {
    hide Checksum, SixSymbols, ToBits;
    SixFit(Xor(Checksum(HrpExpand(hrp) + values + [0, 0, 0, 0, 0, 0]), ToBits(BECH32M_CONST, 30)));
  }

  function ToLower(c: char): char {
    if IsUpper(c) then (c as int + 32) as char else c
  }

  function Lower(s: string): (t: string)
    ensures |t| == |s|
  {
    seq(|s|, i requires 0 <= i < |s| => ToLower(s[i]))
  }

  predicate MixedCases(s: string) {
    (exists i | 0 <= i < |s| :: IsLower(s[i])) && (exists i | 0 <= i < |s| :: IsUpper(s[i]))
  }

  /** The last separator. */
  function LastOne(s: string): (at: Option<nat>)
    ensures at.Some? ==> at.value < |s|
  {
    if s == "" then None else if Last(s) == '1' then Some(|s| - 1) else LastOne(Front(s))
  }

  function Positions(s: string): (values: Option<seq<nat>>)
    ensures values.Some? ==> |values.value| == |s|
  {
    if s == "" then Some([])
    else
      match Positions(Front(s))
      case None => None
      case Some(values) =>
        match Position(Last(s))
        case None => None
        case Some(v) => Some(values + [v])
  }

  /** The prefix and payload of a text. */
  function Decoded(text: string): Result<(string, seq<nat>), Bech32Error> {
    if |text| < 8 then Err(TooShort)
    else if |text| > 90 then Err(TooLong)
    else if MixedCases(text) then Err(MixedCase)
    else DecodedLower(Lower(text))
  }

  function DecodedLower(s: string): Result<(string, seq<nat>), Bech32Error> {
    match LastOne(s)
    case None => Err(MissingSeparator)
    case Some(sep) =>
      if sep == 0 || sep + 7 > |s| then Err(MissingSeparator)
      else if exists i | 0 <= i < sep :: !Printable(s[i]) then Err(InvalidHrp)
      else
        match Positions(s[sep + 1..])
        case None => Err(InvalidChar)
        case Some(values) =>
          if Checksum(HrpExpand(s[..sep]) + values) != ToBits(BECH32M_CONST, 30) then Err(InvalidChecksum)
          else
            match Converted(values[..|values| - 6], 5, 8, false)
            case None => Err(InvalidPadding)
            case Some(bytes) => Ok((s[..sep], bytes))
  }

  // ------------------------------------------------------------------
  // What is encoded is decoded
  // ------------------------------------------------------------------

  lemma AsBitsJoin(a: seq<nat>, b: seq<nat>)
    ensures AsBits(a + b) == AsBits(a) + AsBits(b)
  {
  }

  lemma ChecksumJoin(a: seq<nat>, b: seq<nat>)
    ensures Checksum(a + b) == Steps(Checksum(a), AsBits(b))
  {
    hide Steps, ToBits;
    AsBitsJoin(a, b);
    StepsJoin(ToBits(1, 30), AsBits(a), AsBits(b));
  }

  lemma SilentZeros()
    ensures AsBits([0, 0, 0, 0, 0, 0]) == Silence(6)
  {
    hide ToBits;
    ValZeros(5);
    BitsOfVal(Zeros(5));
  }

  /** Six symbols joined give the register back. */
  lemma SixJoined(w: Word)
    requires Register(w)
    ensures Join(AsBits(SixSymbols(w))) == w
  {
    hide ToBits, Val;
    var c := AsBits(SixSymbols(w));
    forall i | 0 <= i < 6
      ensures c[i] == w[5 * i..5 * i + 5]
    {
      BitsOfVal(w[5 * i..5 * i + 5]);
    }
    JoinSix(c[0], c[1], c[2], c[3], c[4], c[5]);
    assert c == [c[0], c[1], c[2], c[3], c[4], c[5]];
    assert w == w[0..5] + w[5..10] + w[10..15] + w[15..20] + w[20..25] + w[25..30];
  }

  lemma JoinSix(a: Word, b: Word, c: Word, d: Word, e: Word, f: Word)
    ensures Join([a, b, c, d, e, f]) == a + b + c + d + e + f
  {
    assert Front([a, b, c, d, e, f]) == [a, b, c, d, e];
    assert Front([a, b, c, d, e]) == [a, b, c, d];
    assert Front([a, b, c, d]) == [a, b, c];
    assert Front([a, b, c]) == [a, b];
    assert Front([a, b]) == [a];
    assert Join([a]) == a;
    assert Join([a, b]) == a + b;
    assert Join([a, b, c]) == a + b + c;
    assert Join([a, b, c, d]) == a + b + c + d;
  }

  /** The closing symbols make the checksum the constant. */
  lemma ClosingCancels(hrp: string, values: seq<nat>)
    ensures Checksum(HrpExpand(hrp) + values + Closing(hrp, values)) == ToBits(BECH32M_CONST, 30)
  {
    hide Steps, ToBits, Checksum, SixSymbols, Join, HrpExpand, AsBits, Silence;
    var x := HrpExpand(hrp) + values;
    var state, constant := Checksum(x), ToBits(BECH32M_CONST, 30);
    ChecksumJoin(x, [0, 0, 0, 0, 0, 0]);
    SilentZeros();
    var silent := Steps(state, Silence(6));
    var poly := Xor(silent, constant);
    var c := AsBits(SixSymbols(poly));
    ChecksumJoin(x, SixSymbols(poly));
    SixJoined(poly);
    StepsPack(c);
    SilentXor(c);
    StepsLinear(state, Zeros(30), Silence(6), c);
    XorZeros(state);
    XorAgain(silent, constant);
    assert Zeros(0) + poly == poly;
  }

  lemma SilentXor(c: seq<Word>)
    requires Symbols(c)
    ensures XorAll(Silence(|c|), c) == c
  {
    forall i | 0 <= i < |c|
      ensures Xor(Silence(|c|)[i], c[i]) == c[i]
    {
      XorZeros(c[i]);
    }
  }

  lemma {:induction false} PositionsOfLetters(values: seq<nat>)
    requires AllSymbols(values)
    ensures Positions(Letters(values)) == Some(values)
    decreases |values|
  {
    hide Position, Letter;
    if values != [] {
      PositionsOfLetters(Front(values));
      LetterFacts(Last(values));
      assert Front(Letters(values)) == Letters(Front(values));
      assert values == Front(values) + [Last(values)];
    }
  }

  lemma {:induction false} LastOneIs(prefix: string, tail: string)
    requires forall i | 0 <= i < |tail| :: tail[i] != '1'
    ensures LastOne(prefix + "1" + tail) == Some(|prefix|)
    decreases |tail|
  {
    var s := prefix + "1" + tail;
    if tail == "" {
      assert s == prefix + "1";
    } else {
      LastOneIs(prefix, Front(tail));
      assert Front(s) == prefix + "1" + Front(tail);
    }
  }

  lemma LettersLower(values: seq<nat>)
    requires AllSymbols(values)
    ensures forall i | 0 <= i < |values| :: !IsUpper(Letters(values)[i]) && Letters(values)[i] != '1'
  {
    hide Letter, IsUpper;
    forall i | 0 <= i < |values|
      ensures !IsUpper(Letters(values)[i]) && Letters(values)[i] != '1'
    {
      LetterFacts(values[i]);
    }
  }

  /** Whenever encoding succeeds, decoding gives back the same prefix and bytes. */
  lemma RoundTrip(hrp: string, data: seq<nat>)
    requires Encoded(hrp, data).Ok?
    ensures Decoded(Encoded(hrp, data).value) == Ok((hrp, data))
  {
    hide Converted, Checksum, HrpExpand, Closing, Letter, ToBits, LastOne, Positions, Pow2;
    ConvertedSmall(data);
    RegroupedBack(data);
    FivesFit(data);
    var fives := Converted(data, 8, 5, true).value;
    ClosingFits(hrp, fives);
    var closing := Closing(hrp, fives);
    var all := fives + closing;
    var text := Encoded(hrp, data).value;
    LettersJoin(fives, closing);
    assert text == hrp + "1" + Letters(all);
    LettersLower(all);
    NoUpper(hrp, all, text);
    LastOneIs(hrp, Letters(all));
    assert text[..|hrp|] == hrp && text[|hrp| + 1..] == Letters(all);
    PositionsOfLetters(all);
    ClosingCancels(hrp, fives);
    assert HrpExpand(hrp) + all == HrpExpand(hrp) + fives + closing;
    assert all[..|all| - 6] == fives;
    assert forall i | 0 <= i < |hrp| :: text[i] == hrp[i];
  }

  lemma LettersJoin(a: seq<nat>, b: seq<nat>)
    requires AllSymbols(a) && AllSymbols(b)
    ensures AllSymbols(a + b) && Letters(a + b) == Letters(a) + Letters(b)
  {
    hide Letter;
  }

  lemma NoUpper(hrp: string, values: seq<nat>, text: string)
    requires AllSymbols(values) && text == hrp + "1" + Letters(values)
    requires forall i | 0 <= i < |hrp| :: !IsUpper(hrp[i])
    requires forall i | 0 <= i < |values| :: !IsUpper(Letters(values)[i])
    ensures !MixedCases(text) && Lower(text) == text
  {
    hide Letter;
    forall i | 0 <= i < |text|
      ensures !IsUpper(text[i])
    {
      if i > |hrp| { assert text[i] == Letters(values)[i - |hrp| - 1]; }
    }
  }

  // ------------------------------------------------------------------
  // What is damaged is refused
  // ------------------------------------------------------------------

  lemma {:induction false} PositionsAt(s: string, i: nat)
    requires Positions(s).Some? && i < |s|
    ensures Position(s[i]) == Some(Positions(s).value[i])
    decreases |s|
  {
    hide Position;
    if i < |s| - 1 { PositionsAt(Front(s), i); }
  }

  lemma {:induction false} AllPositions(s: string)
    requires forall i | 0 <= i < |s| :: Position(s[i]).Some?
    ensures Positions(s).Some?
    decreases |s|
  {
    hide Position;
    if s != "" {
      AllPositions(Front(s));
      assert s[|s| - 1] == Last(s);
    }
  }

  lemma PositionInjective(c: char, d: char)
    requires Position(c).Some? && Position(c) == Position(d)
    ensures c == d
  {
  }

  lemma ToBitsInjective(v: nat, w: nat)
    requires v < 32 && w < 32 && ToBits(v, 5) == ToBits(w, 5)
    ensures v == w
  {
    hide ToBits, Val, Pow2;
    Pow2Five();
    ValOfBits(v, 5);
    ValOfBits(w, 5);
  }

  /** Two texts of symbols that differ only from `p` to `e`, and do at `i`. */
  ghost predicate Damaged(s: string, t: string, p: nat, e: nat, i: nat) {
    && |s| == |t| && p <= i < e <= |s| && s[i] != t[i]
    && (forall j | 0 <= j < |s| && !(p <= j < e) :: s[j] == t[j])
  }

  lemma SymbolsDiffer(s: string, t: string, p: nat, e: nat, i: nat)
    requires Damaged(s, t, p, e, i) && Positions(s).Some? && Positions(t).Some?
    ensures var u, v := AsBits(Positions(s).value), AsBits(Positions(t).value);
            && |u| == |v| && u[i] != v[i]
            && (forall j | 0 <= j < |u| && !(p <= j < e) :: u[j] == v[j])
  {
    hide Position, ToBits, Positions;
    var x, y := Positions(s).value, Positions(t).value;
    forall j | 0 <= j < |s|
      ensures Position(s[j]) == Some(x[j]) && Position(t[j]) == Some(y[j])
    {
      PositionsAt(s, j);
      PositionsAt(t, j);
    }
    PositionBound(s[i]);
    PositionBound(t[i]);
    if ToBits(x[i], 5) == ToBits(y[i], 5) {
      ToBitsInjective(x[i], y[i]);
      PositionInjective(s[i], t[i]);
    }
  }

  lemma {:induction false} LastOneStays(s: string, t: string)
    requires |s| == |t| && LastOne(s).Some?
    requires forall j | 0 <= j <= LastOne(s).value :: t[j] == s[j]
    requires forall j | LastOne(s).value < j < |t| :: t[j] != '1'
    ensures LastOne(t) == LastOne(s)
    decreases |s|
  {
    if Last(s) != '1' {
      assert t[|t| - 1] != '1';
      LastOneStays(Front(s), Front(t));
    }
  }

  lemma OneHasNoPosition()
    ensures Position('1') == None
  {
  }

  /** A text that decodes, with any of six symbols in a row changed to other
      symbols, is refused: for mixed case, or by the checksum. */
  lemma BurstRefused(text: string, other: string, p: nat, e: nat, i: nat)
    requires Decoded(text).Ok? && Damaged(Lower(text), Lower(other), p, e, i) && e <= p + 6
    requires LastOne(Lower(text)).Some? && LastOne(Lower(text)).value < p
    requires forall j | p <= j < e :: Position(Lower(other)[j]).Some?
    ensures Decoded(other) == Err(if MixedCases(other) then MixedCase else InvalidChecksum)
  {
    hide Converted, Checksum, HrpExpand, ToBits, LastOne, Positions, Position, MixedCases, Lower;
    var s, t := Lower(text), Lower(other);
    var sep := LastOne(s).value;
    OtherTail(s, t, p, e, i, sep);
    TailSums(HrpExpand(s[..sep]), s[sep + 1..], t[sep + 1..], p - sep - 1, e - sep - 1, i - sep - 1);
  }

  /** The damaged text has the same prefix and only symbols after it. */
  lemma OtherTail(s: string, t: string, p: nat, e: nat, i: nat, sep: nat)
    requires Damaged(s, t, p, e, i) && LastOne(s) == Some(sep) && sep < p
    requires Positions(s[sep + 1..]).Some? && forall j | p <= j < e :: Position(t[j]).Some?
    ensures |s| == |t| && LastOne(t) == Some(sep) && t[..sep] == s[..sep] && (forall j | 0 <= j < sep :: t[j] == s[j])
    ensures Positions(t[sep + 1..]).Some?
    ensures Damaged(s[sep + 1..], t[sep + 1..], p - sep - 1, e - sep - 1, i - sep - 1)
  {
    hide LastOne, Positions, Position;
    var tail, burst := s[sep + 1..], t[sep + 1..];
    forall j | 0 <= j < |burst|
      ensures Position(burst[j]).Some?
    {
      if !(p <= sep + 1 + j < e) {
        assert burst[j] == s[sep + 1 + j] == tail[j];
        PositionsAt(tail, j);
      }
    }
    OneHasNoPosition();
    assert forall j | sep < j < |t| :: t[j] == burst[j - sep - 1];
    LastOneStays(s, t);
    AllPositions(burst);
    Shifted(s, t, p, e, i, sep + 1);
  }

  lemma TailSums(prefix: seq<nat>, tail: string, burst: string, p: nat, e: nat, i: nat)
    requires Damaged(tail, burst, p, e, i) && e <= p + 6 && Positions(tail).Some? && Positions(burst).Some?
    ensures Checksum(prefix + Positions(tail).value) != Checksum(prefix + Positions(burst).value)
  {
    hide Checksum, Positions;
    SymbolsDiffer(tail, burst, p, e, i);
    ChecksumJoin(prefix, Positions(tail).value);
    ChecksumJoin(prefix, Positions(burst).value);
    BurstSeen(Checksum(prefix), AsBits(Positions(tail).value), AsBits(Positions(burst).value), p, e, i);
  }

  lemma Shifted(s: string, t: string, p: nat, e: nat, i: nat, from: nat)
    requires Damaged(s, t, p, e, i) && from <= p
    ensures Damaged(s[from..], t[from..], p - from, e - from, i - from)
  {
  }

  // ------------------------------------------------------------------
  // The loops
  // ------------------------------------------------------------------

  method Encode(hrp: string, data: seq<nat>) returns (res: Result<string, Bech32Error>)
    ensures res == Encoded(hrp, data)
  {
    hide Converted, Checksum, ToBits, Val, Letter;
    if hrp == "" || |hrp| > 83 { return Err(InvalidHrp); }
    for i := 0 to |hrp|
      invariant forall j | 0 <= j < i :: Printable(hrp[j])
    {
      if !Printable(hrp[i]) { return Err(InvalidHrp); }
    }
    for i := 0 to |hrp|
      invariant forall j | 0 <= j < i :: !IsUpper(hrp[j])
    {
      if IsUpper(hrp[i]) { return Err(MixedCase); }
    }
    var regrouped := ConvertBits(data, 8, 5, true);
    if regrouped.None? { return Err(InvalidChar); }
    var fives := regrouped.value;
    var sum := Polymod(HrpExpand(hrp) + fives + [0, 0, 0, 0, 0, 0]);
    var poly := Xor(sum, ToBits(BECH32M_CONST, 30));
    FivesFit(data);
    SixFit(poly);
    var out := hrp + "1";
    for k := 0 to |fives|
      invariant AllSymbols(fives[..k]) && out == hrp + "1" + Letters(fives[..k])
    {
      out := out + [Letter(fives[k])];
    }
    assert fives[..|fives|] == fives;
    ghost var closing := SixSymbols(poly);
    for k := 0 to 6
      invariant AllSymbols(closing[..k]) && out == hrp + "1" + Letters(fives) + Letters(closing[..k])
    {
      assert closing[k] == Val(poly[5 * k..5 * k + 5]);
      out := out + [Letter(Val(poly[5 * k..5 * k + 5]))];
    }
    assert closing[..6] == closing;
    return if |out| > 90 then Err(TooLong) else Ok(out);
  }

  method ReadSymbols(s: string) returns (values: Option<seq<nat>>)
    ensures values == Positions(s)
  {
    hide Position;
    var read: seq<nat> := [];
    for i := 0 to |s|
      invariant Positions(s[..i]) == Some(read)
    {
      assert Front(s[..i + 1]) == s[..i];
      var v := Position(s[i]);
      if v.None? {
        NoPositions(s, i + 1);
        return None;
      }
      read := read + [v.value];
    }
    assert s[..|s|] == s;
    return Some(read);
  }

  method Decode(text: string) returns (res: Result<(string, seq<nat>), Bech32Error>)
    ensures res == Decoded(text)
  {
    hide Converted, Checksum, ToBits, Position, HrpExpand, Lower;
    if |text| < 8 { return Err(TooShort); }
    if |text| > 90 { return Err(TooLong); }
    var hasLower, hasUpper := false, false;
    for i := 0 to |text|
      invariant hasLower <==> exists j | 0 <= j < i :: IsLower(text[j])
      invariant hasUpper <==> exists j | 0 <= j < i :: IsUpper(text[j])
    {
      if IsLower(text[i]) { hasLower := true; }
      if IsUpper(text[i]) { hasUpper := true; }
    }
    if hasLower && hasUpper { return Err(MixedCase); }
    var s := Lower(text);
    var at := |s|;
    assert s[..at] == s;
    while at > 0 && s[at - 1] != '1'
      invariant at <= |s| && LastOne(s[..at]) == LastOne(s)
    {
      assert Front(s[..at]) == s[..at - 1];
      at := at - 1;
    }
    if at == 0 { return Err(MissingSeparator); }
    var sep := at - 1;
    assert Last(s[..at]) == '1';
    if sep == 0 || sep + 7 > |s| { return Err(MissingSeparator); }
    for i := 0 to sep
      invariant forall j | 0 <= j < i :: Printable(s[j])
    {
      if !Printable(s[i]) { return Err(InvalidHrp); }
    }
    var symbols := ReadSymbols(s[sep + 1..]);
    if symbols.None? { return Err(InvalidChar); }
    var values := symbols.value;
    var sum := Polymod(HrpExpand(s[..sep]) + values);
    if sum != ToBits(BECH32M_CONST, 30) { return Err(InvalidChecksum); }
    var bytes := ConvertBits(values[..|values| - 6], 5, 8, false);
    return if bytes.None? then Err(InvalidPadding) else Ok((s[..sep], bytes.value));
  }

  lemma {:induction false} NoPositions(s: string, n: nat)
    requires n <= |s| && Positions(s[..n]).None?
    ensures Positions(s).None?
    decreases |s| - n
  {
    if n == |s| {
      assert s[..n] == s;
    } else {
      assert Front(s[..n + 1]) == s[..n];
      NoPositions(s, n + 1);
    }
  }
}
