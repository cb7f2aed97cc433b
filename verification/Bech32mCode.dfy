/** What the texts of src/bech32.rs are: exactly the encodings, in one case; and
    the code behind their checksum, over the field of 32 elements. */
module Bech32mCode {
  import opened Prelude
  import opened Bits
  import opened Bech32m

  // ------------------------------------------------------------------
  // The prefix in the checksum
  // ------------------------------------------------------------------

  /** The expansion holds the whole prefix: the high bits of every character, a
      zero, and the low five bits of every character. */
  lemma Expansion(hrp: string, i: nat)
    ensures |HrpExpand(hrp)| == 2 * |hrp| + 1 && HrpExpand(hrp)[|hrp|] == 0
    ensures i < |hrp| ==>
              && 32 * HrpExpand(hrp)[i] + HrpExpand(hrp)[|hrp| + 1 + i] == hrp[i] as int
              && HrpExpand(hrp)[|hrp| + 1 + i] < 32
  {
  }

  lemma {:induction false} LastOneIn(s: string, t: string, sep: nat)
    requires |s| == |t| && LastOne(s) == Some(sep) && s[sep..] == t[sep..]
    ensures LastOne(t) == Some(sep)
    decreases |s|
  {
    assert Last(s) == s[sep..][|s| - sep - 1] && Last(t) == t[sep..][|s| - sep - 1];
    if Last(s) != '1' {
      assert Front(s)[sep..] == s[sep..][..|s| - sep - 1];
      assert Front(t)[sep..] == t[sep..][..|s| - sep - 1];
      LastOneIn(Front(s), Front(t), sep);
    }
  }

  /** Another prefix, character for character of the same kind: letters for letters,
      digits for digits. */
  ghost predicate SameKinds(s: string, t: string, n: nat) {
    n <= |s| && n <= |t| && forall j | 0 <= j < n :: s[j] as int / 32 == t[j] as int / 32
  }

  /** A text that decodes, with any of six characters in a row of its prefix changed
      to others of the same kind, is refused. */
  lemma PrefixRefused(text: string, other: string, p: nat, e: nat, i: nat)
    requires Decoded(text).Ok? && Damaged(Lower(text), Lower(other), p, e, i) && e <= p + 6
    requires LastOne(Lower(text)).Some? && e <= LastOne(Lower(text)).value
    requires SameKinds(Lower(text), Lower(other), LastOne(Lower(text)).value)
    requires forall j | p <= j < e :: Printable(Lower(other)[j])
    ensures Decoded(other) == Err(if MixedCases(other) then MixedCase else InvalidChecksum)
  {
    hide Converted, Checksum, HrpExpand, ToBits, LastOne, Positions, Position, MixedCases, Lower;
    var s, t := Lower(text), Lower(other);
    var sep := LastOne(s).value;
    assert s[sep..] == t[sep..] && s[sep + 1..] == t[sep + 1..];
    LastOneIn(s, t, sep);
    PrefixSums(s[..sep], t[..sep], Positions(s[sep + 1..]).value, p, e, i);
  }

  lemma PrefixSums(one: string, two: string, values: seq<nat>, p: nat, e: nat, i: nat)
    requires Damaged(one, two, p, e, i) && e <= p + 6 && SameKinds(one, two, |one|)
    ensures Checksum(HrpExpand(one) + values) != Checksum(HrpExpand(two) + values)
  {
    hide Steps, ToBits, HrpExpand, SameKinds;
    var n := |one|;
    var x, y := HrpExpand(one) + values, HrpExpand(two) + values;
    var u, v := AsBits(x), AsBits(y);
    SameSymbol(one, two, values, n + 1 + i);
    assert u[n + 1 + i] != v[n + 1 + i];
    forall j | 0 <= j < |u| && !(n + 1 + p <= j < n + 1 + e)
      ensures u[j] == v[j]
    {
      SameSymbol(one, two, values, j);
    }
    BurstSeen(ToBits(1, 30), u, v, n + 1 + p, n + 1 + e, n + 1 + i);
  }

  /** Prefixes of the same kinds expand to the same symbols but for the low bits of
      the characters that differ. */
  lemma SameSymbol(one: string, two: string, values: seq<nat>, j: nat)
    requires |one| == |two| && SameKinds(one, two, |one|) && j < 2 * |one| + 1 + |values|
    ensures |HrpExpand(one)| == |HrpExpand(two)| == 2 * |one| + 1
    ensures ToBits((HrpExpand(one) + values)[j], 5) == ToBits((HrpExpand(two) + values)[j], 5) <==>
            !(|one| < j <= 2 * |one| && one[j - |one| - 1] != two[j - |one| - 1])
  {
    hide ToBits, HrpExpand;
    var n := |one|;
    var c := if j < n then j else SatSub(j, n + 1);
    Expansion(one, c);
    Expansion(two, c);
    if c < n {
      var x, y := HrpExpand(one), HrpExpand(two);
      OneKind(one[c] as int, two[c] as int, x[c], y[c], x[n + 1 + c], y[n + 1 + c]);
      if n < j && ToBits(x[j], 5) == ToBits(y[j], 5) { ToBitsInjective(x[j], y[j]); }
    }
  }

  lemma OneKind(c: int, d: int, high: nat, tall: nat, low: nat, deep: nat)
    requires c / 32 == d / 32 && 32 * high + low == c && 32 * tall + deep == d && low < 32 && deep < 32
    ensures high == tall && (low == deep <==> c == d)
  {
  }

  // ------------------------------------------------------------------
  // Only encodings decode
  // ------------------------------------------------------------------

  /** The alphabet of the symbols. */
  lemma Alphabet(c: char, v: nat)
    requires v < 32
    ensures Letter(v) == "qpzry9x8gf2tvdw0s3jn54khce6mua7l"[v]
    ensures Position(c) == Some(v) <==> c == Letter(v)
  {
    hide Position;
    LetterFacts(v);
    if Position(c) == Some(v) { PositionInjective(c, Letter(v)); }
  }

  lemma {:induction false} LettersOfPositions(s: string)
    requires Positions(s).Some?
    ensures AllSymbols(Positions(s).value) && Letters(Positions(s).value) == s
  {
    hide Position, Letter, Positions;
    var values := Positions(s).value;
    forall i | 0 <= i < |s|
      ensures values[i] < 32 && Letter(values[i]) == s[i]
    {
      PositionsAt(s, i);
      PositionBound(s[i]);
      Alphabet(s[i], values[i]);
    }
  }

  lemma {:induction false} LastOneAt(s: string)
    requires LastOne(s).Some?
    ensures s[LastOne(s).value] == '1'
    decreases |s|
  {
    if Last(s) != '1' { LastOneAt(Front(s)); }
  }

  /** Symbols to bytes, their padding checked, and back: nothing changes. */
  lemma PaddedBack(fives: seq<nat>)
    requires (forall i | 0 <= i < |fives| :: fives[i] < Pow2(5)) && Converted(fives, 5, 8, false).Some?
    ensures Converted(Converted(fives, 5, 8, false).value, 8, 5, true) == Some(fives)
  {
    hide Val, ToBits, Pow2, Groups, Rest, Stream;
    var w := Stream(fives, 5);
    var bytes, rest := Groups(w, 8), Rest(w, 8);
    var b := Stream(bytes, 8);
    GroupsBits(w, 8);
    GroupsFit(w, 8);
    WholeGroups(fives, 5);
    GroupsJoin(b, rest, 5);
    var q := Rest(b, 5);
    LastGroup(q, rest);
    if q == [] { assert Groups(b, 5) + [] == Groups(b, 5); }
  }

  /** The bits that are left of the bytes, filled up with zeros, are the last group. */
  lemma LastGroup(q: Word, rest: Word)
    requires |q| < 5 && |rest| < 5 && Rest(q + rest, 5) == [] && Val(rest) == 0
    ensures Groups(q + rest, 5) == if q == [] then [] else [Val(q) * Pow2(5 - |q|)]
  {
    hide Val, ToBits, Pow2, Groups, Rest, Stream;
    var w := q + rest;
    if |w| < 5 {
      NoGroup(w, 5);
    } else {
      GroupOut(w, 5);
      NoGroup(w[5..], 5);
      assert w[..5] == w;
      ValJoin(q, rest);
    }
  }

  /** No other six symbols close a payload. */
  lemma OneClosing(hrp: string, values: seq<nat>, closing: seq<nat>)
    requires |closing| == 6 && AllSymbols(closing)
    requires Checksum(HrpExpand(hrp) + values + closing) == ToBits(BECH32M_CONST, 30)
    ensures closing == Closing(hrp, values)
  {
    hide Steps, ToBits, Checksum, Closing, HrpExpand;
    var x, own := HrpExpand(hrp) + values, Closing(hrp, values);
    ClosingFits(hrp, values);
    ClosingCancels(hrp, values);
    ChecksumJoin(x, closing);
    ChecksumJoin(x, own);
    if closing != own {
      var i :| 0 <= i < 6 && closing[i] != own[i];
      if AsBits(closing)[i] == AsBits(own)[i] { ToBitsInjective(closing[i], own[i]); }
      BurstSeen(Checksum(x), AsBits(closing), AsBits(own), 0, 6, i);
    }
  }

  /** Whatever decodes is the encoding of what it decodes to, in either case. */
  lemma OnlyEncodings(text: string)
    requires Decoded(text).Ok?
    ensures Encoded(Decoded(text).value.0, Decoded(text).value.1) == Ok(Lower(text))
  {
    hide Converted, Checksum, HrpExpand, Closing, Letter, ToBits, LastOne, Positions, Pow2, Letters, MixedCases,
         IsUpper;
    var s := Lower(text);
    var sep := LastOne(s).value;
    var hrp, tail := s[..sep], s[sep + 1..];
    var values := Positions(tail).value;
    var fives, closing := values[..|values| - 6], values[|values| - 6..];
    LastOneAt(s);
    LettersOfPositions(tail);
    Pow2Five();
    PaddedBack(fives);
    assert values == fives + closing;
    assert HrpExpand(hrp) + values == HrpExpand(hrp) + fives + closing;
    OneClosing(hrp, fives, closing);
    LettersJoin(fives, closing);
    assert s == hrp + "1" + Letters(fives) + Letters(closing);
    LowerTwice(text);
    assert forall i | 0 <= i < |hrp| :: hrp[i] == s[i];
    assert HrpOk(hrp);
  }

  /** The texts that decode, and what they decode to: those in one case whose lower
      case is the encoding. */
  lemma DecodesIff(text: string, hrp: string, data: seq<nat>)
    ensures Decoded(text) == Ok((hrp, data)) <==> !MixedCases(text) && Encoded(hrp, data) == Ok(Lower(text))
  {
    hide Encoded, MixedCases, DecodedLower;
    if Decoded(text) == Ok((hrp, data)) {
      OnlyEncodings(text);
    } else if !MixedCases(text) && Encoded(hrp, data) == Ok(Lower(text)) {
      RoundTrip(hrp, data);
      LowerTwice(text);
    }
  }

  lemma LowerTwice(text: string)
    ensures forall i | 0 <= i < |text| :: !IsUpper(Lower(text)[i])
    ensures Lower(Lower(text)) == Lower(text) && !MixedCases(Lower(text))
  {
    forall i | 0 <= i < |text|
      ensures !IsUpper(Lower(text)[i])
    {
      assert Lower(text)[i] == ToLower(text[i]);
    }
  }

  // ------------------------------------------------------------------
  // The code over the field of 32 elements
  // ------------------------------------------------------------------

  /** A symbol times x, in the field where x^5 == x^3 + 1. */
  function Times(sym: Word): (d: Word)
    requires |sym| == 5
    ensures |d| == 5
  {
    [sym[1], sym[2] != sym[0], sym[3], sym[4], sym[0]]
  }

  /** Each of the six symbols of a register times x. */
  function Scaled(w: Word): (d: Word)
    requires Register(w)
    ensures Register(d)
  {
    seq(30, k requires 0 <= k < 30 => ScaledBit(w, k))
  }

  predicate ScaledBit(w: Word, k: nat)
    requires Register(w) && k < 30
  {
    if k % 5 == 4 then w[k - 4] else if k % 5 == 1 then w[k + 1] != w[k - 1] else w[k + 1]
  }

  lemma ScaledBits(w: Word, k: nat)
    requires Register(w) && k + 5 <= 30 && k % 5 == 0
    ensures Scaled(w)[k] == w[k + 1] && Scaled(w)[k + 1] == (w[k + 2] != w[k]) && Scaled(w)[k + 2] == w[k + 3]
    ensures Scaled(w)[k + 3] == w[k + 4] && Scaled(w)[k + 4] == w[k]
  {
    assert (k + 1) % 5 == 1 && (k + 2) % 5 == 2 && (k + 3) % 5 == 3 && (k + 4) % 5 == 4;
  }

  lemma FiveFrom(w: Word, k: nat)
    requires k + 5 <= |w|
    ensures w[k..k + 5] == [w[k], w[k + 1], w[k + 2], w[k + 3], w[k + 4]]
  {
  }

  lemma ScaledFive(w: Word, k: nat)
    requires Register(w) && k + 5 <= 30 && k % 5 == 0
    ensures Scaled(w)[k..k + 5] == Times(w[k..k + 5])
  {
    hide Scaled;
    ScaledBits(w, k);
    FiveFrom(w, k);
    FiveFrom(Scaled(w), k);
  }

  lemma InFives(w: Word)
    requires |w| == 30
    ensures w == w[0..5] + w[5..10] + w[10..15] + w[15..20] + w[20..25] + w[25..30]
  {
  }

  lemma ScaledFives(w: Word)
    requires Register(w)
    ensures Scaled(w) == Times(w[..5]) + Times(w[5..10]) + Times(w[10..15])
                         + Times(w[15..20]) + Times(w[20..25]) + Times(w[25..])
  {
    hide Scaled, Times;
    ScaledFive(w, 0);
    ScaledFive(w, 5);
    ScaledFive(w, 10);
    ScaledFive(w, 15);
    ScaledFive(w, 20);
    ScaledFive(w, 25);
    assert w[0..5] == w[..5] && w[25..30] == w[25..];
    InFives(Scaled(w));
  }

  function Six(a: nat, b: nat, c: nat, d: nat, e: nat, f: nat): (w: Word)
    ensures Register(w)
  {
    ToBits(a, 5) + ToBits(b, 5) + ToBits(c, 5) + ToBits(d, 5) + ToBits(e, 5) + ToBits(f, 5)
  }

  lemma SixValue(a: nat, b: nat, c: nat, d: nat, e: nat, f: nat)
    requires a < 32 && b < 32 && c < 32 && d < 32 && e < 32 && f < 32
    ensures ToBits(0x200_0000 * a + 0x10_0000 * b + 0x8000 * c + 0x400 * d + 0x20 * e + f, 30) == Six(a, b, c, d, e, f)
  {
    hide Val, ToBits, Pow2;
    Pow2Five();
    ValOfBits(a, 5);
    ValOfBits(b, 5);
    ValOfBits(c, 5);
    ValOfBits(d, 5);
    ValOfBits(e, 5);
    ValOfBits(f, 5);
    var p, q, r, s, t := ToBits(a, 5), ToBits(b, 5), ToBits(c, 5), ToBits(d, 5), ToBits(e, 5);
    ValJoin(p, q);
    ValJoin(p + q, r);
    ValJoin(p + q + r, s);
    ValJoin(p + q + r + s, t);
    ValJoin(p + q + r + s + t, ToBits(f, 5));
    BitsOfVal(Six(a, b, c, d, e, f));
  }

  /** The generators are the polynomial of BIP-173, x^6 apart, and its multiples by
      the powers of x in the field. */
  lemma Generators()
    ensures ToBits(Generator(0), 30) == Six(29, 22, 20, 21, 29, 18)
    ensures ToBits(Generator(1), 30) == Scaled(ToBits(Generator(0), 30))
    ensures ToBits(Generator(2), 30) == Scaled(ToBits(Generator(1), 30))
    ensures ToBits(Generator(3), 30) == Scaled(ToBits(Generator(2), 30))
    ensures ToBits(Generator(4), 30) == Scaled(ToBits(Generator(3), 30))
    ensures Scaled(ToBits(Generator(4), 30)) == Xor(ToBits(Generator(0), 30), ToBits(Generator(3), 30))
  {
    hide ToBits, Six, Scaled;
    SixValue(29, 22, 20, 21, 29, 18);
    SixValue(19, 5, 1, 3, 19, 13);
    SixValue(15, 10, 2, 6, 15, 26);
    SixValue(30, 20, 4, 12, 30, 29);
    SixValue(21, 1, 8, 24, 21, 19);
    ScaledSix(29, 22, 20, 21, 29, 18);
    ScaledSix(19, 5, 1, 3, 19, 13);
    ScaledSix(15, 10, 2, 6, 15, 26);
    ScaledSix(30, 20, 4, 12, 30, 29);
    ScaledSix(21, 1, 8, 24, 21, 19);
    XorSix();
  }

  /** Twice a symbol, the carry brought back. */
  function Twice(v: nat): (d: nat)
    requires v < 32
    ensures d < 32
  {
    if v < 16 then 2 * v else if v % 8 < 4 then 2 * v - 23 else 2 * v - 39
  }

  lemma Bits5(v: nat)
    ensures ToBits(v, 5) == [v / 16 % 2 == 1, v / 8 % 2 == 1, v / 4 % 2 == 1, v / 2 % 2 == 1, v % 2 == 1]
  {
    var a, b, c := v / 2, v / 4, v / 8;
    assert a / 2 == b && b / 2 == c && c / 2 == v / 16;
    assert ToBits(v / 16, 1) == ToBits(v / 32, 0) + [v / 16 % 2 == 1];
    assert ToBits(c, 2) == ToBits(v / 16, 1) + [c % 2 == 1];
    assert ToBits(b, 3) == ToBits(c, 2) + [b % 2 == 1];
    assert ToBits(a, 4) == ToBits(b, 3) + [a % 2 == 1];
  }

  function Num(a: bool, b: bool, c: bool, d: bool, e: bool): nat {
    (if a then 16 else 0) + (if b then 8 else 0) + (if c then 4 else 0) + (if d then 2 else 0) + if e then 1 else 0
  }

  lemma NumBits(a: bool, b: bool, c: bool, d: bool, e: bool)
    ensures ToBits(Num(a, b, c, d, e), 5) == [a, b, c, d, e]
  {
    hide ToBits;
    Bits5(Num(a, b, c, d, e));
  }

  lemma InBits(v: nat) returns (a: bool, b: bool, c: bool, d: bool, e: bool)
    requires v < 32
    ensures v == Num(a, b, c, d, e)
  {
    a := v >= 16;
    var x := if a then v - 16 else v;
    b := x >= 8;
    var y := if b then x - 8 else x;
    c := y >= 4;
    var z := if c then y - 4 else y;
    d, e := z >= 2, z == 1 || z == 3;
  }

  lemma TwiceNum(a: bool, b: bool, c: bool, d: bool, e: bool)
    ensures Num(a, b, c, d, e) < 32 && Twice(Num(a, b, c, d, e)) == Num(b, c != a, d, e, a)
  {
  }

  lemma TimesIs(v: nat)
    requires v < 32
    ensures Times(ToBits(v, 5)) == ToBits(Twice(v), 5)
  {
    hide ToBits, Twice, Num;
    var a, b, c, d, e := InBits(v);
    NumBits(a, b, c, d, e);
    TwiceNum(a, b, c, d, e);
    NumBits(b, c != a, d, e, a);
  }

  lemma ScaledSix(a: nat, b: nat, c: nat, d: nat, e: nat, f: nat)
    requires a < 32 && b < 32 && c < 32 && d < 32 && e < 32 && f < 32
    ensures Scaled(Six(a, b, c, d, e, f)) == Six(Twice(a), Twice(b), Twice(c), Twice(d), Twice(e), Twice(f))
  {
    hide ToBits, Twice, Times, Scaled;
    var w := Six(a, b, c, d, e, f);
    ScaledFives(w);
    assert w[..5] == ToBits(a, 5) && w[5..10] == ToBits(b, 5) && w[10..15] == ToBits(c, 5);
    assert w[15..20] == ToBits(d, 5) && w[20..25] == ToBits(e, 5) && w[25..] == ToBits(f, 5);
    TimesIs(a);
    TimesIs(b);
    TimesIs(c);
    TimesIs(d);
    TimesIs(e);
    TimesIs(f);
  }

  lemma FiveXor(x: Word, y: Word)
    requires |x| == |y| == 5
    ensures Xor(x, y) == [x[0] != y[0], x[1] != y[1], x[2] != y[2], x[3] != y[3], x[4] != y[4]]
  {
  }

  lemma XorNum(a: bool, b: bool, c: bool, d: bool, e: bool, f: bool, g: bool, h: bool, i: bool, j: bool)
    ensures Xor(ToBits(Num(a, b, c, d, e), 5), ToBits(Num(f, g, h, i, j), 5))
            == ToBits(Num(a != f, b != g, c != h, d != i, e != j), 5)
  {
    hide ToBits, Num, Xor;
    FiveXor([a, b, c, d, e], [f, g, h, i, j]);
    NumBits(a, b, c, d, e);
    NumBits(f, g, h, i, j);
    NumBits(a != f, b != g, c != h, d != i, e != j);
  }

  lemma XorSix()
    ensures Six(3, 2, 16, 25, 3, 15) == Xor(Six(29, 22, 20, 21, 29, 18), Six(30, 20, 4, 12, 30, 29))
  {
    hide ToBits, Xor;
    XorNum(true, true, true, false, true, true, true, true, true, false);
    XorNum(true, false, true, true, false, true, false, true, false, false);
    XorNum(true, false, true, false, false, false, false, true, false, false);
    XorNum(true, false, true, false, true, false, true, true, false, false);
    XorNum(true, false, false, true, false, true, true, true, false, true);
    var a, b, c, d, f := ToBits(29, 5), ToBits(22, 5), ToBits(20, 5), ToBits(21, 5), ToBits(18, 5);
    var g, i, j := ToBits(30, 5), ToBits(4, 5), ToBits(12, 5);
    XorJoin(a, b, g, c);
    XorJoin(a + b, c, g + c, i);
    XorJoin(a + b + c, d, g + c + i, j);
    XorJoin(a + b + c + d, a, g + c + i + j, g);
    XorJoin(a + b + c + d + a, f, g + c + i + j + g, a);
  }

  lemma GeneratorsAt(k: nat)
    requires k < 30
    ensures Scaled(ToBits(Generator(0), 30))[k] == ToBits(Generator(1), 30)[k]
    ensures Scaled(ToBits(Generator(1), 30))[k] == ToBits(Generator(2), 30)[k]
    ensures Scaled(ToBits(Generator(2), 30))[k] == ToBits(Generator(3), 30)[k]
    ensures Scaled(ToBits(Generator(3), 30))[k] == ToBits(Generator(4), 30)[k]
    ensures Scaled(ToBits(Generator(4), 30))[k] == (ToBits(Generator(0), 30)[k] != ToBits(Generator(3), 30)[k])
  {
    hide ToBits, Scaled, Generator;
    Generators();
  }

  /** What the bits that left the register change at a place where the generators
      have these bits. */
  predicate Mix(top: Word, g: Word)
    requires |top| == |g| == 5
  {
    (((top[4] && g[0]) != (top[3] && g[1])) != ((top[2] && g[2]) != (top[1] && g[3]))) != (top[0] && g[4])
  }

  function At(k: nat): (g: Word)
    requires k < 30
    ensures |g| == 5
  {
    seq(5, i requires 0 <= i < 5 => ToBits(Generator(i), 30)[k])
  }

  lemma MixedIs(w: Word, top: Word, k: nat)
    requires Register(w) && |top| == 5 && k < 30
    ensures Mixed(w, top, 5)[k] == (w[k] != Mix(top, At(k)))
  {
    hide ToBits, Generator, Mixed;
    MixedAt(w, top, k);
  }

  /** The generators at one place from those at others. */
  predicate Follows(g: Word, h: Word)
    requires |g| == |h| == 5
  {
    h[1] == g[0] && h[2] == g[1] && h[3] == g[2] && h[4] == g[3] && (h[0] != h[3]) == g[4]
  }

  lemma MixTimes(top: Word, g: Word, h: Word)
    requires |top| == |g| == |h| == 5 && Follows(g, h)
    ensures Mix(Times(top), h) == Mix(top, g)
  {
  }

  lemma MixXor(top: Word, g: Word, h: Word)
    requires |top| == |g| == |h| == 5
    ensures Mix(top, Xor(g, h)) == (Mix(top, g) != Mix(top, h))
  {
  }

  lemma AtFollows(k: nat)
    requires k < 30
    ensures k % 5 == 4 ==> Follows(At(k - 4), At(k))
    ensures k % 5 == 1 ==> Follows(Xor(At(k + 1), At(k - 1)), At(k))
    ensures k % 5 != 4 && k % 5 != 1 ==> Follows(At(k + 1), At(k))
  {
    hide ToBits, Generator, Scaled;
    GeneratorsAt(k);
    Bit(ToBits(Generator(0), 30), k);
    Bit(ToBits(Generator(1), 30), k);
    Bit(ToBits(Generator(2), 30), k);
    Bit(ToBits(Generator(3), 30), k);
    Bit(ToBits(Generator(4), 30), k);
  }

  lemma Bit(w: Word, k: nat)
    requires Register(w) && k < 30
    ensures Scaled(w)[k] == ScaledBit(w, k)
  {
  }

  lemma MixedScales(w: Word, top: Word, k: nat)
    requires Register(w) && |top| == 5 && k < 30
    ensures Mixed(Scaled(w), Times(top), 5)[k] == Scaled(Mixed(w, top, 5))[k]
  {
    hide Mixed, Mix, At, Times, Follows;
    AtFollows(k);
    MixedIs(Scaled(w), Times(top), k);
    if k % 5 == 4 {
      MixedIs(w, top, k - 4);
      MixTimes(top, At(k - 4), At(k));
    } else if k % 5 == 1 {
      MixedIs(w, top, k + 1);
      MixedIs(w, top, k - 1);
      MixTimes(top, Xor(At(k + 1), At(k - 1)), At(k));
      MixXor(top, At(k + 1), At(k - 1));
    } else {
      MixedIs(w, top, k + 1);
      MixTimes(top, At(k + 1), At(k));
    }
  }

  /** A step of the checksum is linear over the field: with both times x, so is the result. */
  lemma StepScales(chk: Word, sym: Word)
    requires Register(chk) && |sym| == 5
    ensures Step(Scaled(chk), Times(sym)) == Scaled(Step(chk, sym))
  {
    hide Mixed, Scaled, Times;
    var w := chk[5..] + sym;
    ScaledFives(chk);
    ScaledFives(w);
    assert Scaled(chk)[..5] == Times(chk[..5]);
    assert Scaled(chk)[5..] + Times(sym) == Scaled(w) by {
      assert w[..5] == chk[5..10] && w[5..10] == chk[10..15] && w[10..15] == chk[15..20];
      assert w[15..20] == chk[20..25] && w[20..25] == chk[25..] && w[25..] == sym;
    }
    forall k | 0 <= k < 30
      ensures Mixed(Scaled(w), Times(chk[..5]), 5)[k] == Scaled(Mixed(w, chk[..5], 5))[k]
    {
      MixedScales(w, chk[..5], k);
    }
  }

  function TimesAll(syms: seq<Word>): (d: seq<Word>)
    requires Symbols(syms)
    ensures |d| == |syms| && Symbols(d) && forall i | 0 <= i < |d| :: d[i] == Times(syms[i])
  {
    seq(|syms|, i requires 0 <= i < |syms| => Times(syms[i]))
  }

  /** So is the whole checksum, from any register, over any list of symbols. */
  lemma {:induction false} StepsScale(chk: Word, syms: seq<Word>)
    requires Register(chk) && Symbols(syms)
    ensures Steps(Scaled(chk), TimesAll(syms)) == Scaled(Steps(chk, syms))
    decreases |syms|
  {
    hide Step, Scaled, Times;
    if syms != [] {
      StepScales(chk, syms[0]);
      StepsScale(Step(chk, syms[0]), syms[1..]);
      assert TimesAll(syms)[1..] == TimesAll(syms[1..]);
    }
  }
}
