/** Numbers as lists of bits, most significant first. */
module Bits {
  import opened Prelude

  type Word = seq<bool>

  function ToBits(v: nat, width: nat): (w: Word)
    ensures |w| == width
    decreases width
  {
    if width == 0 then [] else ToBits(v / 2, width - 1) + [v % 2 == 1]
  }

  function Val(w: Word): nat {
    if w == [] then 0 else 2 * Val(Front(w)) + (if Last(w) then 1 else 0)
  }

  function Zeros(n: nat): (w: Word)
    ensures |w| == n && forall i | 0 <= i < n :: !w[i]
  {
    seq(n, i => false)
  }

  lemma {:induction false} ValBound(w: Word)
    ensures Val(w) < Pow2(|w|)
    decreases |w|
  {
    if w != [] { ValBound(Front(w)); }
  }

  /** A list of bits is the list of bits of its value. */
  lemma {:induction false} BitsOfVal(w: Word)
    ensures ToBits(Val(w), |w|) == w
    decreases |w|
  {
    if w != [] {
      BitsOfVal(Front(w));
      assert w == Front(w) + [Last(w)];
      assert Val(w) / 2 == Val(Front(w));
    }
  }

  lemma {:induction false} ValOfBits(v: nat, width: nat)
    requires v < Pow2(width)
    ensures Val(ToBits(v, width)) == v
    decreases width
  {
    if width > 0 {
      ValOfBits(v / 2, width - 1);
      assert Front(ToBits(v, width)) == ToBits(v / 2, width - 1);
    }
  }

  /** The bit of weight 2^j. */
  lemma {:induction false} BitAt(v: nat, width: nat, j: nat)
    requires j < width
    ensures ToBits(v, width)[width - 1 - j] == (Halved(v, j) % 2 == 1)
    decreases width
  {
    if j > 0 { BitAt(v / 2, width - 1, j - 1); }
  }

  function Halved(v: nat, j: nat): nat
    decreases j
  {
    if j == 0 then v else Halved(v / 2, j - 1)
  }

  lemma {:induction false} ValZeros(n: nat)
    ensures Val(Zeros(n)) == 0
  {
    if n > 0 {
      ValZeros(n - 1);
      assert Front(Zeros(n)) == Zeros(n - 1);
    }
  }

  lemma {:induction false} ValJoin(a: Word, b: Word)
    ensures Val(a + b) == Val(a) * Pow2(|b|) + Val(b)
    decreases |b|
  {
    if b == [] {
      assert a + b == a;
    } else {
      ValJoin(a, Front(b));
      assert Front(a + b) == a + Front(b);
      assert Val(a) * Pow2(|b|) == 2 * (Val(a) * Pow2(|b| - 1));
    }
  }

  // ------------------------------------------------------------------
  // Exclusive or
  // ------------------------------------------------------------------

  function Xor(a: Word, b: Word): (w: Word)
    requires |a| == |b|
    ensures |w| == |a| && forall i | 0 <= i < |a| :: w[i] == (a[i] != b[i])
  {
    seq(|a|, i requires 0 <= i < |a| => a[i] != b[i])
  }

  lemma XorZeros(a: Word)
    ensures Xor(a, Zeros(|a|)) == a == Xor(Zeros(|a|), a) && Xor(a, a) == Zeros(|a|)
  {
  }

  lemma XorAgain(a: Word, b: Word)
    requires |a| == |b|
    ensures Xor(a, Xor(a, b)) == b
  {
  }

  lemma XorIsZero(a: Word, b: Word)
    requires |a| == |b|
    ensures Xor(a, b) == Zeros(|a|) <==> a == b
  {
    if Xor(a, b) == Zeros(|a|) {
      forall i | 0 <= i < |a|
        ensures a[i] == b[i]
      {
        assert !Xor(a, b)[i];
      }
    }
  }

  lemma XorJoin(a: Word, b: Word, c: Word, d: Word)
    requires |a| == |c| && |b| == |d|
    ensures Xor(a + b, c + d) == Xor(a, c) + Xor(b, d)
  {
  }
}
