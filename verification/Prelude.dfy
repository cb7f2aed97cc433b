/** Small datatypes shared by the modules. */
module Prelude {
  datatype Option<+T> = None | Some(value: T)
  datatype Result<+T, +E> = Ok(value: T) | Err(error: E)

  function Last<T>(s: seq<T>): T
    requires |s| > 0
  {
    s[|s| - 1]
  }

  function Front<T>(s: seq<T>): seq<T>
    requires |s| > 0
  {
    s[..|s| - 1]
  }

  /** At most the last `n` elements. */
  function Suffix<T>(s: seq<T>, n: nat): seq<T> {
    if |s| <= n then s else s[|s| - n..]
  }

  function ToSet<T>(s: seq<T>): set<T> { set x | x in s }

  function Min(a: nat, b: nat): nat { if a < b then a else b }
  function Max(a: nat, b: nat): nat { if a < b then b else a }

  const U64_LIMIT: nat := 0x1_0000_0000_0000_0000

  /** Unsigned `saturating_sub`. */
  function SatSub(a: nat, b: nat): nat { if a < b then 0 else a - b }

  function Pow2(n: nat): (p: nat)
    ensures p > 0
  {
    if n == 0 then 1 else 2 * Pow2(n - 1)
  }

  lemma MulOrder(a: nat, b: nat, d: nat)
    ensures a <= b ==> a * d <= b * d
  {
  }

  function Product(a: nat, b: nat): nat { a * b }

  lemma DivOrder(a: nat, b: nat, d: nat)
    requires d > 0 && a <= b
    ensures a / d <= b / d
  {
    Divided(a, d);
    Divided(b, d);
    MulOrder(b / d + 1, a / d, d);
    Distribute(b / d, 1, d);
  }

  /** Division with remainder is unique. */
  lemma Quotient(x: nat, k: nat, m: nat, r: nat)
    requires r < m && x == k * m + r
    ensures x / m == k && x % m == r
  {
    var q := x / m;
    Divided(x, m);
    MulOrder(q + 1, k, m);
    MulOrder(k + 1, q, m);
    Distribute(q, 1, m);
    Distribute(k, 1, m);
  }

  lemma Pow2Step(n: nat)
    ensures Pow2(0) == 1 && (n > 0 ==> Pow2(n) == 2 * Pow2(n - 1))
  {
  }

  lemma {:induction false} Pow2Add(a: nat, b: nat)
    ensures Pow2(a + b) == Pow2(a) * Pow2(b)
  {
    hide Pow2;
    Pow2Step(a);
    Pow2Step(a + b);
    if a > 0 {
      Pow2Add(a - 1, b);
      MulAssoc(2, Pow2(a - 1), Pow2(b));
    }
  }

  lemma Divided(x: nat, m: nat)
    requires m > 0
    ensures x == (x / m) * m + x % m && x % m < m
  {
  }

  lemma Distribute(a: nat, b: nat, c: nat)
    ensures (a + b) * c == a * c + b * c
  {
  }

  lemma MulAssoc(a: nat, b: nat, c: nat)
    ensures a * (b * c) == (a * b) * c
  {
  }

  lemma Regroup<T>(a: seq<T>, b: seq<T>, c: seq<T>)
    ensures a + b + c == a + (b + c)
  {
  }
}
