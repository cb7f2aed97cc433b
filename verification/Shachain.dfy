/** Compact storage of revocation secrets (src/shachain.rs).  Secrets are
    revealed by decreasing index; at most 49 are kept, and every revealed one
    can be rebuilt. */
module Shachain {
  import opened Prelude

  type Word = nat

  const INDEX_BITS: nat := 48
  const MAX_INDEX: nat := 0xFFFF_FFFF_FFFF
  const MAX_ENTRIES: nat := 49

  /** Setting bit `b` of a secret and hashing it: any function will do. */
  type Hash = (Word, nat) -> Word

  // ------------------------------------------------------------------
  // Bits
  // ------------------------------------------------------------------

  function Shr(x: nat, b: nat): nat
    decreases b
  {
    if b == 0 then x else Shr(x / 2, b - 1)
  }

  predicate Bit(x: nat, b: nat) { Shr(x, b) % 2 == 1 }

  /** Trailing zeros of an index, at most 48. */
  function Bucket(index: nat): (b: nat)
    requires index <= MAX_INDEX
    ensures b < MAX_ENTRIES
  {
    if index == 0 then INDEX_BITS else (TopPower(); BucketSmall(index, INDEX_BITS); Zeros(index))
  }

  function Zeros(x: nat): nat
    requires x > 0
  {
    if x % 2 == 1 then 0 else 1 + Zeros(x / 2)
  }

  lemma {:induction false} BucketSmall(x: nat, bits: nat)
    requires 0 < x < Pow2(bits)
    ensures Zeros(x) < bits
  {
    if x % 2 == 0 { BucketSmall(x / 2, bits - 1); }
  }

  lemma {:induction false} ShrRange(x: nat, b: nat)
    ensures Shr(x, b) * Pow2(b) <= x < (Shr(x, b) + 1) * Pow2(b)
    decreases b
  {
    hide Pow2;
    Pow2Step(b);
    if b > 0 {
      ShrRange(x / 2, b - 1);
      var q, p := Shr(x, b), Pow2(b - 1);
      Doubled(q, p);
      Doubled(q + 1, p);
    }
  }

  lemma Doubled(q: nat, p: nat)
    ensures q * (2 * p) == 2 * (q * p)
  {
  }

  lemma Pow2Eight()
    ensures Pow2(8) == 256
  {
  }

  lemma TopPower()
    ensures Pow2(INDEX_BITS) == MAX_INDEX + 1
  {
    hide Pow2;
    Pow2Eight();
    Pow2Add(8, 8);
    Pow2Add(16, 16);
    Pow2Add(16, 32);
  }

  /** The quotient is the only multiple in range. */
  lemma ShrUnique(x: nat, b: nat, q: nat)
    requires q * Pow2(b) <= x < (q + 1) * Pow2(b)
    ensures Shr(x, b) == q
  {
    ShrRange(x, b);
    var s, p := Shr(x, b), Pow2(b);
    if s < q { MulOrder(s + 1, q, p); } else if q < s { MulOrder(q + 1, s, p); }
  }

  lemma {:induction false} ShrAdd(x: nat, a: nat, b: nat)
    ensures Shr(x, a + b) == Shr(Shr(x, a), b)
    decreases a
  {
    if a > 0 { ShrAdd(x / 2, a - 1, b); }
  }

  lemma {:induction false} ZerosAre(x: nat)
    requires x > 0
    ensures x == Shr(x, Zeros(x)) * Pow2(Zeros(x)) && Shr(x, Zeros(x)) % 2 == 1
  {
    if x % 2 == 0 {
      ZerosAre(x / 2);
      var q, p := Shr(x / 2, Zeros(x / 2)), Pow2(Zeros(x / 2));
      assert q * (2 * p) == 2 * (q * p);
    }
  }

  lemma {:induction false} OddMultiple(q: nat, b: nat)
    requires q % 2 == 1
    ensures q * Pow2(b) > 0 && Zeros(q * Pow2(b)) == b
    decreases b
  {
    hide Pow2;
    Pow2Step(b);
    if b > 0 {
      OddMultiple(q, b - 1);
      Doubled(q, Pow2(b - 1));
    }
  }

  /** An index in a bucket is an aligned multiple. */
  lemma BucketAligned(x: nat)
    requires x <= MAX_INDEX
    ensures x == Shr(x, Bucket(x)) * Pow2(Bucket(x))
    ensures x > 0 ==> Shr(x, Bucket(x)) % 2 == 1
  {
    if x == 0 {
      ShrUnique(0, INDEX_BITS, 0);
    } else {
      ZerosAre(x);
    }
  }

  // ------------------------------------------------------------------
  // Derivation
  // ------------------------------------------------------------------

  /** Applies the lower `bits` bits of `index`, highest first. */
  function DeriveFrom(h: Hash, base: Word, bits: nat, index: nat): Word
    decreases bits
  {
    if bits == 0 then base
    else DeriveFrom(h, if Bit(index, bits - 1) then h(base, bits - 1) else base, bits - 1, index)
  }

  function Derive(h: Hash, seed: Word, index: nat): Word { DeriveFrom(h, seed, INDEX_BITS, index) }

  method ComputeFrom(h: Hash, base: Word, bits: nat, index: nat) returns (p: Word)
    ensures p == DeriveFrom(h, base, bits, index)
  {
    p := base;
    var b: nat := bits;
    while b > 0
      invariant b <= bits
      invariant DeriveFrom(h, p, b, index) == DeriveFrom(h, base, bits, index)
    {
      b := b - 1;
      if Shr(index, b) % 2 == 1 { p := h(p, b); }
    }
  }

  lemma {:induction false} NothingToApply(h: Hash, base: Word, bits: nat, index: nat, q: nat)
    requires index == q * Pow2(bits)
    ensures DeriveFrom(h, base, bits, index) == base
    decreases bits
  {
    if bits > 0 {
      var p := Pow2(bits - 1);
      assert index == (2 * q) * p;
      assert (2 * q + 1) * p == (2 * q) * p + p;
      ShrUnique(index, bits - 1, 2 * q);
      NothingToApply(h, base, bits - 1, index, 2 * q);
    }
  }

  /** A secret derives what lies under it: going through an aligned index on the
      way changes nothing. */
  lemma {:induction false} Through(h: Hash, base: Word, bits: nat, mid: nat, x: nat, i: nat)
    requires mid <= bits && Shr(i, mid) == Shr(x, mid) && x == Shr(x, mid) * Pow2(mid)
    ensures DeriveFrom(h, base, bits, i) == DeriveFrom(h, DeriveFrom(h, base, bits, x), mid, i)
    decreases bits
  {
    if mid == bits {
      NothingToApply(h, base, bits, x, Shr(x, mid));
    } else {
      ShrAdd(i, mid, bits - 1 - mid);
      ShrAdd(x, mid, bits - 1 - mid);
      Through(h, if Bit(i, bits - 1) then h(base, bits - 1) else base, bits - 1, mid, x, i);
    }
  }

  /** Powers of two, the largest first. */
  predicate Falling(path: seq<nat>, bits: nat) {
    path == [] || (path[0] < bits && Falling(path[1..], path[0]))
  }

  function Sum(path: seq<nat>): nat { if path == [] then 0 else Pow2(path[0]) + Sum(path[1..]) }

  /** A secret hashed with one bit of the path after the other. */
  function Along(h: Hash, base: Word, path: seq<nat>): Word
    decreases |path|
  {
    if path == [] then base else Along(h, h(base, path[0]), path[1..])
  }

  lemma {:induction false} SumBound(path: seq<nat>, bits: nat)
    requires Falling(path, bits)
    ensures Sum(path) < Pow2(bits)
    decreases |path|, bits
  {
    if path == [] {
    } else if path[0] < bits - 1 {
      SumBound(path, bits - 1);
    } else {
      SumBound(path[1..], path[0]);
    }
  }

  /** The highest of `b + 1` bits. */
  lemma HighestBit(x: nat, q: nat, b: nat, high: bool, rest: nat)
    requires x == q * Pow2(b + 1) + (if high then Pow2(b) else 0) + rest && rest < Pow2(b)
    ensures var n := 2 * q + if high then 1 else 0; x == n * Pow2(b) + rest && Shr(x, b) == n && Bit(x, b) == high
  {
    hide Pow2, Shr;
    var p, n := Pow2(b), 2 * q + if high then 1 else 0;
    Pow2Step(b + 1);
    Doubled(q, p);
    assert (2 * q) * p == 2 * (q * p);
    DistributeOne(2 * q, p);
    DistributeOne(n, p);
    ShrUnique(x, b, n);
  }

  lemma DistributeOne(a: nat, p: nat)
    ensures (a + 1) * p == a * p + p
  {
  }

  /** The derivation, said by the binary digits of the index alone. */
  lemma {:induction false} DerivesAlong(h: Hash, base: Word, bits: nat, index: nat, path: seq<nat>, q: nat)
    requires Falling(path, bits) && index == q * Pow2(bits) + Sum(path)
    ensures DeriveFrom(h, base, bits, index) == Along(h, base, path)
    decreases bits
  {
    hide Pow2, Bit;
    if bits > 0 {
      var b := bits - 1;
      if path != [] && path[0] == b {
        SumBound(path[1..], b);
        HighestBit(index, q, b, true, Sum(path[1..]));
        DerivesAlong(h, h(base, b), b, index, path[1..], 2 * q + 1);
      } else {
        SumBound(path, b);
        HighestBit(index, q, b, false, Sum(path));
        DerivesAlong(h, base, b, index, path, 2 * q);
      }
    }
  }

  /** The secret of an index: the seed hashed with each power of two of the index,
      from the largest down.  Every index has such a path. */
  lemma SecretIs(h: Hash, seed: Word, index: nat) returns (path: seq<nat>)
    requires index <= MAX_INDEX
    ensures Falling(path, 48) && Sum(path) == index && Derive(h, seed, index) == Along(h, seed, path)
  {
    TopPower();
    path := Digits(index, 48);
    DerivesAlong(h, seed, 48, index, path, 0);
  }

  lemma {:induction false} Digits(x: nat, bits: nat) returns (path: seq<nat>)
    requires x < Pow2(bits)
    ensures Falling(path, bits) && Sum(path) == x
    decreases bits
  {
    if bits == 0 {
      path := [];
    } else if x >= Pow2(bits - 1) {
      var rest := Digits(x - Pow2(bits - 1), bits - 1);
      path := [bits - 1] + rest;
    } else {
      path := Digits(x, bits - 1);
      if path != [] { assert path[0] < bits; }
    }
  }

  // ------------------------------------------------------------------
  // The store
  // ------------------------------------------------------------------

  datatype ShachainError = Inconsistent | OutOfOrder | IndexOutOfRange

  datatype Entry = Entry(secret: Word, index: nat)

  datatype Kept = Kept(known: seq<Option<Entry>>, next: Option<nat>)

  function NoEntries(): (none: seq<Option<Entry>>)
    ensures |none| == MAX_ENTRIES && forall b | 0 <= b < |none| :: none[b] == None
  {
    seq(MAX_ENTRIES, i => None)
  }

  function NothingKept(): Kept { Kept(NoEntries(), Some(MAX_INDEX)) }

  /** A store never used counts as a new one. */
  function Started(s: Kept): Kept { if |s.known| == 0 then NothingKept() else s }

  /** Every secret in the buckets below follows from the new one. */
  predicate Consistent(h: Hash, known: seq<Option<Entry>>, secret: Word, at: nat)
    requires at <= |known|
  {
    forall b | 0 <= b < at && known[b].Some? :: DeriveFrom(h, secret, at, known[b].value.index) == known[b].value.secret
  }

  /** What recording the secret of `index` makes of a store. */
  function Inserted(h: Hash, s: Kept, secret: Word, index: nat): Result<Kept, ShachainError>
    requires |s.known| == MAX_ENTRIES
  {
    if index > MAX_INDEX then Err(IndexOutOfRange)
    else if s.next != Some(index) then Err(OutOfOrder)
    else if !Consistent(h, s.known, secret, Bucket(index)) then Err(Inconsistent)
    else Ok(Kept(s.known[Bucket(index) := Some(Entry(secret, index))], if index == 0 then None else Some(index - 1)))
  }

  /** The index agrees with the entry's above bit `b` and is not below it. */
  predicate Covers(entry: Option<Entry>, b: nat, index: nat) {
    entry.Some? && Shr(index, b) == Shr(entry.value.index, b) && index >= entry.value.index
  }

  function Got(h: Hash, known: seq<Option<Entry>>, index: nat, b: nat): Option<Word>
    requires b <= |known|
    decreases |known| - b
  {
    if b == |known| then None
    else if Covers(known[b], b, index) then Some(DeriveFrom(h, known[b].value.secret, b, index))
    else Got(h, known, index, b + 1)
  }

  class Store {
    const h: Hash
    var known: seq<Option<Entry>>
    var next: Option<nat>

    function Content(): Kept
      reads this
    {
      Kept(known, next)
    }

    constructor (h: Hash)
      ensures this.h == h && Content() == NothingKept()
    {
      this.h := h;
      known := NoEntries();
      next := Some(MAX_INDEX);
    }

    method Insert(secret: Word, index: nat) returns (res: Result<(), ShachainError>)
      requires |known| == MAX_ENTRIES || |known| == 0
      modifies this
      ensures res.Ok? ==> Inserted(h, Started(old(Content())), secret, index) == Ok(Content())
      ensures res.Err? ==> Inserted(h, Started(old(Content())), secret, index) == Err(res.error)
      ensures res.Err? ==> Started(Content()) == Started(old(Content()))
    {
      if index > MAX_INDEX { return Err(IndexOutOfRange); }
      if |known| == 0 { known, next := NoEntries(), Some(MAX_INDEX); }
      if next.None? || index != next.value { return Err(OutOfOrder); }
      var at := Bucket(index);
      for b := 0 to at
        invariant Content() == Started(old(Content()))
        invariant forall i | 0 <= i < b && known[i].Some? ::
                    DeriveFrom(h, secret, at, known[i].value.index) == known[i].value.secret
      {
        if known[b].Some? {
          var derived := ComputeFrom(h, secret, at, known[b].value.index);
          if derived != known[b].value.secret { return Err(Inconsistent); }
        }
      }
      known := known[at := Some(Entry(secret, index))];
      next := if index == 0 then None else Some(index - 1);
      return Ok(());
    }

    method Get(index: nat) returns (secret: Option<Word>)
      ensures secret == Got(h, known, index, 0)
    {
      for b := 0 to |known|
        invariant Got(h, known, index, 0) == Got(h, known, index, b)
      {
        if known[b].Some? {
          var Entry(base, at) := known[b].value;
          if Shr(index, b) == Shr(at, b) && index >= at {
            var derived := ComputeFrom(h, base, b, index);
            return Some(derived);
          }
        }
      }
      return None;
    }
  }

  // ------------------------------------------------------------------
  // What a store stands for
  // ------------------------------------------------------------------

  /** The lowest index revealed. */
  ghost function Lowest(revealed: seq<Word>): nat
    requires |revealed| <= MAX_INDEX + 1
  {
    MAX_INDEX + 1 - |revealed|
  }

  /** Secrets are revealed from the highest index down. */
  ghost function Secret(revealed: seq<Word>, index: nat): Word
    requires |revealed| <= MAX_INDEX + 1 && Lowest(revealed) <= index <= MAX_INDEX
  {
    revealed[MAX_INDEX - index]
  }

  /** The lowest revealed index of its bucket, and it derives all that lies under it. */
  ghost predicate EntryOk(h: Hash, entry: Option<Entry>, b: nat, revealed: seq<Word>)
    requires |revealed| <= MAX_INDEX + 1
  {
    match entry
    case None => forall y | Lowest(revealed) <= y <= MAX_INDEX :: Bucket(y) != b
    case Some(Entry(secret, x)) =>
      && Lowest(revealed) <= x <= MAX_INDEX && Bucket(x) == b
      && (forall y | Lowest(revealed) <= y < x :: Bucket(y) != b)
      && (forall i | x <= i < x + Pow2(b) && i <= MAX_INDEX :: Secret(revealed, i) == DeriveFrom(h, secret, b, i))
  }

  /** The store stands for all the secrets revealed so far. */
  ghost predicate Holds(h: Hash, s: Kept, revealed: seq<Word>) {
    && |revealed| <= MAX_INDEX + 1
    && |s.known| == MAX_ENTRIES
    && s.next == (if Lowest(revealed) == 0 then None else Some(Lowest(revealed) - 1))
    && (forall b | 0 <= b < MAX_ENTRIES :: EntryOk(h, s.known[b], b, revealed))
  }

  lemma StartsEmpty(h: Hash)
    ensures Holds(h, NothingKept(), [])
  {
  }

  /** Below an aligned index of bucket `at`, every lower bucket holds the next
      index of its kind. */
  lemma LowEntry(h: Hash, s: Kept, revealed: seq<Word>, at: nat, b: nat)
    requires Holds(h, s, revealed) && Lowest(revealed) > 0
    requires at == Bucket(Lowest(revealed) - 1) && b < at
    ensures s.known[b].Some? && s.known[b].value.index == Lowest(revealed) - 1 + Pow2(b)
    ensures Lowest(revealed) - 1 + Pow2(b) <= MAX_INDEX
    ensures Bucket(Lowest(revealed) - 1 + Pow2(b)) == b
  {
    hide DeriveFrom, Pow2, Shr, Zeros, Bucket;
    var index := Lowest(revealed) - 1;
    NextAligned(index, at, b);
    var y := index + Pow2(b);
    assert EntryOk(h, s.known[b], b, revealed);
    assert y >= Lowest(revealed);
    assert s.known[b].Some?;
    var x := s.known[b].value.index;
    assert x <= y;
    AlignedGap(index, at, b, x);
  }

  /** One more step of 2^b from an aligned index is in bucket `b`. */
  lemma NextAligned(index: nat, at: nat, b: nat)
    requires index <= MAX_INDEX && at == Bucket(index) && b < at
    ensures index + Pow2(b) <= MAX_INDEX && Bucket(index + Pow2(b)) == b
  {
    hide Pow2, Shr, Zeros, Bucket;
    BucketAligned(index);
    AlignedFits(index, at);
    Pow2Less(b, at);
    PowerPositive(b);
    Pow2Add(at - b - 1, b + 1);
    Pow2Step(b + 1);
    NextMultiple(index, Shr(index, at), Pow2(at), Pow2(at - b - 1), Pow2(b + 1), Pow2(b));
    OddBucket(Shr(index, at) * Pow2(at - b - 1), b, index + Pow2(b));
  }

  lemma NextMultiple(index: nat, q: nat, whole: nat, m: nat, double: nat, p: nat)
    requires index == q * whole && whole == m * double && double == 2 * p
    ensures index + p == (2 * (q * m) + 1) * p
  {
    Aligned2(q, m, p);
  }

  lemma PowerPositive(b: nat)
    ensures Pow2(b) >= 1
  {
  }

  /** An odd multiple of 2^b is in bucket `b`. */
  lemma OddBucket(k: nat, b: nat, x: nat)
    requires x == (2 * k + 1) * Pow2(b) && x <= MAX_INDEX
    ensures Bucket(x) == b
  {
    hide Pow2;
    OddMultiple(2 * k + 1, b);
  }

  lemma Aligned2(q: nat, m: nat, p: nat)
    ensures q * (m * (2 * p)) == (2 * (q * m)) * p
    ensures (2 * (q * m) + 1) * p == (2 * (q * m)) * p + p
  {
  }

  lemma Pow2Less(a: nat, b: nat)
    requires a < b
    ensures 2 * Pow2(a) <= Pow2(b)
  {
    hide Pow2;
    Pow2Add(b - a - 1, a + 1);
    Pow2Step(a + 1);
    MulOrder(1, Pow2(b - a - 1), Pow2(a + 1));
  }

  lemma AlignedFits(x: nat, b: nat)
    requires x <= MAX_INDEX && b == Bucket(x)
    ensures x + Pow2(b) <= MAX_INDEX + 1
  {
    hide Pow2, Shr, Zeros;
    BucketAligned(x);
    TopPower();
    Pow2Add(INDEX_BITS - b, b);
    var q, p, m := Shr(x, b), Pow2(b), Pow2(INDEX_BITS - b);
    FitsUnder(q, m, p);
  }

  lemma FitsUnder(q: nat, m: nat, p: nat)
    requires q * p < m * p
    ensures q * p + p <= m * p
  {
    if q < m { MulOrder(q + 1, m, p); } else { MulOrder(m, q, p); }
    assert (q + 1) * p == q * p + p;
  }

  /** Above an aligned index, the next index of a lower bucket is 2^b away. */
  lemma AlignedGap(index: nat, at: nat, b: nat, x: nat)
    requires index < x <= MAX_INDEX && at == Bucket(index) && b < at && Bucket(x) == b
    ensures x >= index + Pow2(b)
  {
    hide Pow2, Shr, Zeros;
    BucketAligned(index);
    BucketAligned(x);
    Pow2Add(at - b, b);
    var q, p := Shr(index, at) * Pow2(at - b), Pow2(b);
    MulAssoc(Shr(index, at), Pow2(at - b), p);
    FitsUnder(q, Shr(x, b), p);
  }

  /** The highest bit of a number. */
  lemma {:induction false} HighBit(d: nat, bits: nat) returns (b: nat)
    requires 0 < d < Pow2(bits)
    ensures b < bits && Pow2(b) <= d < 2 * Pow2(b)
  {
    if bits == 1 || d >= Pow2(bits - 1) { b := bits - 1; } else { b := HighBit(d, bits - 1); }
  }

  lemma SameHigh(x: nat, b: nat, i: nat)
    requires x <= MAX_INDEX && Bucket(x) == b && x <= i < x + Pow2(b)
    ensures Shr(i, b) == Shr(x, b) && x == Shr(x, b) * Pow2(b)
  {
    hide Pow2, Shr, Zeros;
    BucketAligned(x);
    var q, p := Shr(x, b), Pow2(b);
    assert (q + 1) * p == q * p + p;
    ShrUnique(i, b, q);
  }

  /** An accepted secret derives every secret revealed under its index. */
  lemma NewDerives(h: Hash, s: Kept, revealed: seq<Word>, secret: Word, i: nat)
    requires Holds(h, s, revealed) && Lowest(revealed) > 0
    requires var index := Lowest(revealed) - 1;
             Consistent(h, s.known, secret, Bucket(index)) && index < i < index + Pow2(Bucket(index)) && i <= MAX_INDEX
    ensures Secret(revealed, i) == DeriveFrom(h, secret, Bucket(Lowest(revealed) - 1), i)
  {
    hide DeriveFrom, Pow2, Shr, Zeros, Bucket;
    var index := Lowest(revealed) - 1;
    var at := Bucket(index);
    var b := HighBit(i - index, at);
    LowEntry(h, s, revealed, at, b);
    var y := index + Pow2(b);
    assert EntryOk(h, s.known[b], b, revealed);
    SameHigh(y, b, i);
    Through(h, secret, at, b, y, i);
  }

  /** Recording keeps the store standing for all that was revealed. */
  lemma InsertHolds(h: Hash, s: Kept, revealed: seq<Word>, secret: Word, index: nat)
    requires Holds(h, s, revealed) && Inserted(h, s, secret, index).Ok?
    ensures |revealed| < MAX_INDEX + 1 && index == Lowest(revealed) - 1
    ensures Holds(h, Inserted(h, s, secret, index).value, revealed + [secret])
  {
    hide DeriveFrom, Pow2, Shr, Zeros, Bucket;
    var s', more := Inserted(h, s, secret, index).value, revealed + [secret];
    var at := Bucket(index);
    forall b | 0 <= b < MAX_ENTRIES
      ensures EntryOk(h, s'.known[b], b, more)
    {
      assert EntryOk(h, s.known[b], b, revealed);
      if b == at { NewEntryOk(h, s, revealed, secret); } else { OldEntryOk(h, s.known[b], b, revealed, secret); }
    }
  }

  lemma OldEntryOk(h: Hash, entry: Option<Entry>, b: nat, revealed: seq<Word>, secret: Word)
    requires |revealed| <= MAX_INDEX && EntryOk(h, entry, b, revealed) && Bucket(Lowest(revealed) - 1) != b
    ensures EntryOk(h, entry, b, revealed + [secret])
  {
    hide DeriveFrom, Pow2, Shr, Zeros, Bucket;
    var more := revealed + [secret];
    assert forall i | Lowest(revealed) <= i <= MAX_INDEX :: Secret(more, i) == Secret(revealed, i);
  }

  lemma NewEntryOk(h: Hash, s: Kept, revealed: seq<Word>, secret: Word)
    requires Holds(h, s, revealed) && Lowest(revealed) > 0
    requires Consistent(h, s.known, secret, Bucket(Lowest(revealed) - 1))
    ensures EntryOk(h, Some(Entry(secret, Lowest(revealed) - 1)), Bucket(Lowest(revealed) - 1), revealed + [secret])
  {
    hide DeriveFrom, Pow2, Shr, Zeros, Bucket, Consistent, EntryOk;
    var index, more := Lowest(revealed) - 1, revealed + [secret];
    var at := Bucket(index);
    forall i | index <= i < index + Pow2(at) && i <= MAX_INDEX
      ensures Secret(more, i) == DeriveFrom(h, secret, at, i)
    {
      if i == index {
        BucketAligned(index);
        NothingToApply(h, secret, at, index, Shr(index, at));
      } else {
        NewDerives(h, s, revealed, secret, i);
      }
    }
    NewEntry(h, secret, index, at, more);
  }

  lemma NewEntry(h: Hash, secret: Word, index: nat, at: nat, more: seq<Word>)
    requires |more| <= MAX_INDEX + 1 && Lowest(more) == index <= MAX_INDEX && at == Bucket(index)
    requires forall i | index <= i < index + Pow2(at) && i <= MAX_INDEX ::
             Secret(more, i) == DeriveFrom(h, secret, at, i)
    ensures EntryOk(h, Some(Entry(secret, index)), at, more)
  {
    hide DeriveFrom, Pow2, Bucket;
  }

  // ------------------------------------------------------------------
  // Reading back
  // ------------------------------------------------------------------

  /** What an entry covers was revealed, and it derives it exactly. */
  lemma CoveredIsExact(h: Hash, entry: Option<Entry>, b: nat, revealed: seq<Word>, i: nat)
    requires |revealed| <= MAX_INDEX + 1 && EntryOk(h, entry, b, revealed) && Covers(entry, b, i)
    ensures Lowest(revealed) <= i <= MAX_INDEX && Secret(revealed, i) == DeriveFrom(h, entry.value.secret, b, i)
  {
    hide DeriveFrom, Pow2, Shr, Zeros, Bucket;
    var x := entry.value.index;
    BucketAligned(x);
    AlignedFits(x, b);
    ShrRange(i, b);
    assert (Shr(x, b) + 1) * Pow2(b) == Shr(x, b) * Pow2(b) + Pow2(b);
  }

  /** Clearing the low bits of a revealed index as far as stays revealed leads
      to the entry that covers it. */
  lemma {:induction false} Covered(h: Hash, s: Kept, revealed: seq<Word>, i: nat, bits: nat) returns (b: nat)
    requires Holds(h, s, revealed) && Lowest(revealed) <= i <= MAX_INDEX && bits <= INDEX_BITS
    requires bits < INDEX_BITS ==> Shr(i, bits + 1) * Pow2(bits + 1) < Lowest(revealed)
    ensures b < MAX_ENTRIES && Covers(s.known[b], b, i)
    decreases bits
  {
    hide DeriveFrom, Pow2, Shr, Zeros, Bucket;
    var x := Shr(i, bits) * Pow2(bits);
    ShrRange(i, bits);
    if x >= Lowest(revealed) {
      b := bits;
      ClearedEntry(i, bits, Lowest(revealed));
      assert EntryOk(h, s.known[b], b, revealed);
      assert s.known[b].Some?;
      SameBucketGap(i, bits, s.known[b].value.index, Lowest(revealed));
      assert s.known[b].value.index == x;
    } else {
      assert bits > 0 by { Pow2Step(0); ShrZero(i); }
      b := Covered(h, s, revealed, i, bits - 1);
    }
  }

  lemma ShrZero(i: nat)
    ensures Shr(i, 0) == i
  {
  }

  /** Clearing as many low bits as stays at or above `low` lands in that bucket. */
  lemma ClearedEntry(i: nat, b: nat, low: nat)
    requires i <= MAX_INDEX && b <= INDEX_BITS && low <= Shr(i, b) * Pow2(b)
    requires b < INDEX_BITS ==> Shr(i, b + 1) * Pow2(b + 1) < low
    ensures Shr(i, b) * Pow2(b) <= MAX_INDEX && Bucket(Shr(i, b) * Pow2(b)) == b
    ensures Shr(Shr(i, b) * Pow2(b), b) == Shr(i, b)
  {
    hide Pow2, Zeros;
    var q, p := Shr(i, b), Pow2(b);
    ShrRange(i, b);
    assert (q + 1) * p == q * p + p;
    ShrUnique(q * p, b, q);
    Halving(i, b);
    if b == INDEX_BITS {
      TopPower();
      FitsUnder(q, 1, p);
    } else {
      OddMultiple(q, b);
    }
  }

  /** Clearing one bit more changes nothing when the bit is not set. */
  lemma Halving(i: nat, b: nat)
    ensures Shr(i, b + 1) == Shr(i, b) / 2
    ensures Shr(i, b) % 2 == 0 ==> Shr(i, b + 1) * Pow2(b + 1) == Shr(i, b) * Pow2(b)
    ensures Shr(i, b) % 2 == 1 ==> Shr(i, b + 1) * Pow2(b + 1) == Shr(i, b) * Pow2(b) - Pow2(b)
  {
    hide Pow2;
    ShrAdd(i, b, 1);
    Pow2Step(b + 1);
    var q, p := Shr(i, b), Pow2(b);
    assert Shr(q, 1) == q / 2;
    HalfTimes(q, p);
  }

  lemma HalfTimes(q: nat, p: nat)
    ensures (q / 2) * (2 * p) == if q % 2 == 0 then q * p else q * p - p
  {
    var h := q / 2;
    Doubled(h, p);
    Twofold(h, p);
    if q % 2 == 1 { DistributeOne(2 * h, p); }
  }

  lemma Twofold(h: nat, p: nat)
    ensures (2 * h) * p == 2 * (h * p)
  {
  }

  /** No index of the bucket lies between `low` and the cleared one. */
  lemma SameBucketGap(i: nat, b: nat, e: nat, low: nat)
    requires i <= MAX_INDEX && b <= INDEX_BITS && e <= MAX_INDEX && Bucket(e) == b
    requires low <= e && low <= Shr(i, b) * Pow2(b)
    requires b < INDEX_BITS ==> Shr(i, b + 1) * Pow2(b + 1) < low
    ensures e >= Shr(i, b) * Pow2(b)
  {
    hide Pow2, Zeros, Shr, Bucket;
    BucketAligned(e);
    Halving(i, b);
    var q, p, k := Shr(i, b), Pow2(b), Shr(e, b);
    if b == INDEX_BITS {
      ShrTop(i);
    } else {
      Above(k, q, p);
    }
  }

  lemma Above(k: nat, q: nat, p: nat)
    ensures k * p > q * p - p ==> k * p >= q * p
  {
    if k < q {
      MulOrder(k + 1, q, p);
      assert (k + 1) * p == k * p + p;
    } else {
      MulOrder(q, k, p);
    }
  }

  /** Reading any index of a store gives exactly the secret revealed for it, and
      nothing for an index that was not: after any secrets that were accepted,
      however their sender made them. */
  lemma GetExact(h: Hash, s: Kept, revealed: seq<Word>, i: nat)
    requires Holds(h, s, revealed)
    ensures Got(h, s.known, i, 0) ==
            if Lowest(revealed) <= i <= MAX_INDEX then Some(Secret(revealed, i)) else None
  {
    hide DeriveFrom, Shr, EntryOk;
    if Lowest(revealed) <= i <= MAX_INDEX {
      ShrTop(i);
      var b := Covered(h, s, revealed, i, INDEX_BITS);
      GotAt(h, s, revealed, i, 0, b);
    } else {
      GotNone(h, s, revealed, i, 0);
    }
  }

  lemma ShrTop(i: nat)
    requires i <= MAX_INDEX
    ensures Shr(i, INDEX_BITS) == 0
  {
    TopPower();
    ShrUnique(i, INDEX_BITS, 0);
  }

  lemma {:induction false} GotAt(h: Hash, s: Kept, revealed: seq<Word>, i: nat, from: nat, b: nat)
    requires Holds(h, s, revealed) && from <= b < MAX_ENTRIES && Covers(s.known[b], b, i)
    ensures Lowest(revealed) <= i <= MAX_INDEX
    ensures Got(h, s.known, i, from) == Some(Secret(revealed, i))
    decreases b - from
  {
    hide DeriveFrom, Shr, EntryOk;
    assert EntryOk(h, s.known[from], from, revealed);
    if Covers(s.known[from], from, i) {
      CoveredIsExact(h, s.known[from], from, revealed, i);
    } else {
      GotAt(h, s, revealed, i, from + 1, b);
    }
  }

  lemma {:induction false} GotNone(h: Hash, s: Kept, revealed: seq<Word>, i: nat, from: nat)
    requires Holds(h, s, revealed) && from <= MAX_ENTRIES && !(Lowest(revealed) <= i <= MAX_INDEX)
    ensures Got(h, s.known, i, from) == None
    decreases MAX_ENTRIES - from
  {
    hide DeriveFrom, Shr, EntryOk;
    if from < MAX_ENTRIES {
      assert EntryOk(h, s.known[from], from, revealed);
      if Covers(s.known[from], from, i) { CoveredIsExact(h, s.known[from], from, revealed, i); }
      GotNone(h, s, revealed, i, from + 1);
    }
  }

  // ------------------------------------------------------------------
  // An honest sender
  // ------------------------------------------------------------------

  /** Every secret derives from the seed. */
  ghost predicate Honest(h: Hash, seed: Word, revealed: seq<Word>) {
    |revealed| <= MAX_INDEX + 1 && forall j | 0 <= j < |revealed| :: revealed[j] == Derive(h, seed, MAX_INDEX - j)
  }

  /** Secrets derived from one seed are never refused. */
  lemma HonestAccepted(h: Hash, seed: Word, s: Kept, revealed: seq<Word>)
    requires Holds(h, s, revealed) && Honest(h, seed, revealed) && Lowest(revealed) > 0
    ensures Inserted(h, s, Derive(h, seed, Lowest(revealed) - 1), Lowest(revealed) - 1).Ok?
    ensures Honest(h, seed, revealed + [Derive(h, seed, Lowest(revealed) - 1)])
  {
    hide DeriveFrom, Pow2, Shr, Zeros, Bucket;
    var index := Lowest(revealed) - 1;
    var at := Bucket(index);
    forall b | 0 <= b < at && s.known[b].Some?
      ensures DeriveFrom(h, Derive(h, seed, index), at, s.known[b].value.index) == s.known[b].value.secret
    {
      LowEntry(h, s, revealed, at, b);
      var y := index + Pow2(b);
      assert EntryOk(h, s.known[b], b, revealed);
      Pow2Less(b, at);
      SameHigh(index, at, y);
      Through(h, seed, INDEX_BITS, at, index, y);
      BucketAligned(y);
      NothingToApply(h, s.known[b].value.secret, b, y, Shr(y, b));
      assert Secret(revealed, y) == Derive(h, seed, y);
    }
  }
}
