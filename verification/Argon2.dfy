/** Filling the memory of Argon2 (src/argon2.rs, RFC 9106 section 3.4): which
    blocks are read and written, and in what order that may happen.  The
    compression function is any function. */
module Argon2 {
  import opened Prelude

  type Block = nat

  const SLICES: nat := 4
  const WORDS: nat := 128
  const TWO32: nat := 0x1_0000_0000

  datatype Variant = D | I | Id

  /** G, XOR, reading a word, and the input of the address generator at a
      position (pass, lane, slice, counter). */
  datatype Mix = Mix(compress: (Block, Block) -> Block, xor: (Block, Block) -> Block,
                     word: (Block, nat) -> nat, position: (nat, nat, nat, nat) -> Block, zero: Block)

  datatype Layout = Layout(lanes: nat, segment: nat) {
    /** Blocks of a lane. */
    function Q(): nat { SLICES * segment }
  }

  predicate LayoutOk(l: Layout) { l.lanes >= 1 && l.segment >= 2 }

  /** Memory is rounded down to whole segments, at least two blocks each. */
  function LayoutOf(memoryKib: nat, lanesAsked: nat): (l: Layout)
    ensures LayoutOk(l)
    ensures l.lanes * l.Q() <= Max(memoryKib, 8 * l.lanes)
  {
    var lanes := Max(lanesAsked, 1);
    var memory := Max(memoryKib, 8 * lanes);
    var perLane := memory / (4 * lanes);
    Rounding(memory, lanes);
    Layout(lanes, perLane)
  }

  lemma Rounding(memory: nat, lanes: nat)
    requires lanes >= 1 && memory >= 8 * lanes
    ensures memory / (4 * lanes) >= 2
    ensures lanes * (4 * (memory / (4 * lanes))) <= memory
  {
    var d := 4 * lanes;
    var n := memory / d;
    assert memory == d * n + memory % d;
    assert d * n == lanes * (4 * n);
    DivAtLeast(memory, 2, d);
  }

  /** The lanes asked for, one if none; and as many whole segments as the memory,
      or eight blocks a lane, has room for. */
  lemma LayoutIs(memoryKib: nat, lanesAsked: nat)
    ensures var l := LayoutOf(memoryKib, lanesAsked);
            var memory := if memoryKib < 8 * l.lanes then 8 * l.lanes else memoryKib;
            && l.lanes == (if lanesAsked == 0 then 1 else lanesAsked)
            && l.lanes * l.Q() <= memory < l.lanes * (l.Q() + 4)
  {
    var l := LayoutOf(memoryKib, lanesAsked);
    var d, memory := 4 * l.lanes, Max(memoryKib, 8 * l.lanes);
    Between(memory, d);
    assert (l.segment + 1) * d == l.lanes * (l.Q() + 4);
  }

  // ------------------------------------------------------------------
  // Where a block reads
  // ------------------------------------------------------------------

  /** A cell of the memory: a lane and a place in it. */
  datatype Cell = Cell(lane: nat, at: nat)

  /** A block being filled. */
  datatype Spot = Spot(pass: nat, slice: nat, lane: nat, i: nat) {
    function At(l: Layout): nat { slice * l.segment + i }
  }

  /** The first two blocks exist before the filling. */
  function Start(pass: nat, slice: nat): nat { if pass == 0 && slice == 0 then 2 else 0 }

  predicate SpotOk(l: Layout, s: Spot) {
    s.slice < SLICES && s.lane < l.lanes && Start(s.pass, s.slice) <= s.i < l.segment
  }

  function Prev(l: Layout, s: Spot): Cell {
    Cell(s.lane, if s.At(l) == 0 then SatSub(l.Q(), 1) else s.At(l) - 1)
  }

  /** How many blocks may be referred to. */
  function Area(l: Layout, s: Spot, sameLane: bool): (area: nat)
    requires LayoutOk(l) && SpotOk(l, s) && (s.pass == 0 && s.slice == 0 ==> sameLane)
    ensures area >= 1
    ensures area <= l.Q()
  {
    AtLeast(s.slice, l.segment);
    if s.pass == 0 then
      if s.slice == 0 then s.i - 1
      else if sameLane then s.slice * l.segment + s.i - 1
      else s.slice * l.segment - (if s.i == 0 then 1 else 0)
    else if sameLane then l.Q() - l.segment + s.i - 1
    else l.Q() - l.segment - (if s.i == 0 then 1 else 0)
  }

  lemma AtLeast(slice: nat, segment: nat)
    requires slice < SLICES
    ensures slice >= 1 ==> slice * segment >= segment
    ensures slice * segment + segment <= SLICES * segment
  {
  }

  /** How far back from the newest block of the area the reference lies: small
      more often than not, and always inside. */
  function Back(area: nat, j1: nat): (zz: nat)
    requires area >= 1 && j1 < TWO32
    ensures zz < area
  {
    var x := (j1 * j1) / TWO32;
    var y := (area * x) / TWO32;
    Bias(area, j1);
    area - 1 - y
  }

  lemma Bias(area: nat, j1: nat)
    requires area >= 1 && j1 < TWO32
    ensures (area * ((j1 * j1) / TWO32)) / TWO32 < area
  {
    Square(j1, TWO32);
    DivLess(j1 * j1, TWO32, TWO32);
    var x := (j1 * j1) / TWO32;
    MulLess(area, x, TWO32);
    DivLess(area * x, area, TWO32);
  }

  lemma Square(a: nat, b: nat)
    requires a < b
    ensures a * a < b * b
  {
    MulLess(b, a, b);
    assert a * a <= b * a;
  }

  lemma MulLess(c: nat, a: nat, b: nat)
    requires c >= 1 && a < b
    ensures c * a < c * b
  {
    assert c * b == c * a + c * (b - a);
  }

  lemma DivLess(a: nat, m: nat, d: nat)
    requires d > 0 && a < m * d
    ensures a / d < m
  {
    var n := a / d;
    assert a == d * n + a % d;
    MulOrder(m, n, d);
  }

  lemma DivAtLeast(a: nat, m: nat, d: nat)
    requires d > 0 && a >= m * d
    ensures a / d >= m
  {
    var n := a / d;
    assert a == d * n + a % d;
    MulOrder(n + 1, m, d);
    assert (n + 1) * d == n * d + d;
  }

  /** Where the reference lies: the square of `j1` over 2^32, scaled to the area and
      counted back from its newest block, both rounded down. */
  lemma BackIs(area: nat, j1: nat) returns (x: nat)
    requires area >= 1 && j1 < TWO32
    ensures x * 0x1_0000_0000 <= j1 * j1 < (x + 1) * 0x1_0000_0000
    ensures var zz := Back(area, j1);
            (area - 1 - zz) * 0x1_0000_0000 <= area * x < (area - zz) * 0x1_0000_0000
  {
    x := (j1 * j1) / TWO32;
    Between(j1 * j1, TWO32);
    Between(area * x, TWO32);
    Bias(area, j1);
  }

  lemma Between(a: nat, d: nat)
    requires d > 0
    ensures (a / d) * d <= a < (a / d + 1) * d
  {
    Divided(a, d);
    Distribute(a / d, 1, d);
  }

  /** Nothing gives the newest block, and more never a newer one. */
  lemma BackOrder(area: nat, j1: nat, more: nat)
    requires area >= 1 && j1 <= more < TWO32
    ensures Back(area, 0) == area - 1 && Back(area, more) <= Back(area, j1)
  {
    Bias(area, j1);
    Bias(area, more);
    Squares(j1, more);
    DivOrder(j1 * j1, more * more, TWO32);
    MulOrder((j1 * j1) / TWO32, (more * more) / TWO32, area);
    DivOrder(area * ((j1 * j1) / TWO32), area * ((more * more) / TWO32), TWO32);
  }

  lemma Squares(a: nat, b: nat)
    requires a <= b
    ensures a * a <= b * b
  {
    MulOrder(a, b, a);
    MulOrder(a, b, b);
  }

  /** The block referred to, from the two halves of a pseudo-random word. */
  function Ref(l: Layout, s: Spot, word: nat): Cell
    requires LayoutOk(l) && SpotOk(l, s)
  {
    var j1, j2 := word % TWO32, word / TWO32;
    var lane := if s.pass == 0 && s.slice == 0 then s.lane else j2 % l.lanes;
    var area := Area(l, s, lane == s.lane);
    Cell(lane, (From(l, s) + Back(area, j1)) % l.Q())
  }

  predicate InSlice(l: Layout, slice: nat, at: nat) {
    slice * l.segment <= at < slice * l.segment + l.segment
  }

  /** A reference is in range, neither the block being filled nor the one before
      it; in its own lane it is not ahead in the slice, in another lane it is
      never in the slice at all; and in the first pass it was written before. */
  lemma RefOk(l: Layout, s: Spot, word: nat)
    requires LayoutOk(l) && SpotOk(l, s)
    ensures var c := Ref(l, s, word);
            && c.lane < l.lanes && c.at < l.Q()
            && c != Cell(s.lane, s.At(l)) && c != Prev(l, s)
            && (c.lane != s.lane ==> !InSlice(l, s.slice, c.at))
            && (c.lane == s.lane && InSlice(l, s.slice, c.at) ==> c.at < s.At(l))
            && (s.pass == 0 ==> c.at < s.slice * l.segment || (c.lane == s.lane && c.at < s.At(l)))
  {
    hide Area, Back;
    var lane := Ref(l, s, word).lane;
    RefPlace(l, s, lane == s.lane, Back(Area(l, s, lane == s.lane), word % TWO32));
  }

  function From(l: Layout, s: Spot): nat {
    if s.pass == 0 || s.slice == SLICES - 1 then 0 else (s.slice + 1) * l.segment
  }

  ghost predicate PlaceOk(l: Layout, s: Spot, sameLane: bool, at: nat) {
    && at < l.Q()
    && (sameLane ==> at != s.At(l) && at != Prev(l, s).at)
    && (!sameLane ==> !InSlice(l, s.slice, at))
    && (sameLane && InSlice(l, s.slice, at) ==> at < s.At(l))
    && (s.pass == 0 ==> at < s.slice * l.segment || (sameLane && at < s.At(l)))
  }

  lemma RefPlace(l: Layout, s: Spot, sameLane: bool, zz: nat)
    requires LayoutOk(l) && SpotOk(l, s) && (s.pass == 0 && s.slice == 0 ==> sameLane)
    requires zz < Area(l, s, sameLane)
    ensures PlaceOk(l, s, sameLane, (From(l, s) + zz) % l.Q())
  {
    hide Area, PlaceOk;
    AreaIs(l, s, sameLane);
    AtLeast(s.slice, l.segment);
    ModOnce(From(l, s) + zz, l.Q());
    if s.pass == 0 { FirstPass(l, s, sameLane, zz); } else { LaterPass(l, s, sameLane, zz); }
  }

  lemma FirstPass(l: Layout, s: Spot, sameLane: bool, zz: nat)
    requires LayoutOk(l) && SpotOk(l, s) && s.pass == 0
    requires zz < if sameLane then s.At(l) - 1 else s.slice * l.segment
    ensures PlaceOk(l, s, sameLane, zz)
  {
    AtLeast(s.slice, l.segment);
  }

  /** Counted from the block after the slice, the slice comes last. */
  lemma LaterPass(l: Layout, s: Spot, sameLane: bool, zz: nat)
    requires LayoutOk(l) && SpotOk(l, s) && s.pass > 0
    requires zz < l.Q() - l.segment + (if sameLane then s.i - 1 else 0)
    ensures PlaceOk(l, s, sameLane, (From(l, s) + zz) % l.Q())
  {
    var a, q := From(l, s) + zz, l.Q();
    assert (s.slice + 1) * l.segment == s.slice * l.segment + l.segment;
    AtLeast(s.slice, l.segment);
    ModOnce(a, q);
    if s.slice == SLICES - 1 { assert s.slice * l.segment == q - l.segment; }
  }

  lemma AreaIs(l: Layout, s: Spot, sameLane: bool)
    requires LayoutOk(l) && SpotOk(l, s) && (s.pass == 0 && s.slice == 0 ==> sameLane)
    ensures var area := Area(l, s, sameLane);
            && (s.pass == 0 && sameLane ==> area == s.At(l) - 1)
            && (s.pass == 0 && !sameLane ==> area <= s.slice * l.segment)
            && (s.pass > 0 && sameLane ==> area == l.Q() - l.segment + s.i - 1)
            && (s.pass > 0 && !sameLane ==> area <= l.Q() - l.segment)
  {
  }

  /** The blocks RFC 9106, section 3.4.2, lets a spot refer to in its own lane or
      another: all that exist, but for the segment being filled in other lanes,
      what is still to be filled in its own, and the block before the spot, or
      before the segment at its start. */
  ghost predicate Referable(l: Layout, s: Spot, sameLane: bool, at: nat) {
    && at < l.Q() && (s.pass == 0 ==> at < s.At(l))
    && (if sameLane then (InSlice(l, s.slice, at) ==> at < s.At(l)) && at != Prev(l, s).at
        else !InSlice(l, s.slice, at) && (s.i == 0 ==> at != Prev(l, s).at))
  }

  /** How long ago a block of the lane was filled, seen from the spot. */
  function Age(l: Layout, s: Spot, at: nat): int {
    if at < s.At(l) then s.At(l) - at else l.Q() + s.At(l) - at
  }

  /** The area is exactly these blocks, the oldest first. */
  lemma AreaExact(l: Layout, s: Spot, sameLane: bool, zz: nat)
    requires LayoutOk(l) && SpotOk(l, s) && (s.pass == 0 && s.slice == 0 ==> sameLane)
    requires zz < Area(l, s, sameLane)
    ensures Referable(l, s, sameLane, (From(l, s) + zz) % l.Q())
    ensures Age(l, s, (From(l, s) + zz) % l.Q())
            == Area(l, s, sameLane) - zz + if sameLane || s.i == 0 then 1 else s.i
  {
    var seg, q := l.segment, l.Q();
    AtLeast(s.slice, seg);
    ModOnce(From(l, s) + zz, q);
    Distribute(s.slice, 1, seg);
    if s.slice == SLICES - 1 { assert s.slice * seg == q - seg; }
  }

  lemma AreaAll(l: Layout, s: Spot, sameLane: bool, at: nat) returns (zz: nat)
    requires LayoutOk(l) && SpotOk(l, s) && (s.pass == 0 && s.slice == 0 ==> sameLane)
    requires Referable(l, s, sameLane, at)
    ensures zz < Area(l, s, sameLane) && at == (From(l, s) + zz) % l.Q()
  {
    var seg, q := l.segment, l.Q();
    AtLeast(s.slice, seg);
    Distribute(s.slice, 1, seg);
    if s.slice == SLICES - 1 { assert s.slice * seg == q - seg; }
    zz := if at >= From(l, s) then at - From(l, s) else at + q - From(l, s);
    ModOnce(From(l, s) + zz, q);
  }

  /** The block referred to, in figures: its lane is that of the spot in the first
      slice, and else the upper half of the word; of the blocks of that lane that may
      be referred to it is as far from the newest as the square of the lower half
      over 2^32, scaled to their number. */
  lemma RefIs(l: Layout, s: Spot, word: nat) returns (area: nat, x: nat, y: nat)
    requires LayoutOk(l) && SpotOk(l, s)
    ensures var c, j1 := Ref(l, s, word), word % 0x1_0000_0000;
            && c.lane == (if s.pass == 0 && s.slice == 0 then s.lane else word / 0x1_0000_0000 % l.lanes)
            && Referable(l, s, c.lane == s.lane, c.at)
            && area == Area(l, s, c.lane == s.lane)
            && x * 0x1_0000_0000 <= j1 * j1 < (x + 1) * 0x1_0000_0000
            && y * 0x1_0000_0000 <= area * x < (y + 1) * 0x1_0000_0000
            && Age(l, s, c.at) == y + (if c.lane == s.lane || s.i == 0 then 2 else s.i + 1)
  {
    hide Area, Back, From, Referable, Age;
    var c, j1 := Ref(l, s, word), word % TWO32;
    area := Area(l, s, c.lane == s.lane);
    x := BackIs(area, j1);
    y := area - 1 - Back(area, j1);
    AreaExact(l, s, c.lane == s.lane, Back(area, j1));
  }

  /** Every block but the first two of pass zero is filled, by one spot of the pass. */
  lemma EachOnce(l: Layout, pass: nat, lane: nat, at: nat) returns (s: Spot)
    requires LayoutOk(l) && lane < l.lanes && at < l.Q() && (pass == 0 ==> at >= 2)
    ensures s.pass == pass && s.lane == lane && SpotOk(l, s) && s.At(l) == at
    ensures forall t: Spot | t.pass == pass && t.lane == lane && SpotOk(l, t) && t.At(l) == at :: t == s
  {
    var slice := at / l.segment;
    Divided(at, l.segment);
    if slice >= SLICES { MulOrder(SLICES, slice, l.segment); }
    s := Spot(pass, slice, lane, at - slice * l.segment);
    forall t: Spot | t.pass == pass && t.lane == lane && SpotOk(l, t) && t.At(l) == at
      ensures t == s
    {
      OneSlice(l.segment, t.slice, t.i, s.slice, s.i);
    }
  }

  lemma OneSlice(segment: nat, a: nat, i: nat, b: nat, j: nat)
    requires i < segment && j < segment && a * segment + i == b * segment + j
    ensures a == b && i == j
  {
    if a < b { MulOrder(a + 1, b, segment); }
    if b < a { MulOrder(b + 1, a, segment); }
    Distribute(a, 1, segment);
    Distribute(b, 1, segment);
  }

  /** Nothing fills the two blocks that are there before. */
  lemma FirstTwoStay(l: Layout, s: Spot)
    requires LayoutOk(l) && SpotOk(l, s) && s.pass == 0
    ensures s.At(l) >= 2
  {
    AtLeast(s.slice, l.segment);
  }

  lemma ModOnce(a: nat, q: nat)
    requires q > 0
    ensures a < 2 * q ==> a % q == if a < q then a else a - q
  {
    var n := a / q;
    assert a == q * n + a % q;
    MulOrder(2, n, q);
    if n == 1 { assert q * n == q; }
  }

  // ------------------------------------------------------------------
  // Memory
  // ------------------------------------------------------------------

  function Flat(l: Layout, c: Cell): nat { c.lane * l.Q() + c.at }

  predicate InRange(l: Layout, c: Cell) { c.lane < l.lanes && c.at < l.Q() }

  predicate MemOk(l: Layout, mem: seq<Block>) { LayoutOk(l) && |mem| == l.lanes * l.Q() }

  lemma FlatInRange(l: Layout, c: Cell)
    requires InRange(l, c)
    ensures Flat(l, c) < l.lanes * l.Q()
  {
    MulOrder(c.lane + 1, l.lanes, l.Q());
    assert (c.lane + 1) * l.Q() == c.lane * l.Q() + l.Q();
  }

  lemma FlatInjective(l: Layout, c: Cell, d: Cell)
    requires c.at < l.Q() && d.at < l.Q() && Flat(l, c) == Flat(l, d)
    ensures c == d
  {
    Lower(l.Q(), c.lane, c.at, d.lane, d.at);
    Lower(l.Q(), d.lane, d.at, c.lane, c.at);
  }

  lemma Lower(q: nat, a: nat, x: nat, b: nat, y: nat)
    requires x < q && y < q && a * q + x == b * q + y
    ensures a <= b
  {
    MulOrder(b + 1, a, q);
    assert (b + 1) * q == b * q + q;
  }

  /** Every index is a cell. */
  lemma Unflat(l: Layout, k: nat) returns (c: Cell)
    requires LayoutOk(l) && k < l.lanes * l.Q()
    ensures InRange(l, c) && Flat(l, c) == k
  {
    var q := l.Q();
    c := Cell(k / q, k % q);
    assert k == q * (k / q) + k % q;
    DivLess(k, l.lanes, q);
  }

  function Read(l: Layout, mem: seq<Block>, c: Cell): Block
    requires MemOk(l, mem) && InRange(l, c)
  {
    FlatInRange(l, c);
    mem[Flat(l, c)]
  }

  function Write(l: Layout, mem: seq<Block>, c: Cell, b: Block): (mem': seq<Block>)
    requires MemOk(l, mem) && InRange(l, c)
    ensures MemOk(l, mem')
  {
    FlatInRange(l, c);
    mem[Flat(l, c) := b]
  }

  lemma ReadWrite(l: Layout, mem: seq<Block>, c: Cell, b: Block, d: Cell)
    requires MemOk(l, mem) && InRange(l, c) && InRange(l, d)
    ensures Read(l, Write(l, mem, c, b), d) == if c == d then b else Read(l, mem, d)
  {
    FlatInRange(l, c);
    FlatInRange(l, d);
    if Flat(l, c) == Flat(l, d) { FlatInjective(l, c, d); }
  }

  lemma SameMemory(l: Layout, a: seq<Block>, b: seq<Block>)
    requires MemOk(l, a) && MemOk(l, b)
    requires forall c | InRange(l, c) :: Read(l, a, c) == Read(l, b, c)
    ensures a == b
  {
    hide Flat, InRange;
    forall k | 0 <= k < |a|
      ensures a[k] == b[k]
    {
      var c := Unflat(l, k);
      assert Read(l, a, c) == Read(l, b, c);
    }
  }

  // ------------------------------------------------------------------
  // Filling
  // ------------------------------------------------------------------

  datatype Job = Job(mix: Mix, l: Layout, variant: Variant)

  /** References that do not depend on the data: always for `I`, and for `Id`
      in two slices of pass zero. */
  predicate Independent(v: Variant, pass: nat, slice: nat) {
    v == I || (v == Id && pass == 0 && slice < SLICES / 2)
  }

  /** The block of addresses of a spot: one for each 128 of a segment. */
  function Addresses(g: Job, pass: nat, lane: nat, slice: nat, counter: nat): Block {
    g.mix.compress(g.mix.zero, g.mix.compress(g.mix.zero, g.mix.position(pass, lane, slice, counter)))
  }

  lemma SpotInRange(l: Layout, s: Spot)
    requires LayoutOk(l) && SpotOk(l, s)
    ensures InRange(l, Cell(s.lane, s.At(l))) && InRange(l, Prev(l, s))
    ensures InSlice(l, s.slice, Prev(l, s).at) ==> Prev(l, s).at < s.At(l)
    ensures InSlice(l, s.slice, s.At(l))
  {
    AtLeast(s.slice, l.segment);
    if s.slice == 0 && s.i == 0 {
      assert s.At(l) == 0;
    }
  }

  /** The pseudo-random word of a spot: from the generator, or from the block before. */
  function WordAt(g: Job, mem: seq<Block>, s: Spot): nat
    requires MemOk(g.l, mem) && SpotOk(g.l, s)
  {
    SpotInRange(g.l, s);
    if Independent(g.variant, s.pass, s.slice)
    then g.mix.word(Addresses(g, s.pass, s.lane, s.slice, s.i / WORDS + 1), s.i % WORDS)
    else g.mix.word(Read(g.l, mem, Prev(g.l, s)), 0)
  }

  /** Argon2i always, and Argon2id in the first half of its first pass, take the
      word from the generator, whatever the memory holds; otherwise it is the first
      word of the block before. */
  lemma WordIs(g: Job, mem: seq<Block>, s: Spot)
    requires MemOk(g.l, mem) && SpotOk(g.l, s)
    ensures InRange(g.l, Prev(g.l, s))
    ensures WordAt(g, mem, s)
            == if g.variant == I || (g.variant == Id && s.pass == 0 && (s.slice == 0 || s.slice == 1))
               then g.mix.word(Addresses(g, s.pass, s.lane, s.slice, s.i / 128 + 1), s.i % 128)
               else g.mix.word(Read(g.l, mem, Prev(g.l, s)), 0)
  {
    SpotInRange(g.l, s);
  }

  function NewBlock(g: Job, mem: seq<Block>, s: Spot): Block
    requires MemOk(g.l, mem) && SpotOk(g.l, s)
  {
    var word := WordAt(g, mem, s);
    SpotInRange(g.l, s);
    RefOk(g.l, s, word);
    var b := g.mix.compress(Read(g.l, mem, Prev(g.l, s)), Read(g.l, mem, Ref(g.l, s, word)));
    if s.pass == 0 then b else g.mix.xor(b, Read(g.l, mem, Cell(s.lane, s.At(g.l))))
  }

  function FillStep(g: Job, mem: seq<Block>, s: Spot): (mem': seq<Block>)
    requires MemOk(g.l, mem) && SpotOk(g.l, s)
    ensures MemOk(g.l, mem')
  {
    SpotInRange(g.l, s);
    Write(g.l, mem, Cell(s.lane, s.At(g.l)), NewBlock(g, mem, s))
  }

  /** A cell a spot may read: outside the slice, or not ahead in its own lane. */
  predicate Readable(l: Layout, s: Spot, c: Cell) {
    InRange(l, c) && (!InSlice(l, s.slice, c.at) || (c.lane == s.lane && c.at <= s.At(l)))
  }

  /** Memories that agree on what a spot may read fill it alike. */
  lemma SameBlock(g: Job, a: seq<Block>, b: seq<Block>, s: Spot)
    requires MemOk(g.l, a) && MemOk(g.l, b) && SpotOk(g.l, s)
    requires forall c | Readable(g.l, s, c) :: Read(g.l, a, c) == Read(g.l, b, c)
    ensures NewBlock(g, a, s) == NewBlock(g, b, s)
  {
    hide Ref, Read, InSlice, Addresses;
    SpotInRange(g.l, s);
    RefOk(g.l, s, WordAt(g, a, s));
    assert Readable(g.l, s, Prev(g.l, s));
    assert Readable(g.l, s, Cell(s.lane, s.At(g.l)));
    assert WordAt(g, a, s) == WordAt(g, b, s);
    assert Readable(g.l, s, Ref(g.l, s, WordAt(g, a, s)));
  }

  /** A lane filled up to block `n` of a segment, on top of `mem`. */
  function LaneFill(g: Job, mem: seq<Block>, pass: nat, slice: nat, lane: nat, n: nat): (mem': seq<Block>)
    requires MemOk(g.l, mem) && slice < SLICES && lane < g.l.lanes && n <= g.l.segment
    ensures MemOk(g.l, mem')
  {
    if n <= Start(pass, slice) then mem
    else FillStep(g, LaneFill(g, mem, pass, slice, lane, n - 1), Spot(pass, slice, lane, n - 1))
  }

  /** The lane and the place in it that a word refers to. */
  method Reference(l: Layout, s: Spot, word: nat) returns (c: Cell)
    requires LayoutOk(l) && SpotOk(l, s)
    ensures c == Ref(l, s, word)
  {
    var j1, j2 := word % 0x1_0000_0000, word / 0x1_0000_0000;
    var lane := if s.pass == 0 && s.slice == 0 then s.lane else j2 % l.lanes;
    var sameLane := lane == s.lane;
    var missing := if s.i == 0 then 1 else 0;
    var area: int;
    if s.pass == 0 {
      if s.slice == 0 { area := s.i - 1; }
      else if sameLane { area := s.slice * l.segment + s.i - 1; }
      else { area := s.slice * l.segment - missing; }
    } else if sameLane {
      area := l.Q() - l.segment + s.i - 1;
    } else {
      area := l.Q() - l.segment - missing;
    }
    assert area == Area(l, s, sameLane);
    var x := j1 * j1 / 0x1_0000_0000;
    var y := area * x / 0x1_0000_0000;
    var zz := area - 1 - y;
    var first := if s.pass == 0 || s.slice == SLICES - 1 then 0 else (s.slice + 1) * l.segment;
    Bias(area, j1);
    c := Cell(lane, (first + zz) % l.Q());
  }

  method FillSegment(g: Job, memory: array<Block>, pass: nat, slice: nat, lane: nat)
    requires MemOk(g.l, memory[..]) && slice < SLICES && lane < g.l.lanes
    modifies memory
    ensures MemOk(g.l, memory[..])
    ensures memory[..] == LaneFill(g, old(memory[..]), pass, slice, lane, g.l.segment)
  {
    hide LaneFill, Ref, Prev, Flat, Area;
    var l, q := g.l, g.l.Q();
    var independent :=
      match g.variant
      case I => true
      case Id => pass == 0 && slice < SLICES / 2
      case D => false;
    var addresses, counter := g.mix.zero, 0;
    var start := if pass == 0 && slice == 0 then 2 else 0;
    LaneStart(g, memory[..], pass, slice, lane);
    for i := start to l.segment
      invariant MemOk(l, memory[..])
      invariant memory[..] == LaneFill(g, old(memory[..]), pass, slice, lane, i)
      invariant counter == (if i == start then 0 else (i - 1) / WORDS + 1) || !independent
      invariant independent && i > start ==> addresses == Addresses(g, pass, lane, slice, counter)
    {
      ghost var before := memory[..];
      var spot := Spot(pass, slice, lane, i);
      var current := Flat(l, Cell(lane, spot.At(l)));
      var prev := Flat(l, Prev(l, spot));
      SpotInRange(l, spot);
      FlatInRange(l, Cell(lane, spot.At(l)));
      FlatInRange(l, Prev(l, spot));
      var word;
      if independent {
        if i % WORDS == 0 || (i == start && start == 2) {
          counter := counter + 1;
          var input := g.mix.position(pass, lane, slice, counter);
          addresses := g.mix.compress(g.mix.zero, g.mix.compress(g.mix.zero, input));
        }
        word := g.mix.word(addresses, i % WORDS);
      } else {
        word := g.mix.word(memory[prev], 0);
      }
      assert word == WordAt(g, before, spot);
      RefOk(l, spot, word);
      FlatInRange(l, Ref(l, spot, word));
      var chosen := Reference(l, spot, word);
      var reference := Flat(l, chosen);
      var b := g.mix.compress(memory[prev], memory[reference]);
      memory[current] := if pass == 0 then b else g.mix.xor(b, memory[current]);
      assert memory[..] == FillStep(g, before, spot);
      LaneNext(g, old(memory[..]), pass, slice, lane, i);
    }
  }

  lemma LaneStart(g: Job, mem: seq<Block>, pass: nat, slice: nat, lane: nat)
    requires MemOk(g.l, mem) && slice < SLICES && lane < g.l.lanes
    ensures LaneFill(g, mem, pass, slice, lane, Start(pass, slice)) == mem
  {
  }

  lemma LaneNext(g: Job, mem: seq<Block>, pass: nat, slice: nat, lane: nat, i: nat)
    requires MemOk(g.l, mem) && slice < SLICES && lane < g.l.lanes && Start(pass, slice) <= i < g.l.segment
    ensures LaneFill(g, mem, pass, slice, lane, i + 1)
         == FillStep(g, LaneFill(g, mem, pass, slice, lane, i), Spot(pass, slice, lane, i))
  {
  }

  // ------------------------------------------------------------------
  // Any order
  // ------------------------------------------------------------------

  /** Filling one lane touches only its own blocks of the slice. */
  lemma {:induction false} LaneFrame(g: Job, mem: seq<Block>, pass: nat, slice: nat, lane: nat, n: nat, c: Cell)
    requires MemOk(g.l, mem) && slice < SLICES && lane < g.l.lanes && n <= g.l.segment && InRange(g.l, c)
    requires c.lane != lane || !InSlice(g.l, slice, c.at)
    ensures Read(g.l, LaneFill(g, mem, pass, slice, lane, n), c) == Read(g.l, mem, c)
  {
    hide Read, Write, NewBlock;
    if n > Start(pass, slice) {
      var s, before := Spot(pass, slice, lane, n - 1), LaneFill(g, mem, pass, slice, lane, n - 1);
      LaneFrame(g, mem, pass, slice, lane, n - 1, c);
      SpotInRange(g.l, s);
      ReadWrite(g.l, before, Cell(lane, s.At(g.l)), NewBlock(g, before, s), c);
    }
  }

  function Count(order: seq<nat>, lane: nat): nat {
    if order == [] then 0 else Count(Front(order), lane) + if Last(order) == lane then 1 else 0
  }

  /** An order in which lanes take turns filling a slice, no lane past its segment. */
  predicate Schedule(l: Layout, pass: nat, slice: nat, order: seq<nat>) {
    && (forall k | 0 <= k < |order| :: order[k] < l.lanes)
    && (forall lane | 0 <= lane < l.lanes :: Start(pass, slice) + Count(order, lane) <= l.segment)
  }

  lemma ScheduleFront(l: Layout, pass: nat, slice: nat, order: seq<nat>)
    requires Schedule(l, pass, slice, order) && order != []
    ensures Schedule(l, pass, slice, Front(order)) && Last(order) < l.lanes
    ensures Start(pass, slice) + Count(Front(order), Last(order)) < l.segment
  {
    assert Count(order, Last(order)) == Count(Front(order), Last(order)) + 1;
    forall lane | 0 <= lane < l.lanes
      ensures Start(pass, slice) + Count(Front(order), lane) <= l.segment
    {
      assert Count(order, lane) >= Count(Front(order), lane);
    }
  }

  /** The memory after the lanes have taken these turns. */
  function Exec(g: Job, mem: seq<Block>, pass: nat, slice: nat, order: seq<nat>): (mem': seq<Block>)
    requires MemOk(g.l, mem) && slice < SLICES && Schedule(g.l, pass, slice, order)
    ensures MemOk(g.l, mem')
  {
    if order == [] then mem
    else
      ScheduleFront(g.l, pass, slice, order);
      var lane := Last(order);
      FillStep(g, Exec(g, mem, pass, slice, Front(order)),
               Spot(pass, slice, lane, Start(pass, slice) + Count(Front(order), lane)))
  }

  /** How far a lane is. */
  function Reached(pass: nat, slice: nat, order: seq<nat>, lane: nat): nat {
    Start(pass, slice) + Count(order, lane)
  }

  /** Each cell is what its own lane, filled alone as far as it got, holds. */
  ghost predicate Merged(g: Job, mem: seq<Block>, pass: nat, slice: nat, order: seq<nat>, c: Cell)
    requires MemOk(g.l, mem) && slice < SLICES && Schedule(g.l, pass, slice, order) && InRange(g.l, c)
  {
    Read(g.l, Exec(g, mem, pass, slice, order), c)
    == Read(g.l, LaneFill(g, mem, pass, slice, c.lane, Reached(pass, slice, order, c.lane)), c)
  }

  lemma {:induction false} ExecMerged(g: Job, mem: seq<Block>, pass: nat, slice: nat, order: seq<nat>)
    requires MemOk(g.l, mem) && slice < SLICES && Schedule(g.l, pass, slice, order)
    ensures forall c | InRange(g.l, c) :: Merged(g, mem, pass, slice, order, c)
  {
    hide Read, LaneFill, FillStep, Exec, MemOk, InRange, Merged, Schedule;
    if order == [] {
      forall c | InRange(g.l, c)
        ensures Merged(g, mem, pass, slice, order, c)
      {
        MergedStart(g, mem, pass, slice, c);
      }
    } else {
      ScheduleFront(g.l, pass, slice, order);
      ExecMerged(g, mem, pass, slice, Front(order));
      MergedStep(g, mem, pass, slice, order);
    }
  }

  lemma MergedStart(g: Job, mem: seq<Block>, pass: nat, slice: nat, c: Cell)
    requires MemOk(g.l, mem) && slice < SLICES && Schedule(g.l, pass, slice, []) && InRange(g.l, c)
    ensures Merged(g, mem, pass, slice, [], c)
  {
    LaneStart(g, mem, pass, slice, c.lane);
  }

  /** The lane that moves reads only what it would read alone. */
  lemma SameAsAlone(g: Job, mem: seq<Block>, pass: nat, slice: nat, order: seq<nat>, lane: nat)
    requires MemOk(g.l, mem) && slice < SLICES && Schedule(g.l, pass, slice, order) && lane < g.l.lanes
    requires Reached(pass, slice, order, lane) < g.l.segment
    requires forall c | InRange(g.l, c) :: Merged(g, mem, pass, slice, order, c)
    ensures var i := Reached(pass, slice, order, lane);
            NewBlock(g, Exec(g, mem, pass, slice, order), Spot(pass, slice, lane, i))
            == NewBlock(g, LaneFill(g, mem, pass, slice, lane, i), Spot(pass, slice, lane, i))
  {
    hide Read, LaneFill, FillStep, Exec, MemOk, InRange, Schedule, NewBlock, InSlice;
    var i := Reached(pass, slice, order, lane);
    var s, now, alone := Spot(pass, slice, lane, i), Exec(g, mem, pass, slice, order),
        LaneFill(g, mem, pass, slice, lane, i);
    forall c | Readable(g.l, s, c)
      ensures Read(g.l, now, c) == Read(g.l, alone, c)
    {
      assert Merged(g, mem, pass, slice, order, c);
      if c.lane != lane {
        CountBound(g.l, pass, slice, order, c);
        LaneFrame(g, mem, pass, slice, c.lane, Reached(pass, slice, order, c.lane), c);
        LaneFrame(g, mem, pass, slice, lane, i, c);
      }
    }
    SameBlock(g, now, alone, s);
  }

  lemma CountBound(l: Layout, pass: nat, slice: nat, order: seq<nat>, c: Cell)
    requires Schedule(l, pass, slice, order) && InRange(l, c)
    ensures c.lane < l.lanes && Reached(pass, slice, order, c.lane) <= l.segment
  {
  }

  lemma MergedStep(g: Job, mem: seq<Block>, pass: nat, slice: nat, order: seq<nat>)
    requires MemOk(g.l, mem) && slice < SLICES && Schedule(g.l, pass, slice, order) && order != []
    requires Schedule(g.l, pass, slice, Front(order)) && Last(order) < g.l.lanes
    requires Reached(pass, slice, Front(order), Last(order)) < g.l.segment
    requires forall c | InRange(g.l, c) :: Merged(g, mem, pass, slice, Front(order), c)
    ensures forall c | InRange(g.l, c) :: Merged(g, mem, pass, slice, order, c)
  {
    hide Read, LaneFill, InRange, Schedule, NewBlock, Write;
    var lane := Last(order);
    var i := Reached(pass, slice, Front(order), lane);
    var s, before := Spot(pass, slice, lane, i), Exec(g, mem, pass, slice, Front(order));
    SameAsAlone(g, mem, pass, slice, Front(order), lane);
    SpotInRange(g.l, s);
    forall c | InRange(g.l, c)
      ensures Merged(g, mem, pass, slice, order, c)
    {
      assert Merged(g, mem, pass, slice, Front(order), c);
      ReadWrite(g.l, before, Cell(lane, s.At(g.l)), NewBlock(g, before, s), c);
      if c.lane == lane {
        LaneNext(g, mem, pass, slice, lane, i);
        var alone := LaneFill(g, mem, pass, slice, lane, i);
        ReadWrite(g.l, alone, Cell(lane, s.At(g.l)), NewBlock(g, alone, s), c);
      }
    }
  }

  /** Two orders in which every lane gets as far leave the same memory. */
  lemma AnyOrder(g: Job, mem: seq<Block>, pass: nat, slice: nat, a: seq<nat>, b: seq<nat>)
    requires MemOk(g.l, mem) && slice < SLICES && Schedule(g.l, pass, slice, a) && Schedule(g.l, pass, slice, b)
    requires forall lane | 0 <= lane < g.l.lanes :: Count(a, lane) == Count(b, lane)
    ensures Exec(g, mem, pass, slice, a) == Exec(g, mem, pass, slice, b)
  {
    hide Read, LaneFill, FillStep, Exec, MemOk, Schedule;
    ExecMerged(g, mem, pass, slice, a);
    ExecMerged(g, mem, pass, slice, b);
    forall c | InRange(g.l, c)
      ensures Read(g.l, Exec(g, mem, pass, slice, a), c) == Read(g.l, Exec(g, mem, pass, slice, b), c)
    {
      assert Merged(g, mem, pass, slice, a, c) && Merged(g, mem, pass, slice, b, c);
    }
    SameMemory(g.l, Exec(g, mem, pass, slice, a), Exec(g, mem, pass, slice, b));
  }

  /** Lane after lane, as the loop of `derive_key` goes. */
  function SliceFill(g: Job, mem: seq<Block>, pass: nat, slice: nat, lanes: nat): (mem': seq<Block>)
    requires MemOk(g.l, mem) && slice < SLICES && lanes <= g.l.lanes
    ensures MemOk(g.l, mem')
  {
    if lanes == 0 then mem
    else LaneFill(g, SliceFill(g, mem, pass, slice, lanes - 1), pass, slice, lanes - 1, g.l.segment)
  }

  function Repeat(lane: nat, n: nat): (r: seq<nat>)
    ensures |r| == n && forall k | 0 <= k < n :: r[k] == lane
  {
    seq(n, i => lane)
  }

  /** The order of the loops: each lane to the end, one after the other. */
  function InTurn(l: Layout, pass: nat, slice: nat, lanes: nat): seq<nat>
    requires LayoutOk(l)
  {
    if lanes == 0 then []
    else InTurn(l, pass, slice, lanes - 1) + Repeat(lanes - 1, l.segment - Start(pass, slice))
  }

  lemma {:induction false} CountRepeat(order: seq<nat>, lane: nat, n: nat, other: nat)
    ensures Count(order + Repeat(lane, n), other) == Count(order, other) + if lane == other then n else 0
    decreases n
  {
    if n == 0 {
      assert order + Repeat(lane, n) == order;
    } else {
      CountRepeat(order, lane, n - 1, other);
      assert Front(order + Repeat(lane, n)) == order + Repeat(lane, n - 1);
    }
  }

  lemma {:induction false} CountInTurn(l: Layout, pass: nat, slice: nat, lanes: nat, lane: nat)
    requires LayoutOk(l)
    ensures Count(InTurn(l, pass, slice, lanes), lane) == if lane < lanes then l.segment - Start(pass, slice) else 0
    ensures forall k | 0 <= k < |InTurn(l, pass, slice, lanes)| :: InTurn(l, pass, slice, lanes)[k] < lanes
  {
    if lanes > 0 {
      CountInTurn(l, pass, slice, lanes - 1, lane);
      CountRepeat(InTurn(l, pass, slice, lanes - 1), lanes - 1, l.segment - Start(pass, slice), lane);
    }
  }

  lemma InTurnSchedule(l: Layout, pass: nat, slice: nat, lanes: nat, n: nat)
    requires LayoutOk(l) && lanes < l.lanes && n <= l.segment - Start(pass, slice)
    ensures Schedule(l, pass, slice, InTurn(l, pass, slice, lanes) + Repeat(lanes, n))
  {
    hide InTurn, Count;
    var order := InTurn(l, pass, slice, lanes) + Repeat(lanes, n);
    CountInTurn(l, pass, slice, lanes, 0);
    forall lane | 0 <= lane < l.lanes
      ensures Start(pass, slice) + Count(order, lane) <= l.segment
    {
      CountInTurn(l, pass, slice, lanes, lane);
      CountRepeat(InTurn(l, pass, slice, lanes), lanes, n, lane);
    }
  }

  /** The rest of a lane, turn by turn. */
  lemma {:induction false} LaneIsTurns(g: Job, mem: seq<Block>, pass: nat, slice: nat, lanes: nat, n: nat)
    requires MemOk(g.l, mem) && slice < SLICES && lanes < g.l.lanes && n <= g.l.segment - Start(pass, slice)
    requires Schedule(g.l, pass, slice, InTurn(g.l, pass, slice, lanes))
    requires Schedule(g.l, pass, slice, InTurn(g.l, pass, slice, lanes) + Repeat(lanes, n))
    ensures Exec(g, mem, pass, slice, InTurn(g.l, pass, slice, lanes) + Repeat(lanes, n))
         == LaneFill(g, Exec(g, mem, pass, slice, InTurn(g.l, pass, slice, lanes)), pass, slice, lanes,
                     Start(pass, slice) + n)
  {
    hide InTurn, Count, FillStep, Schedule;
    var done := InTurn(g.l, pass, slice, lanes);
    if n == 0 {
      assert done + Repeat(lanes, n) == done;
    } else {
      var order := done + Repeat(lanes, n);
      assert Front(order) == done + Repeat(lanes, n - 1);
      InTurnSchedule(g.l, pass, slice, lanes, n - 1);
      LaneIsTurns(g, mem, pass, slice, lanes, n - 1);
      CountRepeat(done, lanes, n - 1, lanes);
      CountInTurn(g.l, pass, slice, lanes, lanes);
    }
  }

  lemma {:induction false} SliceIsTurns(g: Job, mem: seq<Block>, pass: nat, slice: nat, lanes: nat)
    requires MemOk(g.l, mem) && slice < SLICES && lanes <= g.l.lanes
    ensures Schedule(g.l, pass, slice, InTurn(g.l, pass, slice, lanes))
    ensures SliceFill(g, mem, pass, slice, lanes) == Exec(g, mem, pass, slice, InTurn(g.l, pass, slice, lanes))
  {
    hide Count, FillStep, Schedule, LaneFill, MemOk;
    MemIsOk(g.l, mem);
    if lanes == 0 {
      NoTurns(g.l, pass, slice);
    } else {
      SliceIsTurns(g, mem, pass, slice, lanes - 1);
      var n := g.l.segment - Start(pass, slice);
      InTurnSchedule(g.l, pass, slice, lanes - 1, n);
      LaneIsTurns(g, mem, pass, slice, lanes - 1, n);
    }
  }

  lemma MemIsOk(l: Layout, mem: seq<Block>)
    requires MemOk(l, mem)
    ensures LayoutOk(l)
  {
  }

  lemma NoTurns(l: Layout, pass: nat, slice: nat)
    requires LayoutOk(l)
    ensures Schedule(l, pass, slice, InTurn(l, pass, slice, 0))
  {
  }

  /** Every lane to the end of its segment. */
  predicate Complete(l: Layout, pass: nat, slice: nat, order: seq<nat>) {
    && (forall k | 0 <= k < |order| :: order[k] < l.lanes)
    && (forall lane | 0 <= lane < l.lanes :: Start(pass, slice) + Count(order, lane) == l.segment)
  }

  /** However the lanes of a slice interleave, block by block, the memory is
      the one the loops leave. */
  lemma LanesCommute(g: Job, mem: seq<Block>, pass: nat, slice: nat, order: seq<nat>)
    requires MemOk(g.l, mem) && slice < SLICES && Complete(g.l, pass, slice, order)
    ensures Schedule(g.l, pass, slice, order)
    ensures Exec(g, mem, pass, slice, order) == SliceFill(g, mem, pass, slice, g.l.lanes)
  {
    hide Count, Exec, SliceFill, InTurn;
    SliceIsTurns(g, mem, pass, slice, g.l.lanes);
    forall lane | 0 <= lane < g.l.lanes
      ensures Count(order, lane) == Count(InTurn(g.l, pass, slice, g.l.lanes), lane)
    {
      CountInTurn(g.l, pass, slice, g.l.lanes, lane);
    }
    AnyOrder(g, mem, pass, slice, order, InTurn(g.l, pass, slice, g.l.lanes));
  }

  // ------------------------------------------------------------------
  // All passes
  // ------------------------------------------------------------------

  /** The first `n` slices, counted through the passes. */
  function Filled(g: Job, mem: seq<Block>, n: nat): (mem': seq<Block>)
    requires MemOk(g.l, mem)
    ensures MemOk(g.l, mem')
  {
    if n == 0 then mem
    else SliceFill(g, Filled(g, mem, n - 1), (n - 1) / SLICES, (n - 1) % SLICES, g.l.lanes)
  }

  /** The same with the lanes of each slice in an order of its own. */
  function Scheduled(g: Job, mem: seq<Block>, orders: seq<seq<nat>>): (mem': seq<Block>)
    requires MemOk(g.l, mem)
    requires forall n | 0 <= n < |orders| :: Complete(g.l, n / SLICES, n % SLICES, orders[n])
    ensures MemOk(g.l, mem')
  {
    if orders == [] then mem
    else
      var n := |orders| - 1;
      var before := Scheduled(g, mem, orders[..n]);
      LanesCommute(g, before, n / SLICES, n % SLICES, orders[n]);
      Exec(g, before, n / SLICES, n % SLICES, orders[n])
  }

  /** Any order of the lanes, in every slice of every pass, gives the memory of
      the loops. */
  lemma {:induction false} ParallelIsSequential(g: Job, mem: seq<Block>, orders: seq<seq<nat>>)
    requires MemOk(g.l, mem)
    requires forall n | 0 <= n < |orders| :: Complete(g.l, n / SLICES, n % SLICES, orders[n])
    ensures Scheduled(g, mem, orders) == Filled(g, mem, |orders|)
  {
    hide Exec, SliceFill, Complete, MemOk;
    if orders != [] {
      var n := |orders| - 1;
      ParallelIsSequential(g, mem, orders[..n]);
      LanesCommute(g, Scheduled(g, mem, orders[..n]), n / SLICES, n % SLICES, orders[n]);
    }
  }

  /** The loops of `derive_key` over passes, slices and lanes. */
  method FillMemory(g: Job, memory: array<Block>, passes: nat)
    requires MemOk(g.l, memory[..])
    modifies memory
    ensures MemOk(g.l, memory[..]) && memory[..] == Filled(g, old(memory[..]), passes * SLICES)
  {
    hide MemOk, LaneFill;
    for pass := 0 to passes
      invariant MemOk(g.l, memory[..]) && memory[..] == Filled(g, old(memory[..]), pass * SLICES)
    {
      for slice := 0 to SLICES
        invariant MemOk(g.l, memory[..]) && memory[..] == Filled(g, old(memory[..]), pass * SLICES + slice)
      {
        ghost var before := memory[..];
        for lane := 0 to g.l.lanes
          invariant MemOk(g.l, memory[..]) && memory[..] == SliceFill(g, before, pass, slice, lane)
        {
          FillSegment(g, memory, pass, slice, lane);
        }
        assert (pass * SLICES + slice) / SLICES == pass && (pass * SLICES + slice) % SLICES == slice;
      }
    }
  }

  // ------------------------------------------------------------------
  // The variable-length hash
  // ------------------------------------------------------------------

  type Bytes = seq<nat>

  /** A hash that gives the length asked of it, from 1 to 64. */
  ghost predicate HashOk(blake: (nat, Bytes) -> Bytes) {
    forall n, x | 1 <= n <= 64 :: |blake(n, x)| == n
  }

  /** The n-th link of the chain of 64-byte hashes. */
  ghost function Link(blake: (nat, Bytes) -> Bytes, input: Bytes, n: nat): Bytes {
    if n == 0 then blake(64, input) else blake(64, Link(blake, input, n - 1))
  }

  /** The first half of each of the first `n` links. */
  ghost function Halves(blake: (nat, Bytes) -> Bytes, input: Bytes, n: nat): Bytes
    requires HashOk(blake)
  {
    if n == 0 then [] else Halves(blake, input, n - 1) + HalfLink(blake, input, n - 1)
  }

  ghost function HalfLink(blake: (nat, Bytes) -> Bytes, input: Bytes, n: nat): (half: Bytes)
    requires HashOk(blake)
    ensures |half| == 32
  {
    LinkLength(blake, input, n);
    Link(blake, input, n)[..32]
  }

  lemma LinkLength(blake: (nat, Bytes) -> Bytes, input: Bytes, n: nat)
    requires HashOk(blake)
    ensures |Link(blake, input, n)| == 64
  {
  }

  /** Any output length: exactly `len` bytes, every hash asked for one of its
      own lengths. */
  method HPrime(blake: (nat, Bytes) -> Bytes, len: nat, input: Bytes) returns (out: Bytes)
    requires HashOk(blake) && len >= 1
    ensures |out| == len
    ensures len <= 64 ==> out == blake(len, input)
    ensures len > 64 ==>
              var r := (len + 31) / 32 - 2;
              && 32 < len - 32 * r <= 64
              && out == Halves(blake, input, r) + blake(len - 32 * r, Link(blake, input, r - 1))
  {
    if len <= 64 { return blake(len, input); }
    var r := (len + 31) / 32 - 2;
    var v := blake(64, input);
    out := v[..32];
    assert Halves(blake, input, 1) == Halves(blake, input, 0) + HalfLink(blake, input, 0);
    for k := 1 to r
      invariant v == Link(blake, input, k - 1) && |v| == 64
      invariant out == Halves(blake, input, k) && |out| == 32 * k
    {
      v := blake(64, v);
      out := out + v[..32];
    }
    out := out + blake(len - 32 * r, v);
  }
}
