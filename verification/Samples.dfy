/** Rules that meet `Ledger.RulesOk`, and chains to build with them: what the
    cases where the code does not do what it means to are shown on. */
module Samples {
  import opened Prelude
  import opened Ledger
  import opened Validation
  import opened History
  import opened Index
  import opened ChainState
  import Emission

  // ------------------------------------------------------------------
  // Numbering: every list of numbers is a number
  // ------------------------------------------------------------------

  function Code(s: seq<nat>): nat
    decreases |s|, if s == [] then 0 else s[0]
  {
    if s == [] then 0
    else if s[0] == 0 then 2 * Code(s[1..]) + 1
    else 2 * Code([s[0] - 1] + s[1..])
  }

  function Decode(n: nat): (s: seq<nat>)
    ensures n > 0 ==> |s| > 0
  {
    if n == 0 then []
    else if n % 2 == 1 then [0] + Decode(n / 2)
    else
      var s := Decode(n / 2);
      [s[0] + 1] + s[1..]
  }

  lemma {:induction false} CodePositive(s: seq<nat>)
    requires s != []
    ensures Code(s) > 0
    decreases s[0]
  {
    if s[0] > 0 { CodePositive([s[0] - 1] + s[1..]); }
  }

  lemma {:induction false} Decoded(s: seq<nat>)
    ensures Decode(Code(s)) == s
    decreases |s|, if s == [] then 0 else s[0]
  {
    if s != [] {
      CodePositive(s);
      if s[0] == 0 {
        Decoded(s[1..]);
        assert Code(s) / 2 == Code(s[1..]);
      } else {
        var lower := [s[0] - 1] + s[1..];
        Decoded(lower);
        CodePositive(lower);
        assert Code(s) / 2 == Code(lower);
      }
    }
  }

  function CodeAll<T>(code: T -> nat, s: seq<T>): nat {
    Code(seq(|s|, i requires 0 <= i < |s| => code(s[i])))
  }

  function DecodeAll<T>(decode: nat -> T, n: nat): seq<T> {
    var s := Decode(n);
    seq(|s|, i requires 0 <= i < |s| => decode(s[i]))
  }

  lemma DecodedAll<T(!new)>(code: T -> nat, decode: nat -> T, s: seq<T>)
    requires forall x :: decode(code(x)) == x
    ensures DecodeAll(decode, CodeAll(code, s)) == s
  {
    hide Code, Decode;
    var codes := seq(|s|, i requires 0 <= i < |s| => code(s[i]));
    Decoded(codes);
    assert DecodeAll(decode, CodeAll(code, s)) == seq(|codes|, i requires 0 <= i < |codes| => decode(codes[i]));
  }

  function OutputCode(o: Output): nat { Code([o.value, o.lock]) }

  function OutputOf(n: nat): Output {
    var s := Decode(n);
    if |s| == 2 then Output(s[0], s[1]) else Output(0, 0)
  }

  function PointCode(p: OutPoint): nat { Code([p.txid, p.index]) }

  function PointOf(n: nat): OutPoint {
    var s := Decode(n);
    if |s| == 2 then OutPoint(s[0], s[1]) else OutPoint(0, 0)
  }

  function HeaderCode(h: Header): nat {
    Code([h.prev, h.merkleRoot, h.unclesRoot, h.miner, h.time, h.bits, h.height, h.nonce])
  }

  function HeaderOf(n: nat): Header {
    var s := Decode(n);
    if |s| == 8 then Header(s[0], s[1], s[2], s[3], s[4], s[5], s[6], s[7]) else Header(0, 0, 0, 0, 0, 0, 0, 0)
  }

  function TxCode(t: Tx): nat {
    match t
    case Coinbase(data, outputs) => Code([Code(data), CodeAll(OutputCode, outputs)])
    case Spend(inputs, outputs, unlock) =>
      Code([CodeAll(PointCode, inputs), CodeAll(OutputCode, outputs), Code(unlock)])
  }

  function TxOf(n: nat): Tx {
    var s := Decode(n);
    if |s| == 3 then Spend(DecodeAll(PointOf, s[0]), DecodeAll(OutputOf, s[1]), Decode(s[2]))
    else if |s| == 2 then Coinbase(Decode(s[0]), DecodeAll(OutputOf, s[1]))
    else Coinbase([], [])
  }

  lemma OutputBack(o: Output)
    ensures OutputOf(OutputCode(o)) == o
  {
    hide Code, Decode;
    Decoded([o.value, o.lock]);
  }

  lemma PointBack(p: OutPoint)
    ensures PointOf(PointCode(p)) == p
  {
    hide Code, Decode;
    Decoded([p.txid, p.index]);
  }

  lemma HeaderBack(h: Header)
    ensures HeaderOf(HeaderCode(h)) == h
  {
    hide Code, Decode;
    Decoded([h.prev, h.merkleRoot, h.unclesRoot, h.miner, h.time, h.bits, h.height, h.nonce]);
  }

  lemma OutputsBack(outputs: seq<Output>)
    ensures DecodeAll(OutputOf, CodeAll(OutputCode, outputs)) == outputs
  {
    hide OutputOf, OutputCode, DecodeAll, CodeAll;
    forall o
      ensures OutputOf(OutputCode(o)) == o
    {
      OutputBack(o);
    }
    DecodedAll(OutputCode, OutputOf, outputs);
  }

  lemma PointsBack(points: seq<OutPoint>)
    ensures DecodeAll(PointOf, CodeAll(PointCode, points)) == points
  {
    hide PointOf, PointCode, DecodeAll, CodeAll;
    forall p
      ensures PointOf(PointCode(p)) == p
    {
      PointBack(p);
    }
    DecodedAll(PointCode, PointOf, points);
  }

  lemma TxBack(t: Tx)
    ensures TxOf(TxCode(t)) == t
  {
    hide Code, Decode, CodeAll, DecodeAll;
    match t {
      case Coinbase(data, outputs) =>
        Decoded([Code(data), CodeAll(OutputCode, outputs)]);
        Decoded(data);
        OutputsBack(outputs);
      case Spend(inputs, outputs, unlock) =>
        Decoded([CodeAll(PointCode, inputs), CodeAll(OutputCode, outputs), Code(unlock)]);
        Decoded(unlock);
        PointsBack(inputs);
        OutputsBack(outputs);
    }
  }

  function TxsCode(txs: seq<Tx>): nat { CodeAll(TxCode, txs) }
  function TxsOf(n: nat): seq<Tx> { DecodeAll(TxOf, n) }
  function HeadersCode(hs: seq<Header>): nat { CodeAll(HeaderCode, hs) }
  function HeadersOf(n: nat): seq<Header> { DecodeAll(HeaderOf, n) }

  lemma TxsBack(txs: seq<Tx>)
    ensures TxsOf(TxsCode(txs)) == txs
  {
    hide TxOf, TxCode, DecodeAll, CodeAll;
    forall t
      ensures TxOf(TxCode(t)) == t
    {
      TxBack(t);
    }
    DecodedAll(TxCode, TxOf, txs);
  }

  lemma HeadersBack(hs: seq<Header>)
    ensures HeadersOf(HeadersCode(hs)) == hs
  {
    hide HeaderOf, HeaderCode, DecodeAll, CodeAll;
    forall h
      ensures HeaderOf(HeaderCode(h)) == h
    {
      HeaderBack(h);
    }
    DecodedAll(HeaderCode, HeaderOf, hs);
  }

  // ------------------------------------------------------------------
  // The rules
  // ------------------------------------------------------------------

  const HARD_BITS: nat := 0x1f00_ffff
  const EASY_WORK: nat := 50
  const HARD_WORK: nat := 63

  /** A block found within a minute of its parent. */
  const QUICK: nat := 60

  function GenesisTxs(): seq<Tx> { [Coinbase([], [Output(Emission.GENESIS_PREMINT, 0)])] }

  function GenesisWith(bits: nat, nonce: nat): Block {
    Block(Header(0, TxsCode(GenesisTxs()), HeadersCode([]), 0, 0, bits, 0, nonce), GenesisTxs(), [])
  }

  function SampleGenesis(): Block { GenesisWith(INITIAL_BITS, 0) }

  function Latest(times: seq<nat>): nat {
    if times == [] then 0 else Max(Latest(times[1..]), times[0])
  }

  /** Numberings for hashes, any nonce a proof of work, and dates after every
      recent one: stricter than after their median. */
  function Numbered(genesis: Block, regtest: bool, nextBits: seq<Header> -> nat, work: nat -> nat): Rules {
    Rules(genesis,
          (h: Header) => HeaderCode(h) + 1,
          (t: Tx) => TxCode(Core(t)),
          TxsCode,
          HeadersCode,
          (b: Block) => 1,
          (h: Header) => true,
          regtest,
          nextBits,
          work,
          Latest,
          0,
          map[],
          0,
          (t: Tx, v: View, height: nat) => true,
          (b: Block, height: nat) => true,
          Preimages((n: Id) => if n == 0 then HeaderOf(0) else HeaderOf(n - 1), TxOf, TxsOf, HeadersOf))
  }

  /** After a block found quickly a block is hard, otherwise easy. */
  function SampleBits(headers: seq<Header>): nat {
    if |headers| >= 2 && Last(headers).time < headers[|headers| - 2].time + QUICK then HARD_BITS else INITIAL_BITS
  }

  function Sample(regtest: bool): Rules {
    Numbered(SampleGenesis(), regtest, SampleBits, (bits: nat) => if bits == HARD_BITS then HARD_WORK else EASY_WORK)
  }

  function Clip(x: nat, lo: nat, hi: nat): nat { if x < lo then lo else if x > hi then hi else x }

  /** Any difficulty from `lo` to `hi`: a block's nonce says what its children carry. */
  function Free(lo: nat, hi: nat): Rules {
    Numbered(GenesisWith(lo, lo), false,
             (headers: seq<Header>) => if headers == [] then lo else Clip(Last(headers).nonce, lo, hi),
             (bits: nat) => Clip(bits, lo, hi))
  }

  /** The rules can be met, whatever the difficulty. */
  lemma NumberedOk(bits: nat, nonce: nat, regtest: bool, nextBits: seq<Header> -> nat, work: nat -> nat)
    ensures RulesOk(Numbered(GenesisWith(bits, nonce), regtest, nextBits, work))
  {
    hide HeaderCode, HeaderOf, TxCode, TxOf, TxsCode, TxsOf, HeadersCode, HeadersOf, Latest;
    var r := Numbered(GenesisWith(bits, nonce), regtest, nextBits, work);
    forall t
      ensures r.preimage.core(r.txid(t)) == Core(t)
    {
      TxBack(Core(t));
    }
    forall h
      ensures r.preimage.header(r.blockId(h)) == h
    {
      HeaderBack(h);
    }
    forall txs
      ensures r.preimage.txs(r.merkle(txs)) == txs
    {
      TxsBack(txs);
    }
    forall hs
      ensures r.preimage.uncles(r.unclesRoot(hs)) == hs
    {
      HeadersBack(hs);
    }
    NumberedGenesis(bits, nonce, regtest, nextBits, work);
  }

  lemma NumberedGenesis(bits: nat, nonce: nat, regtest: bool, nextBits: seq<Header> -> nat, work: nat -> nat)
    ensures GenesisOk(Numbered(GenesisWith(bits, nonce), regtest, nextBits, work))
  {
    hide HeaderCode, HeaderOf, TxCode, TxOf, TxsCode, TxsOf, HeadersCode, HeadersOf, Latest, LeValue;
    var r := Numbered(GenesisWith(bits, nonce), regtest, nextBits, work);
    var t := Coinbase([], [Output(Emission.GENESIS_PREMINT, 0)]);
    assert r.genesis.txs == [t];
    assert t.outputs[1..] == [];
    assert OutputSum(t.outputs) == Emission.GENESIS_PREMINT + OutputSum([]);
  }

  // ------------------------------------------------------------------
  // Chains of empty blocks
  // ------------------------------------------------------------------

  /** Rules under which an empty block in its place is acceptable as soon as it
      is dated after the others. */
  ghost predicate Plain(r: Rules) {
    && RulesOk(r) && r.anchors == map[]
    && (forall b :: r.size(b) <= MAX_BLOCK_SIZE)
    && (forall h :: r.powOk(h))
    && (forall b, height :: r.coinbaseOk(b, height))
    && (forall times :: r.median(times) <= Latest(times))
  }

  lemma NumberedPlain(bits: nat, nonce: nat, regtest: bool, nextBits: seq<Header> -> nat, work: nat -> nat)
    ensures Plain(Numbered(GenesisWith(bits, nonce), regtest, nextBits, work))
  {
    hide HeaderCode, HeaderOf, TxCode, TxOf, TxsCode, TxsOf, HeadersCode, HeadersOf, Latest, RulesOk, GenesisWith;
    NumberedOk(bits, nonce, regtest, nextBits, work);
  }

  lemma SamplePlain(regtest: bool)
    ensures Plain(Sample(regtest))
  {
    hide Numbered, GenesisWith, Plain;
    NumberedPlain(INITIAL_BITS, 0, regtest, SampleBits,
                  (bits: nat) => if bits == HARD_BITS then HARD_WORK else EASY_WORK);
  }

  /** A number in little-endian bytes. */
  function Le(x: nat, n: nat): (s: seq<nat>)
    ensures |s| == n
  {
    if n == 0 then [] else [x % 256] + Le(x / 256, n - 1)
  }

  function Power256(n: nat): nat { if n == 0 then 1 else 256 * Power256(n - 1) }

  lemma {:induction false} LeBack(x: nat, n: nat)
    requires x < Power256(n)
    ensures LeValue(Le(x, n)) == x
  {
    if n > 0 { LeBack(x / 256, n - 1); }
  }

  /** The block after `hist` with nothing but its coinbase. */
  function Mint(r: Rules, hist: seq<Block>, time: nat, value: nat): Block
    requires |hist| > 0
  {
    var txs := [Coinbase(Le(|hist|, 8), [Output(value, 0)])];
    var bits := ExpectedBits(r, Headers(hist));
    Block(Header(r.blockId(Last(hist).header), r.merkle(txs), r.unclesRoot([]), 0, time, bits, |hist|, 0), txs, [])
  }

  /** Every block is dated before `time`. */
  ghost predicate Before(hist: seq<Block>, time: nat) {
    forall i | 0 <= i < |hist| :: hist[i].header.time < time
  }

  lemma {:induction false} LatestBelow(times: seq<nat>, time: nat)
    requires times != [] && forall i | 0 <= i < |times| :: times[i] < time
    ensures Latest(times) < time
  {
    if |times| > 1 { LatestBelow(times[1..], time); }
  }

  lemma MintHeader(r: Rules, hist: seq<Block>, time: nat, value: nat)
    requires Plain(r) && |hist| > 0 && Before(hist, time)
    ensures HeaderFault(r, ContextAt(r, Headers(hist)), Mint(r, hist, time, value).header).None?
  {
    hide RulesOk, ExpectedBits, Le, RecentTimes;
    RecentBelow(hist, time);
    assert r.median(RecentTimes(Headers(hist))) <= Latest(RecentTimes(Headers(hist)));
  }

  lemma RecentBelow(hist: seq<Block>, time: nat)
    requires |hist| > 0 && Before(hist, time)
    ensures RecentTimes(Headers(hist)) != [] && Latest(RecentTimes(Headers(hist))) < time
    ensures |Headers(hist)| == |hist| && Last(Headers(hist)) == Last(hist).header
  {
    var times := RecentTimes(Headers(hist));
    var recent := Suffix(Headers(hist), MEDIAN_TIME_SPAN);
    forall i | 0 <= i < |times|
      ensures times[i] < time
    {
      assert recent[i] == Headers(hist)[|hist| - |recent| + i];
    }
    LatestBelow(times, time);
  }

  lemma MintShape(r: Rules, hist: seq<Block>, time: nat, value: nat)
    requires |hist| > 0 && value <= Emission.MAX_SUPPLY
    ensures ShapeOk(r, Mint(r, hist, time, value))
  {
    hide ExpectedBits, Le;
    var b := Mint(r, hist, time, value);
    OneOutput(value);
    assert b.txs == [b.txs[0]];
  }

  lemma OneOutput(value: nat)
    ensures OutputSum([Output(value, 0)]) == value
  {
    assert [Output(value, 0)][1..] == [];
  }

  lemma MintMarker(r: Rules, hist: seq<Block>, time: nat, value: nat)
    requires 0 < |hist| < HEIGHT_LIMIT
    ensures HasMarker(Mint(r, hist, time, value).txs[0], |hist|)
  {
    hide ExpectedBits, Le, LeValue;
    assert Power256(8) == 0x1_0000_0000_0000_0000;
    LeBack(|hist|, 8);
    var data := Le(|hist|, 8);
    assert data[..8] == data;
  }

  lemma NoTxs(r: Rules, v: View, height: nat)
    ensures CheckTxs(r, v, [], height, {}, 0) == Ok(0)
  {
  }

  /** A block that takes nothing passes, one that takes everything does not. */
  lemma MintBody(r: Rules, hist: seq<Block>, time: nat, value: nat)
    requires Plain(r) && ValidHistory(r, hist) && 0 < |hist| < HEIGHT_LIMIT
    ensures value == 0 ==> CheckBody(r, Replay(r, hist), Mint(r, hist, time, value), |hist|) == Ok(0)
    ensures value == Emission.MAX_SUPPLY ==>
              CheckBody(r, Replay(r, hist), Mint(r, hist, time, value), |hist|) == Err(ExcessiveSubsidy)
  {
    hide RulesOk, ValidHistory, Replay, Le, HasMarker, CheckTxs, Unique, Total, Emission.Cumulative, Emission.Subsidy,
         ExpectedBits;
    var b := Mint(r, hist, time, value);
    LedgerSound(r, hist);
    MintMarker(r, hist, time, value);
    OneOutput(value);
    assert b.txs[1..] == [];
    NoTxs(r, StartView(Replay(r, hist).utxo), |hist|);
    SubsidyRange(|hist|);
  }

  lemma SubsidyRange(height: nat)
    ensures Emission.Subsidy(height) < Emission.MAX_SUPPLY
  {
  }

  lemma MintVerdict(r: Rules, hist: seq<Block>, time: nat, value: nat, now: nat)
    requires Plain(r) && ValidHistory(r, hist) && 0 < |hist| < HEIGHT_LIMIT && Before(hist, time)
    ensures value == 0 ==> ValidHistory(r, hist + [Mint(r, hist, time, value)])
    ensures value == Emission.MAX_SUPPLY && time <= now + MAX_FUTURE_TIME ==>
              Verdict(r, hist, Mint(r, hist, time, value), now) == Err(ExcessiveSubsidy)
  {
    hide RulesOk, ValidHistory, Replay, ShapeOk, CheckBody, Headers, ContextAt, Mint, HeaderFault;
    var b := Mint(r, hist, time, value);
    MintFields(r, hist, time, value);
    HeadersCount(r, hist);
    MintHeader(r, hist, time, value);
    MintBody(r, hist, time, value);
    if value <= Emission.MAX_SUPPLY { MintShape(r, hist, time, value); }
    ExtendHistory(r, hist, b);
  }

  lemma HeadersCount(r: Rules, hist: seq<Block>)
    requires |hist| > 0
    ensures |Headers(hist)| == |hist| && ContextAt(r, Headers(hist)).height == |hist|
  {
  }

  lemma MintFields(r: Rules, hist: seq<Block>, time: nat, value: nat)
    requires |hist| > 0
    ensures var h := Mint(r, hist, time, value).header;
            && h.time == time && h.height == |hist| && h.prev == r.blockId(Last(hist).header)
            && h.bits == ExpectedBits(r, Headers(hist))
  {
  }

  /** The date of block `k` of blocks dated every `step` seconds. */
  function Date(start: nat, step: nat, k: nat): nat { start + k * step }

  lemma DateStep(start: nat, step: nat, k: nat)
    ensures Date(start, step, 0) == start && Date(start, step, k + 1) == Date(start, step, k) + step
  {
    Distribute(k, 1, step);
  }

  /** `n` empty blocks on top of `hist`, the first at `start`, then every `step`. */
  function Grown(r: Rules, hist: seq<Block>, start: nat, step: nat, n: nat): (all: seq<Block>)
    requires |hist| > 0
    ensures |all| == |hist| + n
  {
    if n == 0 then hist
    else
      var below := Grown(r, hist, start, step, n - 1);
      below + [Mint(r, below, Date(start, step, n - 1), 0)]
  }

  lemma GrownNext(r: Rules, hist: seq<Block>, start: nat, step: nat, n: nat)
    requires |hist| > 0
    ensures if n == 0 then Grown(r, hist, start, step, n) == hist
            else
              var below := Grown(r, hist, start, step, n - 1);
              Grown(r, hist, start, step, n) == below + [Mint(r, below, Date(start, step, n - 1), 0)]
  {
    hide Mint, Date;
  }

  lemma {:induction false} GrownValid(r: Rules, hist: seq<Block>, start: nat, step: nat, n: nat)
    requires Plain(r) && ValidHistory(r, hist) && |hist| > 0 && |hist| + n < HEIGHT_LIMIT && Before(hist, start)
    requires step > 0
    ensures ValidHistory(r, Grown(r, hist, start, step, n))
    ensures Before(Grown(r, hist, start, step, n), Date(start, step, n))
    ensures Grown(r, hist, start, step, n)[..|hist|] == hist
    ensures forall k | |hist| <= k < |hist| + n ::
            Grown(r, hist, start, step, n)[k].header.time == Date(start, step, k - |hist|)
  {
    hide Plain, ValidHistory, Mint, Date, Before, Grown;
    DateStep(start, step, 0);
    GrownNext(r, hist, start, step, n);
    if n > 0 {
      GrownValid(r, hist, start, step, n - 1);
      var below := Grown(r, hist, start, step, n - 1);
      var time := Date(start, step, n - 1);
      DateStep(start, step, n - 1);
      MintFields(r, below, time, 0);
      MintVerdict(r, below, time, 0, time);
      BeforeSnoc(below, Mint(r, below, time, 0), time, step);
    }
  }

  lemma BeforeSnoc(hist: seq<Block>, b: Block, time: nat, step: nat)
    requires Before(hist, time) && b.header.time == time && step > 0
    ensures Before(hist + [b], time + step)
  {
  }

  // ------------------------------------------------------------------
  // Work and disk
  // ------------------------------------------------------------------

  lemma SampleWork(regtest: bool)
    ensures Sample(regtest).work(INITIAL_BITS) == EASY_WORK && Sample(regtest).work(HARD_BITS) == HARD_WORK
    ensures forall bits :: EASY_WORK <= Sample(regtest).work(bits) <= HARD_WORK
    ensures Sample(regtest).genesis == SampleGenesis() && Sample(regtest).regtest == regtest
    ensures Sample(regtest).lastAnchor == 0
    ensures forall b :: Sample(regtest).size(b) == 1
  {
    hide SampleGenesis, HeaderCode, HeaderOf, TxCode, TxOf, TxsCode, TxsOf, HeadersCode, HeadersOf, Latest, SampleBits;
  }

  /** Easy blocks count the same. */
  lemma {:induction false} EasyWork(regtest: bool, hist: seq<Block>)
    requires 0 < |hist| <= HEIGHT_LIMIT && forall i | 0 <= i < |hist| :: hist[i].header.bits == INITIAL_BITS
    ensures WorkOf(Sample(regtest), hist) == EASY_WORK * |hist|
  {
    hide Sample;
    SampleWork(regtest);
    if |hist| > 1 { EasyWork(regtest, Front(hist)); }
  }

  lemma GenesisValid(r: Rules)
    ensures ValidHistory(r, [r.genesis])
  {
  }

  /** These blocks under their ids. */
  function Shelf(r: Rules, blocks: seq<Block>): map<Id, Block> {
    if blocks == [] then map[] else Shelf(r, Front(blocks))[r.blockId(Last(blocks).header) := Last(blocks)]
  }

  lemma {:induction false} ShelfOk(r: Rules, blocks: seq<Block>)
    requires forall i | 0 <= i < |blocks| :: ShapeOk(r, blocks[i])
    ensures forall id | id in Shelf(r, blocks) ::
            r.blockId(Shelf(r, blocks)[id].header) == id && ShapeOk(r, Shelf(r, blocks)[id])
    ensures forall i | 0 <= i < |blocks| :: r.blockId(blocks[i].header) in Shelf(r, blocks)
  {
    hide ShapeOk;
    if blocks != [] {
      ShelfOk(r, Front(blocks));
      forall i | 0 <= i < |blocks|
        ensures r.blockId(blocks[i].header) in Shelf(r, blocks)
      {
        if i < |blocks| - 1 { assert blocks[i] == Front(blocks)[i]; }
      }
    }
  }

  lemma ValidShapes(r: Rules, hist: seq<Block>)
    requires RulesOk(r) && ValidHistory(r, hist)
    ensures forall i | 0 <= i < |hist| :: ShapeOk(r, hist[i])
  {
    hide RulesOk, ShapeOk, ValidHistory, Acceptable, Headers, Replay;
    GenesisRules(r);
    forall i | 0 <= i < |hist|
      ensures ShapeOk(r, hist[i])
    {
      HistoryLinks(r, hist, i);
    }
  }

  // ------------------------------------------------------------------
  // Easy and hard blocks
  // ------------------------------------------------------------------

  /** The difficulty of a block depends on how quickly the one before came. */
  lemma BitsAt(r: Rules, hist: seq<Block>, k: nat)
    requires r == Sample(false) && RulesOk(r) && ValidHistory(r, hist) && 0 < k < |hist|
    ensures hist[k].header.bits ==
            if k >= 2 && hist[k - 1].header.time < hist[k - 2].header.time + QUICK then HARD_BITS else INITIAL_BITS
  {
    hide RulesOk, ValidHistory, Acceptable, ShapeOk, Replay;
    GenesisRules(r);
    HistoryLinks(r, hist, k);
    AcceptedBits(r, hist[..k], Replay(r, hist[..k]), hist[k]);
    SampleExpected(r, hist[..k]);
  }

  lemma SampleExpected(r: Rules, hist: seq<Block>)
    requires r == Sample(false) && |hist| > 0
    ensures var n := |hist|;
            ExpectedBits(r, Headers(hist)) ==
            if n >= 2 && hist[n - 1].header.time < hist[n - 2].header.time + QUICK then HARD_BITS else INITIAL_BITS
  {
    hide SampleGenesis, HeaderCode, HeaderOf, TxCode, TxOf, TxsCode, TxsOf, HeadersCode, HeadersOf, Latest;
    var hs := Suffix(Headers(hist), LWMA_WINDOW + 1);
    assert Last(hs) == Last(Headers(hist)) == hist[|hist| - 1].header;
    if |hist| >= 2 { assert hs[|hs| - 2] == Headers(hist)[|hist| - 2] == hist[|hist| - 2].header; }
  }

  /** Every block below the last comes a minute or more after its parent. */
  ghost predicate Slow(hist: seq<Block>) {
    forall k | 0 < k < |hist| - 1 :: hist[k].header.time >= hist[k - 1].header.time + QUICK
  }

  lemma SlowEasy(r: Rules, hist: seq<Block>)
    requires r == Sample(false) && RulesOk(r) && ValidHistory(r, hist) && Slow(hist)
    ensures forall k | 0 <= k < |hist| :: hist[k].header.bits == INITIAL_BITS
  {
    hide RulesOk, ValidHistory, Sample, ShapeOk, Acceptable, Headers, Replay;
    SampleWork(false);
    forall k | 0 <= k < |hist|
      ensures hist[k].header.bits == INITIAL_BITS
    {
      if k == 0 {
        GenesisRules(r);
        HistoryLinks(r, hist, 0);
      } else {
        BitsAt(r, hist, k);
      }
    }
  }

  /** Block `k` is dated `k` steps after genesis. */
  ghost predicate Spaced(hist: seq<Block>, step: nat) {
    |hist| > 0 && forall k | 0 <= k < |hist| :: hist[k].header.time == step * k
  }

  /** A second from block to block: all but the first two are hard. */
  lemma {:induction false} QuickWork(r: Rules, hist: seq<Block>)
    requires r == Sample(false) && RulesOk(r) && ValidHistory(r, hist) && Spaced(hist, 1) && 2 <= |hist| <= HEIGHT_LIMIT
    ensures WorkOf(r, hist) == 2 * EASY_WORK + HARD_WORK * (|hist| - 2)
  {
    hide Sample, RulesOk, ValidHistory, WorkOf, ShapeOk, Acceptable, Headers, Replay;
    var n := |hist| - 1;
    SampleWork(false);
    BitsAt(r, hist, n);
    GenesisRules(r);
    HistoryLinks(r, hist, n - 1);
    HistoryLinks(r, hist, 0);
    assert hist == hist[..n] + [hist[n]] && hist[..n - 1 + 1] == hist[..n];
    WorkSnoc(r, hist[..n], hist[n]);
    if n == 1 {
      assert hist[..1] == [r.genesis];
      WorkOne(r, r.genesis);
      GenesisBits(r);
    } else {
      QuickWork(r, hist[..n]);
    }
  }

  lemma GenesisBits(r: Rules)
    requires r.genesis == SampleGenesis()
    ensures r.genesis.header.bits == INITIAL_BITS
  {
  }

  // ------------------------------------------------------------------
  // Chains of any difficulty
  // ------------------------------------------------------------------

  lemma FreePlain(lo: nat, hi: nat)
    ensures Plain(Free(lo, hi))
  {
    hide Numbered, GenesisWith, Plain;
    NumberedPlain(lo, lo, false,
                  (headers: seq<Header>) => if headers == [] then lo else Clip(Last(headers).nonce, lo, hi),
                  (bits: nat) => Clip(bits, lo, hi));
  }

  lemma FreeWork(lo: nat, hi: nat)
    requires lo <= hi
    ensures var r := Free(lo, hi);
            && !r.regtest && r.lastAnchor == 0 && (forall bits :: r.work(bits) == Clip(bits, lo, hi))
            && r.genesis.header.bits == lo && r.genesis.header.nonce == lo && r.genesis.header.time == 0
    ensures forall headers :: headers != [] ==> ExpectedBits(Free(lo, hi), headers) == Clip(Last(headers).nonce, lo, hi)
    ensures forall headers :: lo <= Free(lo, hi).work(ExpectedBits(Free(lo, hi), headers)) <= hi
  {
    hide HeaderCode, HeaderOf, TxCode, TxOf, TxsCode, TxsOf, HeadersCode, HeadersOf, Latest;
  }

  /** An empty block after `hist`, whose children carry the difficulty `nonce`. */
  function Forge(r: Rules, hist: seq<Block>, time: nat, nonce: nat): Block
    requires |hist| > 0
  {
    var b := Mint(r, hist, time, 0);
    b.(header := b.header.(nonce := nonce))
  }

  lemma ForgeValid(r: Rules, hist: seq<Block>, time: nat, nonce: nat)
    requires Plain(r) && ValidHistory(r, hist) && 0 < |hist| < HEIGHT_LIMIT && Before(hist, time)
    ensures ValidHistory(r, hist + [Forge(r, hist, time, nonce)])
    ensures Forge(r, hist, time, nonce).header.time == time && Forge(r, hist, time, nonce).header.nonce == nonce
  {
    hide RulesOk, ValidHistory, Replay, Headers, ContextAt, Mint, CheckTxs, HasMarker, Emission.Subsidy;
    MintFields(r, hist, time, 0);
    HeadersCount(r, hist);
    MintHeader(r, hist, time, 0);
    MintBody(r, hist, time, 0);
    MintShape(r, hist, time, 0);
    ExtendHistory(r, hist, Forge(r, hist, time, nonce));
  }

  /** Blocks after `hist`, a second apart from `start` on, with these nonces. */
  function Forged(r: Rules, hist: seq<Block>, start: nat, nonces: seq<nat>): (all: seq<Block>)
    requires |hist| > 0
    ensures |all| == |hist| + |nonces|
  {
    if nonces == [] then hist
    else
      var below := Forged(r, hist, start, Front(nonces));
      below + [Forge(r, below, start + |nonces| - 1, Last(nonces))]
  }

  /** Dates and nonces as asked for. */
  ghost predicate Tagged(all: seq<Block>, n: nat, start: nat, nonces: seq<nat>) {
    && |all| == n + |nonces|
    && (forall k | n <= k < |all| :: all[k].header.time == start + (k - n))
    && (forall k | n <= k < |all| :: all[k].header.nonce == nonces[k - n])
  }

  lemma {:induction false} ForgedValid(r: Rules, hist: seq<Block>, start: nat, nonces: seq<nat>)
    requires Plain(r) && ValidHistory(r, hist) && |hist| > 0 && |hist| + |nonces| < HEIGHT_LIMIT && Before(hist, start)
    ensures ValidHistory(r, Forged(r, hist, start, nonces))
    ensures Before(Forged(r, hist, start, nonces), start + |nonces|)
    ensures Forged(r, hist, start, nonces)[..|hist|] == hist
    ensures Tagged(Forged(r, hist, start, nonces), |hist|, start, nonces)
    decreases |nonces|
  {
    hide Plain, ValidHistory, Forge;
    if nonces != [] {
      ForgedValid(r, hist, start, Front(nonces));
      var below := Forged(r, hist, start, Front(nonces));
      var time := start + |nonces| - 1;
      ForgeValid(r, below, time, Last(nonces));
      BeforeSnoc(below, Forge(r, below, time, Last(nonces)), time, 1);
      TaggedSnoc(below, |hist|, start, nonces, Forge(r, below, time, Last(nonces)));
    }
  }

  lemma TaggedSnoc(below: seq<Block>, n: nat, start: nat, nonces: seq<nat>, b: Block)
    requires nonces != [] && Tagged(below, n, start, Front(nonces))
    requires b.header.time == start + |nonces| - 1 && b.header.nonce == Last(nonces)
    ensures Tagged(below + [b], n, start, nonces)
  {
  }

  /** A block counts what the nonce before it says. */
  lemma FreeBitsAt(lo: nat, hi: nat, hist: seq<Block>, k: nat)
    requires lo <= hi && RulesOk(Free(lo, hi)) && ValidHistory(Free(lo, hi), hist) && k < |hist|
    ensures Free(lo, hi).work(hist[k].header.bits) == if k == 0 then lo else Clip(hist[k - 1].header.nonce, lo, hi)
  {
    hide RulesOk, ValidHistory, Acceptable, ShapeOk, Replay, Free, ExpectedBits;
    var r := Free(lo, hi);
    FreeWork(lo, hi);
    GenesisRules(r);
    HistoryLinks(r, hist, k);
    if k > 0 {
      AcceptedBits(r, hist[..k], Replay(r, hist[..k]), hist[k]);
      assert Last(Headers(hist[..k])) == hist[k - 1].header;
    }
  }
}
