/** What escapes and numerals stand for (src/json.rs, `string`, `hex4` and
    `number`; RFC 8259, sections 6 and 7). */
module JsonEscapes {
  import opened Prelude
  import opened Json
  import opened JsonRoundTrip

  // ------------------------------------------------------------------
  // Four hexadecimal digits
  // ------------------------------------------------------------------

  /** `ch` is the hexadecimal digit `d`, in either case. */
  predicate HexOf(ch: char, d: nat) {
    d < 16 && (ch == "0123456789abcdef"[d] || ch == "0123456789ABCDEF"[d])
  }

  /** The four characters from `i` on write `code`. */
  predicate FourHex(c: string, i: nat, code: nat) {
    && i + 4 <= |c| && code < 0x10000
    && HexOf(c[i], code / 0x1000) && HexOf(c[i + 1], code / 0x100 % 16)
    && HexOf(c[i + 2], code / 0x10 % 16) && HexOf(c[i + 3], code % 16)
  }

  lemma HexOfIff(ch: char, d: nat)
    ensures HexValue(ch) == Some(d) <==> HexOf(ch, d)
  {
    if d < 16 { DigitCases(d); }
  }

  lemma DigitCases(d: nat)
    requires d < 16
    ensures "0123456789abcdef"[d] as int == if d < 10 then '0' as int + d else 'a' as int + d - 10
    ensures "0123456789ABCDEF"[d] as int == if d < 10 then '0' as int + d else 'A' as int + d - 10
  {
    var lower, upper := "0123456789abcdef", "0123456789ABCDEF";
    assert lower[0] == '0' && lower[1] == '1' && lower[2] == '2' && lower[3] == '3' && lower[4] == '4';
    assert lower[5] == '5' && lower[6] == '6' && lower[7] == '7' && lower[8] == '8' && lower[9] == '9';
    assert lower[10] == 'a' && lower[11] == 'b' && lower[12] == 'c' && lower[13] == 'd' && lower[14] == 'e';
    assert lower[15] == 'f';
    assert upper[0] == '0' && upper[1] == '1' && upper[2] == '2' && upper[3] == '3' && upper[4] == '4';
    assert upper[5] == '5' && upper[6] == '6' && upper[7] == '7' && upper[8] == '8' && upper[9] == '9';
    assert upper[10] == 'A' && upper[11] == 'B' && upper[12] == 'C' && upper[13] == 'D' && upper[14] == 'E';
    assert upper[15] == 'F';
  }

  /** Four digits are read as the code they write, and nothing else is. */
  lemma HexIff(c: string, i: nat, code: nat)
    requires i <= |c|
    ensures FourHex(c, i, code) <==> Hex(c, i, 4, 0) == Ok((code, i + 4))
  {
    hide FourHex, Hex;
    if FourHex(c, i, code) { HexReads(c, i, code); }
    if Hex(c, i, 4, 0).Ok? { HexWrites(c, i); }
  }

  lemma HexReads(c: string, i: nat, code: nat)
    requires FourHex(c, i, code)
    ensures Hex(c, i, 4, 0) == Ok((code, i + 4))
  {
    hide HexOf, HexValue, Hex;
    var a, b, d, e := code / 0x1000, code / 0x100 % 16, code / 0x10 % 16, code % 16;
    HexOfIff(c[i], a);
    HexOfIff(c[i + 1], b);
    HexOfIff(c[i + 2], d);
    HexOfIff(c[i + 3], e);
    HexBack(c, i, a, b, d, e);
    FourDigits(code, a, b, d, e);
  }

  lemma FourDigits(code: nat, a: nat, b: nat, d: nat, e: nat)
    requires code < 0x10000 && a == code / 0x1000 && b == code / 0x100 % 16 && d == code / 0x10 % 16 && e == code % 16
    ensures ((a * 16 + b) * 16 + d) * 16 + e == code
  {
    var x := code / 0x10;
    var y := x / 0x10;
    assert y / 0x10 == a && x / 0x10 == code / 0x100;
    assert code == x * 16 + e && x == y * 16 + d && y == a * 16 + b;
  }

  lemma HexWrites(c: string, i: nat)
    requires i <= |c| && Hex(c, i, 4, 0).Ok?
    ensures FourHex(c, i, Hex(c, i, 4, 0).value.0)
  {
    hide HexOf, HexValue, Hex;
    var a, b, d, e := HexDigits(c, i);
    HexBack(c, i, a, b, d, e);
    HexOfIff(c[i], a);
    HexOfIff(c[i + 1], b);
    HexOfIff(c[i + 2], d);
    HexOfIff(c[i + 3], e);
    Digitwise(a, b, d, e);
  }

  lemma Digitwise(a: nat, b: nat, d: nat, e: nat)
    requires a < 16 && b < 16 && d < 16 && e < 16
    ensures var code := ((a * 16 + b) * 16 + d) * 16 + e;
            code < 0x10000 && code / 0x1000 == a && code / 0x100 % 16 == b && code / 0x10 % 16 == d && code % 16 == e
  {
  }

  lemma HexDigits(c: string, i: nat) returns (a: nat, b: nat, d: nat, e: nat)
    requires i <= |c| && Hex(c, i, 4, 0).Ok?
    ensures i + 4 <= |c| && a < 16 && b < 16 && d < 16 && e < 16
    ensures HexValue(c[i]) == Some(a) && HexValue(c[i + 1]) == Some(b)
    ensures HexValue(c[i + 2]) == Some(d) && HexValue(c[i + 3]) == Some(e)
  {
    a := HexValue(c[i]).value;
    assert Hex(c, i, 4, 0) == Hex(c, i + 1, 3, a);
    b := HexValue(c[i + 1]).value;
    assert Hex(c, i + 1, 3, a) == Hex(c, i + 2, 2, a * 16 + b);
    d := HexValue(c[i + 2]).value;
    assert Hex(c, i + 2, 2, a * 16 + b) == Hex(c, i + 3, 1, (a * 16 + b) * 16 + d);
    e := HexValue(c[i + 3]).value;
  }

  // ------------------------------------------------------------------
  // Escapes
  // ------------------------------------------------------------------

  /** A letter after a backslash, and the character it stands for. */
  predicate LetterFor(letter: char, ch: char) {
    || (letter == '"' && ch as int == 0x22) || (letter == '\\' && ch as int == 0x5C)
    || (letter == '/' && ch as int == 0x2F) || (letter == 'b' && ch as int == 0x08)
    || (letter == 'f' && ch as int == 0x0C) || (letter == 'n' && ch as int == 0x0A)
    || (letter == 'r' && ch as int == 0x0D) || (letter == 't' && ch as int == 0x09)
  }

  /** The two surrogates of a character above U+FFFF, as UTF-16 has them. */
  function High(ch: char): nat
    requires ch as int >= 0x10000
  {
    0xD800 + (ch as int - 0x10000) / 0x400
  }

  function Low(ch: char): nat
    requires ch as int >= 0x10000
  {
    0xDC00 + (ch as int - 0x10000) % 0x400
  }

  /** From `i`, after a backslash, to `j` an escape stands for `ch`: one letter,
      its code, or its two code units. */
  predicate Means(c: string, i: nat, ch: char, j: nat) {
    || (i < |c| && j == i + 1 && LetterFor(c[i], ch))
    || (i < |c| && j == i + 5 && c[i] == 'u' && FourHex(c, i + 1, ch as int))
    || (&& i + 11 <= |c| && j == i + 11 && ch as int >= 0x10000
        && c[i] == 'u' && FourHex(c, i + 1, High(ch))
        && c[i + 5] == '\\' && c[i + 6] == 'u' && FourHex(c, i + 7, Low(ch)))
  }

  lemma PairJoins(high: nat, low: nat, ch: char)
    requires 0xD800 <= high <= 0xDBFF && 0xDC00 <= low <= 0xDFFF
    ensures ch as int == 0x10000 + (high - 0xD800) * 1024 + (low - 0xDC00)
            <==> ch as int >= 0x10000 && High(ch) == high && Low(ch) == low
  {
  }

  /** Exactly these escapes are taken, as what they stand for: a surrogate on its
      own is not. */
  lemma EscapeIff(c: string, i: nat, ch: char, j: nat)
    requires i <= |c|
    ensures Escaped(c, i) == Ok((ch, j)) <==> Means(c, i, ch, j)
  {
    hide FourHex, Hex;
    if i < |c| && c[i] == 'u' { UnicodeIff(c, i + 1, ch, j); }
  }

  lemma UnicodeIff(c: string, i: nat, ch: char, j: nat)
    requires i <= |c|
    ensures UnicodeEscape(c, i) == Ok((ch, j)) <==>
            || (j == i + 4 && FourHex(c, i, ch as int))
            || (&& i + 10 <= |c| && j == i + 10 && ch as int >= 0x10000 && FourHex(c, i, High(ch))
                && c[i + 4] == '\\' && c[i + 5] == 'u' && FourHex(c, i + 6, Low(ch)))
  {
    hide Hex, FourHex, High, Low;
    match Hex(c, i, 4, 0)
    case Err(_) =>
      NoCode(c, i);
    case Ok((code, k)) =>
      OneCode(c, i, code);
      if 0xD800 <= code <= 0xDBFF {
        SurrogatesOf(ch);
        if i + 6 <= |c| {
          match Hex(c, i + 6, 4, 0)
          case Err(_) => NoCode(c, i + 6);
          case Ok((low, _)) =>
            OneCode(c, i + 6, low);
            if 0xDC00 <= low <= 0xDFFF { PairJoins(code, low, ch); }
        }
      } else {
        SurrogatesOf(ch);
      }
  }

  lemma SurrogatesOf(ch: char)
    ensures !(0xD800 <= ch as int <= 0xDFFF)
    ensures ch as int >= 0x10000 ==> 0xD800 <= High(ch) <= 0xDBFF && 0xDC00 <= Low(ch) <= 0xDFFF
  {
  }

  lemma NoCode(c: string, i: nat)
    requires i <= |c| && Hex(c, i, 4, 0).Err?
    ensures forall code :: !FourHex(c, i, code)
  {
    hide Hex, FourHex;
    forall code: nat
      ensures !FourHex(c, i, code)
    {
      HexIff(c, i, code);
    }
  }

  lemma OneCode(c: string, i: nat, code: nat)
    requires i <= |c| && Hex(c, i, 4, 0).Ok? && Hex(c, i, 4, 0).value.0 == code
    ensures Hex(c, i, 4, 0).value.1 == i + 4 && forall other: nat :: FourHex(c, i, other) <==> other == code
  {
    hide FourHex;
    forall other: nat
      ensures FourHex(c, i, other) <==> other == code
    {
      HexIff(c, i, other);
    }
  }

  // ------------------------------------------------------------------
  // Strings
  // ------------------------------------------------------------------

  /** One character of a string: itself, or an escape that stands for it. */
  predicate Piece(c: string, i: nat, ch: char, j: nat) {
    && i < |c|
    && (if c[i] == '\\' then Means(c, i + 1, ch, j) else c[i] != '"' && ch == c[i] && j == i + 1)
  }

  /** From `i` on the text writes `s`, up to a quote that ends at `j`. */
  ghost predicate Spells(c: string, i: nat, s: string, j: nat)
    decreases |s|
  {
    if s == "" then i < |c| && c[i] == '"' && j == i + 1
    else exists k :: Piece(c, i, s[0], k) && Spells(c, k, s[1..], j)
  }

  /** A string is read as what it spells, and only then. */
  lemma {:induction false} StringIff(c: string, i: nat, done: string, s: string, j: nat)
    requires i <= |c|
    ensures Chars(c, i, done) == Ok((done + s, j)) <==> Spells(c, i, s, j)
    decreases |c| - i
  {
    hide Means, Escaped;
    if i < |c| && c[i] != '"' {
      if c[i] == '\\' {
        match Escaped(c, i + 1)
        case Err(_) => NotMeant(c, i + 1);
        case Ok((ch, k)) =>
          OnlyMeant(c, i + 1);
          StepIff(c, i, done, s, j, ch, k);
      } else {
        StepIff(c, i, done, s, j, c[i], i + 1);
      }
    } else if i < |c| {
      assert done + s == done <==> s == "";
    }
  }

  lemma NotMeant(c: string, i: nat)
    requires i <= |c| && Escaped(c, i).Err?
    ensures forall ch, j :: !Means(c, i, ch, j)
  {
    hide Escaped, Means;
    forall ch, j: nat
      ensures !Means(c, i, ch, j)
    {
      EscapeIff(c, i, ch, j);
    }
  }

  lemma OnlyMeant(c: string, i: nat)
    requires i <= |c| && Escaped(c, i).Ok?
    ensures forall ch, j: nat :: Means(c, i, ch, j) <==> Escaped(c, i).value == (ch, j)
  {
    hide Escaped, Means;
    forall ch, j: nat
      ensures Means(c, i, ch, j) <==> Escaped(c, i).value == (ch, j)
    {
      EscapeIff(c, i, ch, j);
    }
  }

  lemma {:induction false} StepIff(c: string, i: nat, done: string, s: string, j: nat, ch: char, k: nat)
    requires i < k <= |c| && c[i] != '"' && Chars(c, i, done) == Chars(c, k, done + [ch])
    requires forall x, y: nat :: Piece(c, i, x, y) <==> x == ch && y == k
    ensures Chars(c, i, done) == Ok((done + s, j)) <==> Spells(c, i, s, j)
    decreases |c| - i, 0
  {
    hide Piece, Chars;
    CharsGrow(c, k, done + [ch]);
    if s != "" && s[0] == ch {
      StringIff(c, k, done + [ch], s[1..], j);
      assert done + [ch] + s[1..] == done + s;
      assert Piece(c, i, ch, k);
    } else {
      HeadAfter(done, ch, s);
    }
  }

  lemma HeadAfter(done: string, ch: char, s: string)
    ensures done + [ch] <= done + s ==> s != "" && s[0] == ch
  {
    if done + [ch] <= done + s { assert (done + s)[|done|] == (done + [ch])[|done|]; }
  }

  /** What was read stays in front. */
  lemma {:induction false} CharsGrow(c: string, i: nat, done: string)
    requires i <= |c|
    ensures Chars(c, i, done).Ok? ==> done <= Chars(c, i, done).value.0
    decreases |c| - i
  {
    hide Escaped;
    if i < |c| && c[i] != '"' {
      if c[i] == '\\' {
        if Escaped(c, i + 1).Ok? {
          var (ch, k) := Escaped(c, i + 1).value;
          CharsGrow(c, k, done + [ch]);
        }
      } else {
        CharsGrow(c, i + 1, done + [c[i]]);
      }
    }
  }

  // ------------------------------------------------------------------
  // Numerals
  // ------------------------------------------------------------------

  /** White space and digits, by their codes. */
  lemma Lexical(ch: char)
    ensures IsSpace(ch) <==> ch as int == 0x20 || ch as int == 0x09 || ch as int == 0x0A || ch as int == 0x0D
    ensures IsDigit(ch) <==> 0x30 <= ch as int <= 0x39
  {
  }

  /** A sign, zeros in front, and the digits of a number. */
  function Numeral(negative: bool, zeros: nat, n: nat): string {
    (if negative then "-" else "") + Padded(zeros, n)
  }

  function Padded(zeros: nat, n: nat): string { if zeros == 0 then Digits(n) else "0" + Padded(zeros - 1, n) }

  lemma {:induction false} PaddedValue(zeros: nat, n: nat)
    ensures DigitsValue(Padded(zeros, n)) == Some(n) && Padded(zeros, n) != "" && IsDigit(Padded(zeros, n)[0])
  {
    hide Digits, DigitsValue;
    if zeros == 0 {
      DigitsAre(n);
    } else {
      PaddedValue(zeros - 1, n);
      ZeroInFront(Padded(zeros - 1, n));
    }
  }

  lemma {:induction false} ZeroInFront(t: string)
    requires t != ""
    ensures DigitsValue("0" + t) == DigitsValue(t)
    decreases |t|
  {
    if |t| == 1 {
      assert Front("0" + t) == "0";
    } else {
      ZeroInFront(Front(t));
      assert Front("0" + t) == "0" + Front(t);
    }
  }

  /** A numeral is read as its number, however many zeros stand in front, within
      64 bits. */
  lemma NumeralReads(negative: bool, zeros: nat, n: nat)
    ensures NumberOf(Numeral(negative, zeros, n))
            == if negative then (if n <= 0x8000_0000_0000_0000 then Ok(Int(-(n as int))) else Err(InvalidNumber))
               else if n < 0x8000_0000_0000_0000 then Ok(Int(n))
               else if n < 0x1_0000_0000_0000_0000 then Ok(UInt(n))
               else Err(InvalidNumber)
  {
    hide DigitsValue, Padded;
    PaddedValue(zeros, n);
    var t := Numeral(negative, zeros, n);
    if negative { assert t[0] == '-' && t[1..] == Padded(zeros, n); } else { assert t == Padded(zeros, n); }
  }

  /** Every numeral that is taken is one of these. */
  lemma NumeralForm(text: string) returns (negative: bool, zeros: nat, n: nat)
    requires NumberOf(text).Ok?
    ensures text == Numeral(negative, zeros, n)
  {
    hide DigitsValue, Padded;
    negative := text != "" && text[0] == '-';
    zeros, n := DigitsForm(if negative then text[1..] else text);
  }

  lemma {:induction false} DigitsForm(t: string) returns (zeros: nat, n: nat)
    requires DigitsValue(t).Some?
    ensures t == Padded(zeros, n)
    decreases |t|
  {
    if |t| == 1 {
      zeros, n := 0, Last(t) as int - '0' as int;
      assert t == [Last(t)];
    } else {
      var z, m := DigitsForm(Front(t));
      PaddedValue(z, m);
      zeros, n := OneDigitMore(z, m, Last(t));
      assert t == Front(t) + [Last(t)];
    }
  }

  lemma {:induction false} OneDigitMore(z: nat, m: nat, last: char) returns (zeros: nat, n: nat)
    requires IsDigit(last)
    ensures Padded(z, m) + [last] == Padded(zeros, n)
    decreases z
  {
    var d := last as int - '0' as int;
    if z == 0 && m > 0 {
      zeros, n := 0, 10 * m + d;
      assert n / 10 == m && n % 10 == d;
    } else if z == 0 {
      zeros, n := 1, d;
      assert Padded(1, d) == "0" + Padded(0, d);
    } else {
      var y, k := OneDigitMore(z - 1, m, last);
      zeros, n := y + 1, k;
    }
  }

  // ------------------------------------------------------------------
  // Size
  // ------------------------------------------------------------------

  /** The bytes of a character in UTF-8 (section 3 of RFC 3629): a leading byte with
      the high bits, and six bits in each of the others. */
  function Utf8(ch: char): (bytes: seq<nat>)
    ensures forall i | 0 <= i < |bytes| :: bytes[i] < 256
  {
    var c := ch as int;
    if c <= 0x7F then [c]
    else if c <= 0x7FF then [0xC0 + c / 0x40, 0x80 + c % 0x40]
    else if c <= 0xFFFF then [0xE0 + c / 0x1000, 0x80 + c / 0x40 % 0x40, 0x80 + c % 0x40]
    else [0xF0 + c / 0x4_0000, 0x80 + c / 0x1000 % 0x40, 0x80 + c / 0x40 % 0x40, 0x80 + c % 0x40]
  }

  function Utf8Text(s: string): seq<nat> { if s == "" then [] else Utf8(s[0]) + Utf8Text(s[1..]) }

  /** The size of a document is that of its UTF-8. */
  lemma {:induction false} Utf8Size(s: string)
    ensures Utf8Length(s) == |Utf8Text(s)|
    decreases |s|
  {
    if s != "" {
      Utf8Size(s[1..]);
      SizeOfFirst(s[0], s[1..]);
      assert s == [s[0]] + s[1..];
    }
  }

  lemma {:induction false} SizeOfFirst(ch: char, s: string)
    ensures Utf8Length([ch] + s) == |Utf8(ch)| + Utf8Length(s)
    decreases |s|
  {
    if s == "" {
      assert [ch] + s == [ch] && Front([ch]) == "";
    } else {
      SizeOfFirst(ch, Front(s));
      assert Front([ch] + s) == [ch] + Front(s);
    }
  }
}
