/** Where the reader of src/json.rs takes more than RFC 8259, section 6 (numbers)
    and section 7 (strings), and that the writer never writes it. */
module JsonStrict {
  import opened Prelude
  import opened Json
  import opened JsonRoundTrip

  // ------------------------------------------------------------------
  // Numbers
  // ------------------------------------------------------------------

  predicate AllDigits(t: string) { forall k | 0 <= k < |t| :: IsDigit(t[k]) }

  /** The digits of a numeral, after its sign. */
  function Unsigned(text: string): string {
    if text != "" && text[0] == '-' then text[1..] else text
  }

  /** `int` of RFC 8259: zero, or digits that do not start with zero. */
  predicate RfcNumber(text: string) {
    var t := Unsigned(text);
    t != "" && AllDigits(t) && (t[0] == '0' ==> |t| == 1)
  }

  /** A zero in front of other digits. */
  predicate LeadingZero(text: string) {
    var t := Unsigned(text);
    |t| > 1 && t[0] == '0'
  }

  lemma {:induction false} ValueIffDigits(t: string)
    ensures DigitsValue(t).Some? <==> t != "" && AllDigits(t)
    decreases |t|
  {
    if |t| > 1 {
      ValueIffDigits(Front(t));
      assert t == Front(t) + [Last(t)];
    }
  }

  /** Of the numerals the reader takes, exactly those with a leading zero are
      not RFC 8259 numbers. */
  lemma AcceptedNumbers(text: string)
    requires NumberOf(text).Ok?
    ensures RfcNumber(text) <==> !LeadingZero(text)
  {
    hide DigitsValue;
    ValueIffDigits(Unsigned(text));
  }

  /** An RFC 8259 integer is refused only if it is out of range. */
  lemma RefusedNumbers(text: string)
    requires RfcNumber(text)
    ensures DigitsValue(Unsigned(text)).Some?
    ensures var n := DigitsValue(Unsigned(text)).value;
            NumberOf(text).Ok? <==> if Unsigned(text) != text then n <= -I64_MIN else n <= U64_MAX
  {
    hide DigitsValue;
    ValueIffDigits(Unsigned(text));
  }

  lemma {:induction false} DigitsNoZero(n: nat)
    ensures Digits(n)[0] == '0' ==> n == 0
  {
    if n >= 10 { DigitsNoZero(n / 10); }
  }

  /** Written numbers are RFC 8259 numbers. */
  lemma WrittenNumber(n: int)
    ensures RfcNumber(Decimal(n))
  {
    hide Digits;
    var m: nat := if n < 0 then -n else n;
    DigitsAre(m);
    DigitsNoZero(m);
    assert n == 0 ==> Digits(0) == "0" by { ZeroDigits(); }
    assert Unsigned(Decimal(n)) == Digits(m);
  }

  lemma ZeroDigits()
    ensures Digits(0) == "0"
  {
  }

  // ------------------------------------------------------------------
  // Strings
  // ------------------------------------------------------------------

  predicate Control(ch: char) { ch as int < 32 }

  predicate IsHex(ch: char) { HexValue(ch).Some? }

  predicate OneLetter(ch: char) {
    ch == '"' || ch == '\\' || ch == '/' || ch == 'b' || ch == 'f' || ch == 'n' || ch == 'r' || ch == 't'
  }

  /** After the characters of an RFC 8259 string, from `i` to the closing quote. */
  function RfcChars(c: string, i: nat): Option<nat>
    requires i <= |c|
    decreases |c| - i
  {
    if i == |c| then None
    else if c[i] == '"' then Some(i + 1)
    else if c[i] == '\\' then
      if i + 1 < |c| && OneLetter(c[i + 1]) then RfcChars(c, i + 2)
      else if i + 6 <= |c| && c[i + 1] == 'u'
              && IsHex(c[i + 2]) && IsHex(c[i + 3]) && IsHex(c[i + 4]) && IsHex(c[i + 5]) then
        RfcChars(c, i + 6)
      else None
    else if Control(c[i]) then None
    else RfcChars(c, i + 1)
  }

  /** Nothing below U+0020 from `i` to `j`. */
  predicate Clean(c: string, i: nat, j: nat) {
    forall k | i <= k < j && k < |c| :: !Control(c[k])
  }

  lemma HexFour(c: string, i: nat)
    requires i <= |c| && Hex(c, i, 4, 0).Ok?
    ensures i + 4 <= |c| && IsHex(c[i]) && IsHex(c[i + 1]) && IsHex(c[i + 2]) && IsHex(c[i + 3])
    ensures Clean(c, i, i + 4)
  {
    hide HexValue;
    var r := Hex(c, i, 4, 0);
    assert r == Hex(c, i + 1, 3, HexValue(c[i]).value);
    var a := HexValue(c[i]).value;
    assert r == Hex(c, i + 2, 2, a * 16 + HexValue(c[i + 1]).value);
    var b := a * 16 + HexValue(c[i + 1]).value;
    assert r == Hex(c, i + 3, 1, b * 16 + HexValue(c[i + 2]).value);
    HexNotControl(c[i]);
    HexNotControl(c[i + 1]);
    HexNotControl(c[i + 2]);
    HexNotControl(c[i + 3]);
  }

  lemma HexNotControl(ch: char)
    ensures IsHex(ch) ==> !Control(ch)
  {
  }

  /** An escape the reader takes is one or two RFC 8259 escapes, without control
      characters. */
  lemma EscapeIsRfc(c: string, i: nat)
    requires i < |c| && c[i] == '\\' && Escaped(c, i + 1).Ok?
    ensures var j := Escaped(c, i + 1).value.1;
            i < j <= |c| && RfcChars(c, i) == RfcChars(c, j) && Clean(c, i, j)
  {
    hide Hex, IsHex, Control;
    assert !Control('\\') && !Control('u') by { LettersPlain(); }
    var j := Escaped(c, i + 1).value.1;
    if c[i + 1] == 'u' {
      HexFour(c, i + 2);
      if j != i + 6 {
        HexFour(c, i + 8);
        assert RfcChars(c, i + 6) == RfcChars(c, i + 12);
      }
    } else {
      assert OneLetter(c[i + 1]) && j == i + 2;
      LettersPlain();
    }
  }

  lemma LettersPlain()
    ensures !Control('\\') && !Control('u') && forall ch | OneLetter(ch) :: !Control(ch)
  {
  }

  /** Of the strings the reader takes, exactly those with a raw control character
      are not RFC 8259 strings. */
  lemma {:induction false} AcceptedStrings(c: string, i: nat, done: string)
    requires i <= |c| && Chars(c, i, done).Ok?
    ensures var j := Chars(c, i, done).value.1;
            && (RfcChars(c, i) == Some(j) <==> Clean(c, i, j))
            && (RfcChars(c, i).Some? ==> RfcChars(c, i) == Some(j))
    decreases |c| - i
  {
    hide Escaped, Control;
    assert !Control('"') by { QuotePlain(); }
    if c[i] == '"' {
    } else if c[i] == '\\' {
      EscapeIsRfc(c, i);
      var (ch, k) := Escaped(c, i + 1).value;
      AcceptedStrings(c, k, done + [ch]);
    } else {
      AcceptedStrings(c, i + 1, done + [c[i]]);
    }
  }

  lemma QuotePlain()
    ensures !Control('"')
  {
  }

  // ------------------------------------------------------------------
  // What is written
  // ------------------------------------------------------------------

  /** Nothing that a page or a script could take for its own. */
  predicate Harmless(ch: char) {
    !Control(ch) && ch != '<' && ch != '>' && ch != '/' && ch as int != 0x2028 && ch as int != 0x2029
  }

  predicate Plain(t: string) { forall k | 0 <= k < |t| :: Harmless(t[k]) }

  lemma EscapePlain(ch: char)
    ensures Plain(Escape(ch))
  {
    if ch as int < 32 && !ShortEscape(ch) {
      assert Escape(ch) == "\\u00" + [HexDigit(ch as int / 16), HexDigit(ch as int % 16)];
    }
  }

  lemma {:induction false} EscapeAllPlain(s: string)
    ensures Plain(EscapeAll(s))
    decreases |s|
  {
    hide Escape;
    if s != "" {
      EscapePlain(s[0]);
      EscapeAllPlain(s[1..]);
    }
  }

  lemma DecimalPlain(n: int)
    ensures Plain(Decimal(n))
  {
    hide Digits;
    var m: nat := if n < 0 then -n else n;
    DigitsAre(m);
  }

  /** Written text has no control character anywhere, and neither angle brackets,
      slashes nor the line separators of Unicode. */
  lemma {:induction false} WrittenPlain(v: Json)
    ensures Plain(Encode(v))
    decreases v, 1
  {
    hide EscapeAll, Decimal;
    match v {
      case Int(n) => DecimalPlain(n);
      case UInt(n) => DecimalPlain(n);
      case Str(s) => EscapeAllPlain(s);
      case Array(items) => ItemsPlain(items);
      case Object(fields) => FieldsPlain(fields);
      case _ =>
    }
  }

  lemma {:induction false} ItemsPlain(items: seq<Json>)
    ensures Plain(EncodeItems(items))
    decreases items
  {
    hide Encode;
    if items != [] {
      WrittenPlain(items[0]);
      ItemsPlain(items[1..]);
    }
  }

  lemma {:induction false} FieldsPlain(fields: seq<Field>)
    ensures Plain(EncodeFields(fields))
    decreases fields
  {
    hide Encode, EscapeAll;
    if fields != [] {
      EscapeAllPlain(fields[0].key);
      WrittenPlain(fields[0].value);
      FieldsPlain(fields[1..]);
    }
  }

  /** Every number inside is written as an RFC 8259 number. */
  predicate NumbersStrict(v: Json) {
    match v
    case Int(n) => RfcNumber(Encode(v))
    case UInt(n) => RfcNumber(Encode(v))
    case Array(items) => forall i | 0 <= i < |items| :: NumbersStrict(items[i])
    case Object(fields) => forall i | 0 <= i < |fields| :: NumbersStrict(fields[i].value)
    case _ => true
  }

  /** The writer produces neither: no leading zero in any number, no control
      character, and every string is an RFC 8259 string. */
  lemma {:induction false} WrittenStrict(v: Json)
    ensures Plain(Encode(v)) && NumbersStrict(v)
  {
    hide RfcNumber, Encode;
    WrittenPlain(v);
    match v {
      case Int(n) => WrittenInt(v, n);
      case UInt(n) => WrittenInt(v, n);
      case Array(items) =>
        forall i | 0 <= i < |items|
          ensures NumbersStrict(items[i])
        {
          WrittenStrict(items[i]);
        }
      case Object(fields) =>
        forall i | 0 <= i < |fields|
          ensures NumbersStrict(fields[i].value)
        {
          WrittenStrict(fields[i].value);
        }
      case _ =>
    }
  }

  lemma WrittenInt(v: Json, n: int)
    requires v == Int(n) || v == UInt(n)
    ensures RfcNumber(Encode(v))
  {
    hide RfcNumber, Decimal;
    WrittenNumber(n);
  }

  /** A written string, wherever it stands, is an RFC 8259 string. */
  lemma WrittenString(s: string, c: string, i: nat)
    requires At(c, i, Quoted(s))
    ensures i < |c| && RfcChars(c, i + 1) == Some(i + |Quoted(s)|)
  {
    hide Chars, RfcChars, EscapeAll;
    StringBack(s, c, i);
    EscapeAllPlain(s);
    var t := Quoted(s);
    forall k | i + 1 <= k < i + |t| && k < |c|
      ensures !Control(c[k])
    {
      AtChar(c, i, t, k - i);
    }
    AcceptedStrings(c, i + 1, "");
  }

  // ------------------------------------------------------------------
  // Inputs
  // ------------------------------------------------------------------

  /** `007` is read as seven; RFC 8259 does not allow it. */
  lemma LeadingZeros()
    ensures Parsed("007") == Ok(Int(7)) && !RfcNumber("007") && LeadingZero("007")
  {
    var c := "007";
    assert SkipDigits(c, 3) == 3 && SkipDigits(c, 2) == 3 && SkipDigits(c, 1) == 3;
    assert c[0..3] == c;
    assert Front(c) == "00" && Front("00") == "0";
    assert DigitsValue("0") == Some(0) && DigitsValue("00") == Some(0) && DigitsValue(c) == Some(7);
    assert ReadNumber(c, 0) == Ok((Int(7), 3));
    SmallDocument(c);
  }

  /** U+0001 between quotes is read as itself; RFC 8259 wants it escaped. */
  lemma RawControl()
    ensures var c := "\"" + [1 as char] + "\"";
            Parsed(c) == Ok(Str([1 as char])) && RfcChars(c, 1) == None
  {
    hide Chars, Utf8Length, RfcChars;
    var c := "\"" + [1 as char] + "\"";
    OneControl(c);
    assert ReadString(c, 0) == Ok(([1 as char], 3));
    SmallDocument(c);
  }

  lemma OneControl(c: string)
    requires c == "\"" + [1 as char] + "\""
    ensures Chars(c, 1, "") == Ok(([1 as char], 3)) && RfcChars(c, 1) == None
  {
    hide Escaped;
    assert c[1] == 1 as char && c[2] == '"' && "" + [c[1]] == [1 as char];
    assert Chars(c, 2, [1 as char]) == Ok(([1 as char], 3));
  }

  lemma SmallDocument(c: string)
    requires |c| == 3
    ensures Utf8Length(c) <= MAX_INPUT
  {
    assert Utf8Length(Front(Front(Front(c)))) == 0;
    assert Utf8Length(Front(Front(c))) <= 4;
    assert Utf8Length(Front(c)) <= 8;
  }
}
