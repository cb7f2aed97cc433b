/** What is written is read back (src/json.rs, `Json::encode` and `parse`). */
module JsonRoundTrip {
  import opened Prelude
  import opened Json

  /** The text stands in the document at `i`. */
  predicate At(c: string, i: nat, t: string) { i + |t| <= |c| && c[i..i + |t|] == t }

  lemma AtSplit(c: string, i: nat, a: string, b: string)
    requires At(c, i, a + b)
    ensures At(c, i, a) && At(c, i + |a|, b)
  {
    assert c[i..i + |a|] == c[i..i + |a + b|][..|a|];
    assert c[i + |a|..i + |a| + |b|] == c[i..i + |a + b|][|a|..];
  }

  lemma AtChar(c: string, i: nat, t: string, k: nat)
    requires At(c, i, t) && k < |t|
    ensures c[i + k] == t[k]
  {
    assert c[i..i + |t|][k] == c[i + k];
  }

  /** What may follow a value inside a document. */
  predicate Stops(c: string, j: nat) { j == |c| || (j < |c| && (c[j] == ',' || c[j] == ']' || c[j] == '}')) }

  predicate Sorted(fields: seq<Field>) {
    forall i, j | 0 <= i < j < |fields| :: Less(fields[i].key, fields[j].key)
  }

  /** Numbers in their ranges, keys in order. */
  predicate WellFormed(v: Json) {
    match v
    case Int(n) => I64_MIN <= n <= I64_MAX
    case UInt(n) => I64_MAX < n <= U64_MAX
    case Array(items) => forall i | 0 <= i < |items| :: WellFormed(items[i])
    case Object(fields) => Sorted(fields) && forall i | 0 <= i < |fields| :: WellFormed(fields[i].value)
    case _ => true
  }

  /** Nothing lies deeper than the limit. */
  predicate Fits(v: Json, depth: nat)
    decreases v
  {
    && depth <= MAX_DEPTH
    && (v.Array? ==> forall i | 0 <= i < |v.items| :: Fits(v.items[i], depth + 1))
    && (v.Object? ==> forall i | 0 <= i < |v.fields| :: Fits(v.fields[i].value, depth + 1))
  }

  // ------------------------------------------------------------------
  // Words and numbers
  // ------------------------------------------------------------------

  lemma {:induction false} LiteralBack(c: string, i: nat, word: string)
    requires At(c, i, word)
    ensures Literal(c, i, word) == Ok(i + |word|)
    decreases |word|
  {
    if word != "" {
      AtChar(c, i, word, 0);
      AtSplit(c, i, word[..1], word[1..]);
      LiteralBack(c, i + 1, word[1..]);
    }
  }

  lemma {:induction false} DigitsAre(n: nat)
    ensures forall k | 0 <= k < |Digits(n)| :: IsDigit(Digits(n)[k])
    ensures DigitsValue(Digits(n)) == Some(n)
  {
    if n >= 10 {
      DigitsAre(n / 10);
      assert Front(Digits(n)) == Digits(n / 10);
    }
  }

  lemma {:induction false} SkipDigitsBack(c: string, i: nat, t: string)
    requires At(c, i, t) && (forall k | 0 <= k < |t| :: IsDigit(t[k]))
    requires i + |t| == |c| || !IsDigit(c[i + |t|])
    ensures SkipDigits(c, i) == i + |t|
    decreases |t|
  {
    if t != "" {
      AtChar(c, i, t, 0);
      AtSplit(c, i, t[..1], t[1..]);
      SkipDigitsBack(c, i + 1, t[1..]);
    }
  }

  lemma NumberOfDecimal(n: int)
    requires I64_MIN <= n <= U64_MAX
    ensures NumberOf(Decimal(n)) == Ok(if n <= I64_MAX then Int(n) else UInt(n))
  {
    hide Digits, DigitsValue;
    if n < 0 {
      DigitsAre(-n);
      assert Decimal(n)[1..] == Digits(-n);
    } else {
      DigitsAre(n);
      assert IsDigit(Digits(n)[0]);
    }
  }

  lemma NumberBack(n: int, c: string, i: nat)
    requires I64_MIN <= n <= U64_MAX && At(c, i, Decimal(n)) && Stops(c, i + |Decimal(n)|)
    ensures i < |c| && (c[i] == '-' || IsDigit(c[i]))
    ensures ReadNumber(c, i) == Ok((if n <= I64_MAX then Int(n) else UInt(n), i + |Decimal(n)|))
  {
    hide Digits, NumberOf;
    var t := Decimal(n);
    NumberOfDecimal(n);
    AtChar(c, i, t, 0);
    if n < 0 {
      DigitsAre(-n);
      AtSplit(c, i, "-", Digits(-n));
      SkipDigitsBack(c, i + 1, Digits(-n));
    } else {
      DigitsAre(n);
      SkipDigitsBack(c, i, t);
    }
  }

  // ------------------------------------------------------------------
  // Strings
  // ------------------------------------------------------------------

  lemma HexBack(c: string, i: nat, a: nat, b: nat, d: nat, e: nat)
    requires i + 4 <= |c|
    requires HexValue(c[i]) == Some(a) && HexValue(c[i + 1]) == Some(b)
    requires HexValue(c[i + 2]) == Some(d) && HexValue(c[i + 3]) == Some(e)
    ensures Hex(c, i, 4, 0) == Ok((((a * 16 + b) * 16 + d) * 16 + e, i + 4))
  {
    hide HexValue;
    assert Hex(c, i + 4, 0, ((a * 16 + b) * 16 + d) * 16 + e) == Ok((((a * 16 + b) * 16 + d) * 16 + e, i + 4));
    assert Hex(c, i + 3, 1, (a * 16 + b) * 16 + d) == Ok((((a * 16 + b) * 16 + d) * 16 + e, i + 4));
    assert Hex(c, i + 2, 2, a * 16 + b) == Ok((((a * 16 + b) * 16 + d) * 16 + e, i + 4));
  }

  lemma HexDigitBack(d: nat)
    requires d < 16
    ensures HexValue(HexDigit(d)) == Some(d)
  {
  }

  /** Six characters of a `u` escape give their code. */
  lemma UnicodeBack(c: string, i: nat, a: nat, b: nat, d: nat, e: nat)
    requires i + 6 <= |c| && c[i] == '\\' && c[i + 1] == 'u'
    requires HexValue(c[i + 2]) == Some(a) && HexValue(c[i + 3]) == Some(b)
    requires HexValue(c[i + 4]) == Some(d) && HexValue(c[i + 5]) == Some(e)
    requires ((a * 16 + b) * 16 + d) * 16 + e < 0xD800
    ensures Escaped(c, i + 1) == Ok(((((a * 16 + b) * 16 + d) * 16 + e) as char, i + 6))
  {
    hide Hex, HexValue;
    HexBack(c, i + 2, a, b, d, e);
  }

  /** A character with a two-character escape. */
  predicate ShortEscape(ch: char) {
    ch == '"' || ch == '\\' || ch == '\n' || ch == '\r' || ch == '\t' || ch as int == 8 || ch as int == 12
  }

  predicate LongEscape(ch: char) {
    && !ShortEscape(ch)
    && (ch as int < 32 || ch == '<' || ch == '>' || ch == '/' || ch as int == 0x2028 || ch as int == 0x2029)
  }

  lemma ShortBack(ch: char, c: string, i: nat)
    requires ShortEscape(ch) && At(c, i, Escape(ch))
    ensures |Escape(ch)| == 2 && c[i] == '\\' && Escaped(c, i + 1) == Ok((ch, i + 2))
  {
    AtChar(c, i, Escape(ch), 0);
    AtChar(c, i, Escape(ch), 1);
  }

  lemma LongBack(ch: char, c: string, i: nat)
    requires LongEscape(ch) && At(c, i, Escape(ch))
    ensures |Escape(ch)| == 6 && c[i] == '\\' && Escaped(c, i + 1) == Ok((ch, i + 6))
  {
    hide Escaped;
    var t := Escape(ch);
    AtChar(c, i, t, 0);
    AtChar(c, i, t, 1);
    AtChar(c, i, t, 2);
    AtChar(c, i, t, 3);
    AtChar(c, i, t, 4);
    AtChar(c, i, t, 5);
    if ch as int < 32 {
      HexDigitBack(ch as int / 16);
      HexDigitBack(ch as int % 16);
      UnicodeBack(c, i, 0, 0, ch as int / 16, ch as int % 16);
    } else if ch == '<' {
      UnicodeBack(c, i, 0, 0, 3, 12);
    } else if ch == '>' {
      UnicodeBack(c, i, 0, 0, 3, 14);
    } else if ch == '/' {
      UnicodeBack(c, i, 0, 0, 2, 15);
    } else if ch as int == 0x2028 {
      UnicodeBack(c, i, 2, 0, 2, 8);
    } else {
      UnicodeBack(c, i, 2, 0, 2, 9);
    }
  }

  /** One written character is read as one character. */
  lemma CharBack(ch: char, c: string, i: nat, done: string)
    requires At(c, i, Escape(ch))
    ensures i + |Escape(ch)| <= |c| && Chars(c, i, done) == Chars(c, i + |Escape(ch)|, done + [ch])
  {
    hide Escaped, Escape;
    if ShortEscape(ch) {
      ShortBack(ch, c, i);
    } else if LongEscape(ch) {
      LongBack(ch, c, i);
    } else {
      PlainEscape(ch);
      AtChar(c, i, Escape(ch), 0);
    }
  }

  lemma PlainEscape(ch: char)
    requires !ShortEscape(ch) && !LongEscape(ch)
    ensures Escape(ch) == [ch] && ch != '"' && ch != '\\'
  {
  }

  lemma CharsEnd(c: string, i: nat, done: string)
    requires i < |c| && c[i] == '"'
    ensures Chars(c, i, done) == Ok((done, i + 1))
  {
  }

  lemma EscapeFirst(s: string)
    requires s != ""
    ensures EscapeAll(s) + "\"" == Escape(s[0]) + (EscapeAll(s[1..]) + "\"")
    ensures |EscapeAll(s)| == |Escape(s[0])| + |EscapeAll(s[1..])|
  {
    hide Escape;
  }

  lemma {:induction false} CharsBack(s: string, c: string, i: nat, done: string)
    requires At(c, i, EscapeAll(s) + "\"")
    ensures Chars(c, i, done) == Ok((done + s, i + |EscapeAll(s)| + 1))
    decreases |s|
  {
    hide Escape, Chars, At, EscapeAll;
    if s == "" {
      NothingToEscape();
      AtChar(c, i, "\"", 0);
      AtBound(c, i, "\"");
      CharsEnd(c, i, done);
      assert done + s == done;
    } else {
      EscapeFirst(s);
      AtSplit(c, i, Escape(s[0]), EscapeAll(s[1..]) + "\"");
      CharBack(s[0], c, i, done);
      CharsBack(s[1..], c, i + |Escape(s[0])|, done + [s[0]]);
      assert done + [s[0]] + s[1..] == done + s;
    }
  }

  lemma NothingToEscape()
    ensures EscapeAll("") + "\"" == "\"" && |EscapeAll("")| == 0
  {
  }

  lemma StringBack(s: string, c: string, i: nat)
    requires At(c, i, Quoted(s))
    ensures ReadString(c, i) == Ok((s, i + |Quoted(s)|)) && c[i] == '"'
  {
    hide Chars, EscapeAll;
    assert Quoted(s) == "\"" + (EscapeAll(s) + "\"");
    AtSplit(c, i, "\"", EscapeAll(s) + "\"");
    AtChar(c, i, "\"", 0);
    CharsBack(s, c, i + 1, "");
    assert "" + s == s;
  }

  // ------------------------------------------------------------------
  // Values
  // ------------------------------------------------------------------

  /** No text of a value begins with a space or a closing bracket. */
  lemma EncodeHead(v: Json)
    ensures Encode(v) != "" && !IsSpace(Encode(v)[0]) && Encode(v)[0] != ']' && Encode(v)[0] != '}'
  {
    hide EscapeAll, EncodeItems, EncodeFields, Digits;
    match v {
      case Int(n) => DecimalHead(n);
      case UInt(n) => DecimalHead(n);
      case _ =>
    }
  }

  lemma DecimalHead(n: int)
    ensures Decimal(n) != "" && (Decimal(n)[0] == '-' || IsDigit(Decimal(n)[0]))
  {
    hide Digits;
    if n >= 0 { DigitsAre(n); }
  }

  lemma NoSkip(c: string, i: nat)
    requires i < |c| && !IsSpace(c[i])
    ensures SkipWs(c, i) == i
  {
  }

  lemma ScalarBack(v: Json, c: string, i: nat, depth: nat)
    requires !v.Array? && !v.Object? && WellFormed(v) && depth <= MAX_DEPTH
    requires At(c, i, Encode(v)) && Stops(c, i + |Encode(v)|)
    ensures ReadValue(c, i, depth) == Ok((v, i + |Encode(v)|))
  {
    hide Decimal, Quoted, ReadString, ReadNumber, Literal, ReadArray, ReadObject;
    var t := Encode(v);
    EncodeHead(v);
    AtChar(c, i, t, 0);
    match v {
      case Null => LiteralBack(c, i, "null");
      case Bool(b) => LiteralBack(c, i, if b then "true" else "false");
      case Int(n) => NumberBack(n, c, i);
      case UInt(n) => NumberBack(n, c, i);
      case Str(x) => StringBack(x, c, i);
      case _ =>
    }
  }

  /** Every value in range and in depth is read back from its text, wherever
      that text stands. */
  lemma {:induction false} ValueBack(v: Json, c: string, i: nat, depth: nat)
    requires WellFormed(v) && Fits(v, depth) && At(c, i, Encode(v)) && Stops(c, i + |Encode(v)|)
    ensures ReadValue(c, i, depth) == Ok((v, i + |Encode(v)|))
    decreases v, 1
  {
    hide ReadItems, ReadFields, EncodeItems, EncodeFields;
    var t := Encode(v);
    match v {
      case Array(items) =>
        assert t == "[" + (EncodeItems(items) + "]");
        AtSplit(c, i, "[", EncodeItems(items) + "]");
        AtChar(c, i, t, 0);
        ItemsStart(items, c, i + 1);
        if items != [] { ItemsBack(items, c, i + 1, depth + 1, []); assert [] + items == items; }
      case Object(fields) =>
        assert t == "{" + (EncodeFields(fields) + "}");
        AtSplit(c, i, "{", EncodeFields(fields) + "}");
        AtChar(c, i, t, 0);
        FieldsStart(fields, c, i + 1);
        if fields != [] { FieldsBack(fields, c, i + 1, depth + 1, []); assert [] + fields == fields; }
      case _ => ScalarBack(v, c, i, depth);
    }
  }

  lemma ItemsStart(items: seq<Json>, c: string, i: nat)
    requires At(c, i, EncodeItems(items) + "]")
    ensures SkipWs(c, i) == i < |c| && (c[i] == ']' <==> items == [])
    ensures items == [] ==> |EncodeItems(items)| == 0
  {
    hide Encode;
    AtChar(c, i, EncodeItems(items) + "]", 0);
    if items != [] { EncodeHead(items[0]); }
  }

  /** What comes after the first item. */
  function AfterItem(items: seq<Json>): string
    requires items != []
  {
    if |items| == 1 then "]" else "," + (EncodeItems(items[1..]) + "]")
  }

  lemma ItemsText(items: seq<Json>)
    requires items != []
    ensures EncodeItems(items) + "]" == Encode(items[0]) + AfterItem(items)
    ensures |EncodeItems(items)| == |Encode(items[0])| + |AfterItem(items)| - 1
  {
    hide Encode;
  }

  lemma ItemRead(c: string, i: nat, depth: nat, done: seq<Json>, v: Json, j: nat)
    requires i < j < |c| && !IsSpace(c[i]) && ReadValue(c, i, depth) == Ok((v, j)) && (c[j] == ',' || c[j] == ']')
    ensures ReadItems(c, i, depth, done) ==
            if c[j] == ',' then ReadItems(c, j + 1, depth, done + [v]) else Ok((Array(done + [v]), j + 1))
  {
    hide ReadValue;
    NoSkip(c, i);
    NoSkip(c, j);
  }

  lemma {:induction false} ItemsBack(items: seq<Json>, c: string, i: nat, depth: nat, done: seq<Json>)
    requires items != [] && (forall k | 0 <= k < |items| :: WellFormed(items[k]) && Fits(items[k], depth))
    requires At(c, i, EncodeItems(items) + "]")
    ensures ReadItems(c, i, depth, done) == Ok((Array(done + items), i + |EncodeItems(items)| + 1))
    decreases items, 0
  {
    hide ReadValue, Encode, WellFormed, Fits, ReadItems, EncodeItems, At;
    var first, later := Encode(items[0]), AfterItem(items);
    var j := i + |first|;
    ItemsText(items);
    AtSplit(c, i, first, later);
    EncodeHead(items[0]);
    AtChar(c, i, first, 0);
    AtChar(c, j, later, 0);
    AtBound(c, j, later);
    ValueBack(items[0], c, i, depth);
    ItemRead(c, i, depth, done, items[0], j);
    if |items| == 1 {
      assert items == [items[0]];
    } else {
      AtSplit(c, j, ",", EncodeItems(items[1..]) + "]");
      ItemsBack(items[1..], c, j + 1, depth, done + [items[0]]);
      assert done + [items[0]] + items[1..] == done + items;
    }
  }

  lemma AtBound(c: string, i: nat, t: string)
    requires At(c, i, t)
    ensures i + |t| <= |c|
  {
  }

  lemma FieldsStart(fields: seq<Field>, c: string, i: nat)
    requires At(c, i, EncodeFields(fields) + "}")
    ensures SkipWs(c, i) == i < |c| && (c[i] == '}' <==> fields == [])
    ensures fields == [] ==> |EncodeFields(fields)| == 0
  {
    hide Encode, EscapeAll;
    AtChar(c, i, EncodeFields(fields) + "}", 0);
  }

  lemma KeyBack(k: string, c: string, i: nat, after: string)
    requires At(c, i, Quoted(k) + (":" + after)) && after != "" && !IsSpace(after[0])
    ensures ReadKey(c, i) == Ok((k, i + |Quoted(k)| + 1)) && At(c, i + |Quoted(k)| + 1, after)
  {
    hide Quoted, ReadString;
    var j := i + |Quoted(k)|;
    AtSplit(c, i, Quoted(k), ":" + after);
    AtSplit(c, j, ":", after);
    AtChar(c, j, ":", 0);
    AtChar(c, j + 1, after, 0);
    StringBack(k, c, i);
    NoSkip(c, i);
    NoSkip(c, j);
    NoSkip(c, j + 1);
  }

  /** A key above the others is new, and goes last. */
  lemma AddsLast(done: seq<Field>, f: Field, later: seq<Field>)
    requires Sorted(done + [f] + later)
    ensures !HasKey(done, f.key) && Inserted(done, f.key, f.value) == done + [f] && Sorted(done + [f])
  {
    hide Less;
    var all := done + [f] + later;
    forall i | 0 <= i < |done|
      ensures Less(done[i].key, f.key)
    {
      assert all[i] == done[i] && all[|done|] == f;
    }
    forall i, j | 0 <= i < j < |done + [f]|
      ensures Less((done + [f])[i].key, (done + [f])[j].key)
    {
      assert all[i] == (done + [f])[i] && all[j] == (done + [f])[j];
    }
    forall i | 0 <= i < |done|
      ensures done[i].key != f.key
    {
      NotBelowItself(f.key);
    }
  }

  lemma {:induction false} NotBelowItself(a: string)
    ensures !Less(a, a)
    decreases |a|
  {
    if a != "" { NotBelowItself(a[1..]); }
  }

  /** What comes after the first field. */
  function AfterField(fields: seq<Field>): string
    requires fields != []
  {
    if |fields| == 1 then "}" else "," + (EncodeFields(fields[1..]) + "}")
  }

  lemma FieldsText(fields: seq<Field>)
    requires fields != []
    ensures EncodeFields(fields) + "}"
         == Quoted(fields[0].key) + (":" + (Encode(fields[0].value) + AfterField(fields)))
    ensures |EncodeFields(fields)|
         == |Quoted(fields[0].key)| + 1 + |Encode(fields[0].value)| + |AfterField(fields)| - 1
  {
    hide Encode, Quoted;
    var rest := if |fields| == 1 then "" else "," + EncodeFields(fields[1..]);
    assert AfterField(fields) == rest + "}";
    Regrouped(Quoted(fields[0].key), ":", Encode(fields[0].value), rest, "}");
  }

  lemma Regrouped(a: string, b: string, c: string, d: string, e: string)
    ensures a + b + c + d + e == a + (b + (c + (d + e)))
  {
  }

  lemma FieldRead(c: string, i: nat, depth: nat, done: seq<Field>, k: string, at: nat, v: Json, j: nat)
    requires i < at < j < |c| && ReadKey(c, i) == Ok((k, at)) && ReadValue(c, at, depth) == Ok((v, j))
    requires !HasKey(done, k) && (c[j] == ',' || c[j] == '}')
    ensures ReadFields(c, i, depth, done) ==
            if c[j] == ',' then ReadFields(c, j + 1, depth, Inserted(done, k, v))
            else Ok((Object(Inserted(done, k, v)), j + 1))
  {
    hide ReadValue, ReadKey, HasKey, Inserted;
    NoSkip(c, j);
  }

  lemma {:induction false} FieldsBack(fields: seq<Field>, c: string, i: nat, depth: nat, done: seq<Field>)
    requires fields != [] && Sorted(done + fields)
    requires forall k | 0 <= k < |fields| :: WellFormed(fields[k].value) && Fits(fields[k].value, depth)
    requires At(c, i, EncodeFields(fields) + "}")
    ensures ReadFields(c, i, depth, done) == Ok((Object(done + fields), i + |EncodeFields(fields)| + 1))
    decreases fields, 0
  {
    hide ReadValue, Encode, WellFormed, Fits, Quoted, ReadKey, HasKey, Inserted, Sorted, ReadFields, EncodeFields, At;
    var f, later := fields[0], AfterField(fields);
    var value := Encode(f.value);
    FieldsText(fields);
    EncodeHead(f.value);
    KeyBack(f.key, c, i, value + later);
    var at := i + |Quoted(f.key)| + 1;
    var j := at + |value|;
    AtSplit(c, at, value, later);
    AtChar(c, j, later, 0);
    AtBound(c, j, later);
    ValueBack(f.value, c, at, depth);
    assert done + fields == done + [f] + fields[1..];
    AddsLast(done, f, fields[1..]);
    FieldRead(c, i, depth, done, f.key, at, f.value, j);
    if |fields| == 1 {
      assert fields == [f];
    } else {
      AtSplit(c, j, ",", EncodeFields(fields[1..]) + "}");
      FieldsBack(fields[1..], c, j + 1, depth, done + [f]);
      assert done + [f] + fields[1..] == done + fields;
    }
  }

  /** Reading what was written gives the value back, for every value in range
      whose text is not too long. */
  lemma RoundTrip(v: Json)
    requires WellFormed(v) && Fits(v, 0) && Utf8Length(Encode(v)) <= MAX_INPUT
    ensures Parsed(Encode(v)) == Ok(v)
  {
    hide ReadValue, Encode, WellFormed, Fits;
    var c := Encode(v);
    EncodeHead(v);
    assert c[0..|c|] == c;
    NoSkip(c, 0);
    ValueBack(v, c, 0, 0);
  }

  // ------------------------------------------------------------------
  // What is read can be written
  // ------------------------------------------------------------------

  lemma {:induction false} LessTotal(a: string, b: string)
    requires a != b
    ensures Less(a, b) || Less(b, a)
    decreases |a|
  {
    if a != "" && b != "" && a[0] == b[0] {
      assert a == [a[0]] + a[1..] && b == [b[0]] + b[1..];
      LessTotal(a[1..], b[1..]);
    }
  }

  lemma {:induction false} LessChain(a: string, b: string, c: string)
    requires Less(a, b) && Less(b, c)
    ensures Less(a, c)
    decreases |a|
  {
    if a != "" && b != "" && c != "" && a[0] == b[0] == c[0] { LessChain(a[1..], b[1..], c[1..]); }
  }

  /** All keys are below `k`. */
  predicate Below(fields: seq<Field>, k: string) {
    forall i | 0 <= i < |fields| :: Less(fields[i].key, k)
  }

  lemma SortedPush(fields: seq<Field>, f: Field)
    requires Sorted(fields) && Below(fields, f.key)
    ensures Sorted(fields + [f])
  {
    hide Less;
  }

  lemma SortedFront(fields: seq<Field>)
    requires Sorted(fields) && fields != []
    ensures Sorted(Front(fields)) && Below(Front(fields), Last(fields).key)
  {
    hide Less;
  }

  lemma BelowUp(fields: seq<Field>, a: string, b: string)
    requires Below(fields, a) && Less(a, b)
    ensures Below(fields, b)
  {
    hide Less;
    forall i | 0 <= i < |fields|
      ensures Less(fields[i].key, b)
    {
      LessChain(fields[i].key, a, b);
    }
  }

  /** A new key keeps the entries in order, and adds nothing but itself. */
  lemma {:induction false} InsertedSorted(fields: seq<Field>, k: string, v: Json, bound: string)
    requires Sorted(fields) && !HasKey(fields, k)
    ensures Sorted(Inserted(fields, k, v))
    ensures Below(fields, bound) && Less(k, bound) ==> Below(Inserted(fields, k, v), bound)
    ensures forall i | 0 <= i < |Inserted(fields, k, v)| ::
              Inserted(fields, k, v)[i] == Field(k, v) || Inserted(fields, k, v)[i] in fields
    decreases |fields|
  {
    hide Less;
    if fields == [] {
    } else if Less(Last(fields).key, k) {
      SortedFront(fields);
      BelowUp(Front(fields), Last(fields).key, k);
      assert fields == Front(fields) + [Last(fields)];
      SortedPush(fields, Field(k, v));
    } else {
      SortedFront(fields);
      assert Last(fields).key != k by { assert fields[|fields| - 1] == Last(fields); }
      LessTotal(Last(fields).key, k);
      InsertedSorted(Front(fields), k, v, Last(fields).key);
      SortedPush(Inserted(Front(fields), k, v), Last(fields));
      InsertedSorted(Front(fields), k, v, bound);
      forall i | 0 <= i < |Front(fields)|
        ensures Front(fields)[i] in fields
      {
        assert fields[i] == Front(fields)[i];
      }
      assert Last(fields) in fields;
    }
  }

  lemma NumberOk(text: string)
    requires NumberOf(text).Ok?
    ensures WellFormed(NumberOf(text).value) && !NumberOf(text).value.Array? && !NumberOf(text).value.Object?
  {
    hide DigitsValue;
  }

  predicate Good(v: Json, depth: nat) { WellFormed(v) && Fits(v, depth) }

  predicate AllGood(items: seq<Json>, depth: nat) { forall i | 0 <= i < |items| :: Good(items[i], depth) }

  predicate FieldsGood(fields: seq<Field>, depth: nat) {
    Sorted(fields) && forall i | 0 <= i < |fields| :: Good(fields[i].value, depth)
  }

  /** Whatever is read is in range, in order and in depth. */
  lemma {:induction false} ValueGood(c: string, i: nat, depth: nat)
    requires i <= |c| && ReadValue(c, i, depth).Ok?
    ensures Good(ReadValue(c, i, depth).value.0, depth)
    decreases |c| - i, 2
  {
    hide ReadItems, ReadFields, ReadString, NumberOf, Literal, SkipWs;
    if c[i] == '[' {
      var j := SkipWs(c, i + 1);
      if c[j] != ']' { ItemsGood(c, j, depth + 1, []); }
    } else if c[i] == '{' {
      var j := SkipWs(c, i + 1);
      if c[j] != '}' { ObjectGood(c, j, depth + 1, []); }
    } else if c[i] == '-' || IsDigit(c[i]) {
      var j := SkipDigits(c, if c[i] == '-' then i + 1 else i);
      NumberOk(c[i..j]);
    }
  }

  lemma ArrayGood(items: seq<Json>, depth: nat)
    requires AllGood(items, depth + 1) && depth <= MAX_DEPTH
    ensures Good(Array(items), depth)
  {
  }

  lemma {:induction false} ItemsGood(c: string, i: nat, depth: nat, done: seq<Json>)
    requires i <= |c| && 0 < depth <= MAX_DEPTH + 1 && AllGood(done, depth) && ReadItems(c, i, depth, done).Ok?
    ensures Good(ReadItems(c, i, depth, done).value.0, depth - 1)
    decreases |c| - i, 3
  {
    hide ReadValue, Good, SkipWs;
    var at := SkipWs(c, i);
    var (v, after) := ReadValue(c, at, depth).value;
    ValueGood(c, at, depth);
    var j := SkipWs(c, after);
    if c[j] == ',' { ItemsGood(c, j + 1, depth, done + [v]); } else { ArrayGood(done + [v], depth - 1); }
  }

  lemma FieldsAreGood(fields: seq<Field>, depth: nat)
    requires FieldsGood(fields, depth + 1) && depth <= MAX_DEPTH
    ensures Good(Object(fields), depth)
  {
  }

  lemma InsertedGood(fields: seq<Field>, k: string, v: Json, depth: nat)
    requires FieldsGood(fields, depth) && Good(v, depth) && !HasKey(fields, k)
    ensures FieldsGood(Inserted(fields, k, v), depth)
  {
    hide Good, Inserted, Sorted;
    InsertedSorted(fields, k, v, "");
    var all := Inserted(fields, k, v);
    forall i | 0 <= i < |all|
      ensures Good(all[i].value, depth)
    {
      if all[i] != Field(k, v) {
        var j :| 0 <= j < |fields| && fields[j] == all[i];
      }
    }
  }

  lemma {:induction false} ObjectGood(c: string, i: nat, depth: nat, done: seq<Field>)
    requires i <= |c| && 0 < depth <= MAX_DEPTH + 1 && FieldsGood(done, depth) && ReadFields(c, i, depth, done).Ok?
    ensures Good(ReadFields(c, i, depth, done).value.0, depth - 1)
    decreases |c| - i, 3
  {
    hide ReadValue, Good, SkipWs, ReadKey, Inserted, FieldsGood, HasKey;
    var (k, at) := ReadKey(c, i).value;
    var (v, after) := ReadValue(c, at, depth).value;
    ValueGood(c, at, depth);
    InsertedGood(done, k, v, depth);
    var j := SkipWs(c, after);
    if c[j] == ',' {
      ObjectGood(c, j + 1, depth, Inserted(done, k, v));
    } else {
      FieldsAreGood(Inserted(done, k, v), depth - 1);
    }
  }

  /** A document that was read, written again, is read the same. */
  lemma WrittenAgain(input: string)
    requires Parsed(input).Ok? && Utf8Length(Encode(Parsed(input).value)) <= MAX_INPUT
    ensures Parsed(Encode(Parsed(input).value)) == Parsed(input)
  {
    hide ReadValue, Encode, WellFormed, Fits, SkipWs;
    ValueGood(input, SkipWs(input, 0), 0);
    RoundTrip(Parsed(input).value);
  }
}
