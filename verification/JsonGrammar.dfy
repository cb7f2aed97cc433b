/** The grammar of RFC 8259, section 2 to 7, and how it stands to the reader and
    the writer of src/json.rs. */
module JsonGrammar {
  import opened Prelude
  import opened Json
  import opened JsonRoundTrip
  import opened JsonStrict

  // ------------------------------------------------------------------
  // The grammar
  // ------------------------------------------------------------------

  predicate Ws(c: string, i: nat, j: nat) { i <= j <= |c| && forall k | i <= k < j :: IsSpace(c[k]) }

  predicate Fraction(t: string) { t != "" ==> |t| > 1 && t[0] == '.' && AllDigits(t[1..]) }

  predicate Exponent(t: string) {
    t != "" ==>
      && (t[0] == 'e' || t[0] == 'E')
      && var digits := if |t| > 1 && (t[1] == '+' || t[1] == '-') then t[2..] else t[1..];
      digits != "" && AllDigits(digits)
  }

  /** An integer, perhaps a fraction, perhaps an exponent. */
  ghost predicate Numeral(t: string) {
    exists p, q | 0 < p <= q <= |t| :: RfcNumber(t[..p]) && Fraction(t[p..q]) && Exponent(t[q..])
  }

  predicate Text(c: string, i: nat, j: nat) { i < |c| && c[i] == '"' && RfcChars(c, i + 1) == Some(j) }

  /** The characters from `i` to `j` are a value. */
  ghost predicate Value(c: string, i: nat, j: nat)
    requires j <= |c|
    decreases j - i, 0
  {
    && i < j
    && (|| c[i..j] == "null" || c[i..j] == "true" || c[i..j] == "false"
        || Numeral(c[i..j]) || Text(c, i, j)
        || (i + 1 < j && c[i] == '[' && c[j - 1] == ']' && (Ws(c, i + 1, j - 1) || Items(c, i + 1, j - 1)))
        || (i + 1 < j && c[i] == '{' && c[j - 1] == '}' && (Ws(c, i + 1, j - 1) || Fields(c, i + 1, j - 1))))
  }

  /** Values with commas between them. */
  ghost predicate Items(c: string, i: nat, j: nat)
    requires i <= j <= |c|
    decreases j - i, 1
  {
    exists a, b, d | i <= a < b <= d <= j ::
      Ws(c, i, a) && Value(c, a, b) && Ws(c, b, d) && (d == j || (c[d] == ',' && Items(c, d + 1, j)))
  }

  lemma ItemsParts(c: string, i: nat, j: nat) returns (a: nat, b: nat, d: nat)
    requires i <= j <= |c| && Items(c, i, j)
    ensures i <= a < b <= d <= j && Ws(c, i, a) && Value(c, a, b) && Ws(c, b, d)
    ensures d == j || (c[d] == ',' && Items(c, d + 1, j))
  {
    hide Value, Ws;
    a, b, d :| i <= a < b <= d <= j && Ws(c, i, a) && Value(c, a, b) && Ws(c, b, d)
               && (d == j || (c[d] == ',' && Items(c, d + 1, j)));
  }

  lemma ItemsMade(c: string, i: nat, a: nat, b: nat, d: nat, j: nat)
    requires i <= a < b <= d <= j <= |c| && Ws(c, i, a) && Value(c, a, b) && Ws(c, b, d)
    requires d == j || (c[d] == ',' && Items(c, d + 1, j))
    ensures Items(c, i, j)
  {
    hide Value, Ws;
  }

  /** A name and its colon, up to where the value starts. */
  ghost predicate Name(c: string, i: nat, j: nat) {
    exists a, b, e | i <= a < b <= e < j <= |c| ::
      Ws(c, i, a) && Text(c, a, b) && Ws(c, b, e) && c[e] == ':' && Ws(c, e + 1, j)
  }

  lemma NameMade(c: string, i: nat, a: nat, b: nat, e: nat, j: nat)
    requires i <= a < b <= e < j <= |c|
    requires Ws(c, i, a) && Text(c, a, b) && Ws(c, b, e) && c[e] == ':' && Ws(c, e + 1, j)
    ensures Name(c, i, j)
  {
    hide Ws, Text;
  }

  /** Names and values with commas between them. */
  ghost predicate Fields(c: string, i: nat, j: nat)
    requires i <= j <= |c|
    decreases j - i, 1
  {
    exists a, b, d | i <= a < b <= d <= j ::
      Name(c, i, a) && Value(c, a, b) && Ws(c, b, d) && (d == j || (c[d] == ',' && Fields(c, d + 1, j)))
  }

  lemma FieldsParts(c: string, i: nat, j: nat) returns (a: nat, b: nat, d: nat)
    requires i <= j <= |c| && Fields(c, i, j)
    ensures i <= a < b <= d <= j && Name(c, i, a) && Value(c, a, b) && Ws(c, b, d)
    ensures d == j || (c[d] == ',' && Fields(c, d + 1, j))
  {
    hide Value, Ws, Name;
    a, b, d :| i <= a < b <= d <= j && Name(c, i, a) && Value(c, a, b) && Ws(c, b, d)
               && (d == j || (c[d] == ',' && Fields(c, d + 1, j)));
  }

  lemma FieldsMade(c: string, i: nat, a: nat, b: nat, d: nat, j: nat)
    requires i <= a < b <= d <= j <= |c| && Name(c, i, a) && Value(c, a, b) && Ws(c, b, d)
    requires d == j || (c[d] == ',' && Fields(c, d + 1, j))
    ensures Fields(c, i, j)
  {
    hide Value, Ws, Name;
  }

  ghost predicate Document(c: string) {
    exists a, b | 0 <= a < b <= |c| :: Ws(c, 0, a) && Value(c, a, b) && Ws(c, b, |c|)
  }

  // ------------------------------------------------------------------
  // Numerals and strings in a text
  // ------------------------------------------------------------------

  /** After the next quote that no backslash stands before. */
  function Closing(c: string, i: nat): (j: Option<nat>)
    requires i <= |c|
    ensures j.Some? ==> i < j.value <= |c|
    decreases |c| - i
  {
    if i == |c| then None
    else if c[i] == '"' then Some(i + 1)
    else if c[i] == '\\' then if i + 1 < |c| then Closing(c, i + 2) else None
    else Closing(c, i + 1)
  }

  /** From `i` on no numeral has a leading zero and no string a raw control
      character. */
  predicate Strict(c: string, i: nat)
    requires i <= |c|
    decreases |c| - i
  {
    if i == |c| then true
    else if c[i] == '"' then
      match Closing(c, i + 1)
      case None => true
      case Some(j) => Clean(c, i + 1, j) && Strict(c, j)
    else if c[i] == '-' || IsDigit(c[i]) then
      var j := NumeralEnd(c, i);
      !LeadingZero(c[i..j]) && Strict(c, j)
    else Strict(c, i + 1)
  }

  function NumeralEnd(c: string, i: nat): (j: nat)
    requires i < |c| && (c[i] == '-' || IsDigit(c[i]))
    ensures i < j <= |c|
  {
    SkipDigits(c, if c[i] == '-' then i + 1 else i)
  }

  lemma {:induction false} StrictWs(c: string, i: nat)
    requires i <= |c|
    ensures Strict(c, i) == Strict(c, SkipWs(c, i))
    decreases |c| - i
  {
    if i < |c| && IsSpace(c[i]) { StrictWs(c, i + 1); }
  }

  /** Brackets, commas and colons are neither numerals nor strings. */
  lemma StrictMark(c: string, i: nat)
    requires i < |c| && (c[i] == '[' || c[i] == ']' || c[i] == '{' || c[i] == '}' || c[i] == ',' || c[i] == ':')
    ensures Strict(c, i) == Strict(c, i + 1)
  {
  }

  lemma {:induction false} StrictWord(c: string, i: nat, word: string)
    requires At(c, i, word) && forall k | 0 <= k < |word| :: 'a' <= word[k] <= 'z'
    ensures Strict(c, i) == Strict(c, i + |word|)
    decreases |word|
  {
    if word != "" {
      AtChar(c, i, word, 0);
      AtSplit(c, i, word[..1], word[1..]);
      StrictWord(c, i + 1, word[1..]);
    }
  }

  /** An escape is passed over whole. */
  lemma ClosingEscape(c: string, i: nat)
    requires i < |c| && c[i] == '\\' && Escaped(c, i + 1).Ok?
    ensures Closing(c, i) == Closing(c, Escaped(c, i + 1).value.1)
  {
    hide Hex, IsHex;
    var j := Escaped(c, i + 1).value.1;
    if c[i + 1] == 'u' {
      HexFour(c, i + 2);
      ClosingHex(c, i + 2);
      if j != i + 6 {
        HexFour(c, i + 8);
        ClosingHex(c, i + 8);
        assert Closing(c, i + 6) == Closing(c, i + 8);
      }
    }
  }

  lemma ClosingHex(c: string, i: nat)
    requires i + 4 <= |c| && IsHex(c[i]) && IsHex(c[i + 1]) && IsHex(c[i + 2]) && IsHex(c[i + 3])
    ensures Closing(c, i) == Closing(c, i + 4)
  {
    assert Closing(c, i + 2) == Closing(c, i + 3) == Closing(c, i + 4);
  }

  /** The reader ends a string at the same quote. */
  lemma {:induction false} ClosingIs(c: string, i: nat, done: string)
    requires i <= |c| && Chars(c, i, done).Ok?
    ensures Closing(c, i) == Some(Chars(c, i, done).value.1)
    decreases |c| - i
  {
    hide Escaped;
    if c[i] == '"' {
    } else if c[i] == '\\' {
      ClosingEscape(c, i);
      var (ch, k) := Escaped(c, i + 1).value;
      ClosingIs(c, k, done + [ch]);
    } else {
      ClosingIs(c, i + 1, done + [c[i]]);
    }
  }

  /** A string that is read is one of the grammar exactly if it has no raw control
      character. */
  lemma StrictText(c: string, i: nat)
    requires i < |c| && c[i] == '"' && ReadString(c, i).Ok?
    ensures var j := ReadString(c, i).value.1;
            && Strict(c, i) == (Text(c, i, j) && Strict(c, j))
            && forall e | Text(c, i, e) :: e == j
  {
    hide Chars, RfcChars, Closing, Clean;
    AcceptedStrings(c, i + 1, "");
    ClosingIs(c, i + 1, "");
  }

  // ------------------------------------------------------------------
  // White space and first characters
  // ------------------------------------------------------------------

  lemma {:induction false} SkipWsIs(c: string, i: nat, a: nat)
    requires Ws(c, i, a) && (a < |c| ==> !IsSpace(c[a]))
    ensures SkipWs(c, i) == a
    decreases a - i
  {
    if i < a { SkipWsIs(c, i + 1, a); }
  }

  lemma {:induction false} Skipped(c: string, i: nat)
    requires i <= |c|
    ensures Ws(c, i, SkipWs(c, i))
    decreases |c| - i
  {
    if i < |c| && IsSpace(c[i]) { Skipped(c, i + 1); }
  }

  /** What a value starts with. */
  predicate Head(ch: char) {
    ch == 'n' || ch == 't' || ch == 'f' || ch == '"' || ch == '[' || ch == '{' || ch == '-' || IsDigit(ch)
  }

  lemma ValueHead(c: string, i: nat, j: nat)
    requires j <= |c| && Value(c, i, j)
    ensures i < j && Head(c[i])
  {
    hide Items, Fields, RfcChars;
    assert c[i] == c[i..j][0];
    if Numeral(c[i..j]) { NumeralHead(c[i..j]); }
  }

  lemma NumeralHead(t: string)
    requires Numeral(t)
    ensures t != "" && (t[0] == '-' || IsDigit(t[0]))
  {
    var p, q :| 0 < p <= q <= |t| && RfcNumber(t[..p]) && Fraction(t[p..q]) && Exponent(t[q..]);
    assert t[..p][0] == t[0];
  }

  /** What a value is, by its first character. */
  lemma ValueKind(c: string, i: nat, j: nat)
    requires j <= |c| && Value(c, i, j)
    ensures i < j
    ensures c[i] == 'n' ==> c[i..j] == "null"
    ensures c[i] == 't' ==> c[i..j] == "true"
    ensures c[i] == 'f' ==> c[i..j] == "false"
    ensures c[i] == '"' ==> Text(c, i, j)
    ensures c[i] == '-' || IsDigit(c[i]) ==> Numeral(c[i..j])
    ensures c[i] == '[' ==>
              i + 1 < j && c[j - 1] == ']' && (Ws(c, i + 1, j - 1) || Items(c, i + 1, j - 1))
    ensures c[i] == '{' ==>
              i + 1 < j && c[j - 1] == '}' && (Ws(c, i + 1, j - 1) || Fields(c, i + 1, j - 1))
  {
    hide Items, Fields, RfcChars, Ws;
    assert c[i] == c[i..j][0];
    if Numeral(c[i..j]) { NumeralHead(c[i..j]); }
  }

  /** What may stand after a value. */
  predicate After(c: string, j: nat) {
    j < |c| ==> IsSpace(c[j]) || c[j] == ',' || c[j] == ']' || c[j] == '}'
  }

  // ------------------------------------------------------------------
  // What is read and strict is in the grammar
  // ------------------------------------------------------------------

  lemma {:induction false} LiteralIs(c: string, i: nat, word: string)
    requires i <= |c| && Literal(c, i, word).Ok?
    ensures At(c, i, word)
    decreases |word|
  {
    if word != "" {
      LiteralIs(c, i + 1, word[1..]);
      assert c[i..i + |word|] == [c[i]] + c[i + 1..i + |word|];
    }
  }

  lemma WordRead(c: string, i: nat, word: string, v: Json)
    requires i <= |c| && (word == "null" || word == "true" || word == "false") && Word(c, i, word, v).Ok?
    ensures var j := Word(c, i, word, v).value.1; Value(c, i, j) && c[i..j] == word && Strict(c, i) == Strict(c, j)
  {
    hide Literal, Items, Fields, Strict, Numeral;
    LiteralIs(c, i, word);
    StrictWord(c, i, word);
  }

  lemma NumberRead(c: string, i: nat)
    requires i < |c| && (c[i] == '-' || IsDigit(c[i])) && ReadNumber(c, i).Ok?
    ensures var j := ReadNumber(c, i).value.1;
            Strict(c, i) == (RfcNumber(c[i..j]) && Strict(c, j)) && (RfcNumber(c[i..j]) ==> Value(c, i, j))
  {
    hide SkipDigits, NumberOf, RfcNumber, LeadingZero, Items, Fields;
    var j := ReadNumber(c, i).value.1;
    AcceptedNumbers(c[i..j]);
    if RfcNumber(c[i..j]) { WholeNumeral(c[i..j]); }
  }

  lemma WholeNumeral(t: string)
    requires RfcNumber(t)
    ensures Numeral(t)
  {
    hide RfcNumber;
    assert t != "" by { NotEmpty(t); }
    assert t[..|t|] == t && t[|t|..|t|] == "" && t[|t|..] == "";
  }

  lemma NotEmpty(t: string)
    requires RfcNumber(t)
    ensures t != ""
  {
  }

  lemma {:induction false} ValueRead(c: string, i: nat, depth: nat)
    requires i <= |c| && ReadValue(c, i, depth).Ok? && Strict(c, i)
    ensures var j := ReadValue(c, i, depth).value.1; Value(c, i, j) && Strict(c, j)
    decreases |c| - i, 2
  {
    hide Word, ReadString, ReadArray, ReadObject, ReadNumber, Strict, Value;
    if c[i] == 'n' { WordRead(c, i, "null", Null); }
    else if c[i] == 't' { WordRead(c, i, "true", Bool(true)); }
    else if c[i] == 'f' { WordRead(c, i, "false", Bool(false)); }
    else if c[i] == '"' {
      StrictText(c, i);
      TextValue(c, i, ReadString(c, i).value.1);
    } else if c[i] == '[' { ArrayRead(c, i, depth); }
    else if c[i] == '{' { ObjectRead(c, i, depth); }
    else { NumberRead(c, i); }
  }

  lemma TextValue(c: string, i: nat, j: nat)
    requires i < j <= |c| && Text(c, i, j)
    ensures Value(c, i, j)
  {
    hide Items, Fields, RfcChars, Text;
  }

  lemma {:induction false} ArrayRead(c: string, i: nat, depth: nat)
    requires i < |c| && c[i] == '[' && ReadArray(c, i, depth).Ok? && Strict(c, i)
    ensures var j := ReadArray(c, i, depth).value.1; Value(c, i, j) && Strict(c, j)
    decreases |c| - i, 1
  {
    hide ReadItems, SkipWs, Items, Fields, Value, Strict, Ws;
    var a, j := SkipWs(c, i + 1), ReadArray(c, i, depth).value.1;
    StrictMark(c, i);
    StrictWs(c, i + 1);
    Skipped(c, i + 1);
    if c[a] != ']' {
      ItemsRead(c, a, depth + 1, []);
      ItemsAfterWs(c, i + 1, a, j - 1);
    } else {
      StrictMark(c, a);
    }
    ArrayValue(c, i, j);
  }

  lemma ItemsAfterWs(c: string, i: nat, a: nat, e: nat)
    requires Ws(c, i, a) && a <= e <= |c| && Items(c, a, e)
    ensures Items(c, i, e)
  {
    hide Value, Items;
    var b0, b, d := ItemsParts(c, a, e);
    ItemsMade(c, i, b0, b, d, e);
  }

  lemma {:induction false} ItemsRead(c: string, i: nat, depth: nat, done: seq<Json>)
    requires i <= |c| && ReadItems(c, i, depth, done).Ok? && Strict(c, i)
    ensures var j := ReadItems(c, i, depth, done).value.1;
            i < j && c[j - 1] == ']' && Items(c, i, j - 1) && Strict(c, j)
    decreases |c| - i, 3
  {
    hide ReadValue, SkipWs, Value, Items, Strict, Ws;
    var a := SkipWs(c, i);
    var b := ReadValue(c, a, depth).value.1;
    var d := SkipWs(c, b);
    StrictMark(c, d);
    StrictWs(c, i);
    Skipped(c, i);
    ValueRead(c, a, depth);
    StrictWs(c, b);
    Skipped(c, b);
    if c[d] == ',' { ItemsRead(c, d + 1, depth, done + [ReadValue(c, a, depth).value.0]); }
    ItemsMade(c, i, a, b, d, ReadItems(c, i, depth, done).value.1 - 1);
  }

  lemma {:induction false} ObjectRead(c: string, i: nat, depth: nat)
    requires i < |c| && c[i] == '{' && ReadObject(c, i, depth).Ok? && Strict(c, i)
    ensures var j := ReadObject(c, i, depth).value.1; Value(c, i, j) && Strict(c, j)
    decreases |c| - i, 1
  {
    hide ReadFields, SkipWs, Items, Fields, Value, Strict, Ws;
    var a, j := SkipWs(c, i + 1), ReadObject(c, i, depth).value.1;
    StrictMark(c, i);
    StrictWs(c, i + 1);
    Skipped(c, i + 1);
    if c[a] != '}' {
      FieldsRead(c, a, depth + 1, []);
      FieldsAfterWs(c, i + 1, a, j - 1);
    } else {
      StrictMark(c, a);
    }
    ObjectValue(c, i, j);
  }

  lemma FieldsAfterWs(c: string, i: nat, a: nat, e: nat)
    requires Ws(c, i, a) && a <= e <= |c| && Fields(c, a, e)
    ensures Fields(c, i, e)
  {
    hide Value, Name, Fields;
    var b0, b, d := FieldsParts(c, a, e);
    NameAfterWs(c, i, a, b0);
    FieldsMade(c, i, b0, b, d, e);
  }

  lemma NameAfterWs(c: string, i: nat, a: nat, j: nat)
    requires Ws(c, i, a) && Name(c, a, j)
    ensures Name(c, i, j)
  {
    hide Text;
    var b0, b, e :| a <= b0 < b <= e < j <= |c| && Ws(c, a, b0) && Text(c, b0, b) && Ws(c, b, e) && c[e] == ':'
                    && Ws(c, e + 1, j);
    NameMade(c, i, b0, b, e, j);
  }

  lemma KeyRead(c: string, i: nat)
    requires i <= |c| && ReadKey(c, i).Ok?
    ensures var j := ReadKey(c, i).value.1;
            && Strict(c, i) == (Name(c, i, j) && Strict(c, j))
            && forall e: nat | Name(c, i, e) && (e < |c| ==> !IsSpace(c[e])) :: e == j
  {
    hide ReadString, SkipWs, Text, Strict, Name, Ws;
    var a := SkipWs(c, i);
    var b := ReadString(c, a).value.1;
    var e := SkipWs(c, b);
    var j := SkipWs(c, e + 1);
    StringStarts(c, a);
    StrictMark(c, e);
    StrictWs(c, i);
    StrictText(c, a);
    StrictWs(c, b);
    StrictWs(c, e + 1);
    Skipped(c, i);
    Skipped(c, b);
    Skipped(c, e + 1);
    KeyIs(c, i, a, b, e, j);
  }

  lemma StringStarts(c: string, i: nat)
    requires i <= |c| && ReadString(c, i).Ok?
    ensures i < |c| && c[i] == '"'
  {
    hide Chars;
  }

  /** A name is where the reader finds it. */
  lemma KeyIs(c: string, i: nat, a: nat, b: nat, e: nat, j: nat)
    requires i <= a < b <= e < j <= |c| && Ws(c, i, a) && Ws(c, b, e) && c[e] == ':' && Ws(c, e + 1, j)
    requires c[a] == '"' && (forall x | Text(c, a, x) :: x == b) && (j < |c| ==> !IsSpace(c[j]))
    ensures Name(c, i, j) == Text(c, a, b)
    ensures forall x: nat | Name(c, i, x) && (x < |c| ==> !IsSpace(c[x])) :: x == j
  {
    hide Text, SkipWs;
    if Text(c, a, b) { NameMade(c, i, a, b, e, j); }
    forall x: nat | Name(c, i, x) && (x < |c| ==> !IsSpace(c[x]))
      ensures x == j && Text(c, a, b)
    {
      var a', b', e' :| i <= a' < b' <= e' < x <= |c| && Ws(c, i, a') && Text(c, a', b') && Ws(c, b', e')
          && c[e'] == ':'
                        && Ws(c, e' + 1, x);
      TextStarts(c, a', b');
      SkipWsIs(c, i, a);
      SkipWsIs(c, i, a');
      SkipWsIs(c, b, e);
      SkipWsIs(c, b', e');
      SkipWsIs(c, e + 1, j);
      SkipWsIs(c, e' + 1, x);
    }
  }

  lemma TextStarts(c: string, i: nat, j: nat)
    requires Text(c, i, j)
    ensures i < |c| && c[i] == '"'
  {
  }

  lemma {:induction false} FieldsRead(c: string, i: nat, depth: nat, done: seq<Field>)
    requires i <= |c| && ReadFields(c, i, depth, done).Ok? && Strict(c, i)
    ensures var j := ReadFields(c, i, depth, done).value.1;
            i < j && c[j - 1] == '}' && Fields(c, i, j - 1) && Strict(c, j)
    decreases |c| - i, 3
  {
    hide ReadKey, ReadValue, SkipWs, Value, Name, Fields, Inserted, HasKey, Strict, Ws;
    var (k, a) := ReadKey(c, i).value;
    var (v, b) := ReadValue(c, a, depth).value;
    var d := SkipWs(c, b);
    StrictMark(c, d);
    KeyRead(c, i);
    ValueRead(c, a, depth);
    StrictWs(c, b);
    Skipped(c, b);
    if c[d] == ',' { FieldsRead(c, d + 1, depth, Inserted(done, k, v)); }
    FieldsMade(c, i, a, b, d, ReadFields(c, i, depth, done).value.1 - 1);
  }

  // ------------------------------------------------------------------
  // What is read and in the grammar is strict
  // ------------------------------------------------------------------

  /** The whole number a numeral starts with. */
  lemma NumeralParts(t: string) returns (p: nat)
    requires Numeral(t)
    ensures 0 < p <= |t| && RfcNumber(t[..p]) && (p < |t| ==> t[p] == '.' || t[p] == 'e' || t[p] == 'E')
  {
    hide RfcNumber;
    var n, q :| 0 < n <= q <= |t| && RfcNumber(t[..n]) && Fraction(t[n..q]) && Exponent(t[q..]);
    p := n;
    if p < |t| {
      if p < q { assert t[p..q][0] == t[p]; } else { assert t[q..][0] == t[p]; }
    }
  }

  /** The reader stops where its digits end. */
  lemma DigitsEnd(c: string, i: nat, t: string)
    requires At(c, i, t) && RfcNumber(t) && (i + |t| < |c| ==> !IsDigit(c[i + |t|]))
    ensures i < |c| && (c[i] == '-' || IsDigit(c[i])) && NumeralEnd(c, i) == i + |t|
  {
    hide SkipDigits;
    AtChar(c, i, t, 0);
    if t[0] == '-' {
      AtSplit(c, i, t[..1], t[1..]);
      SkipDigitsBack(c, i + 1, t[1..]);
    } else {
      SkipDigitsBack(c, i, t);
    }
  }

  /** A numeral that is read is a whole number, up to where the reader stops. */
  lemma NumeralStrict(c: string, i: nat, j: nat)
    requires i < j <= |c| && (c[i] == '-' || IsDigit(c[i])) && ReadNumber(c, i).Ok?
    requires Numeral(c[i..j]) && After(c, j)
    ensures ReadNumber(c, i).value.1 == j && RfcNumber(c[i..j])
  {
    hide NumberOf, SkipDigits, Numeral, RfcNumber;
    var t := c[i..j];
    var p := NumeralParts(t);
    assert At(c, i, t[..p]);
    if p < |t| { assert t[p] == c[i + p]; }
    DigitsEnd(c, i, t[..p]);
    assert t[..|t|] == t;
  }

  lemma {:induction false} ValueEnd(c: string, i: nat, j: nat, depth: nat)
    requires j <= |c| && Value(c, i, j) && After(c, j) && ReadValue(c, i, depth).Ok?
    ensures ReadValue(c, i, depth).value.1 == j && (Strict(c, j) ==> Strict(c, i))
    decreases j - i, 0
  {
    hide Word, ReadString, ReadArray, ReadObject, ReadNumber, Strict, Value, Numeral, After, Text, Ws, Items, Fields;
    ValueKind(c, i, j);
    ValueHead(c, i, j);
    if c[i] == 'n' { WordRead(c, i, "null", Null); WordLength(c, i, j, "null", Null); }
    else if c[i] == 't' { WordRead(c, i, "true", Bool(true)); WordLength(c, i, j, "true", Bool(true)); }
    else if c[i] == 'f' { WordRead(c, i, "false", Bool(false)); WordLength(c, i, j, "false", Bool(false)); }
    else if c[i] == '"' { StrictText(c, i); }
    else if c[i] == '[' { ArrayEnd(c, i, j, depth); }
    else if c[i] == '{' { ObjectEnd(c, i, j, depth); }
    else {
      NumeralStrict(c, i, j);
      NumberRead(c, i);
    }
  }

  lemma WordLength(c: string, i: nat, j: nat, word: string, v: Json)
    requires i <= j <= |c| && c[i..j] == word && word != "" && Word(c, i, word, v).Ok?
    ensures Word(c, i, word, v).value.1 == j
  {
    hide Literal;
  }

  lemma {:induction false} ArrayEnd(c: string, i: nat, j: nat, depth: nat)
    requires i + 1 < j <= |c| && c[i] == '[' && c[j - 1] == ']' && ReadArray(c, i, depth).Ok?
    requires Ws(c, i + 1, j - 1) || Items(c, i + 1, j - 1)
    ensures ReadArray(c, i, depth).value.1 == j && (Strict(c, j) ==> Strict(c, i))
    decreases j - 1 - i, 3
  {
    hide ReadItems, SkipWs, Items, Ws, Strict;
    StrictMark(c, i);
    StrictMark(c, j - 1);
    StrictWs(c, i + 1);
    if Ws(c, i + 1, j - 1) {
      SkipWsIs(c, i + 1, j - 1);
    } else {
      ItemsFrom(c, i + 1, j - 1);
      ItemsEnd(c, SkipWs(c, i + 1), j - 1, depth + 1, []);
    }
  }

  lemma ItemsFrom(c: string, i: nat, e: nat)
    requires i <= e <= |c| && Items(c, i, e)
    ensures var a := SkipWs(c, i); a < e && c[a] != ']' && Items(c, a, e)
  {
    hide Value, SkipWs, Items;
    var a, b, d := ItemsParts(c, i, e);
    ValueHead(c, a, b);
    SkipWsIs(c, i, a);
    ItemsMade(c, a, a, b, d, e);
  }

  lemma {:induction false} ItemsEnd(c: string, i: nat, e: nat, depth: nat, done: seq<Json>)
    requires i <= e < |c| && c[e] == ']' && Items(c, i, e) && ReadItems(c, i, depth, done).Ok?
    ensures ReadItems(c, i, depth, done).value.1 == e + 1 && (Strict(c, e + 1) ==> Strict(c, i))
    decreases e - i, 2
  {
    hide ReadValue, SkipWs, Value, After, Items, Ws, Strict;
    var a, b, d := ItemsParts(c, i, e);
    StrictMark(c, d);
    ValueHead(c, a, b);
    SkipWsIs(c, i, a);
    SkipWsIs(c, b, d);
    AfterOk(c, b, d);
    StrictWs(c, i);
    StrictWs(c, b);
    ValueEnd(c, a, b, depth);
    if d < e { ItemsEnd(c, d + 1, e, depth, done + [ReadValue(c, a, depth).value.0]); }
  }

  lemma AfterOk(c: string, b: nat, d: nat)
    requires Ws(c, b, d) && d < |c| && (c[d] == ',' || c[d] == ']' || c[d] == '}')
    ensures After(c, b)
  {
  }

  lemma {:induction false} ObjectEnd(c: string, i: nat, j: nat, depth: nat)
    requires i + 1 < j <= |c| && c[i] == '{' && c[j - 1] == '}' && ReadObject(c, i, depth).Ok?
    requires Ws(c, i + 1, j - 1) || Fields(c, i + 1, j - 1)
    ensures ReadObject(c, i, depth).value.1 == j && (Strict(c, j) ==> Strict(c, i))
    decreases j - 1 - i, 3
  {
    hide ReadFields, SkipWs, Fields, Ws, Strict;
    StrictMark(c, i);
    StrictMark(c, j - 1);
    StrictWs(c, i + 1);
    if Ws(c, i + 1, j - 1) {
      SkipWsIs(c, i + 1, j - 1);
    } else {
      FieldsFrom(c, i + 1, j - 1);
      FieldsEnd(c, SkipWs(c, i + 1), j - 1, depth + 1, []);
    }
  }

  lemma FieldsFrom(c: string, i: nat, e: nat)
    requires i <= e <= |c| && Fields(c, i, e)
    ensures var a := SkipWs(c, i); a < e && c[a] != '}' && Fields(c, a, e)
  {
    hide Value, SkipWs, Name, Fields;
    var a, b, d := FieldsParts(c, i, e);
    NameFrom(c, i, a);
    FieldsMade(c, SkipWs(c, i), a, b, d, e);
  }

  lemma NameFrom(c: string, i: nat, j: nat)
    requires Name(c, i, j)
    ensures j <= |c| && i <= |c| && var a := SkipWs(c, i); a < j && c[a] == '"' && Name(c, a, j)
  {
    hide Text, SkipWs;
    var a, b, e :| i <= a < b <= e < j <= |c| && Ws(c, i, a) && Text(c, a, b) && Ws(c, b, e) && c[e] == ':'
                   && Ws(c, e + 1, j);
    TextStarts(c, a, b);
    SkipWsIs(c, i, a);
    NameMade(c, a, a, b, e, j);
  }

  lemma {:induction false} FieldsEnd(c: string, i: nat, e: nat, depth: nat, done: seq<Field>)
    requires i <= e < |c| && c[e] == '}' && Fields(c, i, e) && ReadFields(c, i, depth, done).Ok?
    ensures ReadFields(c, i, depth, done).value.1 == e + 1 && (Strict(c, e + 1) ==> Strict(c, i))
    decreases e - i, 2
  {
    hide ReadKey, ReadValue, SkipWs, Value, After, Name, Fields, Ws, Inserted, HasKey, Strict;
    var a, b, d := FieldsParts(c, i, e);
    StrictMark(c, d);
    ValueHead(c, a, b);
    KeyRead(c, i);
    SkipWsIs(c, b, d);
    AfterOk(c, b, d);
    StrictWs(c, b);
    ValueEnd(c, a, b, depth);
    if d < e {
      FieldsEnd(c, d + 1, e, depth, Inserted(done, ReadKey(c, i).value.0, ReadValue(c, a, depth).value.0));
    }
  }

  // ------------------------------------------------------------------
  // Documents
  // ------------------------------------------------------------------

  /** A document the reader takes is in the grammar if and only if no numeral in it
      has a leading zero and no string in it a raw control character. */
  lemma AcceptedDocuments(c: string)
    requires Parsed(c).Ok?
    ensures Document(c) <==> Strict(c, 0)
  {
    hide ReadValue, SkipWs, Value, Strict, After, Utf8Length;
    var a := SkipWs(c, 0);
    var b := ReadValue(c, a, 0).value.1;
    Skipped(c, 0);
    Skipped(c, b);
    StrictWs(c, 0);
    if Strict(c, 0) { ValueRead(c, a, 0); }
    if Document(c) {
      var x, y :| 0 <= x < y <= |c| && Ws(c, 0, x) && Value(c, x, y) && Ws(c, y, |c|);
      ValueHead(c, x, y);
      SkipWsIs(c, 0, x);
      SkipWsIs(c, y, |c|);
      AfterEnd(c, y);
      ValueEnd(c, x, y, 0);
      StrictWs(c, y);
      StrictEnd(c);
    }
  }

  lemma AfterEnd(c: string, y: nat)
    requires Ws(c, y, |c|)
    ensures After(c, y)
  {
  }

  lemma StrictEnd(c: string)
    ensures Strict(c, |c|)
  {
  }

  /** Whatever is written is in the grammar, wherever it stands. */
  lemma {:induction false} WrittenValue(v: Json, c: string, i: nat)
    requires At(c, i, Encode(v))
    ensures Value(c, i, i + |Encode(v)|)
    decreases v, 0
  {
    hide Value, EscapeAll, EncodeItems, EncodeFields, Decimal, Items, Fields;
    NoItems();
    match v {
      case Int(n) => WrittenNumeral(v, n, c, i);
      case UInt(n) => WrittenNumeral(v, n, c, i);
      case Str(s) =>
        WrittenString(s, c, i);
        AtChar(c, i, Quoted(s), 0);
        TextValue(c, i, i + |Encode(v)|);
      case Array(items) =>
        var inner := EncodeItems(items);
        Bracketed(c, i, '[', inner, ']');
        if items != [] { WrittenItems(items, c, i + 1); }
        assert |Encode(v)| == |inner| + 2;
        ArrayValue(c, i, i + 2 + |inner|);
      case Object(fields) =>
        var inner := EncodeFields(fields);
        Bracketed(c, i, '{', inner, '}');
        if fields != [] { WrittenFields(fields, c, i + 1); }
        assert |Encode(v)| == |inner| + 2;
        ObjectValue(c, i, i + 2 + |inner|);
      case _ => WordValue(c, i, i + |Encode(v)|);
    }
  }

  lemma NoItems()
    ensures EncodeItems([]) == "" && EncodeFields([]) == ""
  {
  }

  lemma WordValue(c: string, i: nat, j: nat)
    requires i < j <= |c| && (c[i..j] == "null" || c[i..j] == "true" || c[i..j] == "false")
    ensures Value(c, i, j)
  {
    hide Items, Fields, Numeral;
  }

  lemma WrittenNumeral(v: Json, n: int, c: string, i: nat)
    requires (v == Int(n) || v == UInt(n)) && At(c, i, Encode(v))
    ensures Value(c, i, i + |Encode(v)|)
  {
    hide RfcNumber, Numeral, Decimal, Items, Fields;
    WrittenInt(v, n);
    NotEmpty(Encode(v));
    WholeNumeral(Encode(v));
  }

  lemma Bracketed(c: string, i: nat, open: char, inner: string, close: char)
    requires At(c, i, [open] + inner + [close])
    ensures i + |inner| + 1 < |c| && c[i] == open && c[i + 1 + |inner|] == close && At(c, i + 1, inner)
  {
    var t := [open] + inner + [close];
    AtChar(c, i, t, 0);
    AtChar(c, i, t, |t| - 1);
    AtSplit(c, i, [open] + inner, [close]);
    AtSplit(c, i, [open], inner);
  }

  lemma ArrayValue(c: string, i: nat, j: nat)
    requires i + 1 < j <= |c| && c[i] == '[' && c[j - 1] == ']'
    requires Ws(c, i + 1, j - 1) || Items(c, i + 1, j - 1)
    ensures Value(c, i, j)
  {
    hide Items, Fields, Numeral, Ws;
  }

  lemma ObjectValue(c: string, i: nat, j: nat)
    requires i + 1 < j <= |c| && c[i] == '{' && c[j - 1] == '}'
    requires Ws(c, i + 1, j - 1) || Fields(c, i + 1, j - 1)
    ensures Value(c, i, j)
  {
    hide Items, Fields, Numeral, Ws;
  }

  lemma {:induction false} WrittenItems(items: seq<Json>, c: string, i: nat)
    requires items != [] && At(c, i, EncodeItems(items))
    ensures Items(c, i, i + |EncodeItems(items)|)
    decreases items, 1
  {
    hide Encode, EncodeItems, Value, Items, At, Ws;
    var b, e := ItemsAt(items, c, i);
    WrittenValue(items[0], c, i);
    if |items| > 1 { WrittenItems(items[1..], c, b + 1); }
    ItemsMade(c, i, i, b, b, e);
  }

  /** Where the first item of a written list ends, and what follows it. */
  lemma ItemsAt(items: seq<Json>, c: string, i: nat) returns (b: nat, e: nat)
    requires items != [] && At(c, i, EncodeItems(items))
    ensures b == i + |Encode(items[0])| && e == i + |EncodeItems(items)| && i < b <= e <= |c|
    ensures At(c, i, Encode(items[0])) && Ws(c, i, i) && Ws(c, b, b)
    ensures |items| == 1 ==> b == e
    ensures |items| > 1 ==>
              b < |c| && c[b] == ',' && At(c, b + 1, EncodeItems(items[1..])) && e == b + 1 + |EncodeItems(items[1..])|
  {
    hide Encode, EncodeItems, At;
    ItemsJoin(items);
    EncodeHead(items[0]);
    var t := Encode(items[0]);
    var rest := if |items| == 1 then "" else "," + EncodeItems(items[1..]);
    b, e := i + |t|, i + |EncodeItems(items)|;
    AtSplit(c, i, t, rest);
    AtBound(c, i, EncodeItems(items));
    if |items| > 1 {
      AtSplit(c, b, ",", EncodeItems(items[1..]));
      AtBound(c, b, ",");
      AtChar(c, b, ",", 0);
    }
  }

  lemma ItemsJoin(items: seq<Json>)
    requires items != []
    ensures EncodeItems(items) == Encode(items[0]) + (if |items| == 1 then "" else "," + EncodeItems(items[1..]))
  {
    hide Encode;
  }

  lemma {:induction false} WrittenFields(fields: seq<Field>, c: string, i: nat)
    requires fields != [] && At(c, i, EncodeFields(fields))
    ensures Fields(c, i, i + |EncodeFields(fields)|)
    decreases fields, 1
  {
    hide Encode, EncodeFields, Value, Fields, Name, Quoted, At, Ws;
    var a, b, e := FieldsAt(fields, c, i);
    WrittenName(fields[0].key, c, i);
    WrittenValue(fields[0].value, c, a);
    if |fields| > 1 { WrittenFields(fields[1..], c, b + 1); }
    FieldsMade(c, i, a, b, b, e);
  }

  /** Where the first value of written fields starts and ends, and what follows it. */
  lemma FieldsAt(fields: seq<Field>, c: string, i: nat) returns (a: nat, b: nat, e: nat)
    requires fields != [] && At(c, i, EncodeFields(fields))
    ensures a == i + |Quoted(fields[0].key) + ":"| && b == a + |Encode(fields[0].value)|
    ensures e == i + |EncodeFields(fields)| && i <= a < b <= e <= |c|
    ensures At(c, i, Quoted(fields[0].key) + ":") && At(c, a, Encode(fields[0].value)) && Ws(c, b, b)
    ensures |fields| == 1 ==> b == e
    ensures |fields| > 1 ==>
              && b < |c| && c[b] == ',' && At(c, b + 1, EncodeFields(fields[1..]))
              && e == b + 1 + |EncodeFields(fields[1..])|
  {
    hide Encode, EncodeFields, Quoted, At;
    FieldsJoin(fields);
    EncodeHead(fields[0].value);
    var name, t := Quoted(fields[0].key) + ":", Encode(fields[0].value);
    var rest := if |fields| == 1 then "" else "," + EncodeFields(fields[1..]);
    a := i + |name|;
    b, e := a + |t|, i + |EncodeFields(fields)|;
    AtSplit(c, i, name + t, rest);
    AtSplit(c, i, name, t);
    AtBound(c, i, EncodeFields(fields));
    if |fields| > 1 {
      AtSplit(c, b, ",", EncodeFields(fields[1..]));
      AtBound(c, b, ",");
      AtChar(c, b, ",", 0);
    }
  }

  lemma FieldsJoin(fields: seq<Field>)
    requires fields != []
    ensures EncodeFields(fields)
            == (Quoted(fields[0].key) + ":") + Encode(fields[0].value)
               + (if |fields| == 1 then "" else "," + EncodeFields(fields[1..]))
  {
    hide Encode, Quoted;
  }

  lemma WrittenName(k: string, c: string, i: nat)
    requires At(c, i, Quoted(k) + ":")
    ensures Name(c, i, i + |Quoted(k) + ":"|)
  {
    hide RfcChars, EscapeAll;
    AtSplit(c, i, Quoted(k), ":");
    AtChar(c, i, Quoted(k), 0);
    AtChar(c, i + |Quoted(k)|, ":", 0);
    WrittenString(k, c, i);
    var b := i + |Quoted(k)|;
    NameMade(c, i, i, b, b, b + 1);
  }

  /** The text of any value is a document of the grammar. */
  lemma WrittenDocument(v: Json)
    ensures Document(Encode(v))
  {
    hide Encode, Value;
    var c := Encode(v);
    assert c[0..|c|] == c;
    WrittenValue(v, c, 0);
    ValueHead(c, 0, |c|);
    assert Ws(c, 0, 0) && Ws(c, |c|, |c|);
  }
}
