/** The writer and the parser as they run (src/json.rs, `write`, `escape` and
    `Parser`): a buffer that grows, a cursor and a depth counter that move. */
module JsonParser {
  import opened Prelude
  import opened Json

  // ------------------------------------------------------------------
  // Writing
  // ------------------------------------------------------------------

  method WriteEscaped(s: string, out: string) returns (res: string)
    ensures res == out + Quoted(s)
  {
    hide Escape;
    res := out + "\"";
    assert s[0..] == s;
    for k := 0 to |s|
      invariant res + EscapeAll(s[k..]) == out + "\"" + EscapeAll(s)
    {
      assert s[k..][0] == s[k] && s[k..][1..] == s[k + 1..];
      res := res + Escape(s[k]);
    }
    assert s[|s|..] == "" && res + "" == res;
    res := res + "\"";
    Joined(out, "\"", EscapeAll(s), "\"");
    assert "\"" + (EscapeAll(s) + "\"") == Quoted(s);
  }

  /** What is left to write of a list from item `k` on. */
  function ItemsLeft(items: seq<Json>, k: nat): string
    requires k <= |items|
  {
    if k == |items| then "" else (if k == 0 then "" else ",") + EncodeItems(items[k..])
  }

  function FieldsLeft(fields: seq<Field>, k: nat): string
    requires k <= |fields|
  {
    if k == |fields| then "" else (if k == 0 then "" else ",") + EncodeFields(fields[k..])
  }

  lemma ItemLeft(items: seq<Json>, k: nat)
    requires k < |items|
    ensures ItemsLeft(items, k) == (if k == 0 then "" else ",") + (Encode(items[k]) + ItemsLeft(items, k + 1))
  {
    hide Encode;
    var later := items[k..];
    assert later[1..] == items[k + 1..];
    if |later| == 1 { assert Encode(later[0]) + "" == Encode(later[0]); }
  }

  lemma FieldLeft(fields: seq<Field>, k: nat)
    requires k < |fields|
    ensures FieldsLeft(fields, k) ==
            (if k == 0 then "" else ",")
            + (Quoted(fields[k].key) + (":" + (Encode(fields[k].value) + FieldsLeft(fields, k + 1))))
  {
    hide Encode, Quoted;
    var later := fields[k..];
    assert later[1..] == fields[k + 1..];
    var q, e, rest := Quoted(later[0].key), Encode(later[0].value), FieldsLeft(fields, k + 1);
    Joined(q, ":", e, rest);
    assert EncodeFields(later) == q + ":" + e + rest;
  }

  lemma Joined(a: string, b: string, c: string, d: string)
    ensures a + b + c + d == a + (b + (c + d))
  {
  }

  method Write(v: Json, out: string) returns (res: string)
    ensures res == out + Encode(v)
    decreases v
  {
    hide Quoted, Decimal, EncodeItems, EncodeFields, ItemsLeft, FieldsLeft;
    match v
    case Null => res := out + "null";
    case Bool(b) => res := out + if b then "true" else "false";
    case Int(n) => res := out + Decimal(n);
    case UInt(n) => res := out + Decimal(n);
    case Str(s) => res := WriteEscaped(s, out);
    case Array(items) =>
      res := out + "[";
      LeftItems(items);
      for k := 0 to |items|
        invariant res + ItemsLeft(items, k) == out + "[" + EncodeItems(items)
      {
        ItemWritten(items, k, res);
        if k > 0 { res := res + ","; }
        res := Write(items[k], res);
      }
      Closed(out, res, "[", EncodeItems(items), "]");
      res := res + "]";
    case Object(fields) =>
      res := out + "{";
      LeftFields(fields);
      for k := 0 to |fields|
        invariant res + FieldsLeft(fields, k) == out + "{" + EncodeFields(fields)
      {
        FieldWritten(fields, k, res);
        if k > 0 { res := res + ","; }
        res := WriteEscaped(fields[k].key, res);
        res := res + ":";
        res := Write(fields[k].value, res);
      }
      Closed(out, res, "{", EncodeFields(fields), "}");
      res := res + "}";
  }

  lemma Closed(out: string, res: string, open: string, inner: string, close: string)
    requires res + "" == out + open + inner
    ensures res + close == out + (open + inner + close)
  {
    assert res == res + "";
    Joined(out, open, inner, close);
    assert open + (inner + close) == open + inner + close;
  }

  lemma ItemWritten(items: seq<Json>, k: nat, out: string)
    requires k < |items|
    ensures var start := if k == 0 then out else out + ",";
            start + Encode(items[k]) + ItemsLeft(items, k + 1) == out + ItemsLeft(items, k)
  {
    hide Encode, ItemsLeft;
    ItemLeft(items, k);
    Joined(out, if k == 0 then "" else ",", Encode(items[k]), ItemsLeft(items, k + 1));
    assert out + "" == out;
  }

  lemma FieldWritten(fields: seq<Field>, k: nat, out: string)
    requires k < |fields|
    ensures var start := if k == 0 then out else out + ",";
            start + Quoted(fields[k].key) + ":" + Encode(fields[k].value) + FieldsLeft(fields, k + 1)
            == out + FieldsLeft(fields, k)
  {
    hide Encode, FieldsLeft, Quoted;
    FieldLeft(fields, k);
    var comma := if k == 0 then "" else ",";
    var q, e, rest := Quoted(fields[k].key), Encode(fields[k].value), FieldsLeft(fields, k + 1);
    Joined(out, comma, q, ":" + (e + rest));
    Joined(out + comma + q, ":", e, rest);
    assert out + "" == out;
  }

  lemma LeftItems(items: seq<Json>)
    ensures ItemsLeft(items, 0) == EncodeItems(items) && ItemsLeft(items, |items|) == ""
  {
    hide EncodeItems;
    assert items[0..] == items;
    NothingLeft();
  }

  lemma LeftFields(fields: seq<Field>)
    ensures FieldsLeft(fields, 0) == EncodeFields(fields) && FieldsLeft(fields, |fields|) == ""
  {
    hide EncodeFields;
    assert fields[0..] == fields;
    NothingLeft();
  }

  lemma NothingLeft()
    ensures EncodeFields([]) == "" && EncodeItems([]) == ""
  {
  }

  // ------------------------------------------------------------------
  // Reading
  // ------------------------------------------------------------------

  class Parser {
    const c: string
    var i: nat
    var depth: nat

    constructor (c: string)
      ensures this.c == c && i == 0 && depth == 0
    {
      this.c := c;
      i := 0;
      depth := 0;
    }

    method Skip()
      requires i <= |c|
      modifies this`i
      ensures i == SkipWs(c, old(i)) <= |c|
    {
      while i < |c| && IsSpace(c[i])
        invariant i <= |c| && SkipWs(c, i) == SkipWs(c, old(i))
      {
        i := i + 1;
      }
    }

    method Take(e: char) returns (res: Result<(), JsonError>)
      requires i <= |c|
      modifies this`i
      ensures i <= |c|
      ensures match Expect(c, old(i), e) case Ok(j) => res.Ok? && i == j case Err(x) => res == Err(x)
    {
      if i == |c| { return Err(UnexpectedEnd); }
      if c[i] != e { return Err(UnexpectedChar(i, c[i])); }
      i := i + 1;
      return Ok(());
    }

    method TakeWord(word: string) returns (res: Result<(), JsonError>)
      requires i <= |c|
      modifies this`i
      ensures i <= |c|
      ensures match Literal(c, old(i), word) case Ok(j) => res.Ok? && i == j case Err(x) => res == Err(x)
    {
      assert word[0..] == word;
      for k := 0 to |word|
        invariant i <= |c| && Literal(c, i, word[k..]) == Literal(c, old(i), word)
      {
        assert word[k..][0] == word[k] && word[k..][1..] == word[k + 1..];
        var took := Take(word[k]);
        if took.Err? { return Err(took.error); }
      }
      return Ok(());
    }

    /** The code of a `u` escape. */
    method Hex4() returns (res: Result<nat, JsonError>)
      requires i <= |c|
      modifies this`i
      ensures i <= |c|
      ensures match Hex(c, old(i), 4, 0) case Ok((code, j)) => res == Ok(code) && i == j case Err(x) => res == Err(x)
    {
      var code := 0;
      for k := 0 to 4
        invariant i <= |c| && Hex(c, i, 4 - k, code) == Hex(c, old(i), 4, 0)
      {
        if i == |c| { return Err(UnexpectedEnd); }
        var h := c[i];
        i := i + 1;
        var d := HexValue(h);
        if d.None? { return Err(InvalidEscape); }
        code := code * 16 + d.value;
      }
      return Ok(code);
    }

    method TakeUnicode() returns (res: Result<char, JsonError>)
      requires i <= |c|
      modifies this`i
      ensures i <= |c|
      ensures match UnicodeEscape(c, old(i)) case Ok((ch, j)) => res == Ok(ch) && i == j case Err(x) => res == Err(x)
    {
      hide Hex;
      var first := Hex4();
      if first.Err? { return Err(first.error); }
      var code := first.value;
      if 0xD800 <= code <= 0xDBFF {
        if i == |c| { return Err(UnexpectedEnd); }
        if c[i] != '\\' { return Err(InvalidEscape); }
        i := i + 1;
        if i == |c| { return Err(UnexpectedEnd); }
        if c[i] != 'u' { return Err(InvalidEscape); }
        i := i + 1;
        var second := Hex4();
        if second.Err? { return Err(second.error); }
        var low := second.value;
        if !(0xDC00 <= low <= 0xDFFF) { return Err(InvalidEscape); }
        var v := 0x10000 + (code - 0xD800) * 1024 + (low - 0xDC00);
        if !IsScalar(v) { return Err(InvalidEscape); }
        return Ok(v as char);
      }
      if 0xDC00 <= code <= 0xDFFF || !IsScalar(code) { return Err(InvalidEscape); }
      return Ok(code as char);
    }

    method TakeString() returns (res: Result<string, JsonError>)
      requires i <= |c|
      modifies this`i
      ensures i <= |c|
      ensures match ReadString(c, old(i)) case Ok((s, j)) => res == Ok(s) && i == j case Err(x) => res == Err(x)
    {
      hide UnicodeEscape, Hex;
      var quote := Take('"');
      if quote.Err? { return Err(quote.error); }
      var s := "";
      while true
        invariant i <= |c| && Chars(c, i, s) == Chars(c, old(i) + 1, "")
        decreases |c| - i
      {
        if i == |c| { return Err(UnexpectedEnd); }
        var ch := c[i];
        i := i + 1;
        if ch == '"' {
          return Ok(s);
        } else if ch == '\\' {
          if i == |c| { return Err(UnexpectedEnd); }
          var e := c[i];
          i := i + 1;
          if e == 'u' {
            var u := TakeUnicode();
            if u.Err? { return Err(u.error); }
            s := s + [u.value];
          } else {
            match e
            case '"' => s := s + ['"'];
            case '\\' => s := s + ['\\'];
            case '/' => s := s + ['/'];
            case 'n' => s := s + ['\n'];
            case 'r' => s := s + ['\r'];
            case 't' => s := s + ['\t'];
            case 'b' => s := s + [8 as char];
            case 'f' => s := s + [12 as char];
            case _ => return Err(InvalidEscape);
          }
        } else {
          s := s + [ch];
        }
      }
    }

    method TakeNumber() returns (res: Result<Json, JsonError>)
      requires i < |c| && (c[i] == '-' || IsDigit(c[i]))
      modifies this`i
      ensures i <= |c|
      ensures match ReadNumber(c, old(i)) case Ok((v, j)) => res == Ok(v) && i == j case Err(x) => res == Err(x)
    {
      hide NumberOf;
      var start := i;
      if c[i] == '-' { i := i + 1; }
      ghost var from := i;
      while i < |c| && IsDigit(c[i])
        invariant from <= i <= |c| && SkipDigits(c, i) == SkipDigits(c, from)
      {
        i := i + 1;
      }
      if i < |c| && (c[i] == '.' || c[i] == 'e' || c[i] == 'E') { return Err(InvalidNumber); }
      res := NumberOf(c[start..i]);
    }

    /** A successful reading moves the cursor forward and leaves the depth as it was. */
    method TakeValue() returns (res: Result<Json, JsonError>)
      requires i <= |c|
      modifies this
      ensures i <= |c|
      ensures match ReadValue(c, old(i), old(depth))
              case Ok((v, j)) => res == Ok(v) && i == j && depth == old(depth)
              case Err(x) => res == Err(x)
      decreases |c| - i, 2
    {
      hide Literal, ReadString, ReadNumber, ReadArray, ReadObject;
      if depth > MAX_DEPTH { return Err(NestingTooDeep); }
      if i == |c| { return Err(UnexpectedEnd); }
      var ch := c[i];
      if ch == 'n' {
        var took := TakeWord("null");
        return if took.Ok? then Ok(Null) else Err(took.error);
      } else if ch == 't' {
        var took := TakeWord("true");
        return if took.Ok? then Ok(Bool(true)) else Err(took.error);
      } else if ch == 'f' {
        var took := TakeWord("false");
        return if took.Ok? then Ok(Bool(false)) else Err(took.error);
      } else if ch == '"' {
        var s := TakeString();
        return if s.Ok? then Ok(Str(s.value)) else Err(s.error);
      } else if ch == '[' {
        res := TakeArray();
      } else if ch == '{' {
        res := TakeObject();
      } else if ch == '-' || IsDigit(ch) {
        res := TakeNumber();
      } else {
        return Err(UnexpectedChar(i, ch));
      }
    }

    method TakeArray() returns (res: Result<Json, JsonError>)
      requires i < |c| && c[i] == '['
      modifies this
      ensures i <= |c|
      ensures match ReadArray(c, old(i), old(depth))
              case Ok((v, j)) => res == Ok(v) && i == j && depth == old(depth)
              case Err(x) => res == Err(x)
      decreases |c| - i, 1
    {
      hide ReadValue, SkipWs;
      i := i + 1;
      depth := depth + 1;
      var v := [];
      Skip();
      if i == |c| { return Err(UnexpectedEnd); }
      if c[i] == ']' {
        i := i + 1;
        depth := depth - 1;
        return Ok(Array(v));
      }
      while true
        invariant old(i) < i <= |c| && depth == old(depth) + 1
        invariant ReadItems(c, i, depth, v) == ReadArray(c, old(i), old(depth))
        decreases |c| - i
      {
        Skip();
        var item := TakeValue();
        if item.Err? { return Err(item.error); }
        v := v + [item.value];
        Skip();
        if i == |c| { return Err(UnexpectedEnd); }
        if c[i] == ',' {
          i := i + 1;
        } else if c[i] == ']' {
          i := i + 1;
          depth := depth - 1;
          return Ok(Array(v));
        } else {
          return Err(UnexpectedChar(i, c[i]));
        }
      }
    }

    /** A key and its colon. */
    method TakeKey() returns (res: Result<string, JsonError>)
      requires i <= |c|
      modifies this`i
      ensures i <= |c|
      ensures match ReadKey(c, old(i)) case Ok((k, j)) => res == Ok(k) && i == j case Err(x) => res == Err(x)
    {
      hide SkipWs, ReadString;
      Skip();
      res := TakeString();
      if res.Err? { return; }
      Skip();
      var colon := Take(':');
      if colon.Err? { return Err(colon.error); }
      Skip();
    }

    method TakeObject() returns (res: Result<Json, JsonError>)
      requires i < |c| && c[i] == '{'
      modifies this
      ensures i <= |c|
      ensures match ReadObject(c, old(i), old(depth))
              case Ok((v, j)) => res == Ok(v) && i == j && depth == old(depth)
              case Err(x) => res == Err(x)
      decreases |c| - i, 1
    {
      hide ReadValue, SkipWs, ReadKey, Inserted, HasKey;
      i := i + 1;
      depth := depth + 1;
      var m := [];
      Skip();
      if i == |c| { return Err(UnexpectedEnd); }
      if c[i] == '}' {
        i := i + 1;
        depth := depth - 1;
        return Ok(Object(m));
      }
      while true
        invariant old(i) < i <= |c| && depth == old(depth) + 1
        invariant ReadFields(c, i, depth, m) == ReadObject(c, old(i), old(depth))
        decreases |c| - i
      {
        var k := TakeKey();
        if k.Err? { return Err(k.error); }
        var v := TakeValue();
        if v.Err? { return Err(v.error); }
        if HasKey(m, k.value) { return Err(DuplicateKey(k.value)); }
        m := Inserted(m, k.value, v.value);
        Skip();
        if i == |c| { return Err(UnexpectedEnd); }
        if c[i] == ',' {
          i := i + 1;
        } else if c[i] == '}' {
          i := i + 1;
          depth := depth - 1;
          return Ok(Object(m));
        } else {
          return Err(UnexpectedChar(i, c[i]));
        }
      }
    }
  }

  /** Parses a document. */
  method Parse(input: string) returns (res: Result<Json, JsonError>)
    ensures res == Parsed(input)
  {
    hide ReadValue, Utf8Length;
    if Utf8Length(input) > MAX_INPUT { return Err(DocumentTooLarge); }
    var p := new Parser(input);
    p.Skip();
    var v := p.TakeValue();
    if v.Err? { return Err(v.error); }
    p.Skip();
    if p.i != |p.c| { return Err(TrailingBytes); }
    return Ok(v.value);
  }
}
