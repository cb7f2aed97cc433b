/** JSON without floating point (src/json.rs; RFC 8259): values, their text, and
    the reading of any text, as functions. */
module Json {
  import opened Prelude

  const MAX_DEPTH: nat := 32
  const MAX_INPUT: nat := 1024 * 1024
  const I64_MAX: int := 0x7fff_ffff_ffff_ffff
  const I64_MIN: int := -0x8000_0000_0000_0000
  const U64_MAX: int := 0xffff_ffff_ffff_ffff

  /** An object is its entries in the order of their keys. */
  datatype Json =
    | Null
    | Bool(b: bool)
    | Int(v: int)
    | UInt(v: int)
    | Str(s: string)
    | Array(items: seq<Json>)
    | Object(fields: seq<Field>)

  datatype Field = Field(key: string, value: Json)

  datatype JsonError =
    | DocumentTooLarge
    | NestingTooDeep
    | UnexpectedChar(position: nat, found: char)
    | UnexpectedEnd
    | InvalidNumber
    | InvalidEscape
    | TrailingBytes
    | DuplicateKey(key: string)

  // ------------------------------------------------------------------
  // Writing
  // ------------------------------------------------------------------

  function Digit(d: nat): char
    requires d < 10
  {
    ('0' as int + d) as char
  }

  function Digits(n: nat): (t: string)
    ensures |t| > 0
  {
    if n < 10 then [Digit(n)] else Digits(n / 10) + [Digit(n % 10)]
  }

  function Decimal(v: int): string {
    if v < 0 then "-" + Digits(-v) else Digits(v)
  }

  function HexDigit(d: nat): char
    requires d < 16
  {
    if d < 10 then ('0' as int + d) as char else ('a' as int + d - 10) as char
  }

  function Escape(c: char): string {
    if c == '"' then "\\\""
    else if c == '\\' then "\\\\"
    else if c == '\n' then "\\n"
    else if c == '\r' then "\\r"
    else if c == '\t' then "\\t"
    else if c as int == 8 then "\\b"
    else if c as int == 12 then "\\f"
    else if c as int < 32 then "\\u00" + [HexDigit(c as int / 16), HexDigit(c as int % 16)]
    else if c == '<' then "\\u003c"
    else if c == '>' then "\\u003e"
    else if c == '/' then "\\u002f"
    else if c as int == 0x2028 then "\\u2028"
    else if c as int == 0x2029 then "\\u2029"
    else [c]
  }

  function EscapeAll(s: string): string {
    if s == "" then "" else Escape(s[0]) + EscapeAll(s[1..])
  }

  function Quoted(s: string): string { "\"" + EscapeAll(s) + "\"" }

  function Encode(v: Json): string {
    match v
    case Null => "null"
    case Bool(b) => if b then "true" else "false"
    case Int(n) => Decimal(n)
    case UInt(n) => Decimal(n)
    case Str(s) => Quoted(s)
    case Array(items) => "[" + EncodeItems(items) + "]"
    case Object(fields) => "{" + EncodeFields(fields) + "}"
  }

  function EncodeItems(items: seq<Json>): string {
    if items == [] then ""
    else Encode(items[0]) + (if |items| == 1 then "" else "," + EncodeItems(items[1..]))
  }

  function EncodeFields(fields: seq<Field>): string {
    if fields == [] then ""
    else
      Quoted(fields[0].key) + ":" + Encode(fields[0].value)
      + (if |fields| == 1 then "" else "," + EncodeFields(fields[1..]))
  }

  // ------------------------------------------------------------------
  // Reading, character by character
  // ------------------------------------------------------------------

  predicate IsSpace(c: char) { c == ' ' || c == '\t' || c == '\n' || c == '\r' }

  predicate IsDigit(c: char) { '0' <= c <= '9' }

  function SkipWs(c: string, i: nat): (j: nat)
    requires i <= |c|
    ensures i <= j <= |c|
    ensures j < |c| ==> !IsSpace(c[j])
    ensures i < |c| && !IsSpace(c[i]) ==> j == i
    decreases |c| - i
  {
    if i < |c| && IsSpace(c[i]) then SkipWs(c, i + 1) else i
  }

  function Expect(c: string, i: nat, e: char): (r: Result<nat, JsonError>)
    requires i <= |c|
    ensures r.Ok? ==> r.value == i + 1 <= |c| && c[i] == e
  {
    if i == |c| then Err(UnexpectedEnd) else if c[i] != e then Err(UnexpectedChar(i, c[i])) else Ok(i + 1)
  }

  function Literal(c: string, i: nat, word: string): (r: Result<nat, JsonError>)
    requires i <= |c|
    ensures r.Ok? ==> r.value == i + |word| <= |c|
    decreases |word|
  {
    if word == "" then Ok(i)
    else
      match Expect(c, i, word[0])
      case Err(e) => Err(e)
      case Ok(j) => Literal(c, j, word[1..])
  }

  /** The value of a hexadecimal digit. */
  function HexValue(c: char): Option<nat> {
    if '0' <= c <= '9' then Some(c as int - '0' as int)
    else if 'a' <= c <= 'f' then Some(c as int - 'a' as int + 10)
    else if 'A' <= c <= 'F' then Some(c as int - 'A' as int + 10)
    else None
  }

  function Hex(c: string, i: nat, left: nat, code: nat): (r: Result<(nat, nat), JsonError>)
    requires i <= |c|
    ensures r.Ok? ==> r.value.1 == i + left <= |c|
    decreases left
  {
    if left == 0 then Ok((code, i))
    else if i == |c| then Err(UnexpectedEnd)
    else
      match HexValue(c[i])
      case None => Err(InvalidEscape)
      case Some(h) => Hex(c, i + 1, left - 1, code * 16 + h)
  }

  predicate IsScalar(code: nat) { code < 0xD800 || 0xE000 <= code <= 0x10FFFF }

  /** A character escaped with `u`, perhaps as a pair. */
  function UnicodeEscape(c: string, i: nat): (r: Result<(char, nat), JsonError>)
    requires i <= |c|
    ensures r.Ok? ==> i < r.value.1 <= |c|
  {
    match Hex(c, i, 4, 0)
    case Err(e) => Err(e)
    case Ok((code, j)) =>
      if 0xD800 <= code <= 0xDBFF then
        if j == |c| then Err(UnexpectedEnd)
        else if c[j] != '\\' then Err(InvalidEscape)
        else if j + 1 == |c| then Err(UnexpectedEnd)
        else if c[j + 1] != 'u' then Err(InvalidEscape)
        else
          match Hex(c, j + 2, 4, 0)
          case Err(e) => Err(e)
          case Ok((low, k)) =>
            if !(0xDC00 <= low <= 0xDFFF) then Err(InvalidEscape)
            else
              var v := 0x10000 + (code - 0xD800) * 1024 + (low - 0xDC00);
              if IsScalar(v) then Ok((v as char, k)) else Err(InvalidEscape)
      else if 0xDC00 <= code <= 0xDFFF then Err(InvalidEscape)
      else if IsScalar(code) then Ok((code as char, j))
      else Err(InvalidEscape)
  }

  /** What follows a backslash. */
  function Escaped(c: string, i: nat): (r: Result<(char, nat), JsonError>)
    requires i <= |c|
    ensures r.Ok? ==> i < r.value.1 <= |c|
  {
    if i == |c| then Err(UnexpectedEnd)
    else if c[i] == '"' then Ok(('"', i + 1))
    else if c[i] == '\\' then Ok(('\\', i + 1))
    else if c[i] == '/' then Ok(('/', i + 1))
    else if c[i] == 'n' then Ok(('\n', i + 1))
    else if c[i] == 'r' then Ok(('\r', i + 1))
    else if c[i] == 't' then Ok(('\t', i + 1))
    else if c[i] == 'b' then Ok((8 as char, i + 1))
    else if c[i] == 'f' then Ok((12 as char, i + 1))
    else if c[i] == 'u' then UnicodeEscape(c, i + 1)
    else Err(InvalidEscape)
  }

  /** Characters up to the closing quote, after those in `done`. */
  function Chars(c: string, i: nat, done: string): (r: Result<(string, nat), JsonError>)
    requires i <= |c|
    ensures r.Ok? ==> i < r.value.1 <= |c|
    decreases |c| - i
  {
    if i == |c| then Err(UnexpectedEnd)
    else if c[i] == '"' then Ok((done, i + 1))
    else if c[i] == '\\' then
      match Escaped(c, i + 1)
      case Err(e) => Err(e)
      case Ok((ch, j)) => Chars(c, j, done + [ch])
    else Chars(c, i + 1, done + [c[i]])
  }

  function ReadString(c: string, i: nat): (r: Result<(string, nat), JsonError>)
    requires i <= |c|
    ensures r.Ok? ==> i < r.value.1 <= |c|
  {
    match Expect(c, i, '"')
    case Err(e) => Err(e)
    case Ok(j) => Chars(c, j, "")
  }

  function SkipDigits(c: string, i: nat): (j: nat)
    requires i <= |c|
    ensures i <= j <= |c|
    ensures i < |c| && IsDigit(c[i]) ==> i < j
    decreases |c| - i
  {
    if i < |c| && IsDigit(c[i]) then SkipDigits(c, i + 1) else i
  }

  /** The value of a string of digits; none for an empty one. */
  function DigitsValue(t: string): Option<nat> {
    if t == "" then None
    else if !IsDigit(Last(t)) then None
    else
      var d := Last(t) as int - '0' as int;
      if |t| == 1 then Some(d)
      else
        match DigitsValue(Front(t))
        case None => None
        case Some(n) => Some(10 * n + d)
  }

  /** A signed integer if it fits, else an unsigned one if it fits. */
  function NumberOf(text: string): Result<Json, JsonError> {
    if text != "" && text[0] == '-' then
      match DigitsValue(text[1..])
      case None => Err(InvalidNumber)
      case Some(n) => if n <= -I64_MIN then Ok(Int(-(n as int))) else Err(InvalidNumber)
    else
      match DigitsValue(text)
      case None => Err(InvalidNumber)
      case Some(n) => if n <= I64_MAX then Ok(Int(n)) else if n <= U64_MAX then Ok(UInt(n)) else Err(InvalidNumber)
  }

  function ReadNumber(c: string, i: nat): (r: Result<(Json, nat), JsonError>)
    requires i < |c| && (c[i] == '-' || IsDigit(c[i]))
    ensures r.Ok? ==> i < r.value.1 <= |c|
  {
    var j := SkipDigits(c, if c[i] == '-' then i + 1 else i);
    if j < |c| && (c[j] == '.' || c[j] == 'e' || c[j] == 'E') then Err(InvalidNumber)
    else
      match NumberOf(c[i..j])
      case Err(e) => Err(e)
      case Ok(v) => Ok((v, j))
  }

  // ------------------------------------------------------------------
  // Reading values
  // ------------------------------------------------------------------

  /** The order of characters, first difference first. */
  predicate Less(a: string, b: string) {
    if a == "" || b == "" then a == "" && b != ""
    else if a[0] != b[0] then a[0] < b[0]
    else Less(a[1..], b[1..])
  }

  predicate HasKey(fields: seq<Field>, k: string) {
    exists i | 0 <= i < |fields| :: fields[i].key == k
  }

  /** A new entry takes its place in the order of keys. */
  function Inserted(fields: seq<Field>, k: string, v: Json): seq<Field> {
    if fields == [] || Less(Last(fields).key, k) then fields + [Field(k, v)]
    else Inserted(Front(fields), k, v) + [Last(fields)]
  }

  function ReadValue(c: string, i: nat, depth: nat): (r: Result<(Json, nat), JsonError>)
    requires i <= |c|
    ensures r.Ok? ==> i < r.value.1 <= |c|
    decreases |c| - i, 2
  {
    if depth > MAX_DEPTH then Err(NestingTooDeep)
    else if i == |c| then Err(UnexpectedEnd)
    else if c[i] == 'n' then Word(c, i, "null", Null)
    else if c[i] == 't' then Word(c, i, "true", Bool(true))
    else if c[i] == 'f' then Word(c, i, "false", Bool(false))
    else if c[i] == '"' then
      match ReadString(c, i)
      case Err(e) => Err(e)
      case Ok((s, j)) => Ok((Str(s), j))
    else if c[i] == '[' then ReadArray(c, i, depth)
    else if c[i] == '{' then ReadObject(c, i, depth)
    else if c[i] == '-' || IsDigit(c[i]) then ReadNumber(c, i)
    else Err(UnexpectedChar(i, c[i]))
  }

  function Word(c: string, i: nat, word: string, v: Json): (r: Result<(Json, nat), JsonError>)
    requires i <= |c| && word != ""
    ensures r.Ok? ==> i < r.value.1 <= |c|
  {
    match Literal(c, i, word)
    case Err(e) => Err(e)
    case Ok(j) => Ok((v, j))
  }

  function ReadArray(c: string, i: nat, depth: nat): (r: Result<(Json, nat), JsonError>)
    requires i < |c|
    ensures r.Ok? ==> i < r.value.1 <= |c|
    decreases |c| - i, 1
  {
    var j := SkipWs(c, i + 1);
    if j == |c| then Err(UnexpectedEnd)
    else if c[j] == ']' then Ok((Array([]), j + 1))
    else ReadItems(c, j, depth + 1, [])
  }

  /** The items left to read, after those in `done`. */
  function ReadItems(c: string, i: nat, depth: nat, done: seq<Json>): (r: Result<(Json, nat), JsonError>)
    requires i <= |c|
    ensures r.Ok? ==> i < r.value.1 <= |c|
    decreases |c| - i, 3
  {
    match ReadValue(c, SkipWs(c, i), depth)
    case Err(e) => Err(e)
    case Ok((v, after)) =>
      var j := SkipWs(c, after);
      if j == |c| then Err(UnexpectedEnd)
      else if c[j] == ',' then ReadItems(c, j + 1, depth, done + [v])
      else if c[j] == ']' then Ok((Array(done + [v]), j + 1))
      else Err(UnexpectedChar(j, c[j]))
  }

  function ReadObject(c: string, i: nat, depth: nat): (r: Result<(Json, nat), JsonError>)
    requires i < |c|
    ensures r.Ok? ==> i < r.value.1 <= |c|
    decreases |c| - i, 1
  {
    var j := SkipWs(c, i + 1);
    if j == |c| then Err(UnexpectedEnd)
    else if c[j] == '}' then Ok((Object([]), j + 1))
    else ReadFields(c, j, depth + 1, [])
  }

  /** The key of a field and where its value starts. */
  function ReadKey(c: string, i: nat): (r: Result<(string, nat), JsonError>)
    requires i <= |c|
    ensures r.Ok? ==> i < r.value.1 <= |c|
  {
    match ReadString(c, SkipWs(c, i))
    case Err(e) => Err(e)
    case Ok((k, after)) =>
      match Expect(c, SkipWs(c, after), ':')
      case Err(e) => Err(e)
      case Ok(j) => Ok((k, SkipWs(c, j)))
  }

  /** The fields left to read, after those in `done`. */
  function ReadFields(c: string, i: nat, depth: nat, done: seq<Field>): (r: Result<(Json, nat), JsonError>)
    requires i <= |c|
    ensures r.Ok? ==> i < r.value.1 <= |c|
    decreases |c| - i, 3
  {
    match ReadKey(c, i)
    case Err(e) => Err(e)
    case Ok((k, at)) =>
      match ReadValue(c, at, depth)
      case Err(e) => Err(e)
      case Ok((v, after)) =>
        if HasKey(done, k) then Err(DuplicateKey(k))
        else
          var j := SkipWs(c, after);
          if j == |c| then Err(UnexpectedEnd)
          else if c[j] == ',' then ReadFields(c, j + 1, depth, Inserted(done, k, v))
          else if c[j] == '}' then Ok((Object(Inserted(done, k, v)), j + 1))
          else Err(UnexpectedChar(j, c[j]))
  }

  function Utf8Length(s: string): nat {
    if s == "" then 0
    else
      Utf8Length(Front(s)) +
      (var c := Last(s) as int; if c < 0x80 then 1 else if c < 0x800 then 2 else if c < 0x10000 then 3 else 4)
  }

  /** The value of a document, or why it is not one. */
  function Parsed(input: string): Result<Json, JsonError> {
    if Utf8Length(input) > MAX_INPUT then Err(DocumentTooLarge)
    else
      match ReadValue(input, SkipWs(input, 0), 0)
      case Err(e) => Err(e)
      case Ok((v, j)) => if SkipWs(input, j) != |input| then Err(TrailingBytes) else Ok(v)
  }
}
