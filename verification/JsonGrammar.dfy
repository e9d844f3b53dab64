/** What the JSON parser accepts and builds, as functions on the remaining text; JsonParser is the
    parser itself.  Anything it accepts beyond RFC 8259 (vertical tab and form feed as white space)
    and short of it (`\u` escapes) is in here. */
module JsonGrammar {
  import opened JsonText

  /** A value and what follows it, or the message of `bad_json`. */
  datatype Result<T> = Ok(value: T, rest: string) | Bad(why: string)

  /** `std::isspace` in the C locale */
  predicate IsSpace(c: char) { c in " \t\n\U{b}\U{c}\r" }

  predicate IsDigit(c: char) { '0' <= c <= '9' }

  function SkipSpace(s: string): (r: string)
    ensures |r| <= |s| && (r != "" ==> !IsSpace(r[0]))
  {
    if s != "" && IsSpace(s[0]) then SkipSpace(s[1..]) else s
  }

  function Word(s: string, word: string, v: Value): (r: Result<Value>)
    ensures r.Ok? ==> |r.rest| == |s| - |word|
  {
    if word <= s then Ok(v, s[|word|..]) else Bad("expected `" + word + "` isn't complete")
  }

  // ---- numbers ----

  /** How many digits `s` starts with. */
  function Digits(s: string): (n: nat)
    ensures n <= |s| && forall i | 0 <= i < n :: IsDigit(s[i])
  {
    if s != "" && IsDigit(s[0]) then 1 + Digits(s[1..]) else 0
  }

  function NatOf(s: string): nat
    requires forall i | 0 <= i < |s| :: IsDigit(s[i])
  {
    if s == "" then 0 else assert IsDigit(s[|s| - 1]); 10 * NatOf(s[..|s| - 1]) + (s[|s| - 1] as int - '0' as int)
  }

  /** The end of the sign and the integer part. */
  function IntegerPart(s: string): (r: Result<int>)
    ensures r.Ok? ==> 0 < r.value <= |s| && r.rest == s[r.value..]
    ensures r.Ok? ==> forall i | (if s[0] == '-' then 1 else 0) <= i < r.value :: IsDigit(s[i])
  {
    var i := if s != "" && s[0] == '-' then 1 else 0;
    if |s| == i then Bad("invalid number")
    else if s[i] == '0' then
      if i + 1 < |s| && IsDigit(s[i + 1]) then Bad("leading zeros are not allowed") else Ok(i + 1, s[i + 1..])
    else if '1' <= s[i] <= '9' then
      assert IsDigit(s[i..][0]);
      var n := Digits(s[i..]);
      assert forall k | i <= k < i + n :: s[k] == s[i..][k - i];
      Ok(i + n, s[i + n..])
    else Bad("invalid number")
  }

  /** The end of a fraction that starts at `i`, if one does. */
  function Fraction(s: string, i: nat): (r: Result<int>)
    requires i <= |s|
    ensures r.Ok? ==> i <= r.value <= |s| && r.rest == s[r.value..]
  {
    if i < |s| && s[i] == '.' then
      var n := Digits(s[i + 1..]);
      if n == 0 then Bad("fractional part requires at least one digit") else Ok(i + 1 + n, s[i + 1 + n..])
    else Ok(i, s[i..])
  }

  function Exponent(s: string, i: nat): (r: Result<int>)
    requires i <= |s|
    ensures r.Ok? ==> i <= r.value <= |s| && r.rest == s[r.value..]
  {
    if i < |s| && (s[i] == 'e' || s[i] == 'E') then
      var j := if i + 1 < |s| && (s[i + 1] == '+' || s[i + 1] == '-') then i + 2 else i + 1;
      var n := Digits(s[j..]);
      if n == 0 then Bad("exponent requires at least one digit") else Ok(j + n, s[j + n..])
    else Ok(i, s[i..])
  }

  /** `std::from_chars` for an integer. */
  function IntegerOf(s: string): int
    requires s != "" && forall i | (if s[0] == '-' then 1 else 0) <= i < |s| :: IsDigit(s[i])
  {
    var n: int := NatOf(if s[0] == '-' then s[1..] else s);
    if s[0] == '-' then -n else n
  }

  function Number(s: string): (r: Result<Value>)
    ensures r.Ok? ==> |r.rest| < |s|
  {
    match IntegerPart(s)
    case Bad(why) => Bad(why)
    case Ok(i, _) =>
      match Fraction(s, i)
      case Bad(why) => Bad(why)
      case Ok(j, _) =>
        match Exponent(s, j)
        case Bad(why) => Bad(why)
        case Ok(k, rest) =>
          if k == i then
            var n := IntegerOf(s[..i]);
            if LEAST <= n <= GREATEST then Ok(VInt(n), rest) else Bad("invalid integer")
          else Ok(VFloat(s[..k]), rest)
  }

  // ---- strings ----

  /** The character behind a backslash, or the message. */
  function Unescape(c: char): Result<char> {
    match c
    case '"' => Ok('"', "")
    case '\\' => Ok('\\', "")
    case '/' => Ok('/', "")
    case 'b' => Ok('\U{8}', "")
    case 'f' => Ok('\U{c}', "")
    case 'n' => Ok('\n', "")
    case 'r' => Ok('\r', "")
    case 't' => Ok('\t', "")
    case 'u' => Bad("unsupported unicode escape sequence")
    case _ => Bad("invalid escape sequence")
  }

  /** Up to and past the closing quote, appended to what has been read. */
  function Chars(s: string, read: string): (r: Result<string>)
    ensures r.Ok? ==> |r.rest| < |s|
    decreases |s|
  {
    if s == "" then Bad("unexpected end of string")
    else if s[0] == '"' then Ok(read, s[1..])
    else if s[0] as int < 0x20 then Bad("control characters must be escaped")
    else if s[0] == '\\' then
      if |s| == 1 then Bad("unexpected end of string")
      else
        match Unescape(s[1])
        case Bad(why) => Bad(why)
        case Ok(c, _) => Chars(s[2..], read + [c])
    else Chars(s[1..], read + [s[0]])
  }

  /** `get_` throws at the end of the input. */
  function String(s: string): (r: Result<string>)
    ensures r.Ok? ==> |r.rest| < |s|
  {
    if s == "" then Bad("unexpected end of input")
    else if s[0] != '"' then Bad("expected string")
    else Chars(s[1..], "")
  }

  // ---- values ----

  function ParseValue(text: string): (r: Result<Value>)
    ensures r.Ok? ==> |r.rest| < |text|
    decreases |text|, 2
  {
    var s := SkipSpace(text);
    if s == "" then Bad("unexpected end of input")
    else if s[0] == 'n' then Word(s, "null", VNull)
    else if s[0] == 't' then Word(s, "true", VBool(true))
    else if s[0] == 'f' then Word(s, "false", VBool(false))
    else if s[0] == '"' then
      match String(s)
      case Ok(t, rest) => Ok(VStr(t), rest)
      case Bad(why) => Bad(why)
    else if s[0] == '[' then ParseArray(s)
    else if s[0] == '{' then ParseObject(s)
    else if IsDigit(s[0]) || s[0] == '-' then Number(s)
    else Bad("invalid json")
  }

  function ParseArray(s: string): (r: Result<Value>)
    requires s != ""
    ensures r.Ok? ==> |r.rest| < |s|
    decreases |s|, 1
  {
    var t := SkipSpace(s[1..]);
    if t == "" then Bad("unexpected end of array")
    else if t[0] == ']' then Ok(VArr([]), SkipSpace(t[1..]))
    else Elements(t, [])
  }

  /** The elements from here on, behind those that have been read. */
  function Elements(s: string, read: seq<Value>): (r: Result<Value>)
    ensures r.Ok? ==> |r.rest| < |s|
    decreases |s|, 3
  {
    match ParseValue(s)
    case Bad(why) => Bad(why)
    case Ok(v, after) => MoreElements(after, read + [v])
  }

  /** After an element: the end of the array, or a comma and the next. */
  function MoreElements(s: string, read: seq<Value>): (r: Result<Value>)
    ensures r.Ok? ==> |r.rest| < |s|
    decreases |s|, 4
  {
    var t := SkipSpace(s);
    if t == "" then Bad("unexpected end of array")
    else if t[0] == ']' then Ok(VArr(read), SkipSpace(t[1..]))
    else if t[0] != ',' then Bad("expected comma in array")
    else
      var u := SkipSpace(t[1..]);
      if u == "" then Bad("unexpected end of array")
      else if u[0] == ']' then Bad("trailing comma in array")
      else Elements(u, read)
  }

  function ParseObject(s: string): (r: Result<Value>)
    requires s != ""
    ensures r.Ok? ==> |r.rest| < |s|
    decreases |s|, 1
  {
    var t := SkipSpace(s[1..]);
    if t == "" then Bad("unexpected end of object")
    else if t[0] == '}' then Ok(VObj(map[]), SkipSpace(t[1..]))
    else Entries(t, map[])
  }

  function Entries(s: string, read: map<string, Value>): (r: Result<Value>)
    ensures r.Ok? ==> |r.rest| < |s|
    decreases |s|, 3
  {
    if s == "" then Bad("unexpected end of input")
    else if s[0] != '"' then Bad("expected string key")
    else
      match String(s)
      case Bad(why) => Bad(why)
      case Ok(key, after) => AfterKey(after, key, read)
  }

  /** After a key: a colon and the value. */
  function AfterKey(s: string, key: string, read: map<string, Value>): (r: Result<Value>)
    ensures r.Ok? ==> |r.rest| < |s|
    decreases |s|, 3
  {
    var colon := SkipSpace(s);
    if colon == "" then Bad("unexpected end of input")
    else if colon[0] != ':' then Bad("expected colon in object")
    else
      match ParseValue(SkipSpace(colon[1..]))
      case Bad(why) => Bad(why)
      case Ok(v, end) => MoreEntries(end, read[key := v])
  }

  /** After a member: the end of the object, or a comma and the next. */
  function MoreEntries(s: string, read: map<string, Value>): (r: Result<Value>)
    ensures r.Ok? ==> |r.rest| < |s|
    decreases |s|, 4
  {
    var t := SkipSpace(s);
    if t == "" then Bad("unexpected end of object")
    else if t[0] == '}' then Ok(VObj(read), SkipSpace(t[1..]))
    else if t[0] != ',' then Bad("expected comma in object")
    else
      var u := SkipSpace(t[1..]);
      if u == "" then Bad("unexpected end of object")
      else if u[0] == '}' then Bad("trailing comma in object")
      else Entries(u, read)
  }

  /** `parse` */
  function Parse(text: string): Result<Value> {
    match ParseValue(text)
    case Bad(why) => Bad(why)
    case Ok(v, after) =>
      if SkipSpace(after) == "" then Ok(v, "") else Bad("can't parse a complete value")
  }
}
