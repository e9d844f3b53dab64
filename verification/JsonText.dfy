/** JSON values, and how `dump` prints them. */
module JsonText {
  import opened Sequences

  /** A byte. */
  type Char = c: char | c as int < 256 witness 'a'

  /** `std::string` */
  type Text = seq<Char>

  const LEAST: int := -0x8000_0000_0000_0000
  const GREATEST: int := 0x7fff_ffff_ffff_ffff

  /** `std::ptrdiff_t` */
  type Integer = n: int | LEAST <= n <= GREATEST

  /** A value with the members of each object in the order in which the map happens to list them. */
  datatype Doc =
    | Null | Bool(b: bool) | Int(n: Integer) | Str(s: Text) | Arr(items: Items) | Obj(members: Members)

  datatype Items = NoItems | Item(value: Doc, rest: Items)

  datatype Members = NoMembers | Member(key: Text, value: Doc, rest: Members)

  /** What the parser builds: objects are maps.  A number that is not an integer stays text here. */
  datatype Value =
    | VNull | VBool(b: bool) | VInt(n: int) | VFloat(text: string) | VStr(s: string)
    | VArr(items: seq<Value>) | VObj(members: map<string, Value>)

  function Val(d: Doc): Value {
    match d
    case Null => VNull
    case Bool(b) => VBool(b)
    case Int(n) => VInt(n)
    case Str(s) => VStr(s)
    case Arr(items) => VArr(Vals(items, []))
    case Obj(members) => VObj(MapOf(members, map[]))
  }

  function Vals(items: Items, before: seq<Value>): seq<Value> {
    match items
    case NoItems => before
    case Item(v, rest) => Vals(rest, before + [Val(v)])
  }

  function MapOf(members: Members, before: map<string, Value>): map<string, Value> {
    match members
    case NoMembers => before
    case Member(k, v, rest) => MapOf(rest, before[k := Val(v)])
  }

  // ---- a map lists its members in any order ----

  function Keys(members: Members): set<string> {
    if members.NoMembers? then {} else {members.key} + Keys(members.rest)
  }

  predicate DistinctKeys(members: Members) {
    members.Member? ==> members.key !in Keys(members.rest) && DistinctKeys(members.rest)
  }

  predicate Lists(members: Members, k: string, v: Value) {
    members.Member? && ((members.key == k && Val(members.value) == v) || Lists(members.rest, k, v))
  }

  lemma {:induction false} MapOfLists(members: Members, before: map<string, Value>, k: string, v: Value)
    requires DistinctKeys(members)
    ensures (k in MapOf(members, before) && MapOf(members, before)[k] == v)
            <==> Lists(members, k, v) || (k !in Keys(members) && k in before && before[k] == v)
  {
    if members.Member? {
      MapOfLists(members.rest, before[members.key := Val(members.value)], k, v);
      ListedIsKey(members.rest, k, v);
    }
  }

  lemma {:induction false} ListedIsKey(members: Members, k: string, v: Value)
    ensures Lists(members, k, v) ==> k in Keys(members)
  {
    if members.Member? {
      ListedIsKey(members.rest, k, v);
    }
  }

  /** Two listings of the same members, each once, are the same object. */
  lemma AnyKeyOrder(m1: Members, m2: Members)
    requires DistinctKeys(m1) && DistinctKeys(m2)
    requires forall k, v :: Lists(m1, k, v) <==> Lists(m2, k, v)
    ensures Val(Obj(m1)) == Val(Obj(m2))
  {
    var a, b := MapOf(m1, map[]), MapOf(m2, map[]);
    forall k: string
      ensures k in a <==> k in b
      ensures k in a && k in b ==> a[k] == b[k]
    {
      if k in a {
        MapOfLists(m1, map[], k, a[k]);
        MapOfLists(m2, map[], k, a[k]);
      }
      if k in b {
        MapOfLists(m1, map[], k, b[k]);
        MapOfLists(m2, map[], k, b[k]);
      }
    }
    assert a == b;
  }

  // ---- strings ----

  /** A byte as a signed `char`. */
  function Signed(c: char): int {
    if c as int < 128 then c as int else c as int - 256
  }

  function HexDigit(n: int): char
    requires 0 <= n < 16
  {
    "0123456789abcdef"[n]
  }

  /** `std::format("{:04x}", n)` for the value of a `char`. */
  function Hex(n: int): string
    requires -128 <= n < 128
  {
    (if n < 0 then "-0" else "00") + var m := if n < 0 then -n else n; [HexDigit(m / 16), HexDigit(m % 16)]
  }

  /** What stands for one character in a dumped string. */
  function EscapeChar(c: Char): string {
    match c
    case '"' => "\\\""
    case '\\' => "\\\\"
    case '\U{8}' => "\\b"
    case '\U{c}' => "\\f"
    case '\n' => "\\n"
    case '\r' => "\\r"
    case '\t' => "\\t"
    case _ => if Signed(c) < 0x20 then "\\u" + Hex(Signed(c)) else [c]
  }

  function EscapeBody(s: Text): string {
    if s == "" then "" else EscapeChar(s[0]) + EscapeBody(s[1..])
  }

  function Escape(s: Text): string { "\"" + EscapeBody(s) + "\"" }

  lemma {:induction false} EscapeJoins(s: Text, t: Text)
    ensures EscapeBody(s + t) == EscapeBody(s) + EscapeBody(t)
  {
    hide EscapeChar;
    if s == "" {
      assert s + t == t;
    } else {
      EscapeJoins(s[1..], t);
      assert (s + t)[1..] == s[1..] + t;
      Associates(EscapeChar(s[0]), EscapeBody(s[1..]), EscapeBody(t));
    }
  }

  lemma EscapeOneMore(s: Text, i: nat)
    requires i < |s|
    ensures EscapeBody(s[..i + 1]) == EscapeBody(s[..i]) + EscapeChar(s[i])
  {
    hide EscapeChar;
    EscapeJoins(s[..i], [s[i]]);
    assert s[..i + 1] == s[..i] + [s[i]];
    assert [s[i]][1..] == [];
  }

  method EscapeString(str: Text) returns (out: string)
    ensures out == Escape(str)
  {
    hide EscapeChar;
    out := "\"";
    var i := 0;
    while i < |str|
      invariant i <= |str| && out == "\"" + EscapeBody(str[..i])
    {
      EscapeOneMore(str, i);
      out := out + EscapeChar(str[i]);
      i := i + 1;
    }
    assert str[..i] == str;
    out := out + "\"";
  }

  // ---- numbers ----

  function Digit(n: int): char
    requires 0 <= n < 10
  {
    "0123456789"[n]
  }

  function Decimal(n: nat): string {
    if n < 10 then [Digit(n)] else Decimal(n / 10) + [Digit(n % 10)]
  }

  /** `std::to_string` */
  function ToString(n: int): string {
    if n < 0 then "-" + Decimal(-n) else Decimal(n)
  }

  // ---- values ----

  function Dump(d: Doc): string {
    match d
    case Null => "null"
    case Bool(b) => if b then "true" else "false"
    case Int(n) => ToString(n)
    case Str(s) => Escape(s)
    case Arr(items) => "[" + DumpItems(items, true) + "]"
    case Obj(members) => "{" + DumpMembers(members, true) + "}"
  }

  /** The elements, with a comma before each but the first. */
  function DumpItems(items: Items, first: bool): string {
    match items
    case NoItems => ""
    case Item(v, rest) => (if first then "" else ",") + Dump(v) + DumpItems(rest, false)
  }

  function DumpMembers(members: Members, first: bool): string {
    match members
    case NoMembers => ""
    case Member(k, v, rest) =>
      (if first then "" else ",") + Escape(k) + ":" + Dump(v) + DumpMembers(rest, false)
  }

  method DumpValue(d: Doc) returns (out: string)
    ensures out == Dump(d)
    decreases d, 1
  {
    match d {
      case Null => out := "null";
      case Bool(b) => out := if b then "true" else "false";
      case Int(n) => out := ToString(n);
      case Str(s) => out := EscapeString(s);
      case Arr(items) => out := DumpArray(items);
      case Obj(members) => out := DumpObject(members);
    }
  }

  /** One more element, or one more member, behind what has been printed. */
  lemma ItemsStep(out: string, v: Doc, rest: Items, first: bool)
    ensures out + DumpItems(Item(v, rest), first)
            == (out + (if first then "" else ",") + Dump(v)) + DumpItems(rest, false)
  {
    hide Dump;
  }

  lemma MembersStep(out: string, k: Text, v: Doc, rest: Members, first: bool)
    ensures out + DumpMembers(Member(k, v, rest), first)
            == (out + (if first then "" else ",") + Escape(k) + ":" + Dump(v)) + DumpMembers(rest, false)
  {
    hide Dump, Escape;
  }

  method DumpArray(items: Items) returns (out: string)
    ensures out == "[" + DumpItems(items, true) + "]"
    decreases items, 0
  {
    hide Dump;
    out := "[";
    var first, left := true, items;
    while left.Item?
      invariant left == items || left < items
      invariant out + DumpItems(left, first) == "[" + DumpItems(items, true)
      decreases left
    {
      ItemsStep(out, left.value, left.rest, first);
      if !first {
        out := out + ",";
      }
      first := false;
      var elem := DumpValue(left.value);
      out := out + elem;
      left := left.rest;
    }
    out := out + "]";
  }

  method DumpObject(members: Members) returns (out: string)
    ensures out == "{" + DumpMembers(members, true) + "}"
    decreases members, 0
  {
    hide Escape, Dump;
    out := "{";
    var first, left := true, members;
    while left.Member?
      invariant left == members || left < members
      invariant out + DumpMembers(left, first) == "{" + DumpMembers(members, true)
      decreases left
    {
      MembersStep(out, left.key, left.value, left.rest, first);
      if !first {
        out := out + ",";
      }
      first := false;
      var key := EscapeString(left.key);
      out := out + key;
      out := out + ":";
      var value := DumpValue(left.value);
      out := out + value;
      left := left.rest;
    }
    out := out + "}";
  }
}
