/** Parsing what was dumped: exactly when it gives the value back, in whatever order the members are
    listed and whatever white space is put between the tokens. */
module JsonRoundTrip {
  import opened Sequences
  import opened JsonText
  import opened JsonGrammar

  /** The characters that survive: what is not escaped as `\u`, which the parser does not support.
      A byte from 0x80 on counts as negative where `char` is signed. */
  predicate Spellable(c: Char) {
    0x20 <= c as int < 0x80 || c in "\U{8}\U{c}\n\r\t"
  }

  predicate Spelled(s: Text) {
    forall i | 0 <= i < |s| :: Spellable(s[i])
  }

  predicate SpelledDoc(d: Doc) {
    match d
    case Str(s) => Spelled(s)
    case Arr(items) => SpelledItems(items)
    case Obj(members) => SpelledMembers(members)
    case _ => true
  }

  predicate SpelledItems(items: Items) {
    items.Item? ==> SpelledDoc(items.value) && SpelledItems(items.rest)
  }

  predicate SpelledMembers(members: Members) {
    members.Member? ==> Spelled(members.key) && SpelledDoc(members.value) && SpelledMembers(members.rest)
  }

  // ---- the text with white space between its tokens ----

  /** What stands in each gap, by its address in the document. */
  type Gaps = seq<nat> -> string

  predicate Blank(s: string) {
    forall i | 0 <= i < |s| :: IsSpace(s[i])
  }

  ghost predicate AllBlank(g: Gaps) {
    forall a :: Blank(g(a))
  }

  lemma GapIsBlank(g: Gaps, a: seq<nat>)
    requires AllBlank(g)
    ensures Blank(g(a))
  {
  }

  /** The text of `d` followed by `k`. */
  function Print(d: Doc, g: Gaps, a: seq<nat>, k: string): string {
    match d
    case Null => "null" + k
    case Bool(b) => (if b then "true" else "false") + k
    case Int(n) => ToString(n) + k
    case Str(s) => PrintString(s, k)
    case Arr(items) => "[" + (g(a + [0]) + PrintItems(items, g, a + [1], k))
    case Obj(members) => "{" + (g(a + [0]) + PrintMembers(members, g, a + [1], k))
  }

  function PrintItems(items: Items, g: Gaps, a: seq<nat>, k: string): string {
    match items
    case NoItems => "]" + k
    case Item(v, rest) =>
      Print(v, g, a + [0],
            g(a + [1]) + if rest.NoItems? then "]" + k else "," + (g(a + [2]) + PrintItems(rest, g, a + [3], k)))
  }

  function PrintMembers(members: Members, g: Gaps, a: seq<nat>, k: string): string {
    match members
    case NoMembers => "}" + k
    case Member(key, v, rest) =>
      var end := g(a + [3]) + if rest.NoMembers? then "}" + k
                              else "," + (g(a + [4]) + PrintMembers(rest, g, a + [5], k));
      PrintString(key, g(a + [0]) + (":" + (g(a + [1]) + Print(v, g, a + [2], end))))
  }

  function PrintString(s: Text, k: string): string { "\"" + PrintBody(s, "\"" + k) }

  function PrintBody(s: Text, k: string): string {
    if s == [] then k else EscapeChar(s[0]) + PrintBody(s[1..], k)
  }

  /** A whole text, with white space around it as well. */
  function Spaced(d: Doc, g: Gaps): string { g([0]) + Print(d, g, [1], g([2])) }

  // ---- white space ----

  lemma {:induction false} SkipBlank(b: string, s: string)
    requires Blank(b)
    ensures SkipSpace(b + s) == SkipSpace(s)
  {
    if b == "" {
      assert b + s == s;
    } else {
      assert IsSpace(b[0]);
      assert (b + s)[1..] == b[1..] + s;
      SkipBlank(b[1..], s);
    }
  }

  // ---- strings ----

  /** A character that is escaped by one letter, printed as it is, or escaped by a number. */
  lemma LetterParses(c: Char, t: string, read: string)
    requires |EscapeChar(c)| == 2
    ensures Spellable(c) && Chars(EscapeChar(c) + t, read) == Chars(t, read + [c])
  {
    hide Chars;
    assert EscapeChar(c)[0] == '\\' && Unescape(EscapeChar(c)[1]) == Ok(c as char, "");
    EscapedParses(EscapeChar(c)[1], c, t, read);
    assert EscapeChar(c) == ['\\', EscapeChar(c)[1]];
  }

  lemma EscapedParses(letter: char, c: char, t: string, read: string)
    requires Unescape(letter) == Ok(c, "")
    ensures Chars(['\\', letter] + t, read) == Chars(t, read + [c])
  {
    hide Unescape;
    assert (['\\', letter] + t)[2..] == t;
  }

  lemma PlainParses(c: Char, t: string, read: string)
    requires |EscapeChar(c)| == 1
    ensures Spellable(c) && Chars(EscapeChar(c) + t, read) == Chars(t, read + [c])
  {
    assert ([c] + t)[1..] == t;
  }

  lemma NumberedParses(c: Char, t: string, read: string)
    requires |EscapeChar(c)| > 2
    ensures !Spellable(c) && Chars(EscapeChar(c) + t, read).Bad?
  {
    var s := EscapeChar(c) + t;
    assert s[0] == '\\' && s[1] == 'u';
  }

  lemma CharParses(c: Char, t: string, read: string)
    ensures if Spellable(c) then Chars(EscapeChar(c) + t, read) == Chars(t, read + [c])
            else Chars(EscapeChar(c) + t, read).Bad?
  {
    hide Chars, Spellable;
    if |EscapeChar(c)| == 2 {
      LetterParses(c, t, read);
    } else if |EscapeChar(c)| == 1 {
      PlainParses(c, t, read);
    } else {
      NumberedParses(c, t, read);
    }
  }

  lemma {:induction false} BodyParses(s: Text, k: string, read: string)
    ensures if Spelled(s) then Chars(PrintBody(s, "\"" + k), read) == Ok(read + s, k)
            else Chars(PrintBody(s, "\"" + k), read).Bad?
  {
    hide Spellable, EscapeChar;
    if s == [] {
      assert ("\"" + k)[1..] == k && read + s == read;
    } else {
      CharParses(s[0], PrintBody(s[1..], "\"" + k), read);
      BodyParses(s[1..], k, read + [s[0]]);
      assert read + [s[0]] + s[1..] == read + s;
      assert s == [s[0]] + s[1..];
    }
  }

  lemma StringParses(s: Text, k: string)
    ensures if Spelled(s) then String(PrintString(s, k)) == Ok(s, k) else String(PrintString(s, k)).Bad?
  {
    BodyParses(s, k, "");
    assert PrintString(s, k)[1..] == PrintBody(s, "\"" + k);
    assert "" + s == s;
  }

  // ---- numbers ----

  /** What may follow an integer without being taken for a part of it. */
  predicate EndsNumber(k: string) {
    k != "" ==> !IsDigit(k[0]) && k[0] !in ".eE"
  }

  lemma {:induction false} DecimalIs(n: nat)
    ensures var s := Decimal(n);
      && s != "" && (forall i | 0 <= i < |s| :: IsDigit(s[i])) && NatOf(s) == n
      && (s[0] == '0' ==> n == 0 && |s| == 1)
  {
    if n >= 10 {
      DecimalIs(n / 10);
      var s := Decimal(n);
      assert s[..|s| - 1] == Decimal(n / 10);
    } else {
      assert Decimal(n)[..0] == "";
    }
  }

  lemma {:induction false} DigitsOf(s: string, k: string)
    requires (forall i | 0 <= i < |s| :: IsDigit(s[i])) && (k != "" ==> !IsDigit(k[0]))
    ensures Digits(s + k) == |s|
  {
    if s == "" {
      assert s + k == k;
    } else {
      assert (s + k)[1..] == s[1..] + k;
      DigitsOf(s[1..], k);
    }
  }

  lemma IntegerPartOf(s: string, sign: string, d: string, k: string)
    requires sign in {"", "-"} && s == sign + d && (k != "" ==> !IsDigit(k[0]))
    requires d != "" && (forall i | 0 <= i < |d| :: IsDigit(d[i])) && (d[0] == '0' ==> |d| == 1)
    ensures IntegerPart(s + k) == Ok(|s|, k)
  {
    hide Digits;
    DigitsOf(d, k);
    var i := |sign|;
    assert (s + k)[i..] == d + k && (s + k)[|s|..] == k && (s + k)[i] == d[0] && IsDigit(d[0]);
  }

  lemma IntegerPrinted(n: int, k: string)
    requires EndsNumber(k)
    ensures var s := ToString(n); IntegerPart(s + k) == Ok(|s|, k)
  {
    hide IntegerPart, NatOf;
    DecimalIs(if n < 0 then -n else n);
    if n < 0 {
      IntegerPartOf(ToString(n), "-", Decimal(-n), k);
    } else {
      assert ToString(n) == "" + Decimal(n);
      IntegerPartOf(ToString(n), "", Decimal(n), k);
    }
  }

  lemma NumberParses(n: Integer, k: string)
    requires EndsNumber(k)
    ensures Number(ToString(n) + k) == Ok(VInt(n), k)
  {
    hide IntegerPart, Digits, Decimal, NatOf;
    var s := ToString(n);
    IntegerPrinted(n, k);
    IntegerRead(n);
    assert (s + k)[..|s|] == s && (s + k)[|s|..] == k;
  }

  lemma IntegerRead(n: int)
    ensures var s := ToString(n);
      && s != "" && (forall i | (if s[0] == '-' then 1 else 0) <= i < |s| :: IsDigit(s[i]))
      && IntegerOf(s) == n
  {
    DecimalIs(if n < 0 then -n else n);
    if n < 0 {
      assert ToString(n)[1..] == Decimal(-n);
    }
  }

  // ---- values ----

  /** Arrays and objects take the white space behind them along. */
  function Behind(d: Doc, k: string): string {
    if d.Arr? || d.Obj? then SkipSpace(k) else k
  }

  /** No text of a value starts with white space or a closing bracket. */
  lemma PrintStarts(d: Doc, g: Gaps, a: seq<nat>, k: string)
    ensures var s := Print(d, g, a, k); s != "" && !IsSpace(s[0]) && s[0] !in "]},"
  {
    if d.Int? {
      IntegerRead(d.n);
      assert IsDigit(ToString(d.n)[0]) || ToString(d.n)[0] == '-';
    }
  }

  lemma AtomParses(d: Doc, g: Gaps, a: seq<nat>, k: string)
    requires !d.Arr? && !d.Obj? && (d.Int? ==> EndsNumber(k))
    ensures if SpelledDoc(d) then ParseValue(Print(d, g, a, k)) == Ok(Val(d), k)
            else ParseValue(Print(d, g, a, k)).Bad?
  {
    hide Number, String;
    PrintStarts(d, g, a, k);
    match d {
      case Null => assert ("null" + k)[4..] == k;
      case Bool(b) => assert ("true" + k)[4..] == k && ("false" + k)[5..] == k;
      case Int(n) =>
        NumberParses(n, k);
        IntegerRead(n);
        assert IsDigit(ToString(n)[0]) || ToString(n)[0] == '-';
      case Str(s) => StringParses(s, k);
    }
  }

  lemma CommaSkipped(before: string, after: string, more: string)
    requires Blank(before) && Blank(after) && more != "" && !IsSpace(more[0])
    ensures var t := SkipSpace(before + ("," + (after + more)));
      t != "" && t[0] == ',' && SkipSpace(t[1..]) == more
  {
    var next := "," + (after + more);
    SkipBlank(before, next);
    assert next[1..] == after + more;
    SkipBlank(after, more);
  }

  /** Past the opening bracket and the white space behind it. */
  lemma ArrayOpens(gap: string, t: string)
    requires Blank(gap) && t != "" && !IsSpace(t[0])
    ensures ParseValue("[" + (gap + t)) == if t[0] == ']' then Ok(VArr([]), SkipSpace(t[1..])) else Elements(t, [])
  {
    hide Elements, ParseObject, Number, String, Word;
    var s := "[" + (gap + t);
    assert s[1..] == gap + t;
    SkipBlank(gap, t);
  }

  lemma ObjectOpens(gap: string, t: string)
    requires Blank(gap) && t != "" && !IsSpace(t[0])
    ensures ParseValue("{" + (gap + t)) == if t[0] == '}' then Ok(VObj(map[]), SkipSpace(t[1..])) else Entries(t, map[])
  {
    hide Entries, ParseArray, Number, String, Word;
    var s := "{" + (gap + t);
    assert s[1..] == gap + t;
    SkipBlank(gap, t);
  }

  lemma {:induction false} ValueParses(d: Doc, g: Gaps, a: seq<nat>, k: string)
    requires AllBlank(g) && (d.Int? ==> EndsNumber(k))
    ensures if SpelledDoc(d) then ParseValue(Print(d, g, a, k)) == Ok(Val(d), Behind(d, k))
            else ParseValue(Print(d, g, a, k)).Bad?
    decreases d, 0
  {
    hide ParseValue, Elements, Entries;
    match d {
      case Arr(items) =>
        if items.Item? {
          ItemsParse(items, g, a + [1], k, []);
        } else {
          assert ("]" + k)[1..] == k;
        }
        ArrayOpens(g(a + [0]), PrintItems(items, g, a + [1], k));
      case Obj(members) =>
        if members.Member? {
          MembersParse(members, g, a + [1], k, map[]);
        } else {
          assert ("}" + k)[1..] == k;
        }
        ObjectOpens(g(a + [0]), PrintMembers(members, g, a + [1], k));
      case _ => AtomParses(d, g, a, k);
    }
  }

  /** What stands behind an element. */
  function BehindItem(rest: Items, g: Gaps, a: seq<nat>, k: string): string {
    g(a + [1]) + if rest.NoItems? then "]" + k else "," + (g(a + [2]) + PrintItems(rest, g, a + [3], k))
  }

  lemma {:induction false} ItemsParse(items: Items, g: Gaps, a: seq<nat>, k: string, read: seq<Value>)
    requires AllBlank(g) && items.Item?
    ensures var s := PrintItems(items, g, a, k);
      && s != "" && !IsSpace(s[0]) && s[0] != ']'
      && if SpelledItems(items) then Elements(s, read) == Ok(VArr(Vals(items, read)), SkipSpace(k))
         else Elements(s, read).Bad?
    decreases items, 0
  {
    hide ParseValue, MoreElements;
    var v, rest, end := items.value, items.rest, BehindItem(items.rest, g, a, k);
    PrintStarts(v, g, a + [0], end);
    ItemEnds(rest, g, a, k);
    ValueParses(v, g, a + [0], end);
    if SpelledDoc(v) {
      MoreItemsParse(rest, g, a, k, read + [Val(v)], Behind(v, end));
    }
  }

  lemma ItemEnds(rest: Items, g: Gaps, a: seq<nat>, k: string)
    requires AllBlank(g)
    ensures EndsNumber(BehindItem(rest, g, a, k))
  {
    var gap := g(a + [1]);
    assert gap != "" ==> IsSpace(gap[0]);
  }

  lemma {:induction false} MoreItemsParse(rest: Items, g: Gaps, a: seq<nat>, k: string, read: seq<Value>, s: string)
    requires AllBlank(g) && SkipSpace(s) == SkipSpace(BehindItem(rest, g, a, k))
    ensures if SpelledItems(rest) then MoreElements(s, read) == Ok(VArr(Vals(rest, read)), SkipSpace(k))
            else MoreElements(s, read).Bad?
    decreases rest, 1
  {
    hide Elements;
    if rest.NoItems? {
      SkipBlank(g(a + [1]), "]" + k);
      assert ("]" + k)[1..] == k;
    } else {
      ItemsParse(rest, g, a + [3], k, read);
      CommaSkipped(g(a + [1]), g(a + [2]), PrintItems(rest, g, a + [3], k));
    }
  }

  function BehindMember(rest: Members, g: Gaps, a: seq<nat>, k: string): string {
    g(a + [3]) + if rest.NoMembers? then "}" + k else "," + (g(a + [4]) + PrintMembers(rest, g, a + [5], k))
  }

  /** What stands behind a key. */
  function BehindKey(v: Doc, rest: Members, g: Gaps, a: seq<nat>, k: string): string {
    g(a + [0]) + (":" + (g(a + [1]) + Print(v, g, a + [2], BehindMember(rest, g, a, k))))
  }

  lemma {:induction false} MembersParse(members: Members, g: Gaps, a: seq<nat>, k: string, read: map<string, Value>)
    requires AllBlank(g) && members.Member?
    ensures var s := PrintMembers(members, g, a, k);
      && s != "" && s[0] == '"'
      && if SpelledMembers(members) then Entries(s, read) == Ok(VObj(MapOf(members, read)), SkipSpace(k))
         else Entries(s, read).Bad?
    decreases members, 1
  {
    hide String, AfterKey;
    StringParses(members.key, BehindKey(members.value, members.rest, g, a, k));
    if Spelled(members.key) {
      KeyParses(members, g, a, k, read);
    }
  }

  lemma {:induction false} KeyParses(members: Members, g: Gaps, a: seq<nat>, k: string, read: map<string, Value>)
    requires AllBlank(g) && members.Member?
    ensures var key, v, rest := members.key, members.value, members.rest;
      var s := BehindKey(v, rest, g, a, k);
      if SpelledDoc(v) && SpelledMembers(rest)
      then AfterKey(s, key, read) == Ok(VObj(MapOf(rest, read[key := Val(v)])), SkipSpace(k))
      else AfterKey(s, key, read).Bad?
    decreases members, 0
  {
    hide ParseValue, MoreEntries, AllBlank, Print, MapOf;
    GapIsBlank(g, a + [0]);
    GapIsBlank(g, a + [1]);
    var key, v, rest := members.key, members.value, members.rest;
    var end := BehindMember(rest, g, a, k);
    var value := Print(v, g, a + [2], end);
    var colon := ":" + (g(a + [1]) + value);
    SkipBlank(g(a + [0]), colon);
    assert colon[1..] == g(a + [1]) + value;
    SkipBlank(g(a + [1]), value);
    PrintStarts(v, g, a + [2], end);
    MemberEnds(rest, g, a, k);
    ValueParses(v, g, a + [2], end);
    if SpelledDoc(v) {
      MoreMembersParse(rest, g, a, k, read[key := Val(v)], Behind(v, end));
    }
  }

  lemma MemberEnds(rest: Members, g: Gaps, a: seq<nat>, k: string)
    requires AllBlank(g)
    ensures EndsNumber(BehindMember(rest, g, a, k))
  {
    var gap := g(a + [3]);
    assert gap != "" ==> IsSpace(gap[0]);
  }

  lemma {:induction false} MoreMembersParse(rest: Members, g: Gaps, a: seq<nat>, k: string, read: map<string, Value>,
                                            s: string)
    requires AllBlank(g) && SkipSpace(s) == SkipSpace(BehindMember(rest, g, a, k))
    ensures if SpelledMembers(rest) then MoreEntries(s, read) == Ok(VObj(MapOf(rest, read)), SkipSpace(k))
            else MoreEntries(s, read).Bad?
    decreases rest, 2
  {
    hide Entries, PrintMembers, AllBlank;
    GapIsBlank(g, a + [3]);
    if rest.NoMembers? {
      SkipBlank(g(a + [3]), "}" + k);
      assert ("}" + k)[1..] == k;
    } else {
      GapIsBlank(g, a + [4]);
      MembersParse(rest, g, a + [5], k, read);
      CommaSkipped(g(a + [3]), g(a + [4]), PrintMembers(rest, g, a + [5], k));
    }
  }

  // ---- the theorems ----

  /** With any white space between the tokens, the text of a value parses to that value, exactly when
      all its strings and keys are spelled with characters that survive. */
  lemma SpacedParses(d: Doc, g: Gaps)
    requires AllBlank(g)
    ensures Parse(Spaced(d, g)) == Ok(Val(d), "") <==> SpelledDoc(d)
    ensures Parse(Spaced(d, g)).Ok? <==> SpelledDoc(d)
  {
    hide ParseValue, Print, SpelledDoc;
    var text := Print(d, g, [1], g([2]));
    SkipBlank(g([0]), text);
    SkipBlank(g([2]), "");
    assert g([2]) + "" == g([2]);
    assert g([2]) != "" ==> IsSpace(g([2])[0]);
    ValueParses(d, g, [1], g([2]));
    PrintStarts(d, g, [1], g([2]));
    SameValue(Spaced(d, g), text);
  }

  /** White space in front of a value does not matter. */
  lemma SameValue(s: string, t: string)
    requires SkipSpace(s) == SkipSpace(t)
    ensures ParseValue(s) == ParseValue(t)
  {
  }

  // ---- dump ----

  function NoGaps(): Gaps { (a: seq<nat>) => "" }

  lemma {:induction false} BodyPrinted(s: Text, k: string)
    ensures EscapeBody(s) + k == PrintBody(s, k)
  {
    hide EscapeChar;
    if s != [] {
      BodyPrinted(s[1..], k);
      Associates(EscapeChar(s[0]), EscapeBody(s[1..]), k);
    } else {
      assert "" + k == k;
    }
  }

  lemma EscapePrinted(s: Text, k: string)
    ensures Escape(s) + k == PrintString(s, k)
  {
    BodyPrinted(s, "\"" + k);
    Associates("\"", EscapeBody(s), "\"");
    Associates("\"", EscapeBody(s) + "\"", k);
    Associates(EscapeBody(s), "\"", k);
  }

  /** `dump` is the text without any white space. */
  lemma {:induction false} DumpPrinted(d: Doc, a: seq<nat>, k: string)
    ensures Dump(d) + k == Print(d, NoGaps(), a, k)
    decreases d, 1
  {
    hide Dump, Print;
    match d {
      case Arr(items) =>
        ItemsPrinted(items, true, a + [1], k);
        ArrayPrinted(items, a, k);
      case Obj(members) =>
        MembersPrinted(members, true, a + [1], k);
        ObjectPrinted(members, a, k);
      case _ => AtomPrinted(d, a, k);
    }
  }

  lemma AtomPrinted(d: Doc, a: seq<nat>, k: string)
    requires !d.Arr? && !d.Obj?
    ensures Dump(d) + k == Print(d, NoGaps(), a, k)
  {
    hide Escape, PrintString, ToString;
    if d.Str? {
      EscapePrinted(d.s, k);
    }
  }

  lemma ArrayPrinted(items: Items, a: seq<nat>, k: string)
    requires DumpItems(items, true) + ("]" + k) == "" + PrintItems(items, NoGaps(), a + [1], k)
    ensures Dump(Arr(items)) + k == Print(Arr(items), NoGaps(), a, k)
  {
    hide DumpItems, PrintItems;
    Bracketed("[", DumpItems(items, true), "]", k, PrintItems(items, NoGaps(), a + [1], k));
  }

  lemma ObjectPrinted(members: Members, a: seq<nat>, k: string)
    requires DumpMembers(members, true) + ("}" + k) == "" + PrintMembers(members, NoGaps(), a + [1], k)
    ensures Dump(Obj(members)) + k == Print(Obj(members), NoGaps(), a, k)
  {
    hide DumpMembers, PrintMembers;
    Bracketed("{", DumpMembers(members, true), "}", k, PrintMembers(members, NoGaps(), a + [1], k));
  }

  lemma Bracketed(open: string, body: string, close: string, k: string, printed: string)
    requires body + (close + k) == "" + printed
    ensures (open + body + close) + k == open + ("" + printed)
  {
    assert (open + body + close) + k == open + (body + (close + k));
  }

  lemma {:induction false} ItemsPrinted(items: Items, first: bool, a: seq<nat>, k: string)
    ensures DumpItems(items, first) + ("]" + k)
            == (if first || items.NoItems? then "" else ",") + PrintItems(items, NoGaps(), a, k)
    decreases items, 0
  {
    hide Dump, Print;
    match items {
      case NoItems =>
      case Item(v, rest) =>
        var end := DumpItems(rest, false) + ("]" + k);
        ItemsPrinted(rest, false, a + [3], k);
        DumpPrinted(v, a + [0], end);
        Associates(if first then "" else ",", Dump(v), DumpItems(rest, false));
        Listed(if first then "" else ",", Dump(v), DumpItems(rest, false), "]" + k);
        assert end == "" + if rest.NoItems? then "]" + k else "," + ("" + PrintItems(rest, NoGaps(), a + [3], k));
    }
  }

  lemma Listed(comma: string, v: string, rest: string, k: string)
    ensures (comma + v + rest) + k == comma + (v + (rest + k))
  {
  }

  lemma {:induction false} MembersPrinted(members: Members, first: bool, a: seq<nat>, k: string)
    ensures DumpMembers(members, first) + ("}" + k)
            == (if first || members.NoMembers? then "" else ",") + PrintMembers(members, NoGaps(), a, k)
    decreases members, 0
  {
    hide Dump, Print, Escape, PrintString;
    match members {
      case NoMembers =>
      case Member(key, v, rest) =>
        var end := DumpMembers(rest, false) + ("}" + k);
        MembersPrinted(rest, false, a + [5], k);
        DumpPrinted(v, a + [2], end);
        var value := ":" + ("" + (Dump(v) + end));
        EscapePrinted(key, "" + value);
        ListedMember(if first then "" else ",", Escape(key), Dump(v), DumpMembers(rest, false), "}" + k);
        assert end == "" + if rest.NoMembers? then "}" + k
                           else "," + ("" + PrintMembers(rest, NoGaps(), a + [5], k));
    }
  }

  lemma ListedMember(comma: string, key: string, v: string, rest: string, k: string)
    ensures (comma + key + ":" + v + rest) + k == comma + (key + ("" + (":" + ("" + (v + (rest + k))))))
  {
  }

  /** `parse(dump(v)) == v` exactly when the strings and keys of `v` consist of the characters from
      0x20 to 0x7f and of backspace, form feed, line feed, carriage return and tab. */
  lemma DumpParses(d: Doc)
    ensures Parse(Dump(d)) == Ok(Val(d), "") <==> SpelledDoc(d)
    ensures Parse(Dump(d)).Ok? <==> SpelledDoc(d)
  {
    hide Parse, Dump, Print, SpelledDoc;
    DumpPrinted(d, [1], "");
    assert Dump(d) + "" == Dump(d);
    assert "" + Print(d, NoGaps(), [1], "") == Print(d, NoGaps(), [1], "");
    SpacedParses(d, NoGaps());
  }

  /** It does fail: a control character without an escape of its own, and any byte from 0x80 on, are
      dumped as `\u`, which the parser rejects. */
  lemma NumberedIsRejected(c: Char)
    requires c == '\U{1}' || c == '\U{e9}'
    ensures Parse(Dump(Str([c]))).Bad?
  {
    hide Parse, Dump;
    assert !Spellable([c][0]);
    DumpParses(Str([c]));
  }
}
