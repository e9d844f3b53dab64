/** The texts that the parser accepts, as a grammar: syntax trees in the shape of RFC 8259, each with
    the one text it is written as and the value it means.  The parser accepts a text exactly when a
    legal tree is written so, and then gives its meaning.

    A legal tree has no leading zero, no comma without an element behind it, no raw control character
    in a string, and digits wherever the RFC wants them.  It departs from the RFC where the parser
    does: vertical tab and form feed are white space, and there is no `\u`. */
module JsonSyntax {
  import opened Basics
  import opened JsonText
  import opened JsonRoundTrip
  import G = JsonGrammar

  // ---- strings ----

  datatype Letter = Plain(c: char) | Escaped(letter: char)

  predicate LegalLetter(l: Letter) {
    match l
    case Plain(c) => c as int >= 0x20 && c != '"' && c != '\\'
    case Escaped(letter) => letter in "\"\\/bfnrt"
  }

  function LetterMeans(l: Letter): char
    requires LegalLetter(l)
  {
    match l
    case Plain(c) => c
    case Escaped(letter) =>
      if letter == 'b' then '\U{8}' else if letter == 'f' then '\U{c}' else if letter == 'n' then '\n'
      else if letter == 'r' then '\r' else if letter == 't' then '\t' else letter
  }

  predicate LegalLetters(ls: seq<Letter>) {
    forall i | 0 <= i < |ls| :: LegalLetter(ls[i])
  }

  function LettersMean(ls: seq<Letter>): string
    requires LegalLetters(ls)
  {
    if ls == [] then "" else [LetterMeans(ls[0])] + LettersMean(ls[1..])
  }

  /** The letters followed by `k`. */
  function LettersText(ls: seq<Letter>, k: string): string {
    if ls == [] then k
    else (if ls[0].Plain? then [ls[0].c] else ['\\', ls[0].letter]) + LettersText(ls[1..], k)
  }

  function QuotedText(ls: seq<Letter>, k: string): string { "\"" + LettersText(ls, "\"" + k) }

  lemma LetterReads(l: Letter, t: string, read: string)
    requires LegalLetter(l)
    ensures G.Chars((if l.Plain? then [l.c] else ['\\', l.letter]) + t, read) == G.Chars(t, read + [LetterMeans(l)])
  {
    match l
    case Plain(c) =>
      assert ([c] + t)[1..] == t;
    case Escaped(letter) =>
      assert (['\\', letter] + t)[2..] == t;
  }

  lemma {:induction false} LettersRead(ls: seq<Letter>, k: string, read: string)
    requires LegalLetters(ls)
    ensures G.Chars(LettersText(ls, "\"" + k), read) == G.Ok(read + LettersMean(ls), k)
  {
    if ls == [] {
      assert ("\"" + k)[1..] == k && read + "" == read;
    } else {
      LetterReads(ls[0], LettersText(ls[1..], "\"" + k), read);
      LettersRead(ls[1..], k, read + [LetterMeans(ls[0])]);
      assert read + [LetterMeans(ls[0])] + LettersMean(ls[1..]) == read + LettersMean(ls);
    }
  }

  lemma QuotedReads(ls: seq<Letter>, k: string)
    requires LegalLetters(ls)
    ensures G.String(QuotedText(ls, k)) == G.Ok(LettersMean(ls), k)
  {
    hide G.Chars;
    LettersRead(ls, k, "");
    assert QuotedText(ls, k)[1..] == LettersText(ls, "\"" + k) && "" + LettersMean(ls) == LettersMean(ls);
  }

  /** The letter at the front of what is being read. */
  lemma FirstLetter(s: string, read: string) returns (l: Letter)
    requires G.Chars(s, read).Ok? && s[0] != '"'
    ensures var n := if l.Plain? then 1 else 2;
      && LegalLetter(l) && n <= |s| && s[..n] == (if l.Plain? then [l.c] else ['\\', l.letter])
      && G.Chars(s, read) == G.Chars(s[n..], read + [LetterMeans(l)])
  {
    l := if s[0] == '\\' then Escaped(s[1]) else Plain(s[0]);
  }

  /** Whatever is read was written by legal letters. */
  lemma {:induction false} LettersWritten(s: string, read: string) returns (ls: seq<Letter>)
    requires G.Chars(s, read).Ok?
    ensures LegalLetters(ls) && s == LettersText(ls, "\"" + G.Chars(s, read).rest)
    ensures G.Chars(s, read).value == read + LettersMean(ls)
    decreases |s|
  {
    if s[0] == '"' {
      ls := [];
      assert s == "\"" + s[1..] && read + "" == read;
    } else {
      var l := FirstLetter(s, read);
      var n := if l.Plain? then 1 else 2;
      var rest := LettersWritten(s[n..], read + [LetterMeans(l)]);
      ls := [l] + rest;
      Together(s, read, l, rest, G.Chars(s, read).rest);
    }
  }

  lemma Together(s: string, read: string, l: Letter, rest: seq<Letter>, k: string)
    requires LegalLetter(l) && LegalLetters(rest)
    requires var n := if l.Plain? then 1 else 2;
      && n <= |s| && s[..n] == (if l.Plain? then [l.c] else ['\\', l.letter])
      && s[n..] == LettersText(rest, "\"" + k)
    ensures LegalLetters([l] + rest) && s == LettersText([l] + rest, "\"" + k)
    ensures read + [LetterMeans(l)] + LettersMean(rest) == read + LettersMean([l] + rest)
  {
    assert ([l] + rest)[1..] == rest;
    assert s == (if l.Plain? then s[..1] + s[1..] else s[..2] + s[2..]);
  }

  // ---- numbers ----

  datatype Exponent = Exponent(e: char, sign: Option<char>, digits: string)

  datatype Numeral = Numeral(minus: bool, digits: string, fraction: Option<string>, exponent: Option<Exponent>)

  predicate AllDigits(s: string) {
    s != "" && forall i | 0 <= i < |s| :: G.IsDigit(s[i])
  }

  predicate LegalExponent(x: Exponent) {
    && (x.e == 'e' || x.e == 'E') && AllDigits(x.digits)
    && (x.sign.Some? ==> x.sign.value == '+' || x.sign.value == '-')
  }

  predicate LegalNumeral(n: Numeral) {
    && AllDigits(n.digits) && (n.digits[0] == '0' ==> |n.digits| == 1)
    && (n.fraction.Some? ==> AllDigits(n.fraction.value))
    && (n.exponent.Some? ==> LegalExponent(n.exponent.value))
    && (n.fraction.None? && n.exponent.None? ==> LEAST <= IntegerMeans(n) <= GREATEST)
  }

  function IntegerMeans(n: Numeral): int
    requires AllDigits(n.digits)
  {
    var m: int := G.NatOf(n.digits);
    if n.minus then -m else m
  }

  function IntegerText(n: Numeral): string { (if n.minus then "-" else "") + n.digits }

  function FractionText(n: Numeral): string {
    if n.fraction.Some? then "." + n.fraction.value else ""
  }

  function SignText(x: Exponent): string {
    if x.sign.Some? then [x.sign.value] else ""
  }

  function ExponentText(n: Numeral): string {
    if n.exponent.Some? then [n.exponent.value.e] + SignText(n.exponent.value) + n.exponent.value.digits else ""
  }

  function NumeralText(n: Numeral): string { IntegerText(n) + FractionText(n) + ExponentText(n) }

  /** An integer, or the text itself. */
  function NumeralMeans(n: Numeral): Value
    requires AllDigits(n.digits)
  {
    if n.fraction.None? && n.exponent.None? then VInt(IntegerMeans(n)) else VFloat(NumeralText(n))
  }

  lemma FractionReads(s: string, i: nat, n: Numeral, k: string)
    requires i <= |s| && s[i..] == FractionText(n) + k
    requires LegalNumeral(n) && (k != "" ==> !G.IsDigit(k[0]) && k[0] != '.')
    ensures G.Fraction(s, i) == G.Ok(|s| - |k|, k)
  {
    hide G.Digits, G.NatOf;
    if n.fraction.Some? {
      var d := n.fraction.value;
      assert s[i..][1..] == d + k && s[i + 1..] == s[i..][1..] && s[i] == s[i..][0];
      DigitsOf(d, k);
      assert s[i..][1 + |d|..] == k && s[i + 1 + |d|..] == s[i..][1 + |d|..];
    } else {
      assert s[i..] == k && (i < |s| ==> s[i] == k[0]);
    }
  }

  lemma ExponentReads(s: string, i: nat, n: Numeral, k: string)
    requires i <= |s| && s[i..] == ExponentText(n) + k
    requires LegalNumeral(n) && (k != "" ==> !G.IsDigit(k[0]) && k[0] !in "eE")
    ensures G.Exponent(s, i) == G.Ok(|s| - |k|, k)
  {
    hide G.NatOf, G.Digits;
    if n.exponent.Some? {
      var x := n.exponent.value;
      assert [x.e] + SignText(x) + x.digits + k == [x.e] + (SignText(x) + (x.digits + k));
      SignedReads(s, i, x, k);
    } else {
      assert s[i..] == k && (i < |s| ==> s[i] == k[0]);
    }
  }

  lemma ExponentAt(s: string, i: nat, j: nat, n: nat)
    requires i < j < |s| && (s[i] == 'e' || s[i] == 'E') && n > 0
    requires j == (if s[i + 1] == '+' || s[i + 1] == '-' then i + 2 else i + 1)
    requires G.Digits(s[j..]) == n
    ensures j + n <= |s| && G.Exponent(s, i) == G.Ok(j + n, s[j + n..])
  {
    hide G.Digits;
  }

  /** Where the parts of an exponent stand. */
  lemma SignedStands(s: string, i: nat, e: char, sign: string, d: string, k: string)
    requires i <= |s| && s[i..] == [e] + (sign + (d + k)) && d != ""
    ensures var j := i + 1 + |sign|;
      && j < |s| && |s| == j + |d| + |k| && s[i] == e && s[j] == d[0]
      && s[j..] == d + k && s[j + |d|..] == k && (sign != "" ==> s[i + 1] == sign[0])
  {
    StandsBehind(s, i, [e], sign + (d + k));
    Front(s, i, [e], sign + (d + k));
    StandsBehind(s, i + 1, sign, d + k);
    StandsBehind(s, i + 1 + |sign|, d, k);
    Front(s, i + 1 + |sign|, d, k);
    if sign != "" {
      Front(s, i + 1, sign, d + k);
    }
  }

  lemma SignedReads(s: string, i: nat, x: Exponent, k: string)
    requires i <= |s| && s[i..] == [x.e] + (SignText(x) + (x.digits + k))
    requires LegalExponent(x) && (k != "" ==> !G.IsDigit(k[0]))
    ensures G.Exponent(s, i) == G.Ok(|s| - |k|, k)
  {
    hide G.Digits, G.Exponent;
    SignedStands(s, i, x.e, SignText(x), x.digits, k);
    DigitsOf(x.digits, k);
    assert G.IsDigit(x.digits[0]);
    ExponentAt(s, i, i + 1 + |SignText(x)|, |x.digits|);
  }

  lemma Front(s: string, i: nat, t: string, k: string)
    requires i <= |s| && s[i..] == t + k && t != ""
    ensures i < |s| && s[i] == t[0]
  {
    assert s[i] == s[i..][0];
  }

  /** What stands behind `t`. */
  lemma StandsBehind(s: string, i: nat, t: string, k: string)
    requires i <= |s| && s[i..] == t + k
    ensures |s| == i + |t| + |k| && s[i + |t|..] == k
  {
    assert s[i + |t|..] == s[i..][|t|..];
  }

  lemma PartsOfText(n: Numeral, k: string)
    ensures var s, i, f, e := NumeralText(n) + k, IntegerText(n), FractionText(n), ExponentText(n);
      && s == i + (f + (e + k)) && s[..|i|] == i && s[|i|..] == f + (e + k) && s[|i| + |f|..] == e + k
      && |s| - |k| == |NumeralText(n)| && s[..|s| - |k|] == NumeralText(n)
  {
    hide IntegerText, FractionText, ExponentText;
  }

  /** No part of a numeral can be mistaken for a continuation of the part before it. */
  lemma PartsApart(n: Numeral, k: string)
    requires LegalNumeral(n) && EndsNumber(k)
    ensures var t := ExponentText(n) + k; t != "" ==> !G.IsDigit(t[0]) && t[0] != '.'
    ensures var t := FractionText(n) + (ExponentText(n) + k); t != "" ==> !G.IsDigit(t[0])
    ensures k != "" ==> !G.IsDigit(k[0]) && k[0] !in "eE"
  {
    hide G.NatOf;
  }

  /** A number from its three parts, which end at `i`, `j` and `l`. */
  lemma NumberFrom(s: string, i: nat, j: nat, l: nat, rest: string)
    requires i <= |s| && j <= |s| && G.IntegerPart(s) == G.Ok(i, s[i..])
    requires G.Fraction(s, i) == G.Ok(j, s[j..]) && G.Exponent(s, j) == G.Ok(l, rest)
    ensures G.Number(s) ==
            if l != i then G.Ok(VFloat(s[..l]), rest)
            else if LEAST <= G.IntegerOf(s[..i]) <= GREATEST then G.Ok(VInt(G.IntegerOf(s[..i])), rest)
            else G.Bad("invalid integer")
  {
    hide G.IntegerPart, G.Fraction, G.Exponent, G.IntegerOf;
  }

  lemma NumeralReads(n: Numeral, k: string)
    requires LegalNumeral(n) && EndsNumber(k)
    ensures G.Number(NumeralText(n) + k) == G.Ok(NumeralMeans(n), k)
  {
    hide G.Number, G.IntegerPart, G.Fraction, G.Exponent, G.IntegerOf, G.IsDigit, G.NatOf, EndsNumber,
         IntegerText, FractionText, ExponentText, NumeralText, LegalNumeral, NumeralMeans;
    var s, i, f, e := NumeralText(n) + k, IntegerText(n), FractionText(n), ExponentText(n);
    PartsOfText(n, k);
    PartsApart(n, k);
    IntegerPartReads(n, f + (e + k));
    FractionReads(s, |i|, n, e + k);
    ExponentReads(s, |i| + |f|, n, k);
    WholeReads(n);
    NumberFrom(s, |i|, |i| + |f|, |s| - |k|, k);
  }

  /** What is meant by a numeral without a fraction and an exponent, and by one that has either. */
  lemma WholeReads(n: Numeral)
    requires LegalNumeral(n)
    ensures var s := IntegerText(n);
      s != "" && (forall i | (if s[0] == '-' then 1 else 0) <= i < |s| :: G.IsDigit(s[i]))
    ensures var s := IntegerText(n);
      if |NumeralText(n)| == |s|
      then NumeralText(n) == s && LEAST <= G.IntegerOf(s) <= GREATEST && NumeralMeans(n) == VInt(G.IntegerOf(s))
      else NumeralMeans(n) == VFloat(NumeralText(n))
  {
    hide G.IntegerOf, IntegerText, FractionText, ExponentText;
    IntegerIsMeant(n);
    WholeIsInteger(n);
  }

  lemma IntegerPartReads(n: Numeral, k: string)
    requires LegalNumeral(n) && (k != "" ==> !G.IsDigit(k[0]))
    ensures G.IntegerPart(IntegerText(n) + k) == G.Ok(|IntegerText(n)|, k)
  {
    hide G.IntegerPart, G.NatOf;
    IntegerPartOf(IntegerText(n), if n.minus then "-" else "", n.digits, k);
  }

  lemma WholeIsInteger(n: Numeral)
    ensures n.fraction.None? && n.exponent.None? <==> |NumeralText(n)| == |IntegerText(n)|
    ensures n.fraction.None? && n.exponent.None? ==> NumeralText(n) == IntegerText(n)
  {
  }

  lemma IntegerIsMeant(n: Numeral)
    requires AllDigits(n.digits)
    ensures var s := IntegerText(n);
      && s != "" && (forall i | (if s[0] == '-' then 1 else 0) <= i < |s| :: G.IsDigit(s[i]))
      && G.IntegerOf(s) == IntegerMeans(n)
  {
    var s := IntegerText(n);
    if n.minus {
      assert s[1..] == n.digits;
    } else {
      assert s == n.digits && G.IsDigit(s[0]);
    }
  }

  // ---- what is read as a number was written as one ----

  lemma DigitsWritten(s: string)
    ensures var n := G.Digits(s); n > 0 ==> AllDigits(s[..n])
    ensures s == s[..G.Digits(s)] + s[G.Digits(s)..]
  {
  }

  lemma IntegerWritten(s: string) returns (minus: bool, digits: string)
    requires G.IntegerPart(s).Ok?
    ensures AllDigits(digits) && (digits[0] == '0' ==> |digits| == 1)
    ensures var i := G.IntegerPart(s).value; i <= |s| && s[..i] == (if minus then "-" else "") + digits
  {
    hide G.IntegerPart;
    var i, j := IntegerEnds(s);
    minus, digits := i == 1, s[i..j];
    forall k | 0 <= k < |digits|
      ensures G.IsDigit(digits[k])
    {
      assert digits[k] == s[i + k];
    }
    assert s[..j] == s[..i] + digits && s[..i] == if minus then "-" else "";
  }

  lemma IntegerEnds(s: string) returns (i: nat, j: nat)
    requires G.IntegerPart(s).Ok?
    ensures s != "" && i == (if s[0] == '-' then 1 else 0) && i < j <= |s| && G.IntegerPart(s).value == j
    ensures forall k | i <= k < j :: G.IsDigit(s[k])
    ensures s[i] == '0' ==> j == i + 1
  {
    hide G.Digits;
    i, j := if s[0] == '-' then 1 else 0, G.IntegerPart(s).value;
    if s[i] != '0' {
      DigitsStart(s[i..]);
    }
  }

  lemma DigitsStart(s: string)
    ensures s != "" && G.IsDigit(s[0]) ==> G.Digits(s) > 0
  {
  }

  lemma FractionWritten(s: string, i: nat) returns (fraction: Option<string>)
    requires i <= |s| && G.Fraction(s, i).Ok?
    ensures fraction.Some? ==> AllDigits(fraction.value)
    ensures var j := G.Fraction(s, i).value;
      && i <= j <= |s| && s[i..j] == (if fraction.Some? then "." + fraction.value else "")
      && (fraction.None? <==> j == i)
  {
    var j := G.Fraction(s, i).value;
    if j == i {
      fraction := None;
    } else {
      DigitsWritten(s[i + 1..]);
      fraction := Some(s[i + 1..j]);
      assert s[i + 1..j] == s[i + 1..][..j - i - 1] && s[i..j] == [s[i]] + s[i + 1..j];
    }
  }

  lemma ExponentWritten(s: string, i: nat) returns (exponent: Option<Exponent>)
    requires i <= |s| && G.Exponent(s, i).Ok?
    ensures exponent.Some? ==> LegalExponent(exponent.value)
    ensures var j := G.Exponent(s, i).value;
      && i <= j <= |s| && (exponent.None? <==> j == i)
      && s[i..j] ==
         if exponent.Some? then [exponent.value.e] + SignText(exponent.value) + exponent.value.digits else ""
  {
    var j := G.Exponent(s, i).value;
    if j == i {
      exponent := None;
    } else {
      var d := if i + 1 < |s| && (s[i + 1] == '+' || s[i + 1] == '-') then i + 2 else i + 1;
      DigitsWritten(s[d..]);
      assert s[d..j] == s[d..][..j - d] && s[i..j] == [s[i]] + s[i + 1..d] + s[d..j];
      assert s[i + 1..d] == if d == i + 1 then "" else [s[i + 1]];
      exponent := Some(Exponent(s[i], if d == i + 1 then None else Some(s[i + 1]), s[d..j]));
    }
  }

  /** What the parts of an accepted number are. */
  lemma NumberParts(s: string) returns (i: nat, j: nat, l: nat)
    requires G.Number(s).Ok?
    ensures i <= j <= l <= |s| && G.IntegerPart(s) == G.Ok(i, s[i..])
    ensures G.Fraction(s, i) == G.Ok(j, s[j..]) && G.Exponent(s, j) == G.Ok(l, s[l..])
  {
    hide G.IntegerPart, G.Fraction, G.Exponent, G.IntegerOf;
    i := G.IntegerPart(s).value;
    j := G.Fraction(s, i).value;
    l := G.Exponent(s, j).value;
  }

  lemma NumeralWritten(s: string) returns (n: Numeral)
    requires G.Number(s).Ok?
    ensures LegalNumeral(n) && s == NumeralText(n) + G.Number(s).rest && G.Number(s).value == NumeralMeans(n)
  {
    hide G.Number, G.IntegerPart, G.Fraction, G.Exponent, G.IntegerOf, G.NatOf;
    var i, j, l := NumberParts(s);
    var minus, digits := IntegerWritten(s);
    var fraction := FractionWritten(s, i);
    var exponent := ExponentWritten(s, j);
    n := Numeral(minus, digits, fraction, exponent);
    TextOfParts(s, i, j, l);
    NumberFrom(s, i, j, l, s[l..]);
    IntegerIsMeant(n);
  }

  lemma TextOfParts(s: string, i: nat, j: nat, l: nat)
    requires i <= j <= l <= |s|
    ensures s[..l] == s[..i] + s[i..j] + s[j..l] && s == s[..l] + s[l..]
  {
  }

  // ---- values ----

  datatype Tree =
    | NullWord | TrueWord | FalseWord
    | Number(n: Numeral)
    | Quoted(letters: seq<Letter>)
    | EmptyArray(gap: string) | Array(elements: Elements)
    | EmptyObject(gap: string) | Object(members: Members)

  /** A value with the white space around it. */
  datatype Padded = Padded(before: string, tree: Tree, after: string)

  /** At least one element, with commas between them. */
  datatype Elements = LastElement(value: Padded) | Comma(value: Padded, rest: Elements)

  datatype Pair = Pair(before: string, key: seq<Letter>, between: string, value: Padded)

  datatype Members = LastPair(pair: Pair) | CommaPair(pair: Pair, rest: Members)

  predicate Legal(t: Tree) {
    match t
    case Number(n) => LegalNumeral(n)
    case Quoted(ls) => LegalLetters(ls)
    case EmptyArray(gap) => Blank(gap)
    case Array(elements) => LegalElements(elements)
    case EmptyObject(gap) => Blank(gap)
    case Object(members) => LegalMembers(members)
    case _ => true
  }

  predicate LegalElements(es: Elements) {
    InBlanks(es.value) && Legal(es.value.tree) && (es.Comma? ==> LegalElements(es.rest))
  }

  predicate LegalMembers(ms: Members) {
    && Blank(ms.pair.before) && LegalLetters(ms.pair.key) && Blank(ms.pair.between)
    && InBlanks(ms.pair.value) && Legal(ms.pair.value.tree) && (ms.CommaPair? ==> LegalMembers(ms.rest))
  }

  predicate InBlanks(p: Padded) { Blank(p.before) && Blank(p.after) }

  predicate LegalPadded(p: Padded) { InBlanks(p) && Legal(p.tree) }

  /** The text of `t` followed by `k`. */
  function TextOf(t: Tree, k: string): string {
    match t
    case NullWord => "null" + k
    case TrueWord => "true" + k
    case FalseWord => "false" + k
    case Number(n) => NumeralText(n) + k
    case Quoted(ls) => QuotedText(ls, k)
    case EmptyArray(gap) => "[" + (gap + ("]" + k))
    case Array(elements) => "[" + ElementsText(elements, "]" + k)
    case EmptyObject(gap) => "{" + (gap + ("}" + k))
    case Object(members) => "{" + MembersText(members, "}" + k)
  }

  function ElementsText(es: Elements, k: string): string {
    var p, more := es.value, if es.Comma? then "," + ElementsText(es.rest, k) else k;
    p.before + TextOf(p.tree, p.after + more)
  }

  function MembersText(ms: Members, k: string): string {
    var m, p, more := ms.pair, ms.pair.value, if ms.CommaPair? then "," + MembersText(ms.rest, k) else k;
    m.before + QuotedText(m.key, m.between + (":" + (p.before + TextOf(p.tree, p.after + more))))
  }

  function PaddedText(p: Padded, k: string): string { p.before + TextOf(p.tree, p.after + k) }

  /** What stands behind the first element. */
  function Behind(es: Elements, k: string): string {
    if es.Comma? then "," + ElementsText(es.rest, k) else k
  }

  function BehindPair(ms: Members, k: string): string {
    if ms.CommaPair? then "," + MembersText(ms.rest, k) else k
  }

  lemma FirstOf(es: Elements, k: string)
    ensures ElementsText(es, k) == PaddedText(es.value, Behind(es, k))
  {
  }

  lemma FirstPairOf(ms: Members, k: string)
    ensures var m := ms.pair;
      MembersText(ms, k) == m.before + QuotedText(m.key, m.between + (":" + PaddedText(m.value, BehindPair(ms, k))))
  {
    hide QuotedText;
  }

  function Means(t: Tree): Value
    requires Legal(t)
  {
    match t
    case NullWord => VNull
    case TrueWord => VBool(true)
    case FalseWord => VBool(false)
    case Number(n) => NumeralMeans(n)
    case Quoted(ls) => VStr(LettersMean(ls))
    case EmptyArray(_) => VArr([])
    case Array(elements) => VArr(ElementsMean(elements))
    case EmptyObject(_) => VObj(map[])
    case Object(members) => VObj(MembersMean(members, map[]))
  }

  function ElementsMean(es: Elements): seq<Value>
    requires LegalElements(es)
  {
    [Means(es.value.tree)] + if es.Comma? then ElementsMean(es.rest) else []
  }

  /** A later member overwrites an earlier one with the same key. */
  function MembersMean(ms: Members, before: map<string, Value>): map<string, Value>
    requires LegalMembers(ms)
  {
    var read := before[LettersMean(ms.pair.key) := Means(ms.pair.value.tree)];
    if ms.CommaPair? then MembersMean(ms.rest, read) else read
  }

  // ---- every legal text is accepted ----

  /** What may stand behind a value: the end, or what ends an element. */
  predicate Closes(k: string) { k != "" ==> k[0] in ",]}" }

  /** Arrays and objects take the white space behind them along. */
  function RestOf(t: Tree, k: string): string {
    if t.EmptyArray? || t.Array? || t.EmptyObject? || t.Object? then G.SkipSpace(k) else k
  }

  lemma TreeStarts(t: Tree, k: string)
    requires Legal(t)
    ensures var s := TextOf(t, k); s != "" && !G.IsSpace(s[0]) && s[0] !in "]},"
  {
    hide G.NatOf;
    if t.Number? {
      assert G.IsDigit(t.n.digits[0]);
    }
  }

  lemma BlankEnds(after: string, k: string)
    requires Blank(after) && Closes(k)
    ensures EndsNumber(after + k)
  {
    assert after != "" ==> G.IsSpace(after[0]);
  }

  lemma LeafReads(t: Tree, k: string)
    requires Legal(t) && !t.Array? && !t.Object? && EndsNumber(k)
    ensures G.ParseValue(TextOf(t, k)) == G.Ok(Means(t), RestOf(t, k))
  {
    hide G.Number, G.String, NumeralText;
    TreeStarts(t, k);
    match t {
      case NullWord => assert ("null" + k)[4..] == k;
      case TrueWord => assert ("true" + k)[4..] == k;
      case FalseWord => assert ("false" + k)[5..] == k;
      case Number(n) => NumberReads(n, k);
      case Quoted(ls) =>
        QuotedReads(ls, k);
        assert QuotedText(ls, k)[0] == '"';
      case EmptyArray(gap) =>
        ArrayOpens(gap, "]" + k);
        assert ("]" + k)[1..] == k;
      case EmptyObject(gap) =>
        ObjectOpens(gap, "}" + k);
        assert ("}" + k)[1..] == k;
    }
  }

  lemma NumberReads(n: Numeral, k: string)
    requires LegalNumeral(n) && EndsNumber(k)
    ensures var s := NumeralText(n) + k; s != "" && (G.IsDigit(s[0]) || s[0] == '-')
    ensures G.Number(NumeralText(n) + k) == G.Ok(NumeralMeans(n), k)
  {
    hide G.Number, G.NatOf;
    NumeralReads(n, k);
    assert G.IsDigit(n.digits[0]);
  }

  lemma SkipTwice(s: string)
    ensures G.SkipSpace(G.SkipSpace(s)) == G.SkipSpace(s)
  {
  }

  /** The text of a value without the white space in front of it. */
  lemma PaddedStarts(p: Padded, k: string)
    requires LegalPadded(p)
    ensures G.SkipSpace(PaddedText(p, k)) == TextOf(p.tree, p.after + k)
    ensures var s := TextOf(p.tree, p.after + k); s != "" && !G.IsSpace(s[0]) && s[0] !in "]},"
  {
    hide Legal, TextOf;
    TreeStarts(p.tree, p.after + k);
    SkipBlank(p.before, TextOf(p.tree, p.after + k));
  }

  lemma {:induction false} PaddedReads(p: Padded, k: string)
    requires LegalPadded(p) && Closes(k)
    ensures var r := G.ParseValue(PaddedText(p, k));
      r.Ok? && r.value == Means(p.tree) && G.SkipSpace(r.rest) == G.SkipSpace(k)
    decreases p, 1
  {
    hide G.ParseValue, TextOf, Legal, EndsNumber, Means, Closes;
    BlankEnds(p.after, k);
    TreeReads(p.tree, p.after + k);
    PaddedStarts(p, k);
    SameValue(PaddedText(p, k), TextOf(p.tree, p.after + k));
    SkipBlank(p.after, k);
    SkipTwice(p.after + k);
  }

  lemma {:induction false} TreeReads(t: Tree, k: string)
    requires Legal(t) && EndsNumber(k)
    ensures G.ParseValue(TextOf(t, k)) == G.Ok(Means(t), RestOf(t, k))
    decreases t, 0
  {
    hide G.ParseValue, G.Elements, G.Entries, EndsNumber;
    match t {
      case Array(elements) =>
        var first, more := elements.value, Behind(elements, "]" + k);
        PaddedStarts(first, more);
        FirstOf(elements, "]" + k);
        SkipTwice(ElementsText(elements, "]" + k));
        ArrayOpens(first.before, TextOf(first.tree, first.after + more));
        ElementsRead(elements, G.SkipSpace(ElementsText(elements, "]" + k)), k, []);
        assert [] + ElementsMean(elements) == ElementsMean(elements);
      case Object(members) =>
        MembersStart(members, "}" + k);
        ObjectOpens(members.pair.before, G.SkipSpace(MembersText(members, "}" + k)));
        MembersRead(members, G.SkipSpace(MembersText(members, "}" + k)), k, map[]);
      case _ => LeafReads(t, k);
    }
  }

  lemma {:induction false} ElementsRead(es: Elements, s: string, k: string, read: seq<Value>)
    requires LegalElements(es) && G.SkipSpace(s) == G.SkipSpace(ElementsText(es, "]" + k))
    ensures G.Elements(s, read) == G.Ok(VArr(read + ElementsMean(es)), G.SkipSpace(k))
    decreases es, 2
  {
    hide G.ParseValue, G.MoreElements, PaddedText, Means;
    var more, m := Behind(es, "]" + k), Means(es.value.tree);
    PaddedReads(es.value, more);
    FirstOf(es, "]" + k);
    SameValue(s, PaddedText(es.value, more));
    var r := G.ParseValue(s).rest;
    if es.Comma? {
      MoreRead(es.rest, r, k, read + [m]);
      assert read + [m] + ElementsMean(es.rest) == read + ElementsMean(es);
    } else {
      assert ElementsMean(es) == [m];
      ArrayCloses(r, k, read + [m]);
    }
  }

  lemma ArrayCloses(s: string, k: string, read: seq<Value>)
    requires G.SkipSpace(s) == G.SkipSpace("]" + k)
    ensures G.MoreElements(s, read) == G.Ok(VArr(read), G.SkipSpace(k))
  {
    hide G.Elements;
    assert ("]" + k)[1..] == k;
  }

  lemma {:induction false} MoreRead(es: Elements, s: string, k: string, read: seq<Value>)
    requires LegalElements(es) && G.SkipSpace(s) == G.SkipSpace("," + ElementsText(es, "]" + k))
    ensures G.MoreElements(s, read) == G.Ok(VArr(read + ElementsMean(es)), G.SkipSpace(k))
    decreases es, 3
  {
    hide G.Elements, PaddedText, ElementsMean, TextOf;
    var text := ElementsText(es, "]" + k);
    PaddedStarts(es.value, Behind(es, "]" + k));
    FirstOf(es, "]" + k);
    SkipTwice(text);
    ElementsRead(es, G.SkipSpace(text), k, read);
    assert ("," + text)[1..] == text;
  }

  // members

  lemma MembersStart(ms: Members, k: string)
    requires LegalMembers(ms)
    ensures var m := ms.pair; var s := G.SkipSpace(MembersText(ms, k));
      && s == QuotedText(m.key, m.between + (":" + PaddedText(m.value, BehindPair(ms, k))))
      && s != "" && s[0] == '"' && !G.IsSpace(s[0]) && MembersText(ms, k) == m.before + s
  {
    hide PaddedText, LettersText, MembersText;
    var m := ms.pair;
    FirstPairOf(ms, k);
    SkipBlank(m.before, QuotedText(m.key, m.between + (":" + PaddedText(m.value, BehindPair(ms, k)))));
  }

  lemma {:induction false} MembersRead(ms: Members, s: string, k: string, read: map<string, Value>)
    requires LegalMembers(ms) && s == G.SkipSpace(MembersText(ms, "}" + k))
    ensures G.Entries(s, read) == G.Ok(VObj(MembersMean(ms, read)), G.SkipSpace(k))
    decreases ms, 3
  {
    hide G.String, G.AfterKey, PaddedText, QuotedText;
    var m, more := ms.pair, BehindPair(ms, "}" + k);
    MembersStart(ms, "}" + k);
    QuotedReads(m.key, m.between + (":" + PaddedText(m.value, more)));
    PairRead(ms, k, read);
  }

  lemma {:induction false} PairRead(ms: Members, k: string, read: map<string, Value>)
    requires LegalMembers(ms)
    ensures var m, more := ms.pair, BehindPair(ms, "}" + k);
      G.AfterKey(m.between + (":" + PaddedText(m.value, more)), LettersMean(m.key), read)
      == G.Ok(VObj(MembersMean(ms, read)), G.SkipSpace(k))
    decreases ms, 2
  {
    hide G.ParseValue, G.MoreEntries, PaddedText, Means, LettersMean;
    var m, more := ms.pair, BehindPair(ms, "}" + k);
    var colon := ":" + PaddedText(m.value, more);
    SkipBlank(m.between, colon);
    assert colon[1..] == PaddedText(m.value, more);
    SkipTwice(colon[1..]);
    SameValue(G.SkipSpace(colon[1..]), PaddedText(m.value, more));
    PaddedReads(m.value, more);
    var r, now := G.ParseValue(PaddedText(m.value, more)).rest, read[LettersMean(m.key) := Means(m.value.tree)];
    if ms.CommaPair? {
      MorePairsRead(ms.rest, r, k, now);
    } else {
      ObjectCloses(r, k, now);
    }
  }

  lemma ObjectCloses(s: string, k: string, read: map<string, Value>)
    requires G.SkipSpace(s) == G.SkipSpace("}" + k)
    ensures G.MoreEntries(s, read) == G.Ok(VObj(read), G.SkipSpace(k))
  {
    hide G.Entries;
    assert ("}" + k)[1..] == k;
  }

  lemma {:induction false} MorePairsRead(ms: Members, s: string, k: string, read: map<string, Value>)
    requires LegalMembers(ms) && G.SkipSpace(s) == G.SkipSpace("," + MembersText(ms, "}" + k))
    ensures G.MoreEntries(s, read) == G.Ok(VObj(MembersMean(ms, read)), G.SkipSpace(k))
    decreases ms, 4
  {
    hide G.Entries, MembersMean, QuotedText;
    var text := MembersText(ms, "}" + k);
    MembersStart(ms, "}" + k);
    MembersRead(ms, G.SkipSpace(text), k, read);
    assert ("," + text)[1..] == text;
  }

  // ---- every accepted text is legal ----

  /** The white space that `s` starts with. */
  function Skipped(s: string): (b: string)
    ensures Blank(b) && s == b + G.SkipSpace(s)
  {
    if s != "" && G.IsSpace(s[0]) then [s[0]] + Skipped(s[1..]) else ""
  }

  /** White space may be counted to what is behind a value, or in front of it. */
  lemma MoreBehind(p: Padded, gap: string, k: string)
    requires LegalPadded(p) && Blank(gap)
    ensures var q := p.(after := p.after + gap); LegalPadded(q) && PaddedText(p, gap + k) == PaddedText(q, k)
  {
    hide TextOf, Legal;
    assert p.after + gap + k == p.after + (gap + k);
  }

  function Indented(p: Padded, gap: string): Padded { p.(before := gap + p.before) }

  lemma MoreBefore(p: Padded, gap: string, k: string)
    requires LegalPadded(p) && Blank(gap)
    ensures LegalPadded(Indented(p, gap)) && PaddedText(Indented(p, gap), k) == gap + PaddedText(p, k)
  {
    hide TextOf, Legal;
    assert gap + p.before + TextOf(p.tree, p.after + k) == gap + (p.before + TextOf(p.tree, p.after + k));
  }

  lemma MoreBeforeFirst(es: Elements, gap: string, k: string)
    requires LegalElements(es) && Blank(gap)
    ensures var fs := es.(value := Indented(es.value, gap));
      && LegalElements(fs) && ElementsText(fs, k) == gap + ElementsText(es, k)
      && ElementsMean(fs) == ElementsMean(es)
  {
    hide TextOf, Legal, PaddedText, ElementsText, Means;
    var fs := es.(value := Indented(es.value, gap));
    FirstOf(es, k);
    FirstOf(fs, k);
    MoreBefore(es.value, gap, Behind(es, k));
  }

  function IndentedPair(ms: Members, gap: string): Members {
    ms.(pair := ms.pair.(before := gap + ms.pair.before))
  }

  lemma MoreBeforeFirstPair(ms: Members, gap: string, k: string)
    requires LegalMembers(ms) && Blank(gap)
    ensures var ns := IndentedPair(ms, gap);
      && LegalMembers(ns) && MembersText(ns, k) == gap + MembersText(ms, k)
      && forall read :: MembersMean(ns, read) == MembersMean(ms, read)
  {
    hide Legal, PaddedText, MembersText, Means, QuotedText;
    var ns := IndentedPair(ms, gap);
    FirstPairOf(ms, k);
    FirstPairOf(ns, k);
    var m := ms.pair;
    var text := QuotedText(m.key, m.between + (":" + PaddedText(m.value, BehindPair(ms, k))));
    assert gap + m.before + text == gap + (m.before + text);
  }

  lemma QuotedWritten(s: string) returns (ls: seq<Letter>)
    requires G.String(s).Ok?
    ensures LegalLetters(ls) && s == QuotedText(ls, G.String(s).rest) && G.String(s).value == LettersMean(ls)
  {
    hide G.Chars;
    ls := LettersWritten(s[1..], "");
    assert s == "\"" + s[1..] && "" + LettersMean(ls) == LettersMean(ls);
  }

  lemma LeafWritten(s: string) returns (t: Tree)
    requires s != "" && !G.IsSpace(s[0]) && s[0] !in "[{" && G.ParseValue(s).Ok?
    ensures Legal(t) && s == TextOf(t, G.ParseValue(s).rest) && Means(t) == G.ParseValue(s).value
  {
    hide G.Number, G.String, LegalNumeral, NumeralText, LegalLetters, QuotedText, NumeralMeans, LettersMean;
    if s[0] == 'n' {
      t := NullWord;
    } else if s[0] == 't' {
      t := TrueWord;
    } else if s[0] == 'f' {
      t := FalseWord;
    } else if s[0] == '"' {
      var ls := QuotedWritten(s);
      t := Quoted(ls);
    } else {
      var n := NumeralWritten(s);
      t := Number(n);
    }
  }

  /** A bracket, comma or colon, the white space behind it, and the rest. */
  lemma HeadAndGap(t: string)
    requires t != ""
    ensures t == [t[0]] + (Skipped(t[1..]) + G.SkipSpace(t[1..]))
  {
    assert t == [t[0]] + t[1..];
  }

  /** A value, with the white space in front of it, and behind it as far as the parser goes. */
  lemma {:induction false} ValueWritten(s: string) returns (p: Padded)
    requires G.ParseValue(s).Ok?
    ensures LegalPadded(p) && s == PaddedText(p, G.ParseValue(s).rest) && Means(p.tree) == G.ParseValue(s).value
    decreases |s|, 3
  {
    hide Legal, TextOf, Means, G.ParseValue, G.SkipSpace, Skipped;
    SkipTwice(s);
    SameValue(s, G.SkipSpace(s));
    var t, after := TreeWritten(G.SkipSpace(s));
    p := Padded(Skipped(s), t, after);
  }

  lemma {:induction false} TreeWritten(s: string) returns (t: Tree, after: string)
    requires G.SkipSpace(s) == s && G.ParseValue(s).Ok?
    ensures Legal(t) && Blank(after) && s == TextOf(t, after + G.ParseValue(s).rest)
    ensures Means(t) == G.ParseValue(s).value
    decreases |s|, 2
  {
    hide Legal, TextOf, Means, G.ParseArray, G.ParseObject, G.Number, G.String, G.Word, G.SkipSpace;
    if s[0] == '[' {
      t, after := ArrayWritten(s);
    } else if s[0] == '{' {
      t, after := ObjectWritten(s);
    } else {
      t := LeafWritten(s);
      after := "";
      assert after + G.ParseValue(s).rest == G.ParseValue(s).rest;
    }
  }

  lemma {:induction false} ArrayWritten(s: string) returns (t: Tree, after: string)
    requires s != "" && s[0] == '[' && G.ParseArray(s).Ok?
    ensures Legal(t) && Blank(after)
    ensures s == TextOf(t, after + G.ParseArray(s).rest) && Means(t) == G.ParseArray(s).value
    decreases |s|, 1
  {
    hide G.Elements, ElementsText, ElementsMean, LegalElements, G.SkipSpace, Skipped;
    HeadAndGap(s);
    var u, gap, rest := G.SkipSpace(s[1..]), Skipped(s[1..]), G.ParseArray(s).rest;
    if u[0] == ']' {
      HeadAndGap(u);
      after := Skipped(u[1..]);
      t := EmptyArray(gap);
    } else {
      var es;
      es, after := ElementsWritten(u, []);
      MoreBeforeFirst(es, gap, "]" + (after + rest));
      t := Array(es.(value := Indented(es.value, gap)));
      assert [] + ElementsMean(es) == ElementsMean(es);
    }
  }

  lemma {:induction false} ElementsWritten(s: string, read: seq<Value>) returns (es: Elements, after: string)
    requires G.Elements(s, read).Ok?
    ensures LegalElements(es) && Blank(after) && s == ElementsText(es, "]" + (after + G.Elements(s, read).rest))
    ensures G.Elements(s, read).value == VArr(read + ElementsMean(es))
    decreases |s|, 4
  {
    hide Legal, PaddedText, Means, G.ParseValue, G.MoreElements, ElementsText, Skipped;
    var rest, r := G.Elements(s, read).rest, G.ParseValue(s).rest;
    var p := ValueWritten(s);
    var m := Means(p.tree);
    var gap, more;
    gap, more, after := MoreWritten(r, read + [m]);
    var k := "]" + (after + rest);
    MoreBehind(p, gap, if more.Some? then "," + ElementsText(more.value, k) else k);
    var q := p.(after := p.after + gap);
    es := if more.Some? then Comma(q, more.value) else LastElement(q);
    FirstOf(es, k);
    assert read + [m] + (if more.Some? then ElementsMean(more.value) else []) == read + ElementsMean(es);
  }

  /** Behind an element: the bracket, or a comma and more elements. */
  lemma {:induction false} MoreWritten(s: string, read: seq<Value>)
      returns (gap: string, more: Option<Elements>, after: string)
    requires G.MoreElements(s, read).Ok?
    ensures Blank(gap) && Blank(after) && (more.Some? ==> LegalElements(more.value))
    ensures var k := "]" + (after + G.MoreElements(s, read).rest);
      s == gap + if more.Some? then "," + ElementsText(more.value, k) else k
    ensures G.MoreElements(s, read).value == VArr(read + if more.Some? then ElementsMean(more.value) else [])
    decreases |s|, 5
  {
    hide Legal, LegalElements, ElementsText, ElementsMean, G.Elements, G.SkipSpace, Skipped;
    gap := Skipped(s);
    var t, rest := G.SkipSpace(s), G.MoreElements(s, read).rest;
    HeadAndGap(t);
    if t[0] == ']' {
      more, after := None, Skipped(t[1..]);
      assert read + [] == read;
    } else {
      var es;
      es, after := ElementsWritten(G.SkipSpace(t[1..]), read);
      MoreBeforeFirst(es, Skipped(t[1..]), "]" + (after + rest));
      more := Some(es.(value := Indented(es.value, Skipped(t[1..]))));
    }
  }

  lemma {:induction false} ObjectWritten(s: string) returns (t: Tree, after: string)
    requires s != "" && s[0] == '{' && G.ParseObject(s).Ok?
    ensures Legal(t) && Blank(after)
    ensures s == TextOf(t, after + G.ParseObject(s).rest) && Means(t) == G.ParseObject(s).value
    decreases |s|, 1
  {
    hide G.Entries, MembersText, MembersMean, LegalMembers, G.SkipSpace, Skipped;
    HeadAndGap(s);
    var u, gap, rest := G.SkipSpace(s[1..]), Skipped(s[1..]), G.ParseObject(s).rest;
    if u[0] == '}' {
      HeadAndGap(u);
      after := Skipped(u[1..]);
      t := EmptyObject(gap);
    } else {
      var ms;
      ms, after := MembersWritten(u, map[]);
      MoreBeforeFirstPair(ms, gap, "}" + (after + rest));
      t := Object(IndentedPair(ms, gap));
    }
  }

  lemma {:induction false} MembersWritten(s: string, read: map<string, Value>) returns (ms: Members, after: string)
    requires G.Entries(s, read).Ok?
    ensures LegalMembers(ms) && Blank(after) && s == MembersText(ms, "}" + (after + G.Entries(s, read).rest))
    ensures G.Entries(s, read).value == VObj(MembersMean(ms, read))
    decreases |s|, 4
  {
    hide G.String, G.AfterKey, QuotedText, MembersText, PaddedText, Legal, Means, LettersMean, LegalLetters;
    var key := QuotedWritten(s);
    var r := G.String(s).rest;
    ms, after := PairWritten(r, key, read);
    FirstPairOf(ms, "}" + (after + G.Entries(s, read).rest));
    assert "" + s == s;
  }

  /** From behind the key. */
  lemma {:induction false} PairWritten(s: string, key: seq<Letter>, read: map<string, Value>)
      returns (ms: Members, after: string)
    requires LegalLetters(key) && G.AfterKey(s, LettersMean(key), read).Ok?
    ensures var r := G.AfterKey(s, LettersMean(key), read);
      && LegalMembers(ms) && Blank(after) && ms.pair.before == "" && ms.pair.key == key
      && s == ms.pair.between + (":" + PaddedText(ms.pair.value, BehindPair(ms, "}" + (after + r.rest))))
      && r.value == VObj(MembersMean(ms, read))
    decreases |s|, 4
  {
    hide Legal, PaddedText, Means, G.ParseValue, G.MoreEntries, MembersText, LettersMean, LegalLetters, G.SkipSpace,
         Skipped;
    var rest, colon := G.AfterKey(s, LettersMean(key), read).rest, G.SkipSpace(s);
    HeadAndGap(colon);
    var w, indent := G.SkipSpace(colon[1..]), Skipped(colon[1..]);
    var r := G.ParseValue(w).rest;
    var p := ValueWritten(w);
    MoreBefore(p, indent, r);
    p := Indented(p, indent);
    var gap, more;
    gap, more, after := MorePairsWritten(r, read[LettersMean(key) := Means(p.tree)]);
    var k := "}" + (after + rest);
    MoreBehind(p, gap, if more.Some? then "," + MembersText(more.value, k) else k);
    var pair := Pair("", key, Skipped(s), p.(after := p.after + gap));
    ms := if more.Some? then CommaPair(pair, more.value) else LastPair(pair);
  }

  /** Behind a member: the brace, or a comma and more members. */
  lemma {:induction false} MorePairsWritten(s: string, read: map<string, Value>)
      returns (gap: string, more: Option<Members>, after: string)
    requires G.MoreEntries(s, read).Ok?
    ensures Blank(gap) && Blank(after) && (more.Some? ==> LegalMembers(more.value))
    ensures var k := "}" + (after + G.MoreEntries(s, read).rest);
      s == gap + if more.Some? then "," + MembersText(more.value, k) else k
    ensures G.MoreEntries(s, read).value == VObj(if more.Some? then MembersMean(more.value, read) else read)
    decreases |s|, 5
  {
    hide Legal, LegalMembers, MembersText, MembersMean, G.Entries, G.SkipSpace, Skipped;
    gap := Skipped(s);
    var t, rest := G.SkipSpace(s), G.MoreEntries(s, read).rest;
    HeadAndGap(t);
    if t[0] == '}' {
      more, after := None, Skipped(t[1..]);
    } else {
      var ms;
      ms, after := MembersWritten(G.SkipSpace(t[1..]), read);
      MoreBeforeFirstPair(ms, Skipped(t[1..]), "}" + (after + rest));
      more := Some(IndentedPair(ms, Skipped(t[1..])));
    }
  }

  // ---- the theorem ----

  /** The parser accepts a text, as a value, exactly when a legal tree that means this value is written
      so. */
  lemma AcceptsExactly(text: string, v: Value)
    ensures G.Parse(text) == G.Ok(v, "") <==>
            exists p: Padded :: LegalPadded(p) && PaddedText(p, "") == text && Means(p.tree) == v
  {
    hide G.ParseValue, Legal, PaddedText, Means;
    if G.Parse(text) == G.Ok(v, "") {
      var p := ValueWritten(text);
      var after := G.ParseValue(text).rest;
      var gap := Skipped(after);
      assert after == gap + "";
      MoreBehind(p, gap, "");
      assert LegalPadded(p.(after := p.after + gap));
    }
    forall p: Padded | LegalPadded(p) && PaddedText(p, "") == text && Means(p.tree) == v
      ensures G.Parse(text) == G.Ok(v, "")
    {
      PaddedReads(p, "");
    }
  }
}
