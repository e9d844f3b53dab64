/** What `dump` prints, apart from what the parser makes of it: the spelling of integers and of
    strings, against the rules of RFC 8259, sections 6 and 7. */
module JsonPrinting {
  import opened Basics
  import opened Sequences
  import opened JsonText
  import opened JsonRoundTrip
  import G = JsonGrammar

  // ---- integers ----

  /** A minus sign exactly for negative numbers, and digits without a leading zero. */
  predicate Spells(s: string, n: int) {
    if n < 0 then s != "" && s[0] == '-' && SpellsNat(s[1..], -n) else SpellsNat(s, n)
  }

  predicate SpellsNat(s: string, n: nat) {
    && s != "" && (forall i | 0 <= i < |s| :: G.IsDigit(s[i])) && G.NatOf(s) == n
    && (s[0] == '0' ==> |s| == 1)
  }

  lemma {:induction false} NatGrows(s: string)
    requires (forall i | 0 <= i < |s| :: G.IsDigit(s[i])) && s != "" && s[0] != '0'
    ensures G.NatOf(s) > 0
  {
    if |s| > 1 {
      NatGrows(s[..|s| - 1]);
    } else {
      assert s[..0] == "";
    }
  }

  /** No other text spells the same number. */
  lemma {:induction false} SpelledOnce(s: string, t: string, n: nat)
    requires SpellsNat(s, n) && SpellsNat(t, n)
    ensures s == t
    decreases n
  {
    var a, b := s[..|s| - 1], t[..|t| - 1];
    assert G.IsDigit(s[|s| - 1]) && G.IsDigit(t[|t| - 1]);
    assert s == a + [s[|s| - 1]] && t == b + [t[|t| - 1]];
    LastDigit(G.NatOf(a), G.NatOf(b), s[|s| - 1] as int - '0' as int, t[|t| - 1] as int - '0' as int);
    if a == "" {
      if b != "" {
        NatGrows(b);
        assert false;
      }
    } else {
      NatGrows(a);
      if b == "" {
        assert false;
      } else {
        NatGrows(b);
        SpelledOnce(a, b, n / 10);
      }
    }
  }

  lemma LastDigit(m: nat, n: nat, c: int, d: int)
    requires 0 <= c < 10 && 0 <= d < 10 && 10 * m + c == 10 * n + d
    ensures m == n && c == d && (10 * m + c) / 10 == m
  {
  }

  /** `to_string` prints the one text that spells the number. */
  lemma IntegerSpelled(n: int, s: string)
    ensures Spells(s, n) <==> s == ToString(n)
  {
    DecimalIs(if n < 0 then -n else n);
    assert Spells(ToString(n), n) by {
      assert n < 0 ==> ToString(n)[1..] == Decimal(-n);
    }
    if Spells(s, n) {
      if n < 0 {
        SpelledOnce(s[1..], Decimal(-n), -n);
        assert s == [s[0]] + s[1..];
      } else {
        SpelledOnce(s, Decimal(n), n);
      }
    }
  }

  // ---- characters ----

  /** The value of a hexadecimal digit. */
  function HexValue(c: char): Option<nat> {
    if '0' <= c <= '9' then Some(c as int - '0' as int)
    else if 'a' <= c <= 'f' then Some(c as int - 'a' as int + 10)
    else if 'A' <= c <= 'F' then Some(c as int - 'A' as int + 10)
    else None
  }

  /** The characters that a backslash and a letter stand for. */
  function LetterStandsFor(c: char): Option<nat> {
    match c
    case '"' => Some(0x22)
    case '\\' => Some(0x5c)
    case '/' => Some(0x2f)
    case 'b' => Some(0x08)
    case 'f' => Some(0x0c)
    case 'n' => Some(0x0a)
    case 'r' => Some(0x0d)
    case 't' => Some(0x09)
    case _ => None
  }

  /** One character of a string and what follows it: plain, escaped by a letter, or by four digits. */
  function ReadChar(s: string): Option<(nat, string)> {
    if s == "" || s[0] == '"' || s[0] as int < 0x20 then None
    else if s[0] != '\\' then Some((s[0] as int, s[1..]))
    else if |s| < 2 then None
    else if s[1] == 'u' then
      if |s| < 6 then None
      else
        match (HexValue(s[2]), HexValue(s[3]), HexValue(s[4]), HexValue(s[5]))
        case (Some(a), Some(b), Some(c), Some(d)) => Some((a * 4096 + b * 256 + c * 16 + d, s[6..]))
        case _ => None
    else
      match LetterStandsFor(s[1])
      case Some(n) => Some((n, s[2..]))
      case None => None
  }

  /** The characters of a string up to the closing quote, which must end the text. */
  function ReadString(s: string): Option<seq<nat>>
    decreases |s|
  {
    if s == "\"" then Some([])
    else
      match ReadChar(s)
      case None => None
      case Some((n, rest)) =>
        if |rest| >= |s| then None
        else
          match ReadString(rest)
          case None => None
          case Some(ns) => Some([n] + ns)
  }

  function Codes(s: Text): seq<nat> { seq(|s|, i requires 0 <= i < |s| => s[i] as int) }

  predicate Ascii(s: Text) {
    forall i | 0 <= i < |s| :: s[i] as int < 0x80
  }

  /** Digits of a number below 128, or of a negative one: `{:04x}` pads to four places, sign included. */
  lemma HexDenotes(n: int)
    requires -128 <= n < 128
    ensures |Hex(n)| == 4
    ensures var m := if n < 0 then -n else n;
      && HexValue(Hex(n)[2]) == Some(m / 16) && HexValue(Hex(n)[3]) == Some(m % 16)
      && Hex(n)[1] == '0' && Hex(n)[0] == if n < 0 then '-' else '0'
    ensures forall i | 0 <= i < 4 :: !('A' <= Hex(n)[i] <= 'F')
  {
    var m := if n < 0 then -n else n;
    HexDigitDenotes(m / 16);
    HexDigitDenotes(m % 16);
  }

  lemma HexDigitDenotes(n: int)
    requires 0 <= n < 16
    ensures HexValue(HexDigit(n)) == Some(n) && !('A' <= HexDigit(n) <= 'F')
  {
  }

  /** A character that needs no escape is printed as itself, and only such a one. */
  lemma PlainExactly(c: Char)
    ensures EscapeChar(c) == [c] <==> 0x20 <= c as int < 0x80 && c != '"' && c != '\\'
    ensures |EscapeChar(c)| == 2 <==> c in "\"\\\U{8}\U{c}\n\r\t"
  {
  }

  /** What is printed for a character denotes this character, exactly below 0x80. */
  lemma CharDenotes(c: Char, k: string)
    ensures if c as int < 0x80 then ReadChar(EscapeChar(c) + k) == Some((c as int, k))
            else ReadChar(EscapeChar(c) + k) == None
  {
    var e := EscapeChar(c);
    PlainExactly(c);
    if |e| == 1 {
      assert (e + k)[1..] == k;
    } else if |e| == 2 {
      assert (e + k)[2..] == k && (e + k)[0] == e[0] && (e + k)[1] == e[1];
    } else {
      NumberedDenotes(c, k);
    }
  }

  lemma NumberedDenotes(c: Char, k: string)
    requires |EscapeChar(c)| > 2
    ensures if c as int < 0x80 then ReadChar(EscapeChar(c) + k) == Some((c as int, k))
            else ReadChar(EscapeChar(c) + k) == None
  {
    var h := Hex(Signed(c));
    HexDenotes(Signed(c));
    assert EscapeChar(c) == "\\u" + h;
    var s := EscapeChar(c) + k;
    assert s[0] == '\\' && s[1] == 'u' && s[2] == h[0] && s[3] == h[1] && s[4] == h[2] && s[5] == h[3] && s[6..] == k;
  }

  lemma {:induction false} BodyDenotes(s: Text)
    ensures if Ascii(s) then ReadString(EscapeBody(s) + "\"") == Some(Codes(s))
            else ReadString(EscapeBody(s) + "\"") == None
  {
    hide EscapeChar, ReadChar;
    if s == "" {
      assert EscapeBody(s) + "\"" == "\"" && Codes(s) == [];
    } else {
      var k := EscapeBody(s[1..]) + "\"";
      CharDenotes(s[0], k);
      BodyDenotes(s[1..]);
      EscapeIsLonger(s[0], k);
      Associates(EscapeChar(s[0]), EscapeBody(s[1..]), "\"");
      assert Codes(s) == [s[0] as int] + Codes(s[1..]);
      assert s == [s[0]] + s[1..];
    }
  }

  lemma EscapeIsLonger(c: Char, k: string)
    ensures |EscapeChar(c) + k| > |k| && (k != "" ==> EscapeChar(c) + k != "\"")
  {
  }

  /** A dumped string is a string of RFC 8259 that denotes what was dumped, exactly if all its bytes are
      below 0x80; otherwise it is not a string of RFC 8259 at all. */
  lemma StringDenotes(s: Text)
    ensures Escape(s)[0] == '"'
    ensures if Ascii(s) then ReadString(Escape(s)[1..]) == Some(Codes(s)) else ReadString(Escape(s)[1..]) == None
  {
    BodyDenotes(s);
    assert Escape(s)[1..] == EscapeBody(s) + "\"";
  }
}
