/** The JSON parser: methods that advance over the text and throw `bad_json`, each of which does
    what the function of JsonGrammar says. */
module JsonParser {
  import opened JsonText
  import opened JsonGrammar

  /** A result, or `bad_json`, which every caller passes on. */
  datatype Step<+T> = Done(value: T) | Threw(why: string) {
    predicate IsFailure() { Threw? }

    function PropagateFailure<U>(): Step<U>
      requires IsFailure()
    {
      Threw(why)
    }

    function Extract(): T
      requires !IsFailure()
    {
      value
    }
  }

  /** The parser has done what the grammar says, and stands where it says. */
  ghost predicate Agrees<T(!new)>(spec: Result<T>, r: Step<T>, source: string) {
    match spec
    case Ok(v, rest) => r == Done(v) && source == rest
    case Bad(why) => r == Threw(why)
  }

  lemma ThreeParts(s: string, i: nat, j: nat, k: nat)
    requires i <= j <= k <= |s|
    ensures s[..k] == s[..i] + s[i..j] + s[j..k]
  {
  }

  lemma Taken(s: string, i: nat, taken: string, rest: string)
    requires i <= |s| && s[i..] == taken + rest
    ensures i + |taken| <= |s| && s[i..i + |taken|] == taken && s[i + |taken|..] == rest
  {
    assert s[i..][..|taken|] == taken && s[i..][|taken|..] == rest;
  }

  class Parser {
    var source: string

    constructor (text: string)
      ensures source == text
    {
      source := text;
    }

    /** `get_` where the text is known not to be at its end. */
    method Take() returns (c: char)
      requires source != ""
      modifies this
      ensures c == old(source)[0] && source == old(source)[1..]
    {
      c := source[0];
      source := source[1..];
    }

    method Get() returns (r: Step<char>)
      modifies this
      ensures old(source) == "" ==> r == Threw("unexpected end of input")
      ensures old(source) != "" ==> r == Done(old(source)[0]) && source == old(source)[1..]
    {
      if source == "" {
        return Threw("unexpected end of input");
      }
      var c := Take();
      r := Done(c);
    }

    method SkipWhiteSpaces()
      modifies this
      ensures source == SkipSpace(old(source))
    {
      while source != "" && IsSpace(source[0])
        invariant SkipSpace(source) == SkipSpace(old(source))
        decreases |source|
      {
        source := source[1..];
      }
    }

    method NextCharactersAre(str: string) returns (ok: bool)
      modifies this
      ensures ok <==> str <= old(source)
      ensures ok ==> source == old(source)[|str|..]
    {
      var i := 0;
      while i < |str|
        invariant i <= |str| && i <= |old(source)| && str[..i] == old(source)[..i] && source == old(source)[i..]
      {
        if source == "" || source[0] != str[i] {
          return false;
        }
        source := source[1..];
        i := i + 1;
      }
      ok := true;
    }

    method ParseWord(word: string, v: Value) returns (r: Step<Value>)
      modifies this
      ensures Agrees(Word(old(source), word, v), r, source)
    {
      var ok := NextCharactersAre(word);
      r := if ok then Done(v) else Threw("expected `" + word + "` isn't complete");
    }

    /** One digit and all that follow it. */
    method TakeDigits() returns (taken: string)
      requires source != "" && IsDigit(source[0])
      modifies this
      ensures taken + source == old(source) && |taken| == Digits(old(source))
    {
      taken := "";
      while source != "" && IsDigit(source[0])
        invariant taken + source == old(source) && |taken| + Digits(source) == Digits(old(source))
        decreases |source|
      {
        taken := taken + [source[0]];
        source := source[1..];
      }
    }

    method ParseInteger() returns (r: Step<string>)
      requires source != ""
      modifies this
      ensures match IntegerPart(old(source))
              case Ok(i, rest) => r == Done(old(source)[..i]) && source == rest
              case Bad(why) => r == Threw(why)
    {
      ghost var all := source;
      var number := "";
      if source[0] == '-' {
        number := "-";
        source := source[1..];
      }
      if source == "" {
        return Threw("invalid number");
      }
      assert source == all[|number|..] && number == all[..|number|];
      if source[0] == '0' {
        number := number + "0";
        source := source[1..];
        if source != "" && IsDigit(source[0]) {
          return Threw("leading zeros are not allowed");
        }
      } else if '1' <= source[0] <= '9' {
        var digits := TakeDigits();
        number := number + digits;
      } else {
        return Threw("invalid number");
      }
      assert number + source == all;
      r := Done(number);
    }

    /** The fraction, if there is one. */
    method ParseFraction(ghost all: string, ghost i: nat) returns (r: Step<string>)
      requires i <= |all| && source == all[i..]
      modifies this
      ensures match Fraction(all, i)
              case Ok(j, rest) => r == Done(all[i..j]) && source == rest
              case Bad(why) => r == Threw(why)
    {
      assert all[i..i] == "";
      if source == "" || source[0] != '.' {
        return Done("");
      }
      source := source[1..];
      assert source == all[i + 1..];
      if source == "" || !IsDigit(source[0]) {
        return Threw("fractional part requires at least one digit");
      }
      var digits := TakeDigits();
      Taken(all, i, "." + digits, source);
      r := Done("." + digits);
    }

    /** The exponent, if there is one. */
    method ParseExponent(ghost all: string, ghost i: nat) returns (r: Step<string>)
      requires i <= |all| && source == all[i..]
      modifies this
      ensures match Exponent(all, i)
              case Ok(j, rest) => r == Done(all[i..j]) && source == rest
              case Bad(why) => r == Threw(why)
    {
      assert all[i..i] == "";
      if source == "" || (source[0] != 'e' && source[0] != 'E') {
        return Done("");
      }
      var start := [source[0]];
      source := source[1..];
      assert source == all[i + 1..];
      if source != "" && (source[0] == '+' || source[0] == '-') {
        start := start + [source[0]];
        source := source[1..];
        assert source == all[i + 2..];
      }
      if source == "" || !IsDigit(source[0]) {
        return Threw("exponent requires at least one digit");
      }
      var digits := TakeDigits();
      Taken(all, i, start + digits, source);
      r := Done(start + digits);
    }

    method ParseNumber() returns (r: Step<Value>)
      requires source != ""
      modifies this
      ensures Agrees(Number(old(source)), r, source)
    {
      hide IntegerPart, Fraction, Exponent, IntegerOf;
      ghost var all := source;
      var number :- ParseInteger();
      ghost var i := |number|;
      var fraction :- ParseFraction(all, i);
      ghost var j := i + |fraction|;
      var exponent :- ParseExponent(all, j);
      if fraction == "" && exponent == "" {
        var n := IntegerOf(number);
        if !(LEAST <= n <= GREATEST) {
          return Threw("invalid integer");
        }
        r := Done(VInt(n));
      } else {
        ThreeParts(all, i, j, j + |exponent|);
        r := Done(VFloat(number + fraction + exponent));
      }
    }

    method ParseString() returns (r: Step<string>)
      modifies this
      ensures Agrees(String(old(source)), r, source)
    {
      var quote :- Get();
      if quote != '"' {
        return Threw("expected string");
      }
      ghost var all := source;
      var result := "";
      while true
        invariant Chars(source, result) == Chars(all, "")
        decreases |source|
      {
        if source == "" {
          return Threw("unexpected end of string");
        }
        var c := Take();
        if c == '"' {
          return Done(result);
        }
        if c as int < 0x20 {
          return Threw("control characters must be escaped");
        }
        if c == '\\' {
          if source == "" {
            return Threw("unexpected end of string");
          }
          var escaped := Take();
          match Unescape(escaped) {
            case Bad(why) => return Threw(why);
            case Ok(meant, _) => result := result + [meant];
          }
        } else {
          result := result + [c];
        }
      }
    }

    method ParseValue() returns (r: Step<Value>)
      modifies this
      ensures Agrees(JsonGrammar.ParseValue(old(source)), r, source)
      decreases |source|, 2
    {
      hide Word, JsonGrammar.String, JsonGrammar.ParseArray, JsonGrammar.ParseObject, Number;
      SkipWhiteSpaces();
      if source == "" {
        return Threw("unexpected end of input");
      }
      var c := source[0];
      if c == 'n' {
        r := ParseWord("null", VNull);
      } else if c == 't' {
        r := ParseWord("true", VBool(true));
      } else if c == 'f' {
        r := ParseWord("false", VBool(false));
      } else if c == '"' {
        var s :- ParseString();
        r := Done(VStr(s));
      } else if c == '[' {
        r := ParseArray();
      } else if c == '{' {
        r := ParseObject();
      } else if IsDigit(c) || c == '-' {
        r := ParseNumber();
      } else {
        r := Threw("invalid json");
      }
    }

    method ParseArray() returns (r: Step<Value>)
      requires source != ""
      modifies this
      ensures Agrees(JsonGrammar.ParseArray(old(source)), r, source)
      decreases |source|, 1
    {
      source := source[1..];
      SkipWhiteSpaces();
      if source == "" {
        return Threw("unexpected end of array");
      }
      if source[0] == ']' {
        source := source[1..];
        SkipWhiteSpaces();
        return Done(VArr([]));
      }
      r := ParseElements();
    }

    /** The loop of `parse_array_`. */
    method ParseElements() returns (r: Step<Value>)
      modifies this
      ensures Agrees(Elements(old(source), []), r, source)
      decreases |source|, 3
    {
      ghost var all := source;
      var result: seq<Value> := [];
      while true
        invariant Elements(source, result) == Elements(all, []) && |source| <= |all|
        decreases |source|
      {
        var v :- ParseValue();
        result := result + [v];
        SkipWhiteSpaces();
        if source == "" {
          return Threw("unexpected end of array");
        }
        var delimiter := Take();
        if delimiter == ']' {
          break;
        }
        if delimiter != ',' {
          return Threw("expected comma in array");
        }
        SkipWhiteSpaces();
        if source == "" {
          return Threw("unexpected end of array");
        }
        if source[0] == ']' {
          return Threw("trailing comma in array");
        }
      }
      SkipWhiteSpaces();
      r := Done(VArr(result));
    }

    method ParseObject() returns (r: Step<Value>)
      requires source != ""
      modifies this
      ensures Agrees(JsonGrammar.ParseObject(old(source)), r, source)
      decreases |source|, 1
    {
      source := source[1..];
      SkipWhiteSpaces();
      if source == "" {
        return Threw("unexpected end of object");
      }
      if source[0] == '}' {
        source := source[1..];
        SkipWhiteSpaces();
        return Done(VObj(map[]));
      }
      r := ParseEntries();
    }

    /** A key, a colon and a value. */
    method ParseMember() returns (r: Step<(string, Value)>)
      modifies this
      ensures match r
              case Done((key, v)) =>
                && |source| < |old(source)|
                && forall read :: Entries(old(source), read) == MoreEntries(source, read[key := v])
              case Threw(why) => forall read :: Entries(old(source), read) == Bad(why)
      decreases |source|, 3
    {
      hide JsonGrammar.String, MoreEntries;
      if source == "" {
        return Threw("unexpected end of input");
      }
      if source[0] != '"' {
        return Threw("expected string key");
      }
      var key :- ParseString();
      SkipWhiteSpaces();
      var colon :- Get();
      if colon != ':' {
        return Threw("expected colon in object");
      }
      SkipWhiteSpaces();
      var v :- ParseValue();
      r := Done((key, v));
    }

    /** The loop of `parse_object_`. */
    method ParseEntries() returns (r: Step<Value>)
      modifies this
      ensures Agrees(Entries(old(source), map[]), r, source)
      decreases |source|, 4
    {
      hide JsonGrammar.String, AfterKey, JsonGrammar.ParseValue;
      ghost var all := source;
      var result: map<string, Value> := map[];
      while true
        invariant Entries(source, result) == Entries(all, map[]) && |source| <= |all|
        decreases |source|
      {
        var member :- ParseMember();
        result := result[member.0 := member.1];
        SkipWhiteSpaces();
        if source == "" {
          return Threw("unexpected end of object");
        }
        var delimiter := Take();
        if delimiter == '}' {
          break;
        }
        if delimiter != ',' {
          return Threw("expected comma in object");
        }
        SkipWhiteSpaces();
        if source == "" {
          return Threw("unexpected end of object");
        }
        if source[0] == '}' {
          return Threw("trailing comma in object");
        }
      }
      SkipWhiteSpaces();
      r := Done(VObj(result));
    }

    method Parse() returns (r: Step<Value>)
      modifies this
      ensures match JsonGrammar.Parse(old(source))
              case Ok(v, _) => r == Done(v)
              case Bad(why) => r == Threw(why)
    {
      var v :- ParseValue();
      SkipWhiteSpaces();
      if source != "" {
        return Threw("can't parse a complete value");
      }
      r := Done(v);
    }
  }
}
