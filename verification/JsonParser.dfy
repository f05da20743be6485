/** The parser as the code runs it (json.cpp, `Parser`): one text and an index that moves through it.
    Every method does what the function of the grammar says from the index where it starts. */
module JsonParser {
  import opened Wrappers
  import opened Decimals
  import opened Json
  import opened JsonParse

  /** The method returned what the grammar gives, and on success stopped where the grammar does. */
  ghost predicate Agrees<T>(expected: Outcome<T>, r: Result<T, JsonError>, i: nat) {
    match expected
    case Ok(value, next) => r == Success(value) && i == next
    case Bad(error) => r == Failure(error)
  }

  /** The first k hexadecimal digits from a position on. */
  ghost function HexPrefix(s: string, start: nat, k: nat): nat
    requires start + k <= |s| && forall j :: start <= j < start + k ==> IsHex(s[j])
  {
    if k == 0 then 0 else HexPrefix(s, start, k - 1) * 16 + HexValue(s[start + k - 1])
  }

  lemma FourDigits(s: string, start: nat)
    requires start + 4 <= |s| && forall j :: start <= j < start + 4 ==> IsHex(s[j])
    ensures Hex4(s, start) == Ok(HexPrefix(s, start, 4), start + 4)
  {
    var two := HexPrefix(s, start, 2);
    assert HexPrefix(s, start, 1) == HexValue(s[start]);
    assert two == HexValue(s[start]) * 16 + HexValue(s[start + 1]);
    assert HexPrefix(s, start, 3) == two * 16 + HexValue(s[start + 2]);
    assert HexPrefix(s, start, 4) == HexPrefix(s, start, 3) * 16 + HexValue(s[start + 3]);
  }

  datatype After = Another | Closed | Neither

  class Parser {
    const s: string
    const strtod: Strtod
    var i: nat

    constructor (text: string, strtod: Strtod)
      ensures s == text && this.strtod == strtod && i == 0
    {
      s := text;
      this.strtod := strtod;
      i := 0;
    }

    method Document() returns (r: Result<Value, JsonError>)
      requires i == 0
      modifies this
      ensures Agrees(Parse(strtod, s), r, i)
    {
      r := ReadValue(0);
      if r.Failure? {
        return;
      }
      SkipSpaces();
      if i != |s| {
        return Failure(TrailingText);
      }
    }

    method SkipSpaces()
      requires i <= |s|
      modifies this
      ensures i == SkipSpace(s, old(i)) <= |s|
    {
      while i < |s| && IsSpace(s[i])
        invariant i <= |s| && SkipSpace(s, i) == SkipSpace(s, old(i))
        decreases |s| - i
      {
        i := i + 1;
      }
    }

    method Eat(word: string) returns (ate: bool)
      requires i <= |s|
      modifies this
      ensures ate == Stands(s, old(i), word)
      ensures i == if ate then old(i) + |word| else old(i)
    {
      ate := i + |word| <= |s| && s[i..i + |word|] == word;
      StandsIsSlice(s, i, word);
      if ate {
        i := i + |word|;
      }
    }

    method ReadValue(depth: nat) returns (r: Result<Value, JsonError>)
      requires i <= |s|
      modifies this
      ensures Agrees(ParseValue(strtod, s, old(i), depth), r, i)
      decreases |s| - i, 3
    {
      if depth > MAX_DEPTH {
        return Failure(TooDeep);
      }
      SkipSpaces();
      if i >= |s| {
        return Failure(UnexpectedEnd);
      }
      r := ReadAt(depth);
    }

    method ReadAt(depth: nat) returns (r: Result<Value, JsonError>)
      requires i < |s|
      modifies this
      ensures Agrees(ParseAt(strtod, s, old(i), depth), r, i)
      decreases |s| - i, 2
    {
      if s[i] == '{' {
        r := ReadObject(depth);
        return;
      }
      if s[i] == '[' {
        r := ReadArray(depth);
        return;
      }
      if s[i] == '"' {
        var text := ReadString();
        r := match text case Success(t) => Success(String(t)) case Failure(e) => Failure(e);
        return;
      }
      var ate := Eat("true");
      if ate {
        return Success(Bool(true));
      }
      ate := Eat("false");
      if ate {
        return Success(Bool(false));
      }
      ate := Eat("null");
      if ate {
        return Success(Null);
      }
      r := ReadNumber();
    }

    /** After an entry: spaces, then a comma or the closing mark. */
    method AfterEntry(mark: char) returns (r: After)
      requires i <= |s| && mark != ','
      modifies this
      ensures var j := SkipSpace(s, old(i));
        && (r == Another <==> j < |s| && s[j] == ',') && (r == Closed <==> j < |s| && s[j] == mark)
        && i == if r == Neither then j else j + 1
    {
      SkipSpaces();
      if i < |s| && s[i] == ',' {
        i := i + 1;
        r := Another;
      } else if i < |s| && s[i] == mark {
        i := i + 1;
        r := Closed;
      } else {
        r := Neither;
      }
    }

    method ReadArray(depth: nat) returns (r: Result<Value, JsonError>)
      requires i < |s| && s[i] == '['
      modifies this
      ensures Agrees(ParseAt(strtod, s, old(i), depth), r, i)
      decreases |s| - i, 1
    {
      i := i + 1;
      SkipSpaces();
      if i < |s| && s[i] == ']' {
        i := i + 1;
        return Success(Array([]));
      }
      ghost var start := i;
      var items: seq<Value> := [];
      while true
        invariant old(i) < i <= |s|
        invariant ParseItems(strtod, s, i, depth, items) == ParseItems(strtod, s, start, depth, [])
        decreases |s| - i
      {
        var v := ReadValue(depth + 1);
        if v.Failure? {
          return Failure(v.error);
        }
        items := items + [v.value];
        var after := AfterEntry(']');
        if after == Neither {
          return Failure(ExpectedCommaOrBracket);
        }
        if after == Closed {
          return Success(Array(items));
        }
      }
    }

    method ReadKey() returns (r: Result<string, JsonError>)
      requires i <= |s|
      modifies this
      ensures Agrees(ParseKey(s, old(i)), r, i)
    {
      SkipSpaces();
      if i >= |s| || s[i] != '"' {
        return Failure(ExpectedKey);
      }
      r := ReadString();
      if r.Failure? {
        return;
      }
      SkipSpaces();
      if i >= |s| || s[i] != ':' {
        return Failure(ExpectedColon);
      }
      i := i + 1;
    }

    method ReadMember(depth: nat) returns (r: Result<Member, JsonError>)
      requires i <= |s|
      modifies this
      ensures Agrees(ParseMember(strtod, s, old(i), depth), r, i)
      decreases |s| - i, 4
    {
      var key := ReadKey();
      if key.Failure? {
        return Failure(key.error);
      }
      var v := ReadValue(depth + 1);
      if v.Failure? {
        return Failure(v.error);
      }
      r := Success(Member(key.value, v.value));
    }

    method ReadObject(depth: nat) returns (r: Result<Value, JsonError>)
      requires i < |s| && s[i] == '{'
      modifies this
      ensures Agrees(ParseAt(strtod, s, old(i), depth), r, i)
      decreases |s| - i, 1
    {
      i := i + 1;
      SkipSpaces();
      if i < |s| && s[i] == '}' {
        i := i + 1;
        return Success(Object([]));
      }
      ghost var start := i;
      var members: seq<Member> := [];
      while true
        invariant old(i) < i <= |s|
        invariant ParseMembers(strtod, s, i, depth, members) == ParseMembers(strtod, s, start, depth, [])
        decreases |s| - i
      {
        var member := ReadMember(depth);
        if member.Failure? {
          return Failure(member.error);
        }
        members := Set(members, member.value.key, member.value.value);
        var after := AfterEntry('}');
        if after == Neither {
          return Failure(ExpectedCommaOrBrace);
        }
        if after == Closed {
          return Success(Object(members));
        }
      }
    }

    method ReadHex4() returns (r: Result<nat, JsonError>)
      requires i <= |s|
      modifies this
      ensures Agrees(Hex4(s, old(i)), r, i)
    {
      if i + 4 > |s| {
        return Failure(ShortEscape);
      }
      ghost var start := i;
      var v: nat := 0;
      for k := 0 to 4
        invariant i == start + k <= |s| && start + 4 <= |s|
        invariant forall j :: start <= j < start + k ==> IsHex(s[j])
        invariant v == HexPrefix(s, start, k)
      {
        var c := s[i];
        i := i + 1;
        if !IsHex(c) {
          return Failure(BadEscape);
        }
        v := v * 16 + HexValue(c);
      }
      FourDigits(s, start);
      r := Success(v);
    }

    /** A code point after `\u`, with the low surrogate that may follow. */
    method ReadCodePoint() returns (r: Result<nat, JsonError>)
      requires i <= |s|
      modifies this
      ensures Agrees(CodePoint(s, old(i)), r, i)
    {
      r := ReadHex4();
      if r.Failure? {
        return;
      }
      var cp := r.value;
      if 0xD800 <= cp <= 0xDBFF && i + 6 <= |s| && s[i] == '\\' && s[i + 1] == 'u' {
        var save := i;
        i := i + 2;
        var low := ReadHex4();
        if low.Failure? {
          return low;
        }
        if 0xDC00 <= low.value <= 0xDFFF {
          cp := 0x10000 + (cp - 0xD800) * 0x400 + (low.value - 0xDC00);
        } else {
          i := save;
        }
      }
      r := Success(cp);
    }

    method ReadEscape() returns (r: Result<string, JsonError>)
      requires i < |s|
      modifies this
      ensures Agrees(ParseEscape(s, old(i)), r, i)
    {
      var e := s[i];
      i := i + 1;
      match e {
        case '"' => r := Success("\"");
        case '\\' => r := Success("\\");
        case '/' => r := Success("/");
        case 'b' => r := Success([8 as char]);
        case 'f' => r := Success([12 as char]);
        case 'n' => r := Success("\n");
        case 'r' => r := Success("\r");
        case 't' => r := Success("\t");
        case 'u' =>
          var cp := ReadCodePoint();
          if cp.Failure? {
            return Failure(cp.error);
          }
          r := Success(Utf8(cp.value));
        case _ => r := Failure(BadEscape);
      }
    }

    method ReadString() returns (r: Result<string, JsonError>)
      requires i < |s| && s[i] == '"'
      modifies this
      ensures Agrees(ParseString(s, old(i) + 1, ""), r, i)
    {
      i := i + 1;
      var out := "";
      while i < |s|
        invariant old(i) < i <= |s|
        invariant ParseString(s, i, out) == ParseString(s, old(i) + 1, "")
        decreases |s| - i
      {
        var c := s[i];
        i := i + 1;
        if c == '"' {
          return Success(out);
        }
        if c < ' ' {
          return Failure(ControlCharacter);
        }
        if c != '\\' {
          out := out + [c];
        } else {
          if i >= |s| {
            break;
          }
          var escape := ReadEscape();
          if escape.Failure? {
            return Failure(escape.error);
          }
          out := out + escape.value;
        }
      }
      r := Failure(UnterminatedString);
    }

    method SkipOverDigits()
      requires i <= |s|
      modifies this
      ensures i == SkipDigits(s, old(i)) <= |s|
    {
      while i < |s| && IsDigit(s[i])
        invariant i <= |s| && SkipDigits(s, i) == SkipDigits(s, old(i))
        decreases |s| - i
      {
        i := i + 1;
      }
    }

    /** The optional minus sign and the digits, without a leading zero. */
    method ReadInteger() returns (r: Result<(), JsonError>)
      requires i < |s|
      modifies this
      ensures Agrees(IntegerEnd(s, old(i)), r, i)
    {
      if s[i] == '-' {
        i := i + 1;
      }
      if i >= |s| || !IsDigit(s[i]) {
        return Failure(UnexpectedCharacter);
      }
      if s[i] == '0' {
        i := i + 1;
      } else {
        SkipOverDigits();
      }
      r := Success(());
    }

    method ReadFraction() returns (r: Result<bool, JsonError>)
      requires i <= |s|
      modifies this
      ensures match FractionEnd(s, old(i)) { case Ok(_, next) => r == Success(next != old(i)) && i == next
                                             case Bad(error) => r == Failure(error) }
    {
      if i < |s| && s[i] == '.' {
        i := i + 1;
        if i >= |s| || !IsDigit(s[i]) {
          return Failure(BadNumber);
        }
        SkipOverDigits();
        return Success(true);
      }
      r := Success(false);
    }

    method ReadExponent() returns (r: Result<bool, JsonError>)
      requires i <= |s|
      modifies this
      ensures match ExponentEnd(s, old(i)) { case Ok(_, next) => r == Success(next != old(i)) && i == next
                                             case Bad(error) => r == Failure(error) }
    {
      if i < |s| && (s[i] == 'e' || s[i] == 'E') {
        i := i + 1;
        if i < |s| && (s[i] == '+' || s[i] == '-') {
          i := i + 1;
        }
        if i >= |s| || !IsDigit(s[i]) {
          return Failure(BadNumber);
        }
        SkipOverDigits();
        return Success(true);
      }
      r := Success(false);
    }

    method ReadNumber() returns (r: Result<Value, JsonError>)
      requires i < |s|
      modifies this
      ensures Agrees(ParseNumber(strtod, s, old(i)), r, i)
    {
      var start := i;
      var whole := ReadInteger();
      if whole.Failure? {
        return Failure(whole.error);
      }
      IntegerEndText(s, start);
      var fraction := ReadFraction();
      if fraction.Failure? {
        return Failure(fraction.error);
      }
      var exponent := ReadExponent();
      if exponent.Failure? {
        return Failure(exponent.error);
      }
      var number := NumberOf(strtod, s[start..i], !fraction.value && !exponent.value);
      r := match number case Ok(v, _) => Success(v) case Bad(e) => Failure(e);
    }
  }
}
