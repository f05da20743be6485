/** The grammar that the parser follows (json.cpp, `Parser`), as functions from a position to a value and the
    position after it. */
module JsonParse {
  import opened Decimals
  import opened Json

  datatype JsonError =
    | TooDeep
    | UnexpectedEnd
    | TrailingText
    | ExpectedKey
    | ExpectedColon
    | ExpectedCommaOrBrace
    | ExpectedCommaOrBracket
    | ShortEscape
    | BadEscape
    | ControlCharacter
    | UnterminatedString
    | UnexpectedCharacter
    | BadNumber
    | NonFinite

  datatype Outcome<T> = Ok(value: T, next: nat) | Bad(error: JsonError)

  /** What reading a text as a double gives: nothing finite, a whole number, or another double. */
  datatype Reading = NotFinite | Whole(n: int) | Fraction(shown: string)

  type Strtod = string -> Reading

  const MAX_DEPTH: nat := 200

  predicate IsSpace(c: char) {
    c == ' ' || c == '\t' || c == '\n' || c == '\r'
  }

  function SkipSpace(s: string, i: nat): (j: nat)
    requires i <= |s|
    ensures i <= j <= |s|
    decreases |s| - i
  {
    if i < |s| && IsSpace(s[i]) then SkipSpace(s, i + 1) else i
  }

  function SkipDigits(s: string, i: nat): (j: nat)
    requires i <= |s|
    ensures i <= j <= |s|
    decreases |s| - i
  {
    if i < |s| && IsDigit(s[i]) then SkipDigits(s, i + 1) else i
  }

  /** The text w stands at position i. */
  predicate Stands(s: string, i: nat, w: string) {
    i + |w| <= |s| && forall k :: 0 <= k < |w| ==> s[i + k] == w[k]
  }

  lemma StandsIsSlice(s: string, i: nat, w: string)
    ensures Stands(s, i, w) <==> i + |w| <= |s| && s[i..i + |w|] == w
  {
    if i + |w| <= |s| && s[i..i + |w|] == w {
      forall k | 0 <= k < |w| ensures s[i + k] == w[k] {
        assert s[i..i + |w|][k] == w[k];
      }
    }
  }

  // Numbers.

  predicate IsIntText(s: string) {
    var digits := if s != [] && s[0] == '-' then s[1..] else s;
    AllDigits(digits)
  }

  /** strtoll in base ten. */
  function IntValue(s: string): int
    requires IsIntText(s)
  {
    if s != [] && s[0] == '-' then -(DigitsValue(s[1..]) as int) else DigitsValue(s)
  }

  /** The integer part ends here, or there is none. */
  function IntegerEnd(s: string, i: nat): (r: Outcome<()>)
    requires i < |s|
    ensures r.Ok? ==> i < r.next <= |s|
  {
    var j := if s[i] == '-' then i + 1 else i;
    if j >= |s| || !IsDigit(s[j]) then Bad(UnexpectedCharacter)
    else if s[j] == '0' then Ok((), j + 1)
    else Ok((), SkipDigits(s, j))
  }

  lemma {:induction false} SkipDigitsAre(s: string, i: nat)
    requires i <= |s|
    ensures forall k :: i <= k < SkipDigits(s, i) ==> IsDigit(s[k])
    decreases |s| - i
  {
    if i < |s| && IsDigit(s[i]) {
      SkipDigitsAre(s, i + 1);
    }
  }

  lemma IntegerEndText(s: string, i: nat)
    requires i < |s| && IntegerEnd(s, i).Ok?
    ensures IsIntText(s[i..IntegerEnd(s, i).next])
  {
    var j := if s[i] == '-' then i + 1 else i;
    SkipDigitsAre(s, j);
    var end := IntegerEnd(s, i).next;
    forall c | c in s[j..end] ensures IsDigit(c) {
      var k :| j <= k < end && s[k] == c;
    }
    if s[i] == '-' {
      assert s[i..end][1..] == s[j..end];
    }
  }

  function FractionEnd(s: string, i: nat): (r: Outcome<()>)
    requires i <= |s|
    ensures r.Ok? ==> i <= r.next <= |s|
  {
    if i < |s| && s[i] == '.' then
      if i + 1 >= |s| || !IsDigit(s[i + 1]) then Bad(BadNumber) else Ok((), SkipDigits(s, i + 1))
    else Ok((), i)
  }

  function ExponentEnd(s: string, i: nat): (r: Outcome<()>)
    requires i <= |s|
    ensures r.Ok? ==> i <= r.next <= |s|
  {
    if i < |s| && (s[i] == 'e' || s[i] == 'E') then
      var j := if i + 1 < |s| && (s[i + 1] == '+' || s[i + 1] == '-') then i + 2 else i + 1;
      if j >= |s| || !IsDigit(s[j]) then Bad(BadNumber) else Ok((), SkipDigits(s, j))
    else Ok((), i)
  }

  /** An integer of at most 18 characters is exact; everything else is read as a double. */
  function NumberOf(strtod: Strtod, text: string, integral: bool): (r: Outcome<Value>)
    requires integral ==> IsIntText(text)
    ensures r.Ok? ==> r.value.Integer? || r.value.Double?
  {
    if integral && |text| <= 18 then Ok(Integer(IntValue(text)), 0)
    else
      match strtod(text)
      case NotFinite => Bad(NonFinite)
      case Whole(n) => Ok(Integer(n), 0)
      case Fraction(shown) => Ok(Double(shown), 0)
  }

  function ParseNumber(strtod: Strtod, s: string, i: nat): (r: Outcome<Value>)
    requires i < |s|
    ensures r.Ok? ==> i < r.next <= |s|
    ensures r.Ok? ==> r.value.Integer? || r.value.Double?
  {
    var whole := IntegerEnd(s, i);
    if whole.Bad? then Bad(whole.error)
    else
      var fraction := FractionEnd(s, whole.next);
      if fraction.Bad? then Bad(fraction.error)
      else
        var exponent := ExponentEnd(s, fraction.next);
        if exponent.Bad? then Bad(exponent.error)
        else
          IntegerEndText(s, i);
          var number := NumberOf(strtod, s[i..exponent.next], exponent.next == whole.next);
          if number.Bad? then number else Ok(number.value, exponent.next)
  }

  // Strings.

  predicate IsHex(c: char) {
    IsDigit(c) || 'a' <= c <= 'f' || 'A' <= c <= 'F'
  }

  function HexValue(c: char): (d: nat)
    requires IsHex(c)
    ensures d < 16
  {
    if IsDigit(c) then c as nat - '0' as nat
    else if 'a' <= c <= 'f' then c as nat - 'a' as nat + 10
    else c as nat - 'A' as nat + 10
  }

  /** Four hexadecimal digits, most significant first. */
  function Hex4(s: string, i: nat): (r: Outcome<nat>)
    requires i <= |s|
    ensures r.Ok? ==> r.next == i + 4 <= |s| && r.value < 0x10000
  {
    if i + 4 > |s| then Bad(ShortEscape)
    else if !IsHex(s[i]) || !IsHex(s[i + 1]) || !IsHex(s[i + 2]) || !IsHex(s[i + 3]) then Bad(BadEscape)
    else
      Ok(((HexValue(s[i]) * 16 + HexValue(s[i + 1])) * 16 + HexValue(s[i + 2])) * 16 + HexValue(s[i + 3]), i + 4)
  }

  /** The UTF-8 bytes of a code point. */
  function Utf8(cp: nat): string
    requires cp < 0x11_0000
  {
    if cp < 0x80 then [cp as char]
    else if cp < 0x800 then [(0xC0 + cp / 0x40) as char, (0x80 + cp % 0x40) as char]
    else if cp < 0x1_0000 then
      [(0xE0 + cp / 0x1000) as char, (0x80 + cp / 0x40 % 0x40) as char, (0x80 + cp % 0x40) as char]
    else
      [(0xF0 + cp / 0x4_0000) as char, (0x80 + cp / 0x1000 % 0x40) as char, (0x80 + cp / 0x40 % 0x40) as char,
       (0x80 + cp % 0x40) as char]
  }

  /** A code point after `\u`: a high surrogate takes the low one that follows it, if one does. */
  function CodePoint(s: string, i: nat): (r: Outcome<nat>)
    requires i <= |s|
    ensures r.Ok? ==> i < r.next <= |s| && r.value < 0x11_0000
  {
    var high := Hex4(s, i);
    if high.Bad? then high
    else if 0xD800 <= high.value <= 0xDBFF && high.next + 6 <= |s| && s[high.next] == '\\'
        && s[high.next + 1] == 'u' then
      var low := Hex4(s, high.next + 2);
      if low.Bad? then low
      else if 0xDC00 <= low.value <= 0xDFFF then
        Ok(0x10000 + (high.value - 0xD800) * 0x400 + (low.value - 0xDC00), low.next)
      else high
    else high
  }

  /** What follows a backslash. */
  function ParseEscape(s: string, i: nat): (r: Outcome<string>)
    requires i < |s|
    ensures r.Ok? ==> i < r.next <= |s|
  {
    match s[i]
    case '"' => Ok("\"", i + 1)
    case '\\' => Ok("\\", i + 1)
    case '/' => Ok("/", i + 1)
    case 'b' => Ok([8 as char], i + 1)
    case 'f' => Ok([12 as char], i + 1)
    case 'n' => Ok("\n", i + 1)
    case 'r' => Ok("\r", i + 1)
    case 't' => Ok("\t", i + 1)
    case 'u' =>
      var cp := CodePoint(s, i + 1);
      if cp.Bad? then Bad(cp.error) else Ok(Utf8(cp.value), cp.next)
    case _ => Bad(BadEscape)
  }

  /** The rest of a string, after what has been read of it. */
  function ParseString(s: string, i: nat, read: string): (r: Outcome<string>)
    requires i <= |s|
    ensures r.Ok? ==> i < r.next <= |s|
    decreases |s| - i
  {
    if i == |s| then Bad(UnterminatedString)
    else if s[i] == '"' then Ok(read, i + 1)
    else if s[i] < ' ' then Bad(ControlCharacter)
    else if s[i] != '\\' then ParseString(s, i + 1, read + [s[i]])
    else if i + 1 == |s| then Bad(UnterminatedString)
    else
      var escape := ParseEscape(s, i + 1);
      if escape.Bad? then Bad(escape.error) else ParseString(s, escape.next, read + escape.value)
  }

  // Values.

  function ParseValue(strtod: Strtod, s: string, i: nat, depth: nat): (r: Outcome<Value>)
    requires i <= |s|
    ensures r.Ok? ==> i < r.next <= |s|
    decreases |s| - i, 3
  {
    if depth > MAX_DEPTH then Bad(TooDeep)
    else
      var j := SkipSpace(s, i);
      if j == |s| then Bad(UnexpectedEnd) else ParseAt(strtod, s, j, depth)
  }

  /** The value that starts at a character that is not a space. */
  function ParseAt(strtod: Strtod, s: string, j: nat, depth: nat): (r: Outcome<Value>)
    requires j < |s|
    ensures r.Ok? ==> j < r.next <= |s|
    decreases |s| - j, 2
  {
    if s[j] == '{' then
      var k := SkipSpace(s, j + 1);
      if k < |s| && s[k] == '}' then Ok(Object([]), k + 1) else ParseMembers(strtod, s, k, depth, [])
    else if s[j] == '[' then
      var k := SkipSpace(s, j + 1);
      if k < |s| && s[k] == ']' then Ok(Array([]), k + 1) else ParseItems(strtod, s, k, depth, [])
    else if s[j] == '"' then
      var text := ParseString(s, j + 1, "");
      if text.Bad? then Bad(text.error) else Ok(String(text.value), text.next)
    else if Stands(s, j, "true") then Ok(Bool(true), j + 4)
    else if Stands(s, j, "false") then Ok(Bool(false), j + 5)
    else if Stands(s, j, "null") then Ok(Null, j + 4)
    else ParseNumber(strtod, s, j)
  }

  /** The rest of an array whose first items have been read. */
  function ParseItems(strtod: Strtod, s: string, i: nat, depth: nat, items: seq<Value>): (r: Outcome<Value>)
    requires i <= |s|
    ensures r.Ok? ==> i < r.next <= |s|
    decreases |s| - i, 4
  {
    var v := ParseValue(strtod, s, i, depth + 1);
    if v.Bad? then v
    else
      var j := SkipSpace(s, v.next);
      if j < |s| && s[j] == ',' then ParseItems(strtod, s, j + 1, depth, items + [v.value])
      else if j < |s| && s[j] == ']' then Ok(Array(items + [v.value]), j + 1)
      else Bad(ExpectedCommaOrBracket)
  }

  /** A key, its colon, and where the value after them starts. */
  function ParseKey(s: string, i: nat): (r: Outcome<string>)
    requires i <= |s|
    ensures r.Ok? ==> i < r.next <= |s|
  {
    var j := SkipSpace(s, i);
    if j == |s| || s[j] != '"' then Bad(ExpectedKey)
    else
      var key := ParseString(s, j + 1, "");
      if key.Bad? then key
      else
        var k := SkipSpace(s, key.next);
        if k == |s| || s[k] != ':' then Bad(ExpectedColon) else Ok(key.value, k + 1)
  }

  function ParseMember(strtod: Strtod, s: string, i: nat, depth: nat): (r: Outcome<Member>)
    requires i <= |s|
    ensures r.Ok? ==> i < r.next <= |s|
    decreases |s| - i, 4
  {
    var key := ParseKey(s, i);
    if key.Bad? then Bad(key.error)
    else
      var v := ParseValue(strtod, s, key.next, depth + 1);
      if v.Bad? then Bad(v.error) else Ok(Member(key.value, v.value), v.next)
  }

  /** The rest of an object whose first members have been read. */
  function ParseMembers(strtod: Strtod, s: string, i: nat, depth: nat, members: seq<Member>): (r: Outcome<Value>)
    requires i <= |s|
    ensures r.Ok? ==> i < r.next <= |s|
    decreases |s| - i, 5
  {
    var member := ParseMember(strtod, s, i, depth);
    if member.Bad? then Bad(member.error)
    else
      var more := Set(members, member.value.key, member.value.value);
      var j := SkipSpace(s, member.next);
      if j < |s| && s[j] == ',' then ParseMembers(strtod, s, j + 1, depth, more)
      else if j < |s| && s[j] == '}' then Ok(Object(more), j + 1)
      else Bad(ExpectedCommaOrBrace)
  }

  /** A whole text: one value, and nothing after it but spaces. */
  function Parse(strtod: Strtod, s: string): Outcome<Value> {
    var v := ParseValue(strtod, s, 0, 0);
    if v.Bad? then v
    else
      var j := SkipSpace(s, v.next);
      if j == |s| then Ok(v.value, j) else Bad(TrailingText)
  }
}
