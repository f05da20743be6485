/** Unicode in quoted texts: however a code point is written (RFC 8259, section 7), the parser appends its UTF-8
    bytes, which a decoder of RFC 3629 reads back, and it accepts exactly the texts that the grammar allows. */
module JsonUnicode {
  import opened Wrappers
  import opened Decimals
  import opened Json
  import opened JsonParse
  import opened JsonLexemes

  predicate Surrogate(cp: nat) {
    0xD800 <= cp < 0xE000
  }

  predicate Scalar(cp: nat) {
    cp < 0x11_0000 && !Surrogate(cp)
  }

  // A decoder that knows nothing of the parser (RFC 3629, sections 3 and 4).

  /** Six more bits, from a continuation byte. */
  function Six(high: nat, c: char): Option<nat> {
    if 0x80 <= c as nat <= 0xBF then Some(high * 64 + (c as nat - 0x80)) else None
  }

  /** The number that a lead byte and its continuation bytes carry. */
  function Bits(s: string, length: nat, lead: nat): Option<nat>
    requires 0 < length <= |s|
  {
    if length == 1 then Some(lead)
    else
      var high := Bits(s, length - 1, lead);
      if high == None then None else Six(high.value, s[length - 1])
  }

  /** How long the first character is, the bits of its lead byte, and the least number that needs the length. */
  function Lead(c: char): Option<(nat, nat, nat)> {
    var b := c as nat;
    if b <= 0x7F then Some((1, b, 0))
    else if 0xC0 <= b <= 0xDF then Some((2, b - 0xC0, 0x80))
    else if 0xE0 <= b <= 0xEF then Some((3, b - 0xE0, 0x800))
    else if 0xF0 <= b <= 0xF7 then Some((4, b - 0xF0, 0x1_0000))
    else None
  }

  /** The first code point and its length: never longer than needed, never a surrogate. */
  function Decode(s: string): (r: Option<(nat, nat)>)
    ensures r.Some? ==> 0 < r.value.1 <= |s| && Scalar(r.value.0)
  {
    if s == [] then None
    else
      var lead := Lead(s[0]);
      if lead == None || lead.value.0 > |s| then None
      else
        var cp := Bits(s, lead.value.0, lead.value.1);
        if cp == None || cp.value < lead.value.2 || !Scalar(cp.value) then None else Some((cp.value, lead.value.0))
  }

  function DecodeAll(s: string): Option<seq<nat>> {
    if s == [] then Some([])
    else
      var first := Decode(s);
      if first == None then None
      else
        var rest := DecodeAll(s[first.value.1..]);
        if rest == None then None else Some([first.value.0] + rest.value)
  }

  lemma BitsOfTwo(s: string, lead: nat)
    requires |s| >= 2
    ensures Bits(s, 2, lead) == Six(lead, s[1])
  {
    assert Bits(s, 1, lead) == Some(lead);
  }

  lemma BitsOfThree(s: string, lead: nat, high: nat)
    requires |s| >= 3 && Six(lead, s[1]) == Some(high)
    ensures Bits(s, 3, lead) == Six(high, s[2])
  {
    BitsOfTwo(s, lead);
  }

  lemma BitsOfFour(s: string, lead: nat, high: nat, mid: nat)
    requires |s| >= 4 && Six(lead, s[1]) == Some(high) && Six(high, s[2]) == Some(mid)
    ensures Bits(s, 4, lead) == Six(mid, s[3])
  {
    BitsOfThree(s, lead, high);
  }

  lemma TwoBytes(cp: nat, rest: string)
    requires 0x80 <= cp < 0x800
    ensures Decode(Utf8(cp) + rest) == Some((cp, 2))
  {
    BitsOfTwo(Utf8(cp) + rest, cp / 0x40);
  }

  lemma ThreeBytes(cp: nat, rest: string)
    requires 0x800 <= cp < 0x1_0000
    ensures Decode(Utf8(cp) + rest) == if Scalar(cp) then Some((cp, 3)) else None
  {
    var s, lead, high := Utf8(cp) + rest, cp / 0x1000, cp / 0x40;
    assert high == lead * 64 + high % 0x40;
    BitsOfThree(s, lead, high);
    assert cp == high * 64 + cp % 0x40;
  }

  lemma FourBytes(cp: nat, rest: string)
    requires 0x1_0000 <= cp < 0x11_0000
    ensures Decode(Utf8(cp) + rest) == Some((cp, 4))
  {
    var s, lead, high, mid := Utf8(cp) + rest, cp / 0x4_0000, cp / 0x1000, cp / 0x40;
    assert high == lead * 64 + high % 0x40;
    assert mid == high * 64 + mid % 0x40;
    BitsOfFour(s, lead, high, mid);
    assert cp == mid * 64 + cp % 0x40;
  }

  /** Every scalar value is read back from its bytes; the bytes of a surrogate are no UTF-8. */
  lemma Utf8Decodes(cp: nat, rest: string)
    requires cp < 0x11_0000
    ensures Decode(Utf8(cp) + rest) == if Scalar(cp) then Some((cp, |Utf8(cp)|)) else None
  {
    if cp < 0x80 {
      assert Bits(Utf8(cp) + rest, 1, cp) == Some(cp);
    } else if cp < 0x800 {
      TwoBytes(cp, rest);
    } else if cp < 0x1_0000 {
      ThreeBytes(cp, rest);
    } else {
      FourBytes(cp, rest);
    }
  }

  predicate AllScalars(points: seq<nat>) {
    forall k :: 0 <= k < |points| ==> Scalar(points[k])
  }

  function Utf8Text(points: seq<nat>): string
    requires AllScalars(points)
  {
    if points == [] then "" else Utf8(points[0]) + Utf8Text(points[1..])
  }

  /** Every Unicode text is recovered from its bytes. */
  lemma {:induction false} Utf8TextDecodes(points: seq<nat>)
    requires AllScalars(points)
    ensures DecodeAll(Utf8Text(points)) == Some(points)
  {
    if points != [] {
      var cp, rest := points[0], Utf8Text(points[1..]);
      Utf8Decodes(cp, rest);
      Utf8TextDecodes(points[1..]);
      assert (Utf8(cp) + rest)[|Utf8(cp)|..] == rest;
      assert points == [cp] + points[1..];
    }
  }

  // How a code point may be written.

  /** A hexadecimal digit, in either case. */
  predicate HexOf(c: char, d: nat) {
    d < 16 && (c == "0123456789abcdef"[d] || c == "0123456789ABCDEF"[d])
  }

  /** A backslash, u, and the four digits of a 16-bit unit. */
  predicate Unit(w: string, u: nat) {
    && |w| == 6 && w[0] == '\\' && w[1] == 'u'
    && HexOf(w[2], u / 0x1000) && HexOf(w[3], u / 0x100 % 16) && HexOf(w[4], u / 16 % 16) && HexOf(w[5], u % 16)
  }

  /** One unit, or the surrogates of a code point past 0xFFFF. */
  predicate Units(w: string, cp: nat) {
    if cp < 0x1_0000 then Unit(w, cp)
    else |w| == 12 && Unit(w[..6], 0xD800 + (cp - 0x1_0000) / 0x400) && Unit(w[6..], 0xDC00 + (cp - 0x1_0000) % 0x400)
  }

  /** The eight short escapes. */
  predicate Short(w: string, cp: nat) {
    || (w == "\\\"" && cp == 0x22)
    || (w == "\\\\" && cp == 0x5C)
    || (w == "\\/" && cp == 0x2F)
    || (w == "\\b" && cp == 8)
    || (w == "\\f" && cp == 12)
    || (w == "\\n" && cp == 10)
    || (w == "\\r" && cp == 13)
    || (w == "\\t" && cp == 9)
  }

  /** As itself, by a short escape, or by its number. */
  predicate Spells(w: string, cp: nat)
    requires Scalar(cp)
  {
    (cp >= 0x20 && cp != 0x22 && cp != 0x5C && w == Utf8(cp)) || Short(w, cp) || Units(w, cp)
  }

  function EscapedUnit(u: nat): string
    requires u < 0x1_0000
  {
    ['\\', 'u', HexDigit(u / 0x1000), HexDigit(u / 0x100 % 16), HexDigit(u / 16 % 16), HexDigit(u % 16)]
  }

  /** The escaped form of a code point, with lower-case digits. */
  function Escaped(cp: nat): string
    requires Scalar(cp)
  {
    if cp < 0x1_0000 then EscapedUnit(cp)
    else EscapedUnit(0xD800 + (cp - 0x1_0000) / 0x400) + EscapedUnit(0xDC00 + (cp - 0x1_0000) % 0x400)
  }

  lemma HexDigitIs(d: nat)
    requires d < 16
    ensures HexOf(HexDigit(d), d)
  {
  }

  lemma EscapedUnitIs(u: nat)
    requires u < 0x1_0000
    ensures Unit(EscapedUnit(u), u)
  {
    HexDigitIs(u / 0x1000);
    HexDigitIs(u / 0x100 % 16);
    HexDigitIs(u / 16 % 16);
    HexDigitIs(u % 16);
  }

  lemma EscapedSpells(cp: nat)
    requires Scalar(cp)
    ensures Spells(Escaped(cp), cp)
  {
    if cp < 0x1_0000 {
      EscapedUnitIs(cp);
    } else {
      EscapedUnitIs(0xD800 + (cp - 0x1_0000) / 0x400);
      EscapedUnitIs(0xDC00 + (cp - 0x1_0000) % 0x400);
      assert Escaped(cp)[..6] == EscapedUnit(0xD800 + (cp - 0x1_0000) / 0x400);
      assert Escaped(cp)[6..] == EscapedUnit(0xDC00 + (cp - 0x1_0000) % 0x400);
    }
  }

  // Reading.

  lemma HexReads(c: char, d: nat)
    requires HexOf(c, d)
    ensures IsHex(c) && HexValue(c) == d
  {
  }

  /** Four digits to the base 16 make up a 16-bit unit. */
  lemma Digits4(u: nat)
    ensures ((u / 0x1000 * 16 + u / 0x100 % 16) * 16 + u / 16 % 16) * 16 + u % 16 == u
  {
    var h := u / 16;
    var k := h / 16;
    assert u / 0x100 == k;
    assert k / 16 == u / 0x1000;
    assert k == k / 16 * 16 + k % 16;
    assert h == k * 16 + h % 16;
  }

  lemma UnitReads(s: string, i: nat, w: string, u: nat)
    requires Stands(s, i, w) && Unit(w, u)
    ensures i + 6 <= |s| && s[i] == '\\' && s[i + 1] == 'u' && u < 0x1_0000 && Hex4(s, i + 2) == Ok(u, i + 6)
  {
    StandsAt(s, i, w, 0);
    StandsAt(s, i, w, 1);
    StandsAt(s, i, w, 2);
    StandsAt(s, i, w, 3);
    StandsAt(s, i, w, 4);
    StandsAt(s, i, w, 5);
    HexReads(s[i + 2], u / 0x1000);
    HexReads(s[i + 3], u / 0x100 % 16);
    HexReads(s[i + 4], u / 16 % 16);
    HexReads(s[i + 5], u % 16);
    Digits4(u);
  }

  lemma PairIsWhole(cp: nat, high: nat, low: nat)
    requires 0x1_0000 <= cp < 0x11_0000
    requires high == 0xD800 + (cp - 0x1_0000) / 0x400 && low == 0xDC00 + (cp - 0x1_0000) % 0x400
    ensures high <= 0xDBFF && low <= 0xDFFF && cp == 0x1_0000 + (high - 0xD800) * 0x400 + (low - 0xDC00)
  {
  }

  /** The number of a code point is read whole, surrogates joined. */
  lemma UnitsRead(s: string, i: nat, w: string, cp: nat)
    requires Scalar(cp) && Stands(s, i, w) && Units(w, cp)
    ensures i + |w| <= |s| && s[i] == '\\' && s[i + 1] == 'u' && CodePoint(s, i + 2) == Ok(cp, i + |w|)
  {
    if cp < 0x1_0000 {
      UnitReads(s, i, w, cp);
    } else {
      var high, low := 0xD800 + (cp - 0x1_0000) / 0x400, 0xDC00 + (cp - 0x1_0000) % 0x400;
      PairIsWhole(cp, high, low);
      assert w == w[..6] + w[6..];
      Split(s, i, w[..6], w[6..]);
      UnitReads(s, i, w[..6], high);
      UnitReads(s, i + 6, w[6..], low);
    }
  }

  lemma ShortReads(s: string, i: nat, w: string, cp: nat)
    requires Stands(s, i, w) && Short(w, cp)
    ensures |w| == 2 && i + 2 <= |s| && s[i] == '\\' && ParseEscape(s, i + 1) == Ok(Utf8(cp), i + 2)
  {
    StandsAt(s, i, w, 0);
    StandsAt(s, i, w, 1);
  }

  predicate Plain(w: string) {
    forall k :: 0 <= k < |w| ==> w[k] >= ' ' && w[k] != '"' && w[k] != '\\'
  }

  /** Characters that are neither a quote, a backslash nor a control character stand for themselves. */
  lemma {:induction false} PlainReads(s: string, i: nat, w: string, read: string)
    requires Stands(s, i, w) && Plain(w)
    ensures i + |w| <= |s| && ParseString(s, i, read) == ParseString(s, i + |w|, read + w)
    decreases |w|
  {
    if w == [] {
      assert read + w == read;
    } else {
      StandsAt(s, i, w, 0);
      assert w == [w[0]] + w[1..];
      Split(s, i, [w[0]], w[1..]);
      PlainReads(s, i + 1, w[1..], read + [w[0]]);
      assert read + [w[0]] + w[1..] == read + w;
    }
  }

  lemma Utf8Plain(cp: nat)
    requires Scalar(cp) && cp >= 0x20 && cp != 0x22 && cp != 0x5C
    ensures Plain(Utf8(cp))
  {
  }

  lemma EscapeStep(s: string, i: nat, read: string, bytes: string, next: nat)
    requires i + 1 < |s| && s[i] == '\\' && ParseEscape(s, i + 1) == Ok(bytes, next)
    ensures next <= |s| && ParseString(s, i, read) == ParseString(s, next, read + bytes)
  {
  }

  /** Whichever way a code point is written, its UTF-8 bytes are what is read. */
  lemma SpellingReads(s: string, i: nat, w: string, cp: nat, read: string)
    requires Scalar(cp) && Stands(s, i, w) && Spells(w, cp)
    ensures i + |w| <= |s| && ParseString(s, i, read) == ParseString(s, i + |w|, read + Utf8(cp))
  {
    if Units(w, cp) {
      UnitsRead(s, i, w, cp);
      EscapeStep(s, i, read, Utf8(cp), i + |w|);
    } else if Short(w, cp) {
      ShortReads(s, i, w, cp);
      EscapeStep(s, i, read, Utf8(cp), i + |w|);
    } else {
      Utf8Plain(cp);
      PlainReads(s, i, w, read);
    }
  }

  function Concat(words: seq<string>): string {
    if words == [] then "" else words[0] + Concat(words[1..])
  }

  /** Each word is a way of writing its code point. */
  predicate AllSpell(words: seq<string>, points: seq<nat>) {
    |words| == |points| && AllScalars(points) && forall k :: 0 <= k < |points| ==> Spells(words[k], points[k])
  }

  lemma ConcatSplits(s: string, i: nat, words: seq<string>)
    requires words != [] && Stands(s, i, Concat(words) + "\"")
    ensures Stands(s, i, words[0]) && Stands(s, i + |words[0]|, Concat(words[1..]) + "\"")
    ensures |Concat(words)| == |words[0]| + |Concat(words[1..])|
  {
    assert Concat(words) + "\"" == words[0] + (Concat(words[1..]) + "\"");
    Split(s, i, words[0], Concat(words[1..]) + "\"");
  }

  lemma AllSpellRest(words: seq<string>, points: seq<nat>)
    requires AllSpell(words, points) && words != []
    ensures AllSpell(words[1..], points[1..]) && Spells(words[0], points[0])
  {
  }

  /** A Unicode text, each code point written in any of its ways, is read as its UTF-8 bytes. */
  lemma {:induction false} TextReads(s: string, i: nat, words: seq<string>, points: seq<nat>, read: string)
    requires AllSpell(words, points) && Stands(s, i, Concat(words) + "\"")
    ensures i <= |s| && ParseString(s, i, read) == Ok(read + Utf8Text(points), i + |Concat(words)| + 1)
    decreases |words|
  {
    if words == [] {
      assert Concat(words) + "\"" == "\"";
      QuoteEnds(s, i, read);
      assert read + Utf8Text(points) == read;
    } else {
      var word, cp, rest, more := words[0], points[0], points[1..], read + Utf8(points[0]);
      AllSpellRest(words, points);
      ConcatSplits(s, i, words);
      TextReads(s, i + |word|, words[1..], rest, more);
      FirstReads(s, i, word, cp, read, more, Utf8Text(rest), i + |Concat(words)| + 1);
    }
  }

  lemma FirstReads(s: string, i: nat, word: string, cp: nat, read: string, more: string, bytes: string, next: nat)
    requires Scalar(cp) && Stands(s, i, word) && Spells(word, cp) && more == read + Utf8(cp)
    requires i + |word| <= |s| && ParseString(s, i + |word|, more) == Ok(more + bytes, next)
    ensures ParseString(s, i, read) == Ok(read + (Utf8(cp) + bytes), next)
  {
    SpellingReads(s, i, word, cp, read);
    Regroup(read, Utf8(cp), bytes);
  }

  lemma StringAlone(strtod: Strtod, text: string, read: string)
    requires |text| > 0 && text[0] == '"' && ParseString(text, 1, "") == Ok(read, |text|)
    ensures Parse(strtod, text) == Ok(String(read), |text|)
  {
    assert ParseAt(strtod, text, 0, 0) == Ok(String(read), |text|);
    assert ParseValue(strtod, text, 0, 0) == Ok(String(read), |text|);
  }

  /** What a JSON string says is what the decoder finds in the bytes that were read from it. */
  lemma UnicodeSurvives(strtod: Strtod, words: seq<string>, points: seq<nat>)
    requires AllSpell(words, points)
    ensures var text := "\"" + Concat(words) + "\"";
            Parse(strtod, text) == Ok(String(Utf8Text(points)), |text|)
    ensures DecodeAll(Utf8Text(points)) == Some(points)
  {
    var body := Concat(words) + "\"";
    var text := "\"" + Concat(words) + "\"";
    assert text == "\"" + body;
    StandsWhole(text);
    Split(text, 0, "\"", body);
    StandsAt(text, 0, text, 0);
    TextReads(text, 1, words, points, "");
    assert "" + Utf8Text(points) == Utf8Text(points);
    StringAlone(strtod, text, Utf8Text(points));
    Utf8TextDecodes(points);
  }

  /** A unit at the end of a text is read on its own, whatever it is. */
  lemma LastUnitReads(s: string, i: nat, unit: string, u: nat, read: string)
    requires Unit(unit, u) && Stands(s, i, unit) && Stands(s, i + 6, "\"") && |s| == i + 7
    ensures ParseString(s, i, read) == Ok(read + Utf8(u), |s|)
  {
    UnitReads(s, i, unit, u);
    assert CodePoint(s, i + 2) == Ok(u, i + 6);
    EscapeStep(s, i, read, Utf8(u), i + 6);
    QuoteEnds(s, i + 6, read + Utf8(u));
  }

  /** A surrogate that stands alone is read too, but what it gives is no UTF-8. */
  lemma LoneSurrogate(strtod: Strtod, u: nat)
    requires Surrogate(u)
    ensures var text := "\"" + EscapedUnit(u) + "\"";
            Parse(strtod, text) == Ok(String(Utf8(u)), |text|)
    ensures DecodeAll(Utf8(u)) == None
  {
    var unit := EscapedUnit(u);
    var text := "\"" + unit + "\"";
    assert text == "\"" + (unit + "\"");
    EscapedUnitIs(u);
    StandsWhole(text);
    Split(text, 0, "\"", unit + "\"");
    Split(text, 1, unit, "\"");
    StandsAt(text, 0, text, 0);
    LastUnitReads(text, 1, unit, u, "");
    assert "" + Utf8(u) == Utf8(u);
    StringAlone(strtod, text, Utf8(u));
    Utf8Decodes(u, "");
    assert Utf8(u) + "" == Utf8(u);
  }

  // Which texts are strings.

  /** From i to end stands the rest of a quoted text, by the grammar: plain characters, short escapes, numbered escapes,
      and the closing quote. */
  predicate StringTo(s: string, i: nat, end: nat)
    decreases |s| - i
  {
    i < |s|
    && ((s[i] == '"' && end == i + 1)
        || (s[i] as nat >= 0x20 && s[i] != '"' && s[i] != '\\' && StringTo(s, i + 1, end))
        || (s[i] == '\\' && i + 1 < |s| && s[i + 1] in "\"\\/bfnrt" && StringTo(s, i + 2, end))
        || (s[i] == '\\' && NumberedAt(s, i + 1) && StringTo(s, i + 6, end)))
  }

  predicate NumberedAt(s: string, i: nat) {
    i + 5 <= |s| && s[i] == 'u' && forall k :: i + 1 <= k < i + 5 ==> s[k] in "0123456789abcdefABCDEF"
  }

  lemma HexIs(c: char)
    ensures IsHex(c) <==> c in "0123456789abcdefABCDEF"
  {
    if IsHex(c) && !IsDigit(c) {
      if c == 'a' || c == 'b' || c == 'c' || c == 'd' || c == 'e' || c == 'f' {
      } else {
        assert c == 'A' || c == 'B' || c == 'C' || c == 'D' || c == 'E' || c == 'F';
      }
    }
  }

  lemma NumberedReads(s: string, i: nat)
    requires i < |s| && s[i] == 'u'
    ensures NumberedAt(s, i) <==> Hex4(s, i + 1).Ok?
  {
    if i + 5 <= |s| {
      HexIs(s[i + 1]);
      HexIs(s[i + 2]);
      HexIs(s[i + 3]);
      HexIs(s[i + 4]);
    }
  }

  /** What is read, and where it ends. */
  predicate ReadsTo(s: string, i: nat, read: string, end: nat)
    requires i <= |s|
  {
    ParseString(s, i, read).Ok? && ParseString(s, i, read).next == end
  }

  /** The parser accepts exactly the quoted texts that the grammar allows, and stops where they end. */
  lemma {:induction false} StringsAreAllowed(s: string, i: nat, read: string, end: nat)
    requires i <= |s|
    ensures ReadsTo(s, i, read, end) <==> StringTo(s, i, end)
    decreases |s| - i
  {
    if i < |s| && s[i] != '"' && s[i] >= ' ' {
      if s[i] != '\\' {
        StringsAreAllowed(s, i + 1, read + [s[i]], end);
      } else if i + 1 < |s| {
        EscapeIsAllowed(s, i, end);
        var escape := ParseEscape(s, i + 1);
        if escape.Ok? {
          StringsAreAllowed(s, escape.next, read + escape.value, end);
        }
      }
    }
  }

  /** An escape is read when the grammar has it, and allows the rest as far as the parser goes. */
  lemma EscapeIsAllowed(s: string, i: nat, end: nat)
    requires i + 1 < |s| && s[i] == '\\'
    ensures var escape := ParseEscape(s, i + 1);
            StringTo(s, i, end) <==> escape.Ok? && StringTo(s, escape.next, end)
  {
    if s[i + 1] == 'u' {
      NumberedReads(s, i + 1);
      var high := Hex4(s, i + 2);
      if high.Ok? && high.next + 6 <= |s| && s[high.next] == '\\' && s[high.next + 1] == 'u' {
        NumberedReads(s, high.next + 1);
      }
    }
  }
}
