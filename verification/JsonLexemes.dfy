/** Strings and integers: what the printer writes for one is what the parser reads back. */
module JsonLexemes {
  import opened Decimals
  import opened Json
  import opened JsonParse

  // Positions.

  lemma Split(s: string, i: nat, a: string, b: string)
    requires Stands(s, i, a + b)
    ensures Stands(s, i, a) && Stands(s, i + |a|, b)
  {
    var w := a + b;
    forall k | 0 <= k < |a| ensures s[i + k] == a[k] {
      assert w[k] == a[k];
    }
    forall k | 0 <= k < |b| ensures s[i + |a| + k] == b[k] {
      assert w[|a| + k] == b[k];
    }
  }

  lemma StandsWhole(s: string)
    ensures Stands(s, 0, s)
  {
  }

  lemma StandsAt(s: string, i: nat, w: string, k: nat)
    requires Stands(s, i, w) && k < |w|
    ensures i + |w| <= |s| && s[i + k] == w[k]
  {
  }

  ghost predicate AllSpaces(w: string) {
    forall k :: 0 <= k < |w| ==> IsSpace(w[k])
  }

  // Strings.

  lemma HexDigitValue(d: nat)
    requires d < 16
    ensures IsHex(HexDigit(d)) && HexValue(HexDigit(d)) == d
  {
  }

  /** A control character's `\u00XX`. */
  lemma ControlParses(s: string, i: nat, c: char)
    requires c < ' ' && Stands(s, i, "\\u00" + [HexDigit(c as nat / 16), HexDigit(c as nat % 16)])
    ensures i + 1 < |s| && ParseEscape(s, i + 1) == Ok([c], i + 6)
  {
    var w := "\\u00" + [HexDigit(c as nat / 16), HexDigit(c as nat % 16)];
    HexDigitValue(c as nat / 16);
    HexDigitValue(c as nat % 16);
    StandsAt(s, i, w, 1);
    StandsAt(s, i, w, 2);
    StandsAt(s, i, w, 3);
    StandsAt(s, i, w, 4);
    StandsAt(s, i, w, 5);
    assert Hex4(s, i + 2) == Ok(c as nat, i + 6);
    assert CodePoint(s, i + 2) == Ok(c as nat, i + 6);
  }

  /** The short escapes. */
  lemma PairParses(s: string, i: nat, c: char)
    requires |Escape(c)| == 2 && Stands(s, i, Escape(c))
    ensures i + 2 <= |s| && s[i] == '\\' && ParseEscape(s, i + 1) == Ok([c], i + 2)
  {
    StandsAt(s, i, Escape(c), 0);
    StandsAt(s, i, Escape(c), 1);
  }

  lemma EscapeParses(s: string, i: nat, c: char, read: string, next: nat, more: string)
    requires Stands(s, i, Escape(c)) && next == i + |Escape(c)| && more == read + [c]
    ensures next <= |s| && ParseString(s, i, read) == ParseString(s, next, more)
  {
    StandsAt(s, i, Escape(c), 0);
    if |Escape(c)| == 2 {
      PairParses(s, i, c);
    } else if c < ' ' {
      ControlParses(s, i, c);
    }
  }

  lemma QuoteEnds(s: string, i: nat, read: string)
    requires Stands(s, i, "\"")
    ensures ParseString(s, i, read) == Ok(read, i + 1)
  {
    StandsAt(s, i, "\"", 0);
  }

  lemma {:induction false} EscapedParses(s: string, i: nat, text: string, read: string, end: nat)
    requires Stands(s, i, EscapeAll(text)) && end == i + |EscapeAll(text)| && Stands(s, end, "\"")
    ensures ParseString(s, i, read) == Ok(read + text, end + 1)
    decreases |text|
  {
    if text == [] {
      QuoteEnds(s, i, read);
      assert read + text == read;
    } else {
      var first, rest, next := text[0], text[1..], i + |Escape(text[0])|;
      var more := read + [first];
      FirstEscape(s, i, text);
      EscapeParses(s, i, first, read, next, more);
      EscapedParses(s, next, rest, more, end);
      Extend(read, text, more, rest);
    }
  }

  lemma FirstEscape(s: string, i: nat, text: string)
    requires text != [] && Stands(s, i, EscapeAll(text))
    ensures Stands(s, i, Escape(text[0])) && Stands(s, i + |Escape(text[0])|, EscapeAll(text[1..]))
    ensures |EscapeAll(text)| == |Escape(text[0])| + |EscapeAll(text[1..])|
  {
    var first, rest := Escape(text[0]), EscapeAll(text[1..]);
    var all := first + rest;
    assert EscapeAll(text) == all;
    Split(s, i, first, rest);
  }

  lemma Extend(read: string, text: string, more: string, rest: string)
    requires text != [] && more == read + [text[0]] && rest == text[1..]
    ensures more + rest == read + text
  {
  }

  lemma QuotedStands(s: string, i: nat, body: string, end: nat)
    requires Stands(s, i, "\"" + body + "\"") && end == i + 1 + |body|
    ensures i < |s| && s[i] == '"' && Stands(s, i + 1, body) && Stands(s, end, "\"")
  {
    var front := "\"" + body;
    Split(s, i, front, "\"");
    StandsAt(s, i, front, 0);
    Split(s, i, "\"", body);
  }

  /** Any byte string survives quoting. */
  lemma QuotedParses(s: string, i: nat, text: string)
    requires Stands(s, i, Quoted(text))
    ensures i < |s| && s[i] == '"' && ParseString(s, i + 1, "") == Ok(text, i + |Quoted(text)|)
  {
    var end := i + 1 + |EscapeAll(text)|;
    QuotedStands(s, i, EscapeAll(text), end);
    EscapedParses(s, i + 1, text, "", end);
    assert "" + text == text;
  }

  // Integers.

  /** The character after a number ends it. */
  predicate Ends(s: string, q: nat) {
    q == |s| || (q < |s| && !IsDigit(s[q]) && s[q] != '.' && s[q] != 'e' && s[q] != 'E')
  }

  lemma {:induction false} SkipDigitsOver(s: string, i: nat, w: string)
    requires Stands(s, i, w) && (forall c | c in w :: IsDigit(c)) && Ends(s, i + |w|)
    ensures SkipDigits(s, i) == i + |w|
    decreases |w|
  {
    if w != [] {
      assert w == [w[0]] + w[1..];
      assert w[0] in w;
      StandsAt(s, i, w, 0);
      Split(s, i, [w[0]], w[1..]);
      SkipDigitsOver(s, i + 1, w[1..]);
    }
  }

  lemma IntValueText(n: int)
    ensures IsIntText(IntText(n)) && IntValue(IntText(n)) == n
  {
    if n < 0 {
      DigitsAre(-n);
      assert IntText(n)[1..] == Digits(-n);
    } else {
      DigitsAre(n);
      assert IsDigit(Digits(n)[0]);
    }
  }

  /** Where the digits of an integer start, and where they end. */
  lemma DigitsEnd(s: string, j: nat, m: nat)
    requires Stands(s, j, Digits(m)) && Ends(s, j + |Digits(m)|)
    ensures j < |s| && s[j] == Digits(m)[0] && SkipDigits(s, j) == j + |Digits(m)|
  {
    DigitsAre(m);
    StandsAt(s, j, Digits(m), 0);
    SkipDigitsOver(s, j, Digits(m));
  }

  lemma IntegerEnds(s: string, i: nat, n: int)
    requires Stands(s, i, IntText(n)) && Ends(s, i + |IntText(n)|)
    ensures i < |s| && IntegerEnd(s, i) == Ok((), i + |IntText(n)|)
  {
    var m: nat := if n < 0 then -n else n;
    DigitsAre(m);
    assert Digits(m)[0] in Digits(m);
    if n < 0 {
      StandsAt(s, i, IntText(n), 0);
      Split(s, i, "-", Digits(m));
      DigitsEnd(s, i + 1, m);
    } else {
      DigitsEnd(s, i, m);
    }
  }

  /** Neither a fraction nor an exponent starts where a number ends. */
  lemma NothingFollows(s: string, q: nat)
    requires Ends(s, q)
    ensures FractionEnd(s, q) == Ok((), q) && ExponentEnd(s, q) == Ok((), q)
  {
  }

  /** A number that ends with its integer part is the number of that text. */
  lemma WholeParses(strtod: Strtod, s: string, i: nat, end: nat)
    requires i < |s| && IntegerEnd(s, i) == Ok((), end) && Ends(s, end)
    ensures i < end <= |s| && IsIntText(s[i..end])
    ensures ParseNumber(strtod, s, i)
         == (var number := NumberOf(strtod, s[i..end], true); if number.Bad? then number else Ok(number.value, end))
  {
    NothingFollows(s, end);
    IntegerEndText(s, i);
  }

  lemma IntegerParses(strtod: Strtod, s: string, i: nat, n: int)
    requires Stands(s, i, IntText(n)) && Ends(s, i + |IntText(n)|) && |IntText(n)| <= 18
    ensures i < |s| && ParseNumber(strtod, s, i) == Ok(Integer(n), i + |IntText(n)|)
  {
    var text, end := IntText(n), i + |IntText(n)|;
    IntegerEnds(s, i, n);
    WholeParses(strtod, s, i, end);
    StandsIsSlice(s, i, text);
    IntValueText(n);
  }
}
