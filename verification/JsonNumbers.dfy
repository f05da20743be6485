/** Number texts (RFC 8259, section 6): the parser scans each of them whole, accepts no other text, and reads as
    exact integers those of at most 18 characters without fraction or exponent. */
module JsonNumbers {
  import opened Decimals
  import opened Json
  import opened JsonParse
  import opened JsonLexemes

  /** An optional minus sign, then digits without a leading zero. */
  predicate IntegerText(w: string) {
    if w != [] && w[0] == '-' then Canonical(w[1..]) else Canonical(w)
  }

  predicate SomeDigits(w: string) {
    w != [] && AllDigits(w)
  }

  predicate FractionText(w: string) {
    w != [] ==> w[0] == '.' && SomeDigits(w[1..])
  }

  predicate ExponentText(w: string) {
    w != [] ==>
      && (w[0] == 'e' || w[0] == 'E')
      && (SomeDigits(w[1..]) || (|w| > 1 && (w[1] == '+' || w[1] == '-') && SomeDigits(w[2..])))
  }

  predicate NumberText(whole: string, fraction: string, exponent: string) {
    IntegerText(whole) && FractionText(fraction) && ExponentText(exponent)
  }

  /** What a number text means. */
  function Meaning(strtod: Strtod, whole: string, fraction: string, exponent: string, next: nat): Outcome<Value>
    requires IntegerText(whole)
  {
    if fraction == "" && exponent == "" && |whole| <= 18 then
      Ok(Integer(if whole[0] == '-' then -(DigitsValue(whole[1..]) as int) else DigitsValue(whole)), next)
    else
      match strtod(whole + fraction + exponent)
      case NotFinite => Bad(NonFinite)
      case Whole(n) => Ok(Integer(n), next)
      case Fraction(shown) => Ok(Double(shown), next)
  }

  /** No digit continues the digits that end at q. */
  predicate NoDigit(s: string, q: nat) {
    q <= |s| && (q < |s| ==> !IsDigit(s[q]))
  }

  lemma {:induction false} DigitsScanned(s: string, i: nat, w: string)
    requires Stands(s, i, w) && AllDigits(w) && NoDigit(s, i + |w|)
    ensures SkipDigits(s, i) == i + |w|
    decreases |w|
  {
    if w != [] {
      assert w == [w[0]] + w[1..];
      assert w[0] in w;
      StandsAt(s, i, w, 0);
      Split(s, i, [w[0]], w[1..]);
      DigitsScanned(s, i + 1, w[1..]);
    }
  }

  lemma DigitsStart(s: string, i: nat, w: string)
    requires Stands(s, i, w) && SomeDigits(w)
    ensures i < |s| && s[i] == w[0] && IsDigit(s[i])
  {
    StandsAt(s, i, w, 0);
    assert w[0] in w;
  }

  lemma CanonicalScanned(s: string, j: nat, w: string)
    requires Stands(s, j, w) && Canonical(w) && NoDigit(s, j + |w|)
    ensures j < |s| && IsDigit(s[j]) && s[j] == w[0]
    ensures j + |w| == if s[j] == '0' then j + 1 else SkipDigits(s, j)
  {
    DigitsStart(s, j, w);
    DigitsScanned(s, j, w);
  }

  lemma WholeScanned(s: string, i: nat, w: string)
    requires Stands(s, i, w) && IntegerText(w) && NoDigit(s, i + |w|)
    ensures i < |s| && IntegerEnd(s, i) == Ok((), i + |w|)
  {
    if w[0] == '-' {
      assert w == "-" + w[1..];
      Split(s, i, "-", w[1..]);
      StandsAt(s, i, w, 0);
      CanonicalScanned(s, i + 1, w[1..]);
    } else {
      CanonicalScanned(s, i, w);
    }
  }

  lemma FractionScanned(s: string, i: nat, w: string)
    requires Stands(s, i, w) && FractionText(w) && NoDigit(s, i + |w|)
    requires w == "" && i < |s| ==> s[i] != '.'
    ensures FractionEnd(s, i) == Ok((), i + |w|)
  {
    if w != "" {
      assert w == "." + w[1..];
      Split(s, i, ".", w[1..]);
      StandsAt(s, i, w, 0);
      DigitsStart(s, i + 1, w[1..]);
      DigitsScanned(s, i + 1, w[1..]);
    }
  }

  lemma ExponentScanned(s: string, i: nat, w: string)
    requires Stands(s, i, w) && ExponentText(w) && NoDigit(s, i + |w|)
    requires w == "" && i < |s| ==> s[i] != 'e' && s[i] != 'E'
    ensures ExponentEnd(s, i) == Ok((), i + |w|)
  {
    if w != "" {
      StandsAt(s, i, w, 0);
      var start := if SomeDigits(w[1..]) then 1 else 2;
      assert w == w[..start] + w[start..];
      Split(s, i, w[..start], w[start..]);
      if start == 2 {
        StandsAt(s, i, w, 1);
      }
      DigitsStart(s, i + start, w[start..]);
      DigitsScanned(s, i + start, w[start..]);
    }
  }

  /** Where a fraction or an exponent starts, no digit stands. */
  lemma StartsPlain(s: string, i: nat, fraction: string, exponent: string)
    requires Stands(s, i, fraction) && Stands(s, i + |fraction|, exponent)
    requires FractionText(fraction) && ExponentText(exponent) && Ends(s, i + |fraction| + |exponent|)
    ensures NoDigit(s, i) && (fraction == "" && i < |s| ==> s[i] != '.')
    ensures var q := i + |fraction|;
            NoDigit(s, q) && (exponent == "" && q < |s| ==> s[q] != 'e' && s[q] != 'E')
  {
    if fraction != "" {
      StandsAt(s, i, fraction, 0);
    }
    if exponent != "" {
      StandsAt(s, i + |fraction|, exponent, 0);
    }
  }

  /** What the three scans find is read as what it means. */
  lemma PartsMean(strtod: Strtod, s: string, i: nat, a: nat, b: nat, c: nat)
    requires i < |s| && IntegerEnd(s, i) == Ok((), a)
    requires FractionEnd(s, a) == Ok((), b) && ExponentEnd(s, b) == Ok((), c)
    requires IntegerText(s[i..a])
    ensures ParseNumber(strtod, s, i) == Meaning(strtod, s[i..a], s[a..b], s[b..c], c)
  {
    IntegerEndText(s, i);
    var whole, fraction, exponent := s[i..a], s[a..b], s[b..c];
    assert s[i..c] == whole + fraction + exponent;
    assert c == a <==> fraction == "" && exponent == "";
    assert c == a ==> s[i..c] == whole;
  }

  /** The parts of a number text, one after the other, are found by the three scans. */
  lemma PartsScanned(s: string, i: nat, whole: string, fraction: string, exponent: string, a: nat, b: nat, c: nat)
    requires NumberText(whole, fraction, exponent)
    requires a == i + |whole| && b == a + |fraction| && c == b + |exponent|
    requires Stands(s, i, whole) && Stands(s, a, fraction) && Stands(s, b, exponent) && Ends(s, c)
    ensures i < |s| && IntegerEnd(s, i) == Ok((), a) && FractionEnd(s, a) == Ok((), b) && ExponentEnd(s, b) == Ok((), c)
    ensures s[i..a] == whole && s[a..b] == fraction && s[b..c] == exponent
  {
    StartsPlain(s, a, fraction, exponent);
    WholeScanned(s, i, whole);
    FractionScanned(s, a, fraction);
    ExponentScanned(s, b, exponent);
    StandsIsSlice(s, i, whole);
    StandsIsSlice(s, a, fraction);
    StandsIsSlice(s, b, exponent);
  }

  lemma SplitNumber(s: string, i: nat, whole: string, fraction: string, exponent: string)
    requires Stands(s, i, whole + fraction + exponent)
    ensures Stands(s, i, whole) && Stands(s, i + |whole|, fraction) && Stands(s, i + |whole| + |fraction|, exponent)
  {
    var front := whole + fraction;
    Split(s, i, front, exponent);
    Split(s, i, whole, fraction);
  }

  /** Every number text is scanned whole and read as what it means. */
  lemma NumberRead(strtod: Strtod, s: string, i: nat, whole: string, fraction: string, exponent: string, end: nat)
    requires NumberText(whole, fraction, exponent) && Stands(s, i, whole + fraction + exponent)
    requires end == i + |whole| + |fraction| + |exponent| && Ends(s, end)
    ensures i < |s| && ParseNumber(strtod, s, i) == Meaning(strtod, whole, fraction, exponent, end)
  {
    SplitNumber(s, i, whole, fraction, exponent);
    var a := i + |whole|;
    var b := a + |fraction|;
    PartsScanned(s, i, whole, fraction, exponent, a, b, end);
    PartsMean(strtod, s, i, a, b, end);
  }

  // What is scanned is a number text.

  lemma DigitsTaken(s: string, i: nat)
    requires i < |s| && IsDigit(s[i])
    ensures i < SkipDigits(s, i) && SomeDigits(s[i..SkipDigits(s, i)])
  {
    SkipDigitsAre(s, i);
  }

  lemma WholeTaken(s: string, i: nat)
    requires i < |s| && IntegerEnd(s, i).Ok?
    ensures IntegerText(s[i..IntegerEnd(s, i).next])
  {
    var j, end := if s[i] == '-' then i + 1 else i, IntegerEnd(s, i).next;
    DigitsTaken(s, j);
    assert Canonical(s[j..end]) by {
      if s[j] == '0' {
        assert s[j..end] == "0";
      }
    }
    if s[i] == '-' {
      assert s[i..end][1..] == s[j..end];
    }
  }

  lemma FractionTaken(s: string, i: nat)
    requires i <= |s| && FractionEnd(s, i).Ok?
    ensures FractionText(s[i..FractionEnd(s, i).next])
  {
    var end := FractionEnd(s, i).next;
    if end > i {
      DigitsTaken(s, i + 1);
      assert s[i..end][1..] == s[i + 1..end];
    }
  }

  lemma ExponentTaken(s: string, i: nat)
    requires i <= |s| && ExponentEnd(s, i).Ok?
    ensures ExponentText(s[i..ExponentEnd(s, i).next])
  {
    var end := ExponentEnd(s, i).next;
    if end > i {
      var j := if s[i + 1] == '+' || s[i + 1] == '-' then i + 2 else i + 1;
      DigitsTaken(s, j);
      assert s[i..end][j - i..] == s[j..end];
    }
  }

  /** The text from i to next is a number text, and what is read is what it means. */
  ghost predicate IsRead(strtod: Strtod, s: string, i: nat, r: Outcome<Value>, a: nat, b: nat)
    requires r.Ok?
  {
    && i <= a <= b <= r.next <= |s| && NumberText(s[i..a], s[a..b], s[b..r.next])
    && r == Meaning(strtod, s[i..a], s[a..b], s[b..r.next], r.next)
  }

  /** What is read as a number is a number text, with the value that the text means. */
  lemma ReadIsNumber(strtod: Strtod, s: string, i: nat)
    requires i < |s| && ParseNumber(strtod, s, i).Ok?
    ensures exists a, b :: IsRead(strtod, s, i, ParseNumber(strtod, s, i), a, b)
  {
    var a := IntegerEnd(s, i).next;
    var b := FractionEnd(s, a).next;
    var c := ExponentEnd(s, b).next;
    WholeTaken(s, i);
    FractionTaken(s, a);
    ExponentTaken(s, b);
    PartsMean(strtod, s, i, a, b, c);
    assert IsRead(strtod, s, i, ParseNumber(strtod, s, i), a, b);
  }
}
