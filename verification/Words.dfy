/** 256-bit words as thirty-two big-endian bytes and their decimal texts (core.cpp, `U256::from_dec`, `U256::dec`). */
module Words {
  import opened Wrappers
  import opened Decimals
  import opened BigEndian

  const SIZE: nat := 32

  /** One digit more: every byte times ten, the carry moving to the left. */
  method TimesTenPlus(b: array<Byte>, digit: nat) returns (carry: nat)
    requires b.Length == SIZE && digit < 10
    modifies b
    ensures Number(b[..]) + carry * Pow256(SIZE) == 10 * Number(old(b[..])) + digit
  {
    carry := digit;
    ghost var was := b[..];
    var i := SIZE;
    assert b[i..] == [] && was[i..] == [];
    while i > 0
      invariant 0 <= i <= SIZE && carry < 10
      invariant forall k :: 0 <= k < i ==> b[k] == was[k]
      invariant Number(b[i..]) + carry * Pow256(SIZE - i) == 10 * Number(was[i..]) + digit
    {
      i := i - 1;
      ghost var tail, p := b[i + 1..], Pow256(SIZE - i - 1);
      ghost var before := carry;
      var v := b[i] * 10 + carry;
      b[i] := v % 256;
      carry := v / 256;
      assert b[i..] == [b[i]] + tail && b[i + 1..] == tail;
      assert was[i..] == [was[i]] + was[i + 1..];
      NumberCons(b[i], tail, p);
      NumberCons(was[i], was[i + 1..], p);
      CarryStep(was[i], before, v, p, Number(tail), Number(was[i + 1..]), digit);
    }
    assert b[0..] == b[..] && was[0..] == was;
  }

  lemma CarryStep(x: int, before: nat, v: int, p: nat, tail: int, wasTail: int, digit: nat)
    requires v == x * 10 + before && tail + before * p == 10 * wasTail + digit
    ensures v % 256 * p + tail + v / 256 * (256 * p) == 10 * (x * p + wasTail) + digit
  {
    var q, r := v / 256, v % 256;
    assert r * p + q * (256 * p) == (r + 256 * q) * p;
    assert (x * 10 + before) * p == 10 * (x * p) + before * p;
  }

  lemma {:induction false} PrefixValue(s: string, k: nat)
    requires AllDigits(s) && k <= |s|
    ensures AllDigits(s[..k]) && DigitsValue(s[..k]) <= DigitsValue(s)
    decreases |s| - k
  {
    forall c | c in s[..k] ensures IsDigit(c) {
      assert c in s;
    }
    if k < |s| {
      PrefixValue(s, k + 1);
      assert s[..k + 1][..k] == s[..k];
    } else {
      assert s[..k] == s;
    }
  }

  lemma PrefixStep(s: string, k: nat)
    requires AllDigits(s) && k < |s|
    ensures AllDigits(s[..k]) && AllDigits(s[..k + 1]) && IsDigit(s[k])
    ensures DigitsValue(s[..k + 1]) == 10 * DigitsValue(s[..k]) + DigitValue(s[k])
  {
    PrefixValue(s, k);
    PrefixValue(s, k + 1);
    assert s[k] in s;
    assert s[..k + 1][..k] == s[..k];
  }

  /** Accepts exactly the canonical decimal texts below 2^256, and gives that value. */
  method FromDec(s: string) returns (r: Option<Bytes>)
    ensures r.Some? <==> Canonical(s) && DigitsValue(s) < Pow256(SIZE)
    ensures r.Some? ==> |r.value| == SIZE && Number(r.value) == DigitsValue(s)
  {
    if s == [] || !AllDigits(s) || (|s| > 1 && s[0] == '0') {
      return None;
    }
    r := ReadDigits(s);
  }

  /** One digit of the text: the word so far times ten and the digit, unless that leaves 256 bits. */
  method PushDigit(b: array<Byte>, s: string, k: nat) returns (ok: bool)
    requires b.Length == SIZE && AllDigits(s) && k < |s| && AllDigits(s[..k])
    requires Number(b[..]) == DigitsValue(s[..k])
    modifies b
    ensures AllDigits(s[..k + 1])
    ensures ok ==> Number(b[..]) == DigitsValue(s[..k + 1])
    ensures !ok ==> DigitsValue(s) >= Pow256(SIZE)
  {
    PrefixStep(s, k);
    var carry := TimesTenPlus(b, DigitValue(s[k]));
    NumberBounds(b[..]);
    if carry != 0 {
      PrefixValue(s, k + 1);
      CarryExceeds(carry, Pow256(SIZE));
    }
    ok := carry == 0;
  }

  lemma ZeroWord(w: Bytes)
    requires forall k :: 0 <= k < |w| ==> w[k] == 0
    ensures Number(w) == 0
  {
    NumberBounds(w);
  }

  /** The loop over the digits; nothing as soon as a carry leaves the word. */
  method ReadDigits(s: string) returns (r: Option<Bytes>)
    requires AllDigits(s)
    ensures r.Some? <==> DigitsValue(s) < Pow256(SIZE)
    ensures r.Some? ==> |r.value| == SIZE && Number(r.value) == DigitsValue(s)
  {
    var b := new Byte[SIZE](i => 0);
    ZeroWord(b[..]);
    assert s[..0] == [];
    for k := 0 to |s|
      invariant AllDigits(s[..k]) && Number(b[..]) == DigitsValue(s[..k])
    {
      var ok := PushDigit(b, s, k);
      if !ok {
        return None;
      }
    }
    assert s[..|s|] == s;
    NumberBounds(b[..]);
    r := Some(b[..]);
  }

  lemma CarryExceeds(carry: nat, p: nat)
    requires carry != 0
    ensures carry * p >= p
  {
  }

  /** Long division by ten in place; returns the remainder. */
  method DivideByTen(n: array<Byte>) returns (rem: nat)
    modifies n
    ensures rem < 10
    ensures 10 * Number(n[..]) + rem == Number(old(n[..]))
  {
    rem := 0;
    ghost var was := n[..];
    assert n[..0] == [] && was[..0] == [];
    for i := 0 to n.Length
      invariant rem < 10
      invariant forall k :: i <= k < n.Length ==> n[k] == was[k]
      invariant 10 * Number(n[..i]) + rem == Number(was[..i])
    {
      ghost var done := n[..i];
      var v := rem * 256 + n[i];
      n[i] := v / 10;
      rem := v % 10;
      assert n[..i + 1] == done + [n[i]] && n[..i + 1][..i] == done;
      assert was[..i + 1][..i] == was[..i];
    }
    assert n[..n.Length] == n[..] && was[..n.Length] == was;
  }

  method IsZero(n: array<Byte>) returns (zero: bool)
    ensures zero <==> Number(n[..]) == 0
  {
    NumberBounds(n[..]);
    for i := 0 to n.Length
      invariant forall k :: 0 <= k < i ==> n[k] == 0
    {
      if n[i] != 0 {
        assert n[..][i] != 0;
        return false;
      }
    }
    zero := true;
  }

  /** The digits of v followed by those already taken off; nothing while v is zero. */
  ghost function DigitsThen(v: nat, taken: string): string {
    if v == 0 then taken else Digits(v) + taken
  }

  lemma DigitsThenStep(v: nat, taken: string)
    requires v > 0
    ensures DigitsThen(v / 10, [Digit(v % 10)] + taken) == DigitsThen(v, taken)
  {
    if v >= 10 {
      assert Digits(v / 10) + ([Digit(v % 10)] + taken) == Digits(v) + taken;
    }
  }

  function Reversed(s: string): string {
    if s == [] then [] else Reversed(s[1..]) + [s[0]]
  }

  lemma {:induction false} ReversedSnoc(s: string, c: char)
    ensures Reversed(s + [c]) == [c] + Reversed(s)
  {
    if s == [] {
      assert ([] + [c])[1..] == [];
    } else {
      assert (s + [c])[1..] == s[1..] + [c];
      ReversedSnoc(s[1..], c);
    }
  }

  lemma DigitTaken(v: nat, w: nat, rem: nat, out: string)
    requires v > 0 && rem < 10 && v == 10 * w + rem
    ensures DigitsThen(w, Reversed(out + [Digit(rem)])) == DigitsThen(v, Reversed(out))
  {
    ReversedSnoc(out, Digit(rem));
    DigitsThenStep(v, Reversed(out));
  }

  /** The decimal text of a word, by repeated division. */
  method Dec(b: Bytes) returns (text: string)
    ensures text == Digits(Number(b))
  {
    var n := new Byte[|b|](i requires 0 <= i < |b| => b[i]);
    assert n[..] == b;
    NumberBounds(b);
    var out := DigitsOf(n);
    text := if out == "" then "0" else Reversed(out);
    Conclude(Number(b), out);
  }

  /** The loop that divides until nothing is left: the digits, last first. */
  method DigitsOf(n: array<Byte>) returns (out: string)
    modifies n
    ensures Reversed(out) == DigitsThen(Number(old(n[..])), "")
  {
    out := "";
    var zero := IsZero(n);
    while !zero
      invariant zero == (Number(n[..]) == 0)
      invariant DigitsThen(Number(n[..]), Reversed(out)) == DigitsThen(Number(old(n[..])), "")
      decreases Number(n[..])
    {
      ghost var v := Number(n[..]);
      var rem := DivideByTen(n);
      DigitTaken(v, Number(n[..]), rem, out);
      out := out + [Digit(rem)];
      zero := IsZero(n);
    }
  }

  lemma Conclude(v: nat, out: string)
    requires Reversed(out) == DigitsThen(v, "")
    ensures (if out == "" then "0" else Reversed(out)) == Digits(v)
  {
    if out != "" {
      assert Digits(v) + "" == Digits(v);
    }
  }

  /** Printing a word that was read gives its text back. */
  method RoundTrip(s: string) returns (text: Option<string>)
    ensures text.Some? <==> Canonical(s) && DigitsValue(s) < Pow256(SIZE)
    ensures text.Some? ==> text.value == s
  {
    var word := FromDec(s);
    if word == None {
      return None;
    }
    var t := Dec(word.value);
    DigitsOfValue(s);
    text := Some(t);
  }

  /** Reading a word that was printed gives its bytes back. */
  method ReadPrinted(b: Bytes) returns (r: Option<Bytes>)
    requires |b| == SIZE
    ensures r == Some(b)
  {
    var text := Dec(b);
    NumberBounds(b);
    DigitsAre(Number(b));
    DigitsCanonical(Number(b));
    r := FromDec(text);
    NumberInjective(r.value, b);
  }
}
