/** What every accepted text gives, and why printing what was read never loses anything. */
module JsonAccepted {
  import opened Json
  import opened JsonParse
  import opened JsonLayout
  import opened JsonRoundTrip

  /** No object repeats a key, and the value fits below the depth limit. */
  ghost predicate Sound(v: Value, depth: nat) {
    KeysUnique(v) && depth + Nesting(v) <= MAX_DEPTH
  }

  lemma {:induction false} ItemsNestingBelow(items: seq<Value>, k: nat, bound: nat)
    requires k <= |items| && forall j :: 0 <= j < |items| ==> Nesting(items[j]) <= bound
    ensures ItemsNesting(items, k) <= bound
    decreases |items| - k
  {
    if k < |items| {
      ItemsNestingBelow(items, k + 1, bound);
    }
  }

  lemma {:induction false} MembersNestingBelow(members: seq<Member>, k: nat, bound: nat)
    requires k <= |members| && forall j :: 0 <= j < |members| ==> Nesting(members[j].value) <= bound
    ensures MembersNesting(members, k) <= bound
    decreases |members| - k
  {
    if k < |members| {
      MembersNestingBelow(members, k + 1, bound);
    }
  }

  ghost predicate ItemsSound(items: seq<Value>, depth: nat) {
    forall k :: 0 <= k < |items| ==> Sound(items[k], depth + 1)
  }

  ghost predicate MembersSound(members: seq<Member>, depth: nat) {
    Unique(members) && forall k :: 0 <= k < |members| ==> Sound(members[k].value, depth + 1)
  }

  lemma ArraySound(items: seq<Value>, depth: nat)
    requires ItemsSound(items, depth) && depth <= MAX_DEPTH
    ensures Sound(Array(items), depth)
  {
    if items != [] {
      assert Sound(items[0], depth + 1);
      ItemsNestingBelow(items, 0, MAX_DEPTH - depth - 1);
    }
  }

  lemma ObjectSound(members: seq<Member>, depth: nat)
    requires MembersSound(members, depth) && depth <= MAX_DEPTH
    ensures Sound(Object(members), depth)
  {
    if members != [] {
      assert Sound(members[0].value, depth + 1);
      MembersNestingBelow(members, 0, MAX_DEPTH - depth - 1);
    }
  }

  lemma {:induction false} ValueSound(strtod: Strtod, s: string, i: nat, depth: nat)
    requires i <= |s| && ParseValue(strtod, s, i, depth).Ok?
    ensures Sound(ParseValue(strtod, s, i, depth).value, depth)
    decreases |s| - i, 3
  {
    AtSound(strtod, s, SkipSpace(s, i), depth);
  }

  lemma {:induction false} AtSound(strtod: Strtod, s: string, j: nat, depth: nat)
    requires j < |s| && ParseAt(strtod, s, j, depth).Ok? && depth <= MAX_DEPTH
    ensures Sound(ParseAt(strtod, s, j, depth).value, depth)
    decreases |s| - j, 2
  {
    if s[j] == '[' {
      ArrayAtSound(strtod, s, j, depth);
    } else if s[j] == '{' {
      ObjectAtSound(strtod, s, j, depth);
    }
  }

  lemma {:induction false} ArrayAtSound(strtod: Strtod, s: string, j: nat, depth: nat)
    requires j < |s| && s[j] == '[' && ParseAt(strtod, s, j, depth).Ok? && depth <= MAX_DEPTH
    ensures Sound(ParseAt(strtod, s, j, depth).value, depth)
    decreases |s| - j, 1
  {
    var k := SkipSpace(s, j + 1);
    if k < |s| && s[k] == ']' {
      ArraySound([], depth);
    } else {
      ItemsAreSound(strtod, s, k, depth, []);
    }
  }

  lemma {:induction false} ObjectAtSound(strtod: Strtod, s: string, j: nat, depth: nat)
    requires j < |s| && s[j] == '{' && ParseAt(strtod, s, j, depth).Ok? && depth <= MAX_DEPTH
    ensures Sound(ParseAt(strtod, s, j, depth).value, depth)
    decreases |s| - j, 1
  {
    var k := SkipSpace(s, j + 1);
    if k < |s| && s[k] == '}' {
      ObjectSound([], depth);
    } else {
      MembersAreSound(strtod, s, k, depth, []);
    }
  }

  lemma {:induction false} ItemsAreSound(strtod: Strtod, s: string, i: nat, depth: nat, items: seq<Value>)
    requires i <= |s| && ParseItems(strtod, s, i, depth, items).Ok? && ItemsSound(items, depth) && depth <= MAX_DEPTH
    ensures Sound(ParseItems(strtod, s, i, depth, items).value, depth)
    decreases |s| - i, 4
  {
    var v := ParseValue(strtod, s, i, depth + 1);
    ValueSound(strtod, s, i, depth + 1);
    var more := items + [v.value];
    var j := SkipSpace(s, v.next);
    if s[j] == ',' {
      ItemsAreSound(strtod, s, j + 1, depth, more);
    } else {
      ArraySound(more, depth);
    }
  }

  lemma SetSound(members: seq<Member>, key: string, value: Value, depth: nat)
    requires MembersSound(members, depth) && Sound(value, depth + 1)
    ensures MembersSound(Set(members, key, value), depth)
  {
    SetUnique(members, key, value);
    var more := Set(members, key, value);
    forall k | 0 <= k < |more| ensures Sound(more[k].value, depth + 1) {
      assert more[k].value == value || (k < |members| && more[k] == members[k]);
    }
  }

  lemma {:induction false} MembersAreSound(strtod: Strtod, s: string, i: nat, depth: nat, members: seq<Member>)
    requires i <= |s| && ParseMembers(strtod, s, i, depth, members).Ok?
    requires MembersSound(members, depth) && depth <= MAX_DEPTH
    ensures Sound(ParseMembers(strtod, s, i, depth, members).value, depth)
    decreases |s| - i, 4
  {
    var member := ParseMember(strtod, s, i, depth);
    ValueSound(strtod, s, ParseKey(s, i).next, depth + 1);
    var more := Set(members, member.value.key, member.value.value);
    SetSound(members, member.value.key, member.value.value, depth);
    var j := SkipSpace(s, member.next);
    if s[j] == ',' {
      MembersAreSound(strtod, s, j + 1, depth, more);
    } else {
      ObjectSound(more, depth);
    }
  }

  /** Whatever the text, what is accepted repeats no key and is nested at most 200 deep. */
  lemma AcceptedIsSound(strtod: Strtod, s: string)
    requires Parse(strtod, s).Ok?
    ensures KeysUnique(Parse(strtod, s).value) && Nesting(Parse(strtod, s).value) <= 200
  {
    ValueSound(strtod, s, 0, 0);
  }

  /** Reading a text, printing what was read at any indent and reading it again changes nothing. */
  lemma PrintingIsStable(strtod: Strtod, s: string, indent: int)
    requires Parse(strtod, s).Ok? && SmallNumbers(Parse(strtod, s).value)
    ensures var again := Parse(strtod, Text(Parse(strtod, s).value, indent, 0));
      again.Ok? && again.value == Parse(strtod, s).value
  {
    AcceptedIsSound(strtod, s);
    RoundTrip(strtod, Parse(strtod, s).value, indent);
  }

  /** Two values with the same text are the same value: the journal that is written determines what was meant. */
  lemma TextDetermines(strtod: Strtod, v: Value, w: Value, one: int, two: int)
    requires KeysUnique(v) && SmallNumbers(v) && Nesting(v) <= 200
    requires KeysUnique(w) && SmallNumbers(w) && Nesting(w) <= 200
    requires Text(v, one, 0) == Text(w, two, 0)
    ensures v == w
  {
    RoundTrip(strtod, v, one);
    RoundTrip(strtod, w, two);
  }

  /** Four characters are skipped as spaces, as far as they go: space, tab, line feed and carriage return. */
  lemma {:induction false} SpacesSkipped(s: string, i: nat)
    requires i <= |s|
    ensures forall k :: i <= k < SkipSpace(s, i) ==> s[k] as nat in {9, 10, 13, 32}
    ensures SkipSpace(s, i) < |s| ==> s[SkipSpace(s, i)] as nat !in {9, 10, 13, 32}
    decreases |s| - i
  {
    if i < |s| && IsSpace(s[i]) {
      SpacesSkipped(s, i + 1);
    }
  }

  lemma IndentedLines()
    ensures NewLine(2, 0) == "\n" && NewLine(2, 1) == "\n  " && NewLine(2, 2) == "\n    "
  {
    assert Spaces(0) == "";
    assert Spaces(1) == " ";
    assert Spaces(2) == "  ";
    assert Spaces(3) == "   ";
    assert Spaces(4) == "    ";
    assert Margin(2, 0) == 0 && Margin(2, 1) == 2 && Margin(2, 2) == 4;
  }

  lemma TwoParts(a: string, b: string, line: string)
    ensures Join([a], 0, line) == line + a && Join([a, b], 0, line) == line + a + "," + line + b
  {
    var one, two := [a], [a, b];
    assert Join(one, 1, line) == "" && Join(one, 0, line) == "" + line + a + "";
    assert Join(two, 2, line) == "" && Join(two, 1, line) == "," + line + b + "";
    assert Join(two, 0, line) == "" + line + a + Join(two, 1, line);
  }

  /** What the printer writes at an indent of two. */
  lemma PrintedSample()
    ensures var inner := "[" + ("\n    " + "null") + "\n  " + "]";
            Text(Array([Bool(true), Array([Null])]), 2, 0)
            == "[" + ("\n  " + "true" + "," + "\n  " + inner) + "\n" + "]"
  {
    var inner := Array([Null]);
    var outer := Array([Bool(true), inner]);
    IndentedLines();
    var parts := ItemTexts(inner.items, 2, 2);
    assert parts == ["null"];
    TwoParts("null", "null", "\n    ");
    var nested := "[" + ("\n    " + "null") + "\n  " + "]";
    assert ['['] == "[" && [']'] == "]";
    assert Text(inner, 2, 1) == nested;
    parts := ItemTexts(outer.items, 2, 1);
    assert Text(outer.items[0], 2, 1) == "true" && Text(outer.items[1], 2, 1) == nested;
    assert parts == ["true", nested];
    TwoParts("true", nested, "\n  ");
    assert Text(outer, 2, 0) == Enclosed('[', parts, 2, 0, ']');
  }
}
