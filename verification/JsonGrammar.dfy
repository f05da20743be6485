/** The texts that the parser accepts are exactly those of the JSON grammar (RFC 8259) whose values are nested at most
    200 deep and whose numbers are finite. */
module JsonGrammar {
  import opened Decimals
  import opened Json
  import opened JsonParse
  import opened JsonLexemes
  import opened JsonLayout
  import opened JsonNumbers
  import opened JsonUnicode

  // The grammar, as positions in a text: what stands from one to the other.

  /** A number text that reads as a finite number. */
  ghost predicate NumberTo(strtod: Strtod, s: string, p: nat, q: nat) {
    exists a: nat, b: nat :: NumberFrom(strtod, s, p, a, b, q)
  }

  ghost predicate NumberFrom(strtod: Strtod, s: string, p: nat, a: nat, b: nat, q: nat) {
    && p <= a <= b <= q <= |s| && NumberText(s[p..a], s[a..b], s[b..q])
    && Meaning(strtod, s[p..a], s[a..b], s[b..q], q).Ok?
  }

  /** Spaces and a value. */
  ghost predicate ValueTo(strtod: Strtod, s: string, i: nat, q: nat, depth: nat)
    decreases q - i, 2
  {
    depth <= 200 && exists p: nat :: ValueFrom(strtod, s, i, p, q, depth)
  }

  ghost predicate ValueFrom(strtod: Strtod, s: string, i: nat, p: nat, q: nat, depth: nat)
    decreases q - i, 1
  {
    i <= p < q <= |s| && Gap(s, i, p) && !IsSpace(s[p]) && Core(strtod, s, p, q, depth)
  }

  /** A literal, a string, a number, an array or an object. */
  ghost predicate Core(strtod: Strtod, s: string, p: nat, q: nat, depth: nat)
    requires p < q <= |s|
    decreases q - p, 0
  {
    || (Stands(s, p, "null") && q == p + 4)
    || (Stands(s, p, "true") && q == p + 4)
    || (Stands(s, p, "false") && q == p + 5)
    || (s[p] == '"' && StringTo(s, p + 1, q))
    || NumberTo(strtod, s, p, q)
    || (s[p] == '[' && (EmptyLaid(s, p + 1, ']', q) || ItemsTo(strtod, s, p + 1, q, depth + 1)))
    || (s[p] == '{' && (EmptyLaid(s, p + 1, '}', q) || MembersTo(strtod, s, p + 1, q, depth + 1)))
  }

  /** Items with commas between them and the closing bracket. */
  ghost predicate ItemsTo(strtod: Strtod, s: string, i: nat, q: nat, depth: nat)
    decreases q - i, 4
  {
    exists e: nat, c: nat :: ItemTo(strtod, s, i, q, depth, e, c)
  }

  ghost predicate ItemTo(strtod: Strtod, s: string, i: nat, q: nat, depth: nat, e: nat, c: nat)
    decreases q - i, 3
  {
    && i < e <= c < q <= |s| && ValueTo(strtod, s, i, e, depth) && Gap(s, e, c)
    && ((s[c] == ']' && q == c + 1) || (s[c] == ',' && ItemsTo(strtod, s, c + 1, q, depth)))
  }

  /** Spaces, a key, spaces and a colon. */
  ghost predicate KeyTo(s: string, i: nat, v: nat) {
    exists b: nat, a: nat, c: nat :: ColonAt(s, i, b, a, c) && v == c + 1
  }

  ghost predicate ColonAt(s: string, i: nat, b: nat, a: nat, c: nat) {
    && Gap(s, i, b) && b < |s| && s[b] == '"' && StringTo(s, b + 1, a) && a <= |s|
    && Gap(s, a, c) && c < |s| && s[c] == ':'
  }

  /** Keys and values with commas between them and the closing brace. */
  ghost predicate MembersTo(strtod: Strtod, s: string, i: nat, q: nat, depth: nat)
    decreases q - i, 4
  {
    exists v: nat, e: nat, c: nat :: MemberTo(strtod, s, i, q, depth, v, e, c)
  }

  ghost predicate MemberTo(strtod: Strtod, s: string, i: nat, q: nat, depth: nat, v: nat, e: nat, c: nat)
    decreases q - i, 3
  {
    && i <= v < e <= c < q <= |s| && KeyTo(s, i, v) && ValueTo(strtod, s, v, e, depth) && Gap(s, e, c)
    && ((s[c] == '}' && q == c + 1) || (s[c] == ',' && MembersTo(strtod, s, c + 1, q, depth)))
  }

  /** A whole text: a value between spaces. */
  ghost predicate IsJson(strtod: Strtod, s: string) {
    exists q: nat :: ValueTo(strtod, s, 0, q, 0) && Gap(s, q, |s|)
  }

  // What is accepted is in the grammar.

  /** Where the parser stops, if it accepts. */
  predicate StopsAt<T>(r: Outcome<T>, q: nat) {
    r.Ok? && r.next == q
  }

  lemma {:induction false} SkippedIsGap(s: string, i: nat)
    requires i <= |s|
    ensures Gap(s, i, SkipSpace(s, i)) && (SkipSpace(s, i) < |s| ==> !IsSpace(s[SkipSpace(s, i)]))
    decreases |s| - i
  {
    if i < |s| && IsSpace(s[i]) {
      SkippedIsGap(s, i + 1);
    }
  }

  lemma NumberAccepted(strtod: Strtod, s: string, p: nat)
    requires p < |s| && ParseNumber(strtod, s, p).Ok?
    ensures NumberTo(strtod, s, p, ParseNumber(strtod, s, p).next)
  {
    ReadIsNumber(strtod, s, p);
    var r := ParseNumber(strtod, s, p);
    var a: nat, b: nat :| IsRead(strtod, s, p, r, a, b);
    assert NumberFrom(strtod, s, p, a, b, r.next);
  }

  lemma {:induction false} ValueAccepted(strtod: Strtod, s: string, i: nat, depth: nat)
    requires i <= |s| && ParseValue(strtod, s, i, depth).Ok?
    ensures ValueTo(strtod, s, i, ParseValue(strtod, s, i, depth).next, depth)
    decreases |s| - i, 3
  {
    SkippedIsGap(s, i);
    var p, q := SkipSpace(s, i), ParseValue(strtod, s, i, depth).next;
    CoreAccepted(strtod, s, p, depth);
    assert ValueFrom(strtod, s, i, p, q, depth);
  }

  lemma {:induction false} CoreAccepted(strtod: Strtod, s: string, p: nat, depth: nat)
    requires p < |s| && ParseAt(strtod, s, p, depth).Ok?
    ensures Core(strtod, s, p, ParseAt(strtod, s, p, depth).next, depth)
    decreases |s| - p, 2
  {
    var q := ParseAt(strtod, s, p, depth).next;
    if s[p] == '[' {
      ArrayAccepted(strtod, s, p, depth);
    } else if s[p] == '{' {
      ObjectAccepted(strtod, s, p, depth);
    } else if s[p] == '"' {
      StringsAreAllowed(s, p + 1, "", q);
    } else if !Stands(s, p, "true") && !Stands(s, p, "false") && !Stands(s, p, "null") {
      NumberAccepted(strtod, s, p);
    }
  }

  lemma {:induction false} ArrayAccepted(strtod: Strtod, s: string, p: nat, depth: nat)
    requires p < |s| && s[p] == '[' && ParseAt(strtod, s, p, depth).Ok?
    ensures Core(strtod, s, p, ParseAt(strtod, s, p, depth).next, depth)
    decreases |s| - p, 1
  {
    SkippedIsGap(s, p + 1);
    var k, q := SkipSpace(s, p + 1), ParseAt(strtod, s, p, depth).next;
    if k < |s| && s[k] == ']' {
      assert EmptyLaid(s, p + 1, ']', q);
    } else {
      ItemsAccepted(strtod, s, k, depth, []);
      WiderItems(strtod, s, p + 1, k, q, depth + 1);
    }
  }

  /** Spaces before the first item belong to it. */
  lemma WiderItems(strtod: Strtod, s: string, i: nat, k: nat, q: nat, depth: nat)
    requires Gap(s, i, k) && ItemsTo(strtod, s, k, q, depth)
    ensures ItemsTo(strtod, s, i, q, depth)
  {
    var e: nat, c: nat :| ItemTo(strtod, s, k, q, depth, e, c);
    assert ValueTo(strtod, s, k, e, depth);
    var p: nat :| ValueFrom(strtod, s, k, p, e, depth);
    assert ValueFrom(strtod, s, i, p, e, depth);
    assert ValueTo(strtod, s, i, e, depth);
    assert ItemTo(strtod, s, i, q, depth, e, c);
  }

  lemma {:induction false} ItemsAccepted(strtod: Strtod, s: string, i: nat, depth: nat, items: seq<Value>)
    requires i <= |s| && ParseItems(strtod, s, i, depth, items).Ok?
    ensures ItemsTo(strtod, s, i, ParseItems(strtod, s, i, depth, items).next, depth + 1)
    decreases |s| - i, 4
  {
    var v := ParseValue(strtod, s, i, depth + 1);
    var q := ParseItems(strtod, s, i, depth, items).next;
    ValueAccepted(strtod, s, i, depth + 1);
    SkippedIsGap(s, v.next);
    var c := SkipSpace(s, v.next);
    if s[c] == ',' {
      ItemsAccepted(strtod, s, c + 1, depth, items + [v.value]);
    }
    assert ItemTo(strtod, s, i, q, depth + 1, v.next, c);
  }

  lemma {:induction false} ObjectAccepted(strtod: Strtod, s: string, p: nat, depth: nat)
    requires p < |s| && s[p] == '{' && ParseAt(strtod, s, p, depth).Ok?
    ensures Core(strtod, s, p, ParseAt(strtod, s, p, depth).next, depth)
    decreases |s| - p, 1
  {
    SkippedIsGap(s, p + 1);
    var k, q := SkipSpace(s, p + 1), ParseAt(strtod, s, p, depth).next;
    if k < |s| && s[k] == '}' {
      assert EmptyLaid(s, p + 1, '}', q);
    } else {
      MembersAccepted(strtod, s, k, q, depth, []);
      WiderMembers(strtod, s, p + 1, k, q, depth + 1);
    }
  }

  lemma WiderMembers(strtod: Strtod, s: string, i: nat, k: nat, q: nat, depth: nat)
    requires Gap(s, i, k) && MembersTo(strtod, s, k, q, depth)
    ensures MembersTo(strtod, s, i, q, depth)
  {
    var v: nat, e: nat, c: nat :| MemberTo(strtod, s, k, q, depth, v, e, c);
    var b: nat, a: nat, d: nat :| ColonAt(s, k, b, a, d) && v == d + 1;
    assert ColonAt(s, i, b, a, d);
    assert MemberTo(strtod, s, i, q, depth, v, e, c);
  }

  lemma KeyAccepted(s: string, i: nat)
    requires i <= |s| && ParseKey(s, i).Ok?
    ensures KeyTo(s, i, ParseKey(s, i).next)
  {
    SkippedIsGap(s, i);
    var b := SkipSpace(s, i);
    var key := ParseString(s, b + 1, "");
    StringsAreAllowed(s, b + 1, "", key.next);
    SkippedIsGap(s, key.next);
    assert ColonAt(s, i, b, key.next, SkipSpace(s, key.next));
  }

  /** Where the key and the value of the first member end, what follows them, and the members read by then. */
  lemma MemberEnds(strtod: Strtod, s: string, i: nat, q: nat, depth: nat, members: seq<Member>)
    returns (v: nat, e: nat, c: nat, more: seq<Member>)
    requires i <= |s| && ParseMembers(strtod, s, i, depth, members).Ok?
    requires q == ParseMembers(strtod, s, i, depth, members).next
    ensures StopsAt(ParseKey(s, i), v) && i < v <= |s| && StopsAt(ParseValue(strtod, s, v, depth + 1), e)
    ensures v < e <= |s| && c == SkipSpace(s, e) && c < q <= |s| && (s[c] == '}' || s[c] == ',')
    ensures s[c] == '}' ==> q == c + 1
    ensures s[c] == ',' ==> StopsAt(ParseMembers(strtod, s, c + 1, depth, more), q)
  {
    var member := ParseMember(strtod, s, i, depth);
    var key := ParseKey(s, i);
    v := key.next;
    var value := ParseValue(strtod, s, v, depth + 1);
    e := value.next;
    c := SkipSpace(s, e);
    more := Set(members, key.value, value.value);
  }

  /** The first member, in terms of the grammar. */
  lemma {:induction false} MemberHead(strtod: Strtod, s: string, i: nat, q: nat, depth: nat, members: seq<Member>)
    returns (v: nat, e: nat, c: nat, more: seq<Member>)
    requires i <= |s| && ParseMembers(strtod, s, i, depth, members).Ok?
    requires q == ParseMembers(strtod, s, i, depth, members).next
    ensures i <= v < e <= c < q <= |s| && KeyTo(s, i, v) && ValueTo(strtod, s, v, e, depth + 1) && Gap(s, e, c)
    ensures s[c] == ',' || (s[c] == '}' && q == c + 1)
    ensures s[c] == ',' ==> StopsAt(ParseMembers(strtod, s, c + 1, depth, more), q)
    decreases |s| - i, 4
  {
    v, e, c, more := MemberEnds(strtod, s, i, q, depth, members);
    KeyAccepted(s, i);
    ValueAccepted(strtod, s, v, depth + 1);
    SkippedIsGap(s, e);
  }

  lemma LastMemberJoins(strtod: Strtod, s: string, i: nat, depth: nat, v: nat, e: nat, c: nat)
    requires i <= v < e <= c < |s| && KeyTo(s, i, v) && ValueTo(strtod, s, v, e, depth) && Gap(s, e, c) && s[c] == '}'
    ensures MembersTo(strtod, s, i, c + 1, depth)
  {
    assert MemberTo(strtod, s, i, c + 1, depth, v, e, c);
  }

  lemma MemberJoins(strtod: Strtod, s: string, i: nat, q: nat, depth: nat, v: nat, e: nat, c: nat)
    requires i <= v < e <= c < q <= |s| && KeyTo(s, i, v) && ValueTo(strtod, s, v, e, depth) && Gap(s, e, c)
    requires s[c] == ',' && MembersTo(strtod, s, c + 1, q, depth)
    ensures MembersTo(strtod, s, i, q, depth)
  {
    assert MemberTo(strtod, s, i, q, depth, v, e, c);
  }

  lemma {:induction false} MembersAccepted(strtod: Strtod, s: string, i: nat, q: nat, depth: nat, members: seq<Member>)
    requires i <= |s| && StopsAt(ParseMembers(strtod, s, i, depth, members), q)
    ensures MembersTo(strtod, s, i, q, depth + 1)
    decreases |s| - i, 5
  {
    var v, e, c, more := MemberHead(strtod, s, i, q, depth, members);
    if s[c] == ',' {
      MembersAccepted(strtod, s, c + 1, q, depth, more);
      MemberJoins(strtod, s, i, q, depth + 1, v, e, c);
    } else {
      LastMemberJoins(strtod, s, i, depth + 1, v, e, c);
    }
  }

  // What is in the grammar is accepted.

  lemma ThreeSlices(s: string, p: nat, a: nat, b: nat, q: nat)
    requires p <= a <= b <= q <= |s|
    ensures Stands(s, p, s[p..a] + s[a..b] + s[b..q])
  {
    assert s[p..a] + s[a..b] + s[b..q] == s[p..q];
    StandsIsSlice(s, p, s[p..q]);
  }

  lemma NumberRuns(strtod: Strtod, s: string, p: nat, q: nat)
    requires NumberTo(strtod, s, p, q) && Ends(s, q)
    ensures p < |s| && StopsAt(ParseNumber(strtod, s, p), q) && (s[p] == '-' || IsDigit(s[p]))
  {
    var a: nat, b: nat :| NumberFrom(strtod, s, p, a, b, q);
    ThreeSlices(s, p, a, b, q);
    NumberRead(strtod, s, p, s[p..a], s[a..b], s[b..q], q);
    assert s[p..a][0] == s[p];
    if s[p] != '-' {
      assert s[p] in s[p..a];
    }
  }

  lemma NumberAtRuns(strtod: Strtod, s: string, p: nat, q: nat, depth: nat)
    requires NumberTo(strtod, s, p, q) && Ends(s, q)
    ensures p < |s| && StopsAt(ParseAt(strtod, s, p, depth), q)
  {
    NumberRuns(strtod, s, p, q);
    WordStarts(s, p, "true");
    WordStarts(s, p, "false");
    WordStarts(s, p, "null");
  }

  lemma WordRuns(strtod: Strtod, s: string, p: nat, w: string, depth: nat)
    requires w == "null" || w == "true" || w == "false"
    requires Stands(s, p, w)
    ensures p < |s| && StopsAt(ParseAt(strtod, s, p, depth), p + |w|)
  {
    WordStarts(s, p, w);
    WordStarts(s, p, "true");
    WordStarts(s, p, "false");
    WordStarts(s, p, "null");
  }

  lemma {:induction false} ValueRuns(strtod: Strtod, s: string, i: nat, q: nat, depth: nat)
    requires ValueTo(strtod, s, i, q, depth) && Ends(s, q)
    ensures i <= |s| && StopsAt(ParseValue(strtod, s, i, depth), q)
    decreases q - i, 2
  {
    var p: nat :| ValueFrom(strtod, s, i, p, q, depth);
    GapSkips(s, i, p);
    CoreRuns(strtod, s, p, q, depth);
  }

  lemma {:induction false} CoreRuns(strtod: Strtod, s: string, p: nat, q: nat, depth: nat)
    requires p < q <= |s| && Core(strtod, s, p, q, depth) && Ends(s, q) && depth <= 200
    ensures StopsAt(ParseAt(strtod, s, p, depth), q)
    decreases q - p, 1
  {
    if Stands(s, p, "null") && q == p + 4 {
      WordRuns(strtod, s, p, "null", depth);
    } else if Stands(s, p, "true") && q == p + 4 {
      WordRuns(strtod, s, p, "true", depth);
    } else if Stands(s, p, "false") && q == p + 5 {
      WordRuns(strtod, s, p, "false", depth);
    } else if NumberTo(strtod, s, p, q) {
      NumberAtRuns(strtod, s, p, q, depth);
    } else if s[p] == '"' {
      StringsAreAllowed(s, p + 1, "", q);
    } else if s[p] == '[' {
      ArrayRuns(strtod, s, p, q, depth);
    } else {
      ObjectRuns(strtod, s, p, q, depth);
    }
  }

  lemma {:induction false} ArrayRuns(strtod: Strtod, s: string, p: nat, q: nat, depth: nat)
    requires p < q <= |s| && s[p] == '[' && depth <= 200
    requires EmptyLaid(s, p + 1, ']', q) || ItemsTo(strtod, s, p + 1, q, depth + 1)
    ensures StopsAt(ParseAt(strtod, s, p, depth), q)
    decreases q - p, 0
  {
    SkippedIsGap(s, p + 1);
    var k := SkipSpace(s, p + 1);
    if EmptyLaid(s, p + 1, ']', q) {
      GapSkips(s, p + 1, q - 1);
    } else {
      FirstItemTo(strtod, s, p + 1, q, depth + 1);
      ItemsRun(strtod, s, k, q, depth, []);
    }
  }

  /** After the spaces, an item starts, which is no closing bracket. */
  lemma FirstItemTo(strtod: Strtod, s: string, i: nat, q: nat, depth: nat)
    requires i <= |s| && ItemsTo(strtod, s, i, q, depth)
    ensures var k := SkipSpace(s, i);
            k < |s| && s[k] != ']' && ItemsTo(strtod, s, k, q, depth)
  {
    var e: nat, c: nat :| ItemTo(strtod, s, i, q, depth, e, c);
    assert ValueTo(strtod, s, i, e, depth);
    var p: nat :| ValueFrom(strtod, s, i, p, e, depth);
    GapSkips(s, i, p);
    CoreStarts(strtod, s, p, e, depth);
    assert ValueFrom(strtod, s, p, p, e, depth);
    assert ValueTo(strtod, s, p, e, depth);
    assert ItemTo(strtod, s, p, q, depth, e, c);
  }

  lemma CoreStarts(strtod: Strtod, s: string, p: nat, q: nat, depth: nat)
    requires p < q <= |s| && Core(strtod, s, p, q, depth)
    ensures s[p] != ']' && s[p] != ','
  {
    WordStarts(s, p, "true");
    WordStarts(s, p, "false");
    WordStarts(s, p, "null");
    if NumberTo(strtod, s, p, q) {
      var a: nat, b: nat :| NumberFrom(strtod, s, p, a, b, q);
      assert s[p..a][0] == s[p];
      if s[p] != '-' {
        assert s[p] in s[p..a];
      }
    }
  }

  lemma {:induction false} ItemsRun(strtod: Strtod, s: string, i: nat, q: nat, depth: nat, items: seq<Value>)
    requires i <= |s| && ItemsTo(strtod, s, i, q, depth + 1)
    ensures StopsAt(ParseItems(strtod, s, i, depth, items), q)
    decreases q - i, 3
  {
    var e: nat, c: nat :| ItemTo(strtod, s, i, q, depth + 1, e, c);
    ValueRuns(strtod, s, i, e, depth + 1);
    GapSkips(s, e, c);
    if s[c] == ',' {
      ItemsRun(strtod, s, c + 1, q, depth, items + [ParseValue(strtod, s, i, depth + 1).value]);
    }
  }

  lemma {:induction false} ObjectRuns(strtod: Strtod, s: string, p: nat, q: nat, depth: nat)
    requires p < q <= |s| && s[p] == '{' && depth <= 200
    requires EmptyLaid(s, p + 1, '}', q) || MembersTo(strtod, s, p + 1, q, depth + 1)
    ensures StopsAt(ParseAt(strtod, s, p, depth), q)
    decreases q - p, 0
  {
    SkippedIsGap(s, p + 1);
    var k := SkipSpace(s, p + 1);
    if EmptyLaid(s, p + 1, '}', q) {
      GapSkips(s, p + 1, q - 1);
    } else {
      FirstMemberTo(strtod, s, p + 1, q, depth + 1);
      MembersRun(strtod, s, k, q, depth, []);
    }
  }

  lemma KeyAfterSpaces(s: string, i: nat, v: nat)
    requires i <= |s| && KeyTo(s, i, v)
    ensures var k := SkipSpace(s, i);
            k < v && k < |s| && s[k] == '"' && KeyTo(s, k, v)
  {
    var b: nat, a: nat, d: nat :| ColonAt(s, i, b, a, d) && v == d + 1;
    GapSkips(s, i, b);
    StringsAreAllowed(s, b + 1, "", a);
    assert ColonAt(s, b, b, a, d);
  }

  lemma FirstMemberTo(strtod: Strtod, s: string, i: nat, q: nat, depth: nat)
    requires i <= |s| && MembersTo(strtod, s, i, q, depth)
    ensures var k := SkipSpace(s, i);
            k < |s| && s[k] == '"' && MembersTo(strtod, s, k, q, depth)
  {
    var v: nat, e: nat, c: nat :| MemberTo(strtod, s, i, q, depth, v, e, c);
    KeyAfterSpaces(s, i, v);
    assert MemberTo(strtod, s, SkipSpace(s, i), q, depth, v, e, c);
  }

  lemma KeyRuns(s: string, i: nat, v: nat)
    requires i <= |s| && KeyTo(s, i, v)
    ensures StopsAt(ParseKey(s, i), v)
  {
    var b: nat, a: nat, c: nat :| ColonAt(s, i, b, a, c) && v == c + 1;
    GapSkips(s, i, b);
    StringsAreAllowed(s, b + 1, "", a);
    GapSkips(s, a, c);
  }

  lemma {:induction false} MembersRun(strtod: Strtod, s: string, i: nat, q: nat, depth: nat, members: seq<Member>)
    requires i <= |s| && MembersTo(strtod, s, i, q, depth + 1)
    ensures StopsAt(ParseMembers(strtod, s, i, depth, members), q)
    decreases q - i, 3
  {
    var v: nat, e: nat, c: nat :| MemberTo(strtod, s, i, q, depth + 1, v, e, c);
    KeyRuns(s, i, v);
    ValueRuns(strtod, s, v, e, depth + 1);
    GapSkips(s, e, c);
    if s[c] == ',' {
      var key, value := ParseKey(s, i).value, ParseValue(strtod, s, v, depth + 1).value;
      MembersRun(strtod, s, c + 1, q, depth, Set(members, key, value));
    }
  }

  /** The parser accepts exactly the texts of the grammar. */
  lemma AcceptsExactlyJson(strtod: Strtod, s: string)
    ensures Parse(strtod, s).Ok? <==> IsJson(strtod, s)
  {
    if Parse(strtod, s).Ok? {
      var q := ParseValue(strtod, s, 0, 0).next;
      ValueAccepted(strtod, s, 0, 0);
      SkippedIsGap(s, q);
    }
    if q: nat :| ValueTo(strtod, s, 0, q, 0) && Gap(s, q, |s|) {
      ValueRuns(strtod, s, 0, q, 0);
      GapSkips(s, q, |s|);
    }
  }
}
