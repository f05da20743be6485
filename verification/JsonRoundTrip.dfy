/** Parsing what the printer wrote gives the value back. */
module JsonRoundTrip {
  import opened Decimals
  import opened Json
  import opened JsonParse
  import opened JsonLexemes
  import opened JsonLayout

  lemma {:induction false} SpacesAre(n: nat)
    ensures AllSpaces(Spaces(n))
  {
    if n > 0 {
      SpacesAre(n - 1);
    }
  }

  lemma NewLineIsSpace(indent: int, depth: nat)
    ensures AllSpaces(NewLine(indent, depth))
  {
    if indent >= 0 {
      SpacesAre(Margin(indent, depth));
    }
  }

  lemma TextStarts(v: Value, indent: int, depth: nat)
    requires SmallNumbers(v)
    ensures Text(v, indent, depth) != [] && Starts(Text(v, indent, depth)[0])
  {
    match v
    case Integer(n) =>
      var m: nat := if n < 0 then -n else n;
      DigitsAre(m);
      assert Digits(m)[0] in Digits(m);
    case Array(items) =>
      assert Text(v, indent, depth)[0] == '[';
    case Object(members) =>
      assert Text(v, indent, depth)[0] == '{';
    case _ =>
  }

  // What the printer writes is a layout.

  lemma SpacesGap(s: string, i: nat, w: string)
    requires Stands(s, i, w) && AllSpaces(w)
    ensures i + |w| <= |s| && Gap(s, i, i + |w|)
  {
    forall k | i <= k < i + |w| ensures IsSpace(s[k]) {
      assert s[i + (k - i)] == w[k - i];
    }
  }

  lemma FirstChar(s: string, p: nat, w: string)
    requires Stands(s, p, w) && w != []
    ensures p < |s| && s[p] == w[0]
  {
    StandsAt(s, p, w, 0);
  }

  lemma QuotedLaid(s: string, p: nat, key: string)
    requires Stands(s, p, Quoted(key))
    ensures KeyAt(s, p, key, p + |Quoted(key)|) && StartsAt(s, p)
  {
    QuotedParses(s, p, key);
  }

  lemma ValueStarts(s: string, p: nat, v: Value, indent: int, depth: nat)
    requires Stands(s, p, Text(v, indent, depth)) && SmallNumbers(v)
    ensures StartsAt(s, p)
  {
    TextStarts(v, indent, depth);
    FirstChar(s, p, Text(v, indent, depth));
  }

  lemma KeyIsLaid(s: string, i: nat, key: string, indent: int, b: nat, w: nat)
    requires Gap(s, i, b) && Stands(s, b, Quoted(key)) && Stands(s, b + |Quoted(key)|, Colon(indent))
    requires w == b + |Quoted(key)| + |Colon(indent)| && StartsAt(s, w)
    ensures KeyLaid(s, i, key, w)
  {
    QuotedLaid(s, b, key);
    ColonGap(s, b + |Quoted(key)|, indent);
    assert KeyFrom(s, i, key, w, b, b + |Quoted(key)|);
  }

  lemma ColonGap(s: string, a: nat, indent: int)
    requires Stands(s, a, Colon(indent))
    ensures a < |s| && s[a] == ':' && Gap(s, a + 1, a + |Colon(indent)|)
  {
    FirstChar(s, a, Colon(indent));
    if indent >= 0 {
      assert Colon(indent) == ":" + " ";
      Split(s, a, ":", " ");
      SpacesGap(s, a + 1, " ");
    }
  }

  /** Where part k of a joined list stands, and what follows it. */
  lemma PartStands(s: string, q: nat, parts: seq<string>, k: nat, line: string, r: nat) returns (p: nat, e: nat)
    requires k < |parts| && Stands(s, q, Join(parts, k, line)) && r == q + |Join(parts, k, line)|
    ensures Stands(s, q, Comma(k)) && Stands(s, q + |Comma(k)|, line) && p == q + |Comma(k)| + |line|
    ensures Stands(s, p, parts[k]) && e == p + |parts[k]|
    ensures Stands(s, e, Join(parts, k + 1, line)) && r == e + |Join(parts, k + 1, line)|
  {
    var comma, part, more := Comma(k), parts[k], Join(parts, k + 1, line);
    var front := comma + line;
    Split(s, q, front + part, more);
    Split(s, q, front, part);
    Split(s, q, comma, line);
    p := q + |comma| + |line|;
    e := p + |part|;
  }

  /** A part that is not the first starts with its comma. */
  lemma PartComma(s: string, q: nat, parts: seq<string>, k: nat, line: string)
    requires 0 < k < |parts| && Stands(s, q, Join(parts, k, line))
    ensures Marked(s, q, q, ',')
  {
    var p, e := PartStands(s, q, parts, k, line, q + |Join(parts, k, line)|);
    FirstChar(s, q, Comma(k));
  }

  /** Wherever the text of an item stands, the item is laid out. */
  ghost predicate ItemReads(s: string, items: seq<Value>, parts: seq<string>, k: nat, p: nat)
    requires k < |items| == |parts|
  {
    Stands(s, p, parts[k]) ==> StartsAt(s, p) && Laid(s, p, items[k], p + |parts[k]|)
  }

  lemma {:induction false} ItemsAreLaid(s: string, q: nat, items: seq<Value>, parts: seq<string>, k: nat, line: string,
                                        r: nat, c: nat)
    requires k < |items| == |parts| && AllSpaces(line) && Marked(s, r, c, ']')
    requires Stands(s, q, Join(parts, k, line)) && r == q + |Join(parts, k, line)|
    requires forall j: nat, p: nat :: j < |items| ==> ItemReads(s, items, parts, j, p)
    ensures LaidItems(s, q + |Comma(k)|, items, k, c + 1)
    decreases |items| - k
  {
    var p, e := PartStands(s, q, parts, k, line, r);
    SpacesGap(s, q + |Comma(k)|, line);
    assert ItemReads(s, items, parts, k, p);
    if k + 1 == |items| {
      assert ItemLaid(s, q + |Comma(k)|, items, k, c + 1, p, e, c);
    } else {
      PartComma(s, e, parts, k + 1, line);
      ItemsAreLaid(s, e, items, parts, k + 1, line, r, c);
      assert ItemLaid(s, q + |Comma(k)|, items, k, c + 1, p, e, e);
    }
  }

  /** Wherever the text of a member stands, its key and its value are laid out. */
  ghost predicate MemberReads(s: string, members: seq<Member>, parts: seq<string>, k: nat, p: nat)
    requires k < |members| == |parts|
  {
    Stands(s, p, parts[k]) ==> MemberIn(s, p, members[k], p + |parts[k]|)
  }

  ghost predicate MemberIn(s: string, p: nat, member: Member, e: nat) {
    exists w: nat :: MemberFrom(s, p, member, w, e)
  }

  ghost predicate MemberFrom(s: string, p: nat, member: Member, w: nat, e: nat) {
    KeyLaid(s, p, member.key, w) && Laid(s, w, member.value, e)
  }

  lemma KeyAfterGap(s: string, i: nat, p: nat, key: string, w: nat)
    requires Gap(s, i, p) && KeyLaid(s, p, key, w)
    ensures KeyLaid(s, i, key, w)
  {
    var b: nat, a: nat :| KeyFrom(s, p, key, w, b, a);
    assert KeyFrom(s, i, key, w, b, a);
  }

  lemma MemberJoins(s: string, i: nat, p: nat, members: seq<Member>, k: nat, end: nat, e: nat, c: nat)
    requires k < |members| && Gap(s, i, p) && MemberIn(s, p, members[k], e)
    requires k + 1 == |members| ==> Marked(s, e, c, '}') && end == c + 1
    requires k + 1 < |members| ==> Marked(s, e, c, ',') && LaidMembers(s, c + 1, members, k + 1, end)
    ensures LaidMembers(s, i, members, k, end)
  {
    var w: nat :| MemberFrom(s, p, members[k], w, e);
    KeyAfterGap(s, i, p, members[k].key, w);
    assert MemberLaid(s, i, members, k, end, w, e, c);
  }

  lemma {:induction false} MembersAreLaid(s: string, q: nat, members: seq<Member>, parts: seq<string>, k: nat,
                                          line: string,
                                          r: nat, c: nat)
    requires k < |members| == |parts| && AllSpaces(line) && Marked(s, r, c, '}')
    requires Stands(s, q, Join(parts, k, line)) && r == q + |Join(parts, k, line)|
    requires forall j: nat, p: nat :: j < |members| ==> MemberReads(s, members, parts, j, p)
    ensures LaidMembers(s, q + |Comma(k)|, members, k, c + 1)
    decreases |members| - k
  {
    var p, e := PartStands(s, q, parts, k, line, r);
    SpacesGap(s, q + |Comma(k)|, line);
    assert MemberReads(s, members, parts, k, p);
    if k + 1 == |members| {
      MemberJoins(s, q + |Comma(k)|, p, members, k, c + 1, e, c);
    } else {
      PartComma(s, e, parts, k + 1, line);
      MembersAreLaid(s, e, members, parts, k + 1, line, r, c);
      MemberJoins(s, q + |Comma(k)|, p, members, k, c + 1, e, e);
    }
  }

  /** The parts of a container's text. */
  lemma EnclosedStands(s: string, p: nat, open: char, parts: seq<string>, indent: int, depth: nat, shut: char)
    returns (r: nat, c: nat)
    requires Stands(s, p, Enclosed(open, parts, indent, depth, shut)) && (shut == ']' || shut == '}')
    ensures p < |s| && s[p] == open && Stands(s, p + 1, Join(parts, 0, NewLine(indent, depth + 1)))
    ensures r == p + 1 + |Join(parts, 0, NewLine(indent, depth + 1))| && Marked(s, r, c, shut)
    ensures c + 1 == p + |Enclosed(open, parts, indent, depth, shut)| && (parts == [] ==> c == p + 1)
  {
    var one, text, close := [open], Join(parts, 0, NewLine(indent, depth + 1)),
        if parts == [] then "" else NewLine(indent, depth);
    Split(s, p, one + text + close, [shut]);
    Split(s, p, one + text, close);
    Split(s, p, one, text);
    FirstChar(s, p, one);
    r := p + 1 + |text|;
    c := r + |close|;
    CloseIsMarked(s, r, close, indent, depth, shut);
  }

  lemma CloseIsMarked(s: string, r: nat, close: string, indent: int, depth: nat, shut: char)
    requires close == "" || close == NewLine(indent, depth)
    requires Stands(s, r, close) && Stands(s, r + |close|, [shut]) && (shut == ']' || shut == '}')
    ensures Marked(s, r, r + |close|, shut)
  {
    NewLineIsSpace(indent, depth);
    SpacesGap(s, r, close);
    FirstChar(s, r + |close|, [shut]);
    if close != [] {
      FirstChar(s, r, close);
    }
  }

  lemma ScalarIsLaid(s: string, p: nat, v: Value, indent: int, depth: nat)
    requires Stands(s, p, Text(v, indent, depth)) && SmallNumbers(v)
    requires !v.String? && !v.Array? && !v.Object?
    ensures Laid(s, p, v, p + |Text(v, indent, depth)|)
  {
  }

  lemma {:induction false} TextIsLaid(s: string, p: nat, v: Value, indent: int, depth: nat)
    requires Stands(s, p, Text(v, indent, depth)) && SmallNumbers(v)
    ensures StartsAt(s, p) && Laid(s, p, v, p + |Text(v, indent, depth)|)
    decreases v, 3
  {
    ValueStarts(s, p, v, indent, depth);
    match v
    case String(text) => QuotedLaid(s, p, text);
    case Array(items) => ArrayIsLaid(s, p, items, indent, depth);
    case Object(members) => ObjectIsLaid(s, p, members, indent, depth);
    case _ => ScalarIsLaid(s, p, v, indent, depth);
  }

  lemma {:induction false} ItemTextsAre(s: string, items: seq<Value>, indent: int, depth: nat)
    requires forall k :: 0 <= k < |items| ==> SmallNumbers(items[k])
    ensures forall j: nat, b: nat :: j < |items| ==> ItemReads(s, items, ItemTexts(items, indent, depth), j, b)
    decreases items, 1
  {
    var parts := ItemTexts(items, indent, depth);
    forall j: nat, b: nat | j < |items| ensures ItemReads(s, items, parts, j, b) {
      if Stands(s, b, parts[j]) {
        TextIsLaid(s, b, items[j], indent, depth);
      }
    }
  }

  lemma ArrayFromParts(s: string, p: nat, items: seq<Value>, parts: seq<string>, indent: int, depth: nat)
    requires |parts| == |items| && Stands(s, p, Enclosed('[', parts, indent, depth, ']'))
    requires forall j: nat, b: nat :: j < |items| ==> ItemReads(s, items, parts, j, b)
    ensures Laid(s, p, Array(items), p + |Enclosed('[', parts, indent, depth, ']')|)
  {
    var r, c := EnclosedStands(s, p, '[', parts, indent, depth, ']');
    if items != [] {
      NewLineIsSpace(indent, depth + 1);
      ItemsAreLaid(s, p + 1, items, parts, 0, NewLine(indent, depth + 1), r, c);
    }
    ContainerLaid(s, p, Array(items), c);
  }

  lemma {:induction false} ArrayIsLaid(s: string, p: nat, items: seq<Value>, indent: int, depth: nat)
    requires Stands(s, p, Enclosed('[', ItemTexts(items, indent, depth + 1), indent, depth, ']'))
    requires forall k :: 0 <= k < |items| ==> SmallNumbers(items[k])
    ensures Laid(s, p, Array(items), p + |Enclosed('[', ItemTexts(items, indent, depth + 1), indent, depth, ']')|)
    decreases items, 2
  {
    ItemTextsAre(s, items, indent, depth + 1);
    ArrayFromParts(s, p, items, ItemTexts(items, indent, depth + 1), indent, depth);
  }

  lemma {:induction false} MemberIsLaid(s: string, p: nat, member: Member, indent: int, depth: nat, end: nat)
    requires Stands(s, p, MemberText(member, indent, depth)) && end == p + |MemberText(member, indent, depth)|
    requires SmallNumbers(member.value)
    ensures MemberIn(s, p, member, end)
    decreases member, 1
  {
    var key, colon, text := Quoted(member.key), Colon(indent), Text(member.value, indent, depth);
    Split(s, p, key + colon, text);
    Split(s, p, key, colon);
    var w := p + |key| + |colon|;
    TextIsLaid(s, w, member.value, indent, depth);
    KeyIsLaid(s, p, member.key, indent, p, w);
    assert MemberFrom(s, p, member, w, end);
  }

  lemma {:induction false} MemberTextsAre(s: string, members: seq<Member>, indent: int, depth: nat)
    requires forall k :: 0 <= k < |members| ==> SmallNumbers(members[k].value)
    ensures forall j: nat, b: nat :: j < |members| ==>
            MemberReads(s, members, MemberTexts(members, indent, depth), j, b)
    decreases members, 1
  {
    var parts := MemberTexts(members, indent, depth);
    forall j: nat, b: nat | j < |members| ensures MemberReads(s, members, parts, j, b) {
      if Stands(s, b, parts[j]) {
        MemberIsLaid(s, b, members[j], indent, depth, b + |parts[j]|);
      }
    }
  }

  lemma ObjectFromParts(s: string, p: nat, members: seq<Member>, parts: seq<string>, indent: int, depth: nat)
    requires |parts| == |members| && Stands(s, p, Enclosed('{', parts, indent, depth, '}'))
    requires forall j: nat, b: nat :: j < |members| ==> MemberReads(s, members, parts, j, b)
    ensures Laid(s, p, Object(members), p + |Enclosed('{', parts, indent, depth, '}')|)
  {
    var r, c := EnclosedStands(s, p, '{', parts, indent, depth, '}');
    if members != [] {
      NewLineIsSpace(indent, depth + 1);
      MembersAreLaid(s, p + 1, members, parts, 0, NewLine(indent, depth + 1), r, c);
    }
    ContainerLaid(s, p, Object(members), c);
  }

  lemma {:induction false} ObjectIsLaid(s: string, p: nat, members: seq<Member>, indent: int, depth: nat)
    requires Stands(s, p, Enclosed('{', MemberTexts(members, indent, depth + 1), indent, depth, '}'))
    requires forall k :: 0 <= k < |members| ==> SmallNumbers(members[k].value)
    ensures Laid(s, p, Object(members),
                 p + |Enclosed('{', MemberTexts(members, indent, depth + 1), indent, depth, '}')|)
    decreases members, 2
  {
    MemberTextsAre(s, members, indent, depth + 1);
    ObjectFromParts(s, p, members, MemberTexts(members, indent, depth + 1), indent, depth);
  }

  // The round trip.

  /** A value is read back exactly as it was written, at any indent, if it is nested at most 200 deep; a deeper
      one is refused. */
  lemma RoundTrip(strtod: Strtod, v: Value, indent: int)
    requires KeysUnique(v) && SmallNumbers(v)
    ensures Nesting(v) <= 200 ==> Parse(strtod, Text(v, indent, 0)) == Ok(v, |Text(v, indent, 0)|)
    ensures Nesting(v) > 200 ==> Parse(strtod, Text(v, indent, 0)) == Bad(TooDeep)
  {
    var s := Text(v, indent, 0);
    StandsWhole(s);
    TextIsLaid(s, 0, v, indent, 0);
    LaidParses(strtod, s, 0, 0, v, 0, |s|);
    MergedUnique(v);
  }
}
