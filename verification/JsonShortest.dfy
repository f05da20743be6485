/** The compact text of a value is the shortest: no layout of the value, however its strings are escaped, takes fewer
    characters. */
module JsonShortest {
  import opened Json
  import opened JsonParse
  import opened JsonLayout

  // Strings.

  lemma {:induction false} EscapeAllJoins(a: string, b: string, both: string)
    requires both == a + b
    ensures EscapeAll(both) == EscapeAll(a) + EscapeAll(b)
  {
    if a == [] {
      assert both == b;
    } else {
      assert both[0] == a[0] && both[1..] == a[1..] + b;
      EscapeAllJoins(a[1..], b, both[1..]);
      Regroup(Escape(a[0]), EscapeAll(a[1..]), EscapeAll(b));
    }
  }

  lemma OneEscape(c: char)
    ensures EscapeAll([c]) == Escape(c) && |Escape(c)| <= 6
    ensures c != '"' && c != '\\' && c >= ' ' ==> |Escape(c)| == 1
  {
    assert [c] == [c] + [];
  }

  /** Characters that are written as themselves. */
  lemma {:induction false} PlainCost(w: string)
    requires forall k :: 0 <= k < |w| ==> w[k] != '"' && w[k] != '\\' && w[k] >= ' '
    ensures |EscapeAll(w)| == |w|
  {
    if w != [] {
      PlainCost(w[1..]);
    }
  }

  /** The bytes of a code point, escaped, are never longer than its number, written as an escape. */
  lemma Utf8Cost(cp: nat)
    requires cp < 0x11_0000
    ensures |EscapeAll(Utf8(cp))| <= 6
  {
    if cp < 0x80 {
      OneEscape(cp as char);
    } else {
      PlainCost(Utf8(cp));
    }
  }

  /** What follows a backslash is at least as long as the printer's way of writing what was read. */
  lemma EscapeCost(s: string, i: nat)
    requires i < |s| && ParseEscape(s, i).Ok?
    ensures i - 1 + |EscapeAll(ParseEscape(s, i).value)| <= ParseEscape(s, i).next
  {
    if s[i] == 'u' {
      var cp := CodePoint(s, i + 1);
      Utf8Cost(cp.value);
    } else {
      OneEscape(ParseEscape(s, i).value[0]);
    }
  }

  /** No way of writing a string between quotes is shorter than the printer's. */
  lemma {:induction false} StringCost(s: string, i: nat, read: string)
    requires i <= |s| && ParseString(s, i, read).Ok?
    ensures i + |EscapeAll(ParseString(s, i, read).value)| + 1 <= ParseString(s, i, read).next + |EscapeAll(read)|
    decreases |s| - i
  {
    if s[i] != '"' {
      if s[i] != '\\' {
        StringCost(s, i + 1, read + [s[i]]);
        EscapeAllJoins(read, [s[i]], read + [s[i]]);
        OneEscape(s[i]);
      } else {
        var escape := ParseEscape(s, i + 1);
        StringCost(s, escape.next, read + escape.value);
        EscapeAllJoins(read, escape.value, read + escape.value);
        EscapeCost(s, i + 1);
      }
    }
  }

  lemma KeyCost(s: string, p: nat, key: string, c: nat)
    requires KeyAt(s, p, key, c)
    ensures p + |Quoted(key)| <= c
  {
    StringCost(s, p + 1, "");
  }

  // Values.

  lemma EnclosedSize(open: char, parts: seq<string>, depth: nat, shut: char)
    ensures |Enclosed(open, parts, -1, depth, shut)| == 2 + |Join(parts, 0, "")|
  {
  }

  /** No layout of a value is shorter than its compact text. */
  lemma {:induction false} CompactIsShortest(s: string, p: nat, v: Value, depth: nat, end: nat)
    requires Laid(s, p, v, end)
    ensures p + |Text(v, -1, depth)| <= end
    decreases v, 0
  {
    match v
    case String(text) =>
      KeyCost(s, p, text, end);
    case Array(items) =>
      EnclosedSize('[', ItemTexts(items, -1, depth + 1), depth, ']');
      if items != [] {
        ItemsCost(s, p + 1, items, 0, depth + 1, end);
      }
    case Object(members) =>
      EnclosedSize('{', MemberTexts(members, -1, depth + 1), depth, '}');
      if members != [] {
        MembersCost(s, p + 1, members, 0, depth + 1, end);
      }
    case _ =>
  }

  lemma {:induction false} ItemsCost(s: string, i: nat, items: seq<Value>, k: nat, depth: nat, end: nat)
    requires k < |items| && LaidItems(s, i, items, k, end)
    ensures i + |Join(ItemTexts(items, -1, depth), k, "")| + 1 <= end + |Comma(k)|
    decreases items, |items| - k
  {
    var b: nat, e: nat, c: nat :| ItemLaid(s, i, items, k, end, b, e, c);
    CompactIsShortest(s, b, items[k], depth, e);
    if k + 1 < |items| {
      ItemsCost(s, c + 1, items, k + 1, depth, end);
    }
  }

  lemma {:induction false} MembersCost(s: string, i: nat, members: seq<Member>, k: nat, depth: nat, end: nat)
    requires k < |members| && LaidMembers(s, i, members, k, end)
    ensures i + |Join(MemberTexts(members, -1, depth), k, "")| + 1 <= end + |Comma(k)|
    decreases members, |members| - k
  {
    var w: nat, e: nat, c: nat :| MemberLaid(s, i, members, k, end, w, e, c);
    var b: nat, a: nat :| KeyFrom(s, i, members[k].key, w, b, a);
    KeyCost(s, b, members[k].key, a);
    CompactIsShortest(s, w, members[k].value, depth, e);
    if k + 1 < |members| {
      MembersCost(s, c + 1, members, k + 1, depth, end);
    }
  }
}
