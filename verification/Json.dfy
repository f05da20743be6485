/** JSON values and the printer (json.cpp, `Value`, `quote`, `Value::write`).
    A text is a sequence of characters, each of which stands for one byte. */
module Json {
  import opened Decimals

  /** A number is an integer, or a double known by its shortest printed text. */
  datatype Value =
    | Null
    | Bool(truth: bool)
    | Integer(n: int)
    | Double(shown: string)
    | String(text: string)
    | Array(items: seq<Value>)
    | Object(members: seq<Member>)

  datatype Member = Member(key: string, value: Value)

  /** Where a key is listed, or the length when it is not. */
  function Find(members: seq<Member>, key: string): (k: nat)
    ensures k <= |members|
    ensures k < |members| ==> members[k].key == key
  {
    if members == [] then 0
    else if members[0].key == key then 0
    else 1 + Find(members[1..], key)
  }

  lemma {:induction false} FindMisses(members: seq<Member>, key: string, j: nat)
    requires j < Find(members, key)
    ensures members[j].key != key
  {
    if j > 0 {
      FindMisses(members[1..], key, j - 1);
    }
  }

  /** A repeated key keeps its place and takes the new value. */
  function Set(members: seq<Member>, key: string, value: Value): seq<Member> {
    var k := Find(members, key);
    if k < |members| then members[k := Member(key, value)] else members + [Member(key, value)]
  }

  ghost predicate Unique(members: seq<Member>) {
    forall j, k :: 0 <= j < k < |members| ==> members[j].key != members[k].key
  }

  lemma SetUnique(members: seq<Member>, key: string, value: Value)
    requires Unique(members)
    ensures Unique(Set(members, key, value))
  {
    forall j | 0 <= j < Find(members, key) ensures members[j].key != key {
      FindMisses(members, key, j);
    }
  }

  function KeysOf(members: seq<Member>): (keys: seq<string>)
    ensures |keys| == |members| && forall k :: 0 <= k < |keys| ==> keys[k] == members[k].key
  {
    seq(|members|, k requires 0 <= k < |members| => members[k].key)
  }

  /** A key that is listed stays where it is; a new one comes last. */
  lemma SetKeys(members: seq<Member>, key: string, value: Value)
    ensures KeysOf(Set(members, key, value))
         == if key in KeysOf(members) then KeysOf(members) else KeysOf(members) + [key]
  {
    if key in KeysOf(members) && Find(members, key) == |members| {
      var j :| 0 <= j < |members| && KeysOf(members)[j] == key;
      FindMisses(members, key, j);
    }
    if Find(members, key) < |members| {
      assert KeysOf(members)[Find(members, key)] == key;
    }
  }

  /** The key that is set has the new value, and no other member changes. */
  lemma SetHolds(members: seq<Member>, key: string, value: Value, m: Member)
    requires Unique(members)
    ensures m in Set(members, key, value) <==> if m.key == key then m.value == value else m in members
  {
    var k, after := Find(members, key), Set(members, key, value);
    if k == |members| {
      if m in members {
        var j :| 0 <= j < |members| && members[j] == m;
        FindMisses(members, key, j);
      }
    } else {
      assert after[k] == Member(key, value);
      if m in members && m.key != key {
        var j :| 0 <= j < |members| && members[j] == m;
        assert after[j] == m;
      }
    }
  }

  /** No object repeats a key, at any depth: true of every value that `set` builds. */
  ghost predicate KeysUnique(v: Value)
    decreases v
  {
    match v
    case Array(items) => forall k :: 0 <= k < |items| ==> KeysUnique(items[k])
    case Object(members) => Unique(members) && forall k :: 0 <= k < |members| ==> KeysUnique(members[k].value)
    case _ => true
  }

  /** How many arrays and objects enclose the deepest value. */
  function Nesting(v: Value): nat
    decreases v, 0
  {
    match v
    case Array(items) => if items == [] then 0 else 1 + ItemsNesting(items, 0)
    case Object(members) => if members == [] then 0 else 1 + MembersNesting(members, 0)
    case _ => 0
  }

  function Greater(a: nat, b: nat): nat {
    if a > b then a else b
  }

  function ItemsNesting(items: seq<Value>, k: nat): nat
    requires k <= |items|
    decreases items, |items| - k
  {
    if k == |items| then 0 else Greater(Nesting(items[k]), ItemsNesting(items, k + 1))
  }

  function MembersNesting(members: seq<Member>, k: nat): nat
    requires k <= |members|
    decreases members, |members| - k
  {
    if k == |members| then 0 else Greater(Nesting(members[k].value), MembersNesting(members, k + 1))
  }

  /** std::to_string of an integer. */
  function IntText(n: int): (s: string)
    ensures s != []
  {
    if n < 0 then "-" + Digits(-n) else Digits(n)
  }

  function HexDigit(d: nat): char
    requires d < 16
  {
    if d < 10 then '0' + d as char else 'a' + (d - 10) as char
  }

  /** How one character is written inside quotes. */
  function Escape(c: char): (s: string)
    ensures s != []
  {
    if c == '"' then "\\\""
    else if c == '\\' then "\\\\"
    else if c == '\n' then "\\n"
    else if c == '\r' then "\\r"
    else if c == '\t' then "\\t"
    else if c == 8 as char then "\\b"
    else if c == 12 as char then "\\f"
    else if c < ' ' then "\\u00" + [HexDigit(c as nat / 16), HexDigit(c as nat % 16)]
    else [c]
  }

  function EscapeAll(s: string): string {
    if s == [] then [] else Escape(s[0]) + EscapeAll(s[1..])
  }

  function Quoted(s: string): string {
    "\"" + EscapeAll(s) + "\""
  }

  function Spaces(n: nat): string {
    if n == 0 then "" else " " + Spaces(n - 1)
  }

  /** How many spaces stand before an entry at this depth. */
  function Margin(indent: nat, depth: nat): nat {
    indent * depth
  }

  /** A line break and the indentation, or nothing when the indent is negative. */
  function NewLine(indent: int, depth: nat): string {
    if indent < 0 then "" else "\n" + Spaces(Margin(indent, depth))
  }

  function Comma(k: nat): string {
    if k > 0 then "," else ""
  }

  /** The parts from k on, each after its comma and line break. */
  function Join(parts: seq<string>, k: nat, line: string): string
    requires k <= |parts|
    decreases |parts| - k
  {
    if k == |parts| then "" else Comma(k) + line + parts[k] + Join(parts, k + 1, line)
  }

  /** The parts between an opening and a closing mark. */
  function Enclosed(open: char, parts: seq<string>, indent: int, depth: nat, shut: char): string {
    [open] + Join(parts, 0, NewLine(indent, depth + 1)) + (if parts == [] then "" else NewLine(indent, depth)) + [shut]
  }

  function Colon(indent: int): string {
    if indent < 0 then ":" else ": "
  }

  function Text(v: Value, indent: int, depth: nat): string
    decreases v, 0
  {
    match v
    case Null => "null"
    case Bool(truth) => if truth then "true" else "false"
    case Integer(n) => IntText(n)
    case Double(shown) => shown
    case String(text) => Quoted(text)
    case Array(items) => Enclosed('[', ItemTexts(items, indent, depth + 1), indent, depth, ']')
    case Object(members) => Enclosed('{', MemberTexts(members, indent, depth + 1), indent, depth, '}')
  }

  function ItemTexts(items: seq<Value>, indent: int, depth: nat): (parts: seq<string>)
    ensures |parts| == |items|
    decreases items, 0
  {
    seq(|items|, k requires 0 <= k < |items| => Text(items[k], indent, depth))
  }

  function MemberTexts(members: seq<Member>, indent: int, depth: nat): (parts: seq<string>)
    ensures |parts| == |members|
    decreases members, 0
  {
    seq(|members|, k requires 0 <= k < |members| => MemberText(members[k], indent, depth))
  }

  function MemberText(member: Member, indent: int, depth: nat): string
    decreases member, 0
  {
    Quoted(member.key) + Colon(indent) + Text(member.value, indent, depth)
  }

  // The loops that append to the output.

  class Output {
    var text: string

    constructor ()
      ensures text == ""
    {
      text := "";
    }
  }

  lemma Regroup(a: string, b: string, c: string)
    ensures a + (b + c) == a + b + c
  {
  }

  method AppendEscaped(out: Output, s: string)
    modifies out
    ensures out.text == old(out.text) + EscapeAll(s)
  {
    var k := 0;
    assert s[0..] == s;
    while k < |s|
      invariant 0 <= k <= |s|
      invariant out.text + EscapeAll(s[k..]) == old(out.text) + EscapeAll(s)
    {
      assert s[k..][1..] == s[k + 1..];
      Regroup(out.text, Escape(s[k]), EscapeAll(s[k + 1..]));
      out.text := out.text + Escape(s[k]);
      k := k + 1;
    }
    assert s[k..] == [] && out.text + [] == out.text;
  }

  method AppendQuoted(out: Output, s: string)
    modifies out
    ensures out.text == old(out.text) + Quoted(s)
  {
    ghost var t0 := out.text;
    out.text := out.text + "\"";
    ghost var t1 := out.text;
    AppendEscaped(out, s);
    ghost var t2 := out.text;
    out.text := out.text + "\"";
    JoinThree(t0, t1, t2, out.text, "\"", EscapeAll(s), "\"");
  }

  lemma JoinThree(t0: string, t1: string, t2: string, t3: string, a: string, b: string, c: string)
    requires t1 == t0 + a && t2 == t1 + b && t3 == t2 + c
    ensures t3 == t0 + (a + b + c)
  {
  }

  method AppendComma(out: Output, k: nat)
    modifies out
    ensures out.text == old(out.text) + Comma(k)
  {
    if k > 0 {
      out.text := out.text + ",";
    }
  }

  method AppendNewLine(out: Output, indent: int, depth: nat)
    modifies out
    ensures out.text == old(out.text) + NewLine(indent, depth)
  {
    if indent >= 0 {
      out.text := out.text + "\n";
      out.text := out.text + Spaces(Margin(indent, depth));
    }
  }

  method Write(out: Output, v: Value, indent: int, depth: nat)
    modifies out
    ensures out.text == old(out.text) + Text(v, indent, depth)
    decreases v, 0
  {
    match v
    case Null => out.text := out.text + "null";
    case Bool(truth) => out.text := out.text + if truth then "true" else "false";
    case Integer(n) => out.text := out.text + IntText(n);
    case Double(shown) => out.text := out.text + shown;
    case String(text) => AppendQuoted(out, text);
    case Array(items) => WriteArray(out, items, indent, depth);
    case Object(members) => WriteObject(out, members, indent, depth);
  }

  method WriteArray(out: Output, items: seq<Value>, indent: int, depth: nat)
    modifies out
    ensures out.text == old(out.text) + Text(Array(items), indent, depth)
    decreases items, 2
  {
    ghost var t0 := out.text;
    out.text := out.text + "[";
    ghost var t1 := out.text;
    WriteItems(out, items, indent, depth);
    ghost var t2 := out.text;
    if items != [] {
      AppendNewLine(out, indent, depth);
    }
    ghost var joined, close := Join(ItemTexts(items, indent, depth + 1), 0, NewLine(indent, depth + 1)),
              if items == [] then "" else NewLine(indent, depth);
    JoinThree(t0, t1, t2, out.text, "[", joined, close);
    Regroup(t0, "[" + joined + close, "]");
    out.text := out.text + "]";
  }

  method WriteItems(out: Output, items: seq<Value>, indent: int, depth: nat)
    modifies out
    ensures out.text == old(out.text) + Join(ItemTexts(items, indent, depth + 1), 0, NewLine(indent, depth + 1))
    decreases items, 1
  {
    ghost var parts, line := ItemTexts(items, indent, depth + 1), NewLine(indent, depth + 1);
    var k := 0;
    while k < |items|
      invariant 0 <= k <= |items|
      invariant out.text + Join(parts, k, line) == old(out.text) + Join(parts, 0, line)
    {
      ghost var t0 := out.text;
      AppendComma(out, k);
      ghost var t1 := out.text;
      AppendNewLine(out, indent, depth + 1);
      ghost var t2 := out.text;
      Write(out, items[k], indent, depth + 1);
      JoinThree(t0, t1, t2, out.text, Comma(k), line, parts[k]);
      Regroup(t0, Comma(k) + line + parts[k], Join(parts, k + 1, line));
      k := k + 1;
    }
  }

  method WriteObject(out: Output, members: seq<Member>, indent: int, depth: nat)
    modifies out
    ensures out.text == old(out.text) + Text(Object(members), indent, depth)
    decreases members, 2
  {
    ghost var t0 := out.text;
    out.text := out.text + "{";
    ghost var t1 := out.text;
    WriteMembers(out, members, indent, depth);
    ghost var t2 := out.text;
    if members != [] {
      AppendNewLine(out, indent, depth);
    }
    ghost var joined, close := Join(MemberTexts(members, indent, depth + 1), 0, NewLine(indent, depth + 1)),
              if members == [] then "" else NewLine(indent, depth);
    JoinThree(t0, t1, t2, out.text, "{", joined, close);
    Regroup(t0, "{" + joined + close, "}");
    out.text := out.text + "}";
  }

  method WriteMember(out: Output, member: Member, indent: int, depth: nat)
    modifies out
    ensures out.text == old(out.text) + MemberText(member, indent, depth)
    decreases member, 0
  {
    ghost var t0 := out.text;
    AppendQuoted(out, member.key);
    ghost var t1 := out.text;
    out.text := out.text + (if indent < 0 then ":" else ": ");
    ghost var t2 := out.text;
    Write(out, member.value, indent, depth);
    JoinThree(t0, t1, t2, out.text, Quoted(member.key), Colon(indent), Text(member.value, indent, depth));
  }

  method WriteMembers(out: Output, members: seq<Member>, indent: int, depth: nat)
    modifies out
    ensures out.text == old(out.text) + Join(MemberTexts(members, indent, depth + 1), 0, NewLine(indent, depth + 1))
    decreases members, 1
  {
    ghost var parts, line := MemberTexts(members, indent, depth + 1), NewLine(indent, depth + 1);
    var k := 0;
    while k < |members|
      invariant 0 <= k <= |members|
      invariant out.text + Join(parts, k, line) == old(out.text) + Join(parts, 0, line)
    {
      ghost var t0 := out.text;
      AppendComma(out, k);
      ghost var t1 := out.text;
      AppendNewLine(out, indent, depth + 1);
      ghost var t2 := out.text;
      WriteMember(out, members[k], indent, depth + 1);
      JoinThree(t0, t1, t2, out.text, Comma(k), line, parts[k]);
      Regroup(t0, Comma(k) + line + parts[k], Join(parts, k + 1, line));
      k := k + 1;
    }
  }

  method Dump(v: Value, indent: int) returns (text: string)
    ensures text == Text(v, indent, 0)
  {
    var out := new Output();
    Write(out, v, indent, 0);
    text := out.text;
  }
}
