/** Layouts of a value, with any spaces between its parts, and the parser's answer for every one of them. */
module JsonLayout {
  import opened Decimals
  import opened Json
  import opened JsonParse
  import opened JsonLexemes

  /** Every number is an integer whose text has at most 18 characters. */
  ghost predicate SmallNumbers(v: Value)
    decreases v
  {
    match v
    case Integer(n) => |IntText(n)| <= 18
    case Double(_) => false
    case Array(items) => forall k :: 0 <= k < |items| ==> SmallNumbers(items[k])
    case Object(members) => forall k :: 0 <= k < |members| ==> SmallNumbers(members[k].value)
    case _ => true
  }

  predicate Starts(c: char) {
    !IsSpace(c) && c != ']' && c != '}' && c != ','
  }

  // What is left of objects that repeat keys.

  /** The members that `set` builds from the first k of a list. */
  function SetAll(members: seq<Member>, k: nat): seq<Member>
    requires k <= |members|
  {
    if k == 0 then [] else Set(SetAll(members, k - 1), members[k - 1].key, members[k - 1].value)
  }

  /** The value with `set` applied to the members of every object. */
  function Merged(v: Value): Value
    decreases v, 0
  {
    match v
    case Array(items) => Array(MergedItems(items))
    case Object(members) => Object(SetAll(MergedMembers(members), |members|))
    case _ => v
  }

  function MergedItems(items: seq<Value>): (r: seq<Value>)
    ensures |r| == |items|
    decreases items, 0
  {
    seq(|items|, k requires 0 <= k < |items| => Merged(items[k]))
  }

  function MergedMembers(members: seq<Member>): (r: seq<Member>)
    ensures |r| == |members|
    decreases members, 0
  {
    seq(|members|, k requires 0 <= k < |members| => Member(members[k].key, Merged(members[k].value)))
  }

  /** Member j is the last of the first k with its key. */
  predicate IsLast(members: seq<Member>, k: nat, j: nat)
    requires k <= |members|
  {
    j < k && forall i :: j < i < k ==> members[i].key != members[j].key
  }

  lemma {:induction false} SetAllKeepsUnique(members: seq<Member>, k: nat)
    requires k <= |members|
    ensures Unique(SetAll(members, k))
  {
    if k > 0 {
      SetAllKeepsUnique(members, k - 1);
      SetUnique(SetAll(members, k - 1), members[k - 1].key, members[k - 1].value);
    }
  }

  /** m is the last of the first k members with its key. */
  ghost predicate LastOfKey(members: seq<Member>, k: nat, m: Member)
    requires k <= |members|
  {
    exists j: nat :: IsLast(members, k, j) && members[j] == m
  }

  /** The newest member is the last of its key. */
  lemma NewestIsLast(members: seq<Member>, n: nat, m: Member)
    requires n < |members| && m.key == members[n].key
    ensures LastOfKey(members, n + 1, m) <==> m == members[n]
  {
    assert IsLast(members, n + 1, n);
    if LastOfKey(members, n + 1, m) {
      var j: nat :| IsLast(members, n + 1, j) && members[j] == m;
      assert j == n;
    }
  }

  lemma LastAmongMore(members: seq<Member>, n: nat, j: nat)
    requires n < |members| && j < |members| && members[j].key != members[n].key
    ensures IsLast(members, n + 1, j) <==> IsLast(members, n, j)
  {
  }

  /** Other keys do not notice it. */
  lemma OtherIsLast(members: seq<Member>, n: nat, m: Member)
    requires n < |members| && m.key != members[n].key
    ensures LastOfKey(members, n + 1, m) <==> LastOfKey(members, n, m)
  {
    if LastOfKey(members, n, m) {
      var j: nat :| IsLast(members, n, j) && members[j] == m;
      LastAmongMore(members, n, j);
    } else if LastOfKey(members, n + 1, m) {
      var j: nat :| IsLast(members, n + 1, j) && members[j] == m;
      LastAmongMore(members, n, j);
    }
  }

  /** What is left are exactly the last members of their keys. */
  lemma {:induction false} LastValuesStay(members: seq<Member>, k: nat, m: Member)
    requires k <= |members|
    ensures m in SetAll(members, k) <==> LastOfKey(members, k, m)
  {
    if k > 0 {
      LastValuesStay(members, k - 1, m);
      SetAllKeepsUnique(members, k - 1);
      SetHolds(SetAll(members, k - 1), members[k - 1].key, members[k - 1].value, m);
      if m.key == members[k - 1].key {
        NewestIsLast(members, k - 1, m);
      } else {
        OtherIsLast(members, k - 1, m);
      }
    }
  }

  /** The keys of the first k members, each where it first appears. */
  function FirstKeys(members: seq<Member>, k: nat): seq<string>
    requires k <= |members|
  {
    if k == 0 then []
    else if members[k - 1].key in FirstKeys(members, k - 1) then FirstKeys(members, k - 1)
    else FirstKeys(members, k - 1) + [members[k - 1].key]
  }

  /** A repeated key keeps its first place. */
  lemma {:induction false} FirstPlacesStay(members: seq<Member>, k: nat)
    requires k <= |members|
    ensures KeysOf(SetAll(members, k)) == FirstKeys(members, k)
  {
    if k > 0 {
      var before, last := SetAll(members, k - 1), members[k - 1];
      FirstPlacesStay(members, k - 1);
      SetKeys(before, last.key, last.value);
      assert SetAll(members, k) == Set(before, last.key, last.value);
    }
  }

  /** Without repeated keys nothing is merged. */
  lemma {:induction false} MergedUnique(v: Value)
    requires KeysUnique(v)
    ensures Merged(v) == v
    decreases v
  {
    match v
    case Array(items) =>
      forall k | 0 <= k < |items| ensures MergedItems(items)[k] == items[k] {
        MergedUnique(items[k]);
      }
      assert MergedItems(items) == items;
    case Object(members) =>
      forall k | 0 <= k < |members| ensures MergedMembers(members)[k] == members[k] {
        MergedUnique(members[k].value);
      }
      assert MergedMembers(members) == members;
      SetAllUnique(members, |members|);
      assert members[..|members|] == members;
    case _ =>
  }

  lemma {:induction false} SetAllUnique(members: seq<Member>, k: nat)
    requires k <= |members| && Unique(members)
    ensures SetAll(members, k) == members[..k]
  {
    if k > 0 {
      SetAllUnique(members, k - 1);
      SetAppends(members, k - 1);
    }
  }

  lemma SetAppends(members: seq<Member>, k: nat)
    requires k < |members| && Unique(members)
    ensures Set(members[..k], members[k].key, members[k].value) == members[..k + 1]
  {
    assert members[..k + 1] == members[..k] + [members[k]];
  }

  /** What parsing gives: the value, repeated keys merged, unless it is nested deeper than the parser goes. */
  function Expected(v: Value, depth: nat, next: nat): Outcome<Value> {
    if depth + Nesting(v) > MAX_DEPTH then Bad(TooDeep) else Ok(Merged(v), next)
  }

  // Layouts: where a value and its parts stand, with any spaces between them.

  /** Nothing but spaces from i to j. */
  ghost predicate Gap(s: string, i: nat, j: nat) {
    i <= j <= |s| && forall k :: i <= k < j ==> IsSpace(s[k])
  }

  predicate StartsAt(s: string, p: nat) {
    p < |s| && Starts(s[p])
  }

  ghost predicate KeyAt(s: string, p: nat, key: string, c: nat) {
    p < |s| && s[p] == '"' && ParseString(s, p + 1, "") == Ok(key, c)
  }

  /** The value v stands from p to end. */
  ghost predicate Laid(s: string, p: nat, v: Value, end: nat)
    decreases v, 0
  {
    match v
    case Null => Stands(s, p, "null") && end == p + 4
    case Bool(truth) => if truth then Stands(s, p, "true") && end == p + 4 else Stands(s, p, "false") && end == p + 5
    case Integer(n) => Stands(s, p, IntText(n)) && end == p + |IntText(n)|
    case Double(_) => false
    case String(text) => KeyAt(s, p, text, end)
    case Array(items) =>
      p < |s| && s[p] == '['
      && if items == [] then EmptyLaid(s, p + 1, ']', end) else LaidItems(s, p + 1, items, 0, end)
    case Object(members) =>
      p < |s| && s[p] == '{'
      && if members == [] then EmptyLaid(s, p + 1, '}', end) else LaidMembers(s, p + 1, members, 0, end)
  }

  ghost predicate EmptyLaid(s: string, i: nat, mark: char, end: nat) {
    end > 0 && Gap(s, i, end - 1) && end - 1 < |s| && s[end - 1] == mark
  }

  /** After an entry ends at e: spaces, then a comma or the closing mark at c. */
  ghost predicate Marked(s: string, e: nat, c: nat, mark: char) {
    Gap(s, e, c) && c < |s| && s[c] == mark && Ends(s, e)
  }

  /** The items from k on and the closing bracket stand from i to end. */
  ghost predicate LaidItems(s: string, i: nat, items: seq<Value>, k: nat, end: nat)
    requires k < |items|
    decreases items, |items| - k, 1
  {
    exists b: nat, e: nat, c: nat :: ItemLaid(s, i, items, k, end, b, e, c)
  }

  /** Item k stands from b to e, and what follows it at c. */
  ghost predicate ItemLaid(s: string, i: nat, items: seq<Value>, k: nat, end: nat, b: nat, e: nat, c: nat)
    requires k < |items|
    decreases items, |items| - k, 0
  {
    && Gap(s, i, b) && StartsAt(s, b) && Laid(s, b, items[k], e)
    && if k + 1 == |items| then Marked(s, e, c, ']') && end == c + 1
       else Marked(s, e, c, ',') && LaidItems(s, c + 1, items, k + 1, end)
  }

  /** Spaces, a key from b to a, a colon, spaces, and a value that starts at w. */
  ghost predicate KeyFrom(s: string, i: nat, key: string, w: nat, b: nat, a: nat) {
    && Gap(s, i, b) && KeyAt(s, b, key, a) && a < |s| && s[a] == ':' && Gap(s, a + 1, w) && StartsAt(s, w)
  }

  ghost predicate KeyLaid(s: string, i: nat, key: string, w: nat) {
    exists b: nat, a: nat :: KeyFrom(s, i, key, w, b, a)
  }

  ghost predicate LaidMembers(s: string, i: nat, members: seq<Member>, k: nat, end: nat)
    requires k < |members|
    decreases members, |members| - k, 1
  {
    exists w: nat, e: nat, c: nat :: MemberLaid(s, i, members, k, end, w, e, c)
  }

  /** The value of member k stands from w to e, its key before it, and what follows it at c. */
  ghost predicate MemberLaid(s: string, i: nat, members: seq<Member>, k: nat, end: nat, w: nat, e: nat, c: nat)
    requires k < |members|
    decreases members, |members| - k, 0
  {
    && KeyLaid(s, i, members[k].key, w) && Laid(s, w, members[k].value, e)
    && if k + 1 == |members| then Marked(s, e, c, '}') && end == c + 1
       else Marked(s, e, c, ',') && LaidMembers(s, c + 1, members, k + 1, end)
  }

  /** A container is laid out when its entries are. */
  lemma ContainerLaid(s: string, p: nat, v: Value, c: nat)
    requires p < |s| && (v.Array? ==> s[p] == '[' && Marked(s, c, c, ']'))
             && (v.Object? ==> s[p] == '{' && Marked(s, c, c, '}'))
    requires v.Array? || v.Object?
    requires v.Array? && v.items != [] ==> LaidItems(s, p + 1, v.items, 0, c + 1)
    requires v.Object? && v.members != [] ==> LaidMembers(s, p + 1, v.members, 0, c + 1)
    requires v == Array([]) || v == Object([]) ==> c == p + 1
    ensures Laid(s, p, v, c + 1)
  {
  }

  lemma {:induction false} GapSkips(s: string, i: nat, j: nat)
    requires Gap(s, i, j) && (j == |s| || !IsSpace(s[j]))
    ensures SkipSpace(s, i) == j
    decreases j - i
  {
    if i < j {
      GapSkips(s, i + 1, j);
    }
  }

  // One step of the parser each.

  lemma ArrayStep(strtod: Strtod, s: string, p: nat, depth: nat, k: nat)
    requires p < |s| && s[p] == '[' && k == SkipSpace(s, p + 1) && k < |s|
    ensures ParseAt(strtod, s, p, depth)
         == if s[k] == ']' then Ok(Array([]), k + 1) else ParseItems(strtod, s, k, depth, [])
  {
  }

  lemma ObjectStep(strtod: Strtod, s: string, p: nat, depth: nat, k: nat)
    requires p < |s| && s[p] == '{' && k == SkipSpace(s, p + 1) && k < |s|
    ensures ParseAt(strtod, s, p, depth)
         == if s[k] == '}' then Ok(Object([]), k + 1) else ParseMembers(strtod, s, k, depth, [])
  {
  }

  lemma ItemFails(strtod: Strtod, s: string, i: nat, depth: nat, items: seq<Value>)
    requires i <= |s| && ParseValue(strtod, s, i, depth + 1) == Bad(TooDeep)
    ensures ParseItems(strtod, s, i, depth, items) == Bad(TooDeep)
  {
  }

  lemma ItemStep(strtod: Strtod, s: string, i: nat, depth: nat, items: seq<Value>, v: Value, e: nat, j: nat)
    requires i <= |s| && e <= |s| && ParseValue(strtod, s, i, depth + 1) == Ok(v, e) && j == SkipSpace(s, e) && j < |s|
    ensures s[j] == ',' ==> ParseItems(strtod, s, i, depth, items) == ParseItems(strtod, s, j + 1, depth, items + [v])
    ensures s[j] == ']' ==> ParseItems(strtod, s, i, depth, items) == Ok(Array(items + [v]), j + 1)
  {
  }

  lemma MemberFails(strtod: Strtod, s: string, i: nat, depth: nat, members: seq<Member>, key: string, next: nat)
    requires i <= |s| && ParseKey(s, i) == Ok(key, next) && ParseValue(strtod, s, next, depth + 1) == Bad(TooDeep)
    ensures ParseMembers(strtod, s, i, depth, members) == Bad(TooDeep)
  {
  }

  lemma MemberStep(strtod: Strtod, s: string, i: nat, depth: nat, members: seq<Member>, key: string, next: nat,
                   v: Value,
                   e: nat, j: nat)
    requires i <= |s| && e <= |s| && ParseKey(s, i) == Ok(key, next)
    requires ParseValue(strtod, s, next, depth + 1) == Ok(v, e) && j == SkipSpace(s, e) && j < |s|
    ensures s[j] == ',' ==>
      ParseMembers(strtod, s, i, depth, members) == ParseMembers(strtod, s, j + 1, depth, Set(members, key, v))
    ensures s[j] == '}' ==> ParseMembers(strtod, s, i, depth, members) == Ok(Object(Set(members, key, v)), j + 1)
  {
  }

  // Every layout of a value parses to it.

  ghost predicate ItemsSmall(items: seq<Value>) {
    forall k :: 0 <= k < |items| ==> SmallNumbers(items[k])
  }

  ghost predicate MembersSmall(members: seq<Member>) {
    forall k :: 0 <= k < |members| ==> SmallNumbers(members[k].value)
  }

  lemma {:induction false} LaidParses(strtod: Strtod, s: string, i: nat, p: nat, v: Value, depth: nat, end: nat)
    requires Gap(s, i, p) && StartsAt(s, p) && Laid(s, p, v, end) && Ends(s, end) && SmallNumbers(v)
    ensures ParseValue(strtod, s, i, depth) == Expected(v, depth, end)
    decreases v, 3
  {
    GapSkips(s, i, p);
    if depth <= MAX_DEPTH {
      LaidParsesAt(strtod, s, p, v, depth, end);
    }
  }

  lemma {:induction false} LaidParsesAt(strtod: Strtod, s: string, p: nat, v: Value, depth: nat, end: nat)
    requires StartsAt(s, p) && Laid(s, p, v, end) && Ends(s, end) && SmallNumbers(v)
    requires depth <= MAX_DEPTH
    ensures ParseAt(strtod, s, p, depth) == Expected(v, depth, end)
    decreases v, 2
  {
    if v.Array? {
      ArrayParses(strtod, s, p, v.items, depth, end);
    } else if v.Object? {
      ObjectParses(strtod, s, p, v.members, depth, end);
    } else {
      ScalarParses(strtod, s, p, v, depth, end);
    }
  }

  lemma ScalarParses(strtod: Strtod, s: string, p: nat, v: Value, depth: nat, end: nat)
    requires StartsAt(s, p) && Laid(s, p, v, end) && Ends(s, end) && SmallNumbers(v) && !v.Array? && !v.Object?
    ensures ParseAt(strtod, s, p, depth) == Ok(v, end)
  {
    match v
    case Null => WordParses(strtod, s, p, v, depth, end);
    case Bool(_) => WordParses(strtod, s, p, v, depth, end);
    case Integer(n) => IntegerAtParses(strtod, s, p, n, depth);
    case String(text) => TextParses(strtod, s, p, text, depth, end);
  }

  lemma TextParses(strtod: Strtod, s: string, p: nat, text: string, depth: nat, end: nat)
    requires KeyAt(s, p, text, end)
    ensures ParseAt(strtod, s, p, depth) == Ok(String(text), end)
  {
  }

  lemma {:induction false} ArrayParses(strtod: Strtod, s: string, p: nat, items: seq<Value>, depth: nat, end: nat)
    requires p < |s| && Laid(s, p, Array(items), end) && depth <= MAX_DEPTH
    requires SmallNumbers(Array(items))
    ensures ParseAt(strtod, s, p, depth) == Expected(Array(items), depth, end)
    decreases items, |items| + 1
  {
    if items == [] {
      GapSkips(s, p + 1, end - 1);
      ArrayStep(strtod, s, p, depth, end - 1);
    } else {
      var b := FirstItem(s, p + 1, items, end);
      ArrayStep(strtod, s, p, depth, b);
      ItemsParse(strtod, s, b, items, 0, depth, end);
      assert MergedItems(items)[..0] == [];
    }
  }

  lemma {:induction false} ObjectParses(strtod: Strtod, s: string, p: nat, members: seq<Member>, depth: nat, end: nat)
    requires p < |s| && Laid(s, p, Object(members), end) && depth <= MAX_DEPTH
    requires SmallNumbers(Object(members))
    ensures ParseAt(strtod, s, p, depth) == Expected(Object(members), depth, end)
    decreases members, |members| + 1
  {
    if members == [] {
      GapSkips(s, p + 1, end - 1);
      ObjectStep(strtod, s, p, depth, end - 1);
    } else {
      var b := FirstMember(s, p + 1, members, end);
      ObjectStep(strtod, s, p, depth, b);
      MembersParse(strtod, s, b, members, 0, depth, end);
    }
  }

  lemma WordStarts(s: string, p: nat, w: string)
    ensures Stands(s, p, w) && w != [] ==> p < |s| && s[p] == w[0]
  {
    if Stands(s, p, w) && w != [] {
      StandsAt(s, p, w, 0);
    }
  }

  lemma WordParses(strtod: Strtod, s: string, p: nat, v: Value, depth: nat, end: nat)
    requires (v.Null? || v.Bool?) && Laid(s, p, v, end)
    ensures p < |s| && ParseAt(strtod, s, p, depth) == Ok(v, end)
  {
    match v {
      case Null =>
        StandsAt(s, p, "null", 0);
        WordStarts(s, p, "true");
        WordStarts(s, p, "false");
      case Bool(truth) =>
        if truth {
          StandsAt(s, p, "true", 0);
        } else {
          StandsAt(s, p, "false", 0);
          WordStarts(s, p, "true");
        }
    }
  }

  lemma IntegerStarts(s: string, p: nat, n: int)
    requires Stands(s, p, IntText(n))
    ensures p < |s| && (s[p] == '-' || IsDigit(s[p]))
  {
    StandsAt(s, p, IntText(n), 0);
    var m: nat := if n < 0 then -n else n;
    DigitsAre(m);
    assert Digits(m)[0] in Digits(m);
  }

  lemma IntegerAtParses(strtod: Strtod, s: string, p: nat, n: int, depth: nat)
    requires Stands(s, p, IntText(n)) && Ends(s, p + |IntText(n)|) && |IntText(n)| <= 18 && p < |s|
    ensures ParseAt(strtod, s, p, depth) == Ok(Integer(n), p + |IntText(n)|)
  {
    IntegerParses(strtod, s, p, n);
    IntegerStarts(s, p, n);
    WordStarts(s, p, "true");
    WordStarts(s, p, "false");
    WordStarts(s, p, "null");
  }

  /** Skipping the spaces before the first item leaves the items laid out. */
  lemma FirstItem(s: string, i: nat, items: seq<Value>, end: nat) returns (b: nat)
    requires items != [] && LaidItems(s, i, items, 0, end) && i <= |s|
    ensures b == SkipSpace(s, i) && StartsAt(s, b) && LaidItems(s, b, items, 0, end)
  {
    var b0: nat, e: nat, c: nat :| ItemLaid(s, i, items, 0, end, b0, e, c);
    GapSkips(s, i, b0);
    assert ItemLaid(s, b0, items, 0, end, b0, e, c);
    b := b0;
  }

  lemma KeySkips(s: string, i: nat, key: string, w: nat)
    requires KeyLaid(s, i, key, w) && i <= |s|
    ensures SkipSpace(s, i) < |s| && s[SkipSpace(s, i)] == '"' && KeyLaid(s, SkipSpace(s, i), key, w)
  {
    var b: nat, a: nat :| KeyFrom(s, i, key, w, b, a);
    GapSkips(s, i, b);
    assert KeyFrom(s, b, key, w, b, a);
  }

  lemma KeyParses(s: string, i: nat, key: string, w: nat) returns (next: nat)
    requires KeyLaid(s, i, key, w) && i <= |s|
    ensures ParseKey(s, i) == Ok(key, next) && Gap(s, next, w) && StartsAt(s, w)
  {
    var b: nat, a: nat :| KeyFrom(s, i, key, w, b, a);
    GapSkips(s, i, b);
    GapSkips(s, a, a);
    next := a + 1;
  }

  lemma FirstMember(s: string, i: nat, members: seq<Member>, end: nat) returns (b: nat)
    requires members != [] && LaidMembers(s, i, members, 0, end) && i <= |s|
    ensures b == SkipSpace(s, i) && b < |s| && s[b] == '"' && LaidMembers(s, b, members, 0, end)
  {
    var w: nat, e: nat, c: nat :| MemberLaid(s, i, members, 0, end, w, e, c);
    KeySkips(s, i, members[0].key, w);
    b := SkipSpace(s, i);
    assert MemberLaid(s, b, members, 0, end, w, e, c);
  }

  /** What parsing the items from k on gives. */
  function ItemsExpected(items: seq<Value>, k: nat, depth: nat, next: nat): Outcome<Value>
    requires k <= |items|
  {
    if depth + 1 + ItemsNesting(items, k) > MAX_DEPTH then Bad(TooDeep) else Ok(Array(MergedItems(items)), next)
  }

  /** What the first k members leave. */
  function ReadSoFar(members: seq<Member>, k: nat): seq<Member>
    requires k <= |members|
  {
    SetAll(MergedMembers(members), k)
  }

  function MembersExpected(members: seq<Member>, k: nat, depth: nat, next: nat): Outcome<Value>
    requires k <= |members|
  {
    if depth + 1 + MembersNesting(members, k) > MAX_DEPTH then Bad(TooDeep)
    else Ok(Object(ReadSoFar(members, |members|)), next)
  }

  lemma LastItem(strtod: Strtod, s: string, i: nat, items: seq<Value>, k: nat, depth: nat, e: nat, c: nat)
    requires k + 1 == |items| && i <= |s| && Marked(s, e, c, ']')
    requires ParseValue(strtod, s, i, depth + 1) == Expected(items[k], depth + 1, e)
    ensures ParseItems(strtod, s, i, depth, MergedItems(items)[..k]) == ItemsExpected(items, k, depth, c + 1)
  {
    if depth + 1 + Nesting(items[k]) > MAX_DEPTH {
      ItemFails(strtod, s, i, depth, MergedItems(items)[..k]);
    } else {
      GapSkips(s, e, c);
      ItemStep(strtod, s, i, depth, MergedItems(items)[..k], Merged(items[k]), e, c);
      assert MergedItems(items)[..k] + [Merged(items[k])] == MergedItems(items);
      assert ItemsNesting(items, k + 1) == 0;
    }
  }

  lemma MoreItems(strtod: Strtod, s: string, i: nat, items: seq<Value>, k: nat, depth: nat, e: nat, c: nat, end: nat)
    requires k + 1 < |items| && i <= |s| && Marked(s, e, c, ',')
    requires ParseValue(strtod, s, i, depth + 1) == Expected(items[k], depth + 1, e)
    requires ParseItems(strtod, s, c + 1, depth, MergedItems(items)[..k + 1]) == ItemsExpected(items, k + 1, depth, end)
    ensures ParseItems(strtod, s, i, depth, MergedItems(items)[..k]) == ItemsExpected(items, k, depth, end)
  {
    if depth + 1 + Nesting(items[k]) > MAX_DEPTH {
      ItemFails(strtod, s, i, depth, MergedItems(items)[..k]);
    } else {
      GapSkips(s, e, c);
      ItemStep(strtod, s, i, depth, MergedItems(items)[..k], Merged(items[k]), e, c);
      assert MergedItems(items)[..k] + [Merged(items[k])] == MergedItems(items)[..k + 1];
    }
  }

  lemma {:induction false} ItemsParse(strtod: Strtod, s: string, i: nat, items: seq<Value>, k: nat, depth: nat,
                                      end: nat)
    requires k < |items| && i <= |s| && LaidItems(s, i, items, k, end)
    requires ItemsSmall(items)
    ensures ParseItems(strtod, s, i, depth, MergedItems(items)[..k]) == ItemsExpected(items, k, depth, end)
    decreases items, |items| - k
  {
    var b: nat, e: nat, c: nat :| ItemLaid(s, i, items, k, end, b, e, c);
    LaidParses(strtod, s, i, b, items[k], depth + 1, e);
    if k + 1 == |items| {
      LastItem(strtod, s, i, items, k, depth, e, c);
    } else {
      ItemsParse(strtod, s, c + 1, items, k + 1, depth, end);
      MoreItems(strtod, s, i, items, k, depth, e, c, end);
    }
  }

  lemma LastMember(strtod: Strtod, s: string, i: nat, members: seq<Member>, k: nat, depth: nat, next: nat, e: nat,
                   c: nat)
    requires k + 1 == |members| && i <= |s| && Marked(s, e, c, '}')
    requires ParseKey(s, i) == Ok(members[k].key, next)
    requires ParseValue(strtod, s, next, depth + 1) == Expected(members[k].value, depth + 1, e)
    ensures ParseMembers(strtod, s, i, depth, ReadSoFar(members, k)) == MembersExpected(members, k, depth, c + 1)
  {
    if depth + 1 + Nesting(members[k].value) > MAX_DEPTH {
      MemberFails(strtod, s, i, depth, ReadSoFar(members, k), members[k].key, next);
    } else {
      GapSkips(s, e, c);
      MemberStep(strtod, s, i, depth, ReadSoFar(members, k), members[k].key, next, Merged(members[k].value), e,
                 c);
      assert MembersNesting(members, k + 1) == 0;
    }
  }

  lemma MoreMembers(strtod: Strtod, s: string, i: nat, members: seq<Member>, k: nat, depth: nat, next: nat, e: nat,
                    c: nat,
                    end: nat)
    requires k + 1 < |members| && i <= |s| && Marked(s, e, c, ',')
    requires ParseKey(s, i) == Ok(members[k].key, next)
    requires ParseValue(strtod, s, next, depth + 1) == Expected(members[k].value, depth + 1, e)
    requires ParseMembers(strtod, s, c + 1, depth, ReadSoFar(members, k + 1))
             == MembersExpected(members, k + 1, depth, end)
    ensures ParseMembers(strtod, s, i, depth, ReadSoFar(members, k)) == MembersExpected(members, k, depth, end)
  {
    if depth + 1 + Nesting(members[k].value) > MAX_DEPTH {
      MemberFails(strtod, s, i, depth, ReadSoFar(members, k), members[k].key, next);
    } else {
      GapSkips(s, e, c);
      MemberStep(strtod, s, i, depth, ReadSoFar(members, k), members[k].key, next, Merged(members[k].value), e,
                 c);
    }
  }

  /** The parser reads a member's key and value. */
  lemma {:induction false} MemberParses(strtod: Strtod, s: string, i: nat, member: Member, depth: nat, w: nat, e: nat)
    returns (next: nat)
    requires KeyLaid(s, i, member.key, w) && i <= |s| && Laid(s, w, member.value, e) && Ends(s, e)
    requires SmallNumbers(member.value)
    ensures ParseKey(s, i) == Ok(member.key, next)
    ensures ParseValue(strtod, s, next, depth + 1) == Expected(member.value, depth + 1, e)
    decreases member, 0
  {
    next := KeyParses(s, i, member.key, w);
    LaidParses(strtod, s, next, w, member.value, depth + 1, e);
  }

  lemma {:induction false} LastMemberParses(strtod: Strtod, s: string, i: nat, members: seq<Member>, k: nat, depth: nat,
                                            w: nat, e: nat, c: nat)
    requires k + 1 == |members| && i <= |s| && KeyLaid(s, i, members[k].key, w) && Laid(s, w, members[k].value, e)
    requires Marked(s, e, c, '}') && SmallNumbers(members[k].value)
    ensures ParseMembers(strtod, s, i, depth, ReadSoFar(members, k)) == MembersExpected(members, k, depth, c + 1)
    decreases members, |members| - k, 0
  {
    var next := MemberParses(strtod, s, i, members[k], depth, w, e);
    LastMember(strtod, s, i, members, k, depth, next, e, c);
  }

  lemma {:induction false} MoreMembersParse(strtod: Strtod, s: string, i: nat, members: seq<Member>, k: nat, depth: nat,
                                            w: nat, e: nat, c: nat, end: nat)
    requires k + 1 < |members| && i <= |s| && KeyLaid(s, i, members[k].key, w) && Laid(s, w, members[k].value, e)
    requires Marked(s, e, c, ',') && SmallNumbers(members[k].value)
    requires ParseMembers(strtod, s, c + 1, depth, ReadSoFar(members, k + 1))
             == MembersExpected(members, k + 1, depth, end)
    ensures ParseMembers(strtod, s, i, depth, ReadSoFar(members, k)) == MembersExpected(members, k, depth, end)
    decreases members, |members| - k, 0
  {
    var next := MemberParses(strtod, s, i, members[k], depth, w, e);
    MoreMembers(strtod, s, i, members, k, depth, next, e, c, end);
  }

  /** Where member k stands and what follows it. */
  lemma MemberPlace(s: string, i: nat, members: seq<Member>, k: nat, end: nat) returns (w: nat, e: nat, c: nat)
    requires k < |members| && LaidMembers(s, i, members, k, end)
    ensures KeyLaid(s, i, members[k].key, w) && Laid(s, w, members[k].value, e)
    ensures k + 1 == |members| ==> Marked(s, e, c, '}') && end == c + 1
    ensures k + 1 < |members| ==> Marked(s, e, c, ',') && LaidMembers(s, c + 1, members, k + 1, end)
  {
    w, e, c :| MemberLaid(s, i, members, k, end, w, e, c);
  }

  lemma {:induction false} MembersParse(strtod: Strtod, s: string, i: nat, members: seq<Member>, k: nat, depth: nat,
                                        end: nat)
    requires k < |members| && i <= |s| && LaidMembers(s, i, members, k, end)
    requires MembersSmall(members)
    ensures ParseMembers(strtod, s, i, depth, ReadSoFar(members, k)) == MembersExpected(members, k, depth, end)
    decreases members, |members| - k, 1
  {
    var w, e, c := MemberPlace(s, i, members, k, end);
    if k + 1 == |members| {
      LastMemberParses(strtod, s, i, members, k, depth, w, e, c);
    } else {
      MembersParse(strtod, s, c + 1, members, k + 1, depth, end);
      MoreMembersParse(strtod, s, i, members, k, depth, w, e, c, end);
    }
  }

  /** Spaces anywhere between the parts of a value change nothing that is read. */
  lemma LayoutDoesNotMatter(strtod: Strtod, v: Value, s: string, p: nat, end: nat)
    requires SmallNumbers(v) && Nesting(v) <= 200
    requires Gap(s, 0, p) && StartsAt(s, p) && Laid(s, p, v, end) && Ends(s, end) && Gap(s, end, |s|)
    ensures Parse(strtod, s) == Ok(Merged(v), |s|)
    ensures KeysUnique(v) ==> Parse(strtod, s) == Ok(v, |s|)
  {
    LaidParses(strtod, s, 0, p, v, 0, end);
    GapSkips(s, end, |s|);
    if KeysUnique(v) {
      MergedUnique(v);
    }
  }
}
