/** Integer factor tables (build_learning_proposal.py, `tables`, `graph`, `value_at`).
    A dictionary from scopes to values is the sequence of its items in insertion order. */
module FactorTables {
  import opened Wrappers
  import opened Scopes
  import opened Width

  datatype Table = Table(scope: set<nat>, values: seq<int>)

  const WORD: int := 0x1_0000_0000_0000_0000_0000_0000_0000_0000 // 2^128

  predicate Shaped(t: Table) {
    |t.values| == Pow2(|t.scope|)
  }

  predicate AllShaped(tables: seq<Table>) {
    forall k :: 0 <= k < |tables| ==> Shaped(tables[k])
  }

  predicate Distinct(tables: seq<Table>) {
    forall j, k :: 0 <= j < k < |tables| ==> tables[j].scope != tables[k].scope
  }

  function ScopesOf(tables: seq<Table>): (r: seq<set<nat>>)
    ensures |r| == |tables|
    ensures forall k :: 0 <= k < |r| ==> r[k] == tables[k].scope
  {
    seq(|tables|, k requires 0 <= k < |tables| => tables[k].scope)
  }

  /** What a table says of a joint state. */
  function Value(t: Table, state: set<nat>): int
    requires Shaped(t)
  {
    t.values[Project(t.scope, state)]
  }

  /** What the tables say of a joint state together. */
  function Total(tables: seq<Table>, state: set<nat>): int
    requires AllShaped(tables)
  {
    if tables == [] then 0
    else
      var n := |tables| - 1;
      Total(tables[..n], state) + Value(tables[n], state)
  }

  ghost predicate IsMax(values: seq<int>, high: int) {
    high in values && forall v | v in values :: v <= high
  }

  ghost predicate IsMin(values: seq<int>, low: int) {
    low in values && forall v | v in values :: low <= v
  }

  function MaxOf(values: seq<int>): int
    requires values != []
  {
    if |values| == 1 then values[0]
    else
      var high := MaxOf(values[1..]);
      if values[0] > high then values[0] else high
  }

  function MinOf(values: seq<int>): int
    requires values != []
  {
    if |values| == 1 then values[0]
    else
      var low := MinOf(values[1..]);
      if values[0] < low then values[0] else low
  }

  lemma {:induction false} MaxOfIs(values: seq<int>)
    requires values != []
    ensures IsMax(values, MaxOf(values))
  {
    if |values| > 1 {
      MaxOfIs(values[1..]);
      assert values == [values[0]] + values[1..];
    }
  }

  lemma {:induction false} MinOfIs(values: seq<int>)
    requires values != []
    ensures IsMin(values, MinOf(values))
  {
    if |values| > 1 {
      MinOfIs(values[1..]);
      assert values == [values[0]] + values[1..];
    }
  }

  /** One row of a snapshot is acceptable on its own. */
  predicate RowOk(row: Table, events: nat) {
    && row.scope != {} && row.scope <= Range(events) && |row.scope| <= 3
    && |row.values| == Pow2(|row.scope|)
    && forall v | v in row.values :: 0 <= v < WORD
  }

  /** Canonical bias: ascending scope masks and least entry zero. */
  predicate CanonicalRow(row: Table, events: nat, previous: nat) {
    row.values != [] && Number(events, row.scope) > previous && MinOf(row.values) == 0
  }

  ghost predicate Ascending(rows: seq<Table>, events: nat) {
    forall j, k :: 0 <= j < k < |rows| ==> Number(events, rows[j].scope) < Number(events, rows[k].scope)
  }

  /** What `tables` accepts. */
  ghost predicate TablesOk(rows: seq<Table>, events: nat, canonical: bool) {
    && |rows| <= 64
    && Distinct(rows)
    && (forall k :: 0 <= k < |rows| ==> RowOk(rows[k], events))
    && (canonical ==> Ascending(rows, events))
    && (canonical ==> forall k :: 0 <= k < |rows| ==> IsMin(rows[k].values, 0))
  }

  lemma {:induction false} NumberPositive(n: nat, scope: set<nat>)
    requires scope <= Range(n) && scope != {}
    ensures Number(n, scope) > 0
  {
    if n > 0 && n - 1 !in scope {
      NumberPositive(n - 1, scope);
    }
  }

  /** The last mask accepted so far. */
  function Previous(rows: seq<Table>, events: nat): nat {
    if rows == [] then 0 else Number(events, rows[|rows| - 1].scope)
  }

  lemma AscendingSnoc(rows: seq<Table>, row: Table, events: nat)
    requires row.scope != {} && row.scope <= Range(events)
    ensures Ascending(rows + [row], events) ==>
            Ascending(rows, events) && Number(events, row.scope) > Previous(rows, events)
    ensures Ascending(rows, events) && Number(events, row.scope) > Previous(rows, events)
         ==> Ascending(rows + [row], events)
  {
    var more := rows + [row];
    NumberPositive(events, row.scope);
    if Ascending(more, events) {
      forall j, k | 0 <= j < k < |rows| ensures Number(events, rows[j].scope) < Number(events, rows[k].scope) {
        assert more[j] == rows[j] && more[k] == rows[k];
      }
      if rows != [] {
        assert more[|rows| - 1] == rows[|rows| - 1] && more[|rows|] == row;
      }
    }
  }

  lemma TablesOkSnoc(rows: seq<Table>, row: Table, events: nat, canonical: bool)
    requires TablesOk(rows, events, canonical)
    ensures TablesOk(rows + [row], events, canonical) <==>
      && |rows| < 64 && row.scope !in ScopesOf(rows) && RowOk(row, events)
      && (canonical ==> CanonicalRow(row, events, Previous(rows, events)))
  {
    var more := rows + [row];
    assert more[|rows|] == row;
    assert forall k :: 0 <= k < |rows| ==> more[k] == rows[k];
    if row.values != [] {
      MinOfIs(row.values);
    }
    if row.scope != {} && row.scope <= Range(events) {
      AscendingSnoc(rows, row, events);
    }
    if row.scope in ScopesOf(rows) {
      var j :| 0 <= j < |rows| && ScopesOf(rows)[j] == row.scope;
      assert more[j].scope == more[|rows|].scope;
    }
  }

  lemma TablesOkPrefix(rows: seq<Table>, events: nat, canonical: bool, k: nat)
    requires TablesOk(rows, events, canonical) && k <= |rows|
    ensures TablesOk(rows[..k], events, canonical)
  {
  }

  /** Reads the rows of a snapshot one by one and stops at the first that is refused. */
  method Tables(raw: seq<Table>, events: nat, canonical: bool) returns (r: Option<seq<Table>>)
    ensures r.Some? <==> TablesOk(raw, events, canonical)
    ensures r.Some? ==> r.value == raw
  {
    if |raw| > 64 {
      return None;
    }
    var result: seq<Table> := [];
    var previous: nat := 0;
    for k := 0 to |raw|
      invariant result == raw[..k]
      invariant TablesOk(result, events, canonical)
      invariant previous == Previous(result, events)
    {
      var row := raw[k];
      TablesOkSnoc(result, row, events, canonical);
      assert raw[..k] + [row] == raw[..k + 1];
      if !RowOk(row, events) || row.scope in ScopesOf(result) || (canonical && !CanonicalRow(row, events, previous)) {
        if TablesOk(raw, events, canonical) {
          TablesOkPrefix(raw, events, canonical, k + 1);
        }
        return None;
      }
      result := result + [row];
      previous := Number(events, row.scope);
    }
    assert raw[..|raw|] == raw;
    r := Some(result);
  }

  /** The largest entries of the tables, added up. */
  function Maxima(tables: seq<Table>): int
    requires forall k :: 0 <= k < |tables| ==> tables[k].values != []
  {
    if tables == [] then 0 else Maxima(tables[..|tables| - 1]) + MaxOf(tables[|tables| - 1].values)
  }

  /** The combined graph is one the fixed-width engine can price. */
  ghost predicate GraphOk(order: seq<nat>, actual: seq<Table>, bias: seq<Table>, liquidity: nat)
    requires forall k :: 0 <= k < |actual| ==> actual[k].values != []
    requires forall k :: 0 <= k < |bias| ==> bias[k].values != []
  {
    && |actual| + |bias| <= 64
    && Maxima(actual) + Maxima(bias) <= 100 * liquidity
    && Bounded(ScopesOf(actual) + ScopesOf(bias), order)
  }

  /** The inner loop of the width check: the scopes that mention the event are joined, the others stay. */
  method JoinAndKeep(scopes: seq<set<nat>>, e: nat) returns (joined: set<nat>, remaining: seq<set<nat>>)
    ensures joined == Joined(scopes, e) && remaining == Keep(scopes, e)
  {
    joined := {e};
    remaining := [];
    var k := 0;
    while k < |scopes|
      invariant 0 <= k <= |scopes|
      invariant e in joined
      invariant joined + Joined(scopes[k..], e) == Joined(scopes, e)
      invariant remaining + Keep(scopes[k..], e) == Keep(scopes, e)
    {
      assert scopes[k..][1..] == scopes[k + 1..];
      if e in scopes[k] {
        joined := joined + scopes[k];
      } else {
        remaining := remaining + [scopes[k]];
      }
      k := k + 1;
    }
    assert scopes[k..] == [];
  }

  lemma BoundedStep(scopes: seq<set<nat>>, order: seq<nat>)
    requires order != []
    ensures Bounded(scopes, order)
       <==> |Joined(scopes, order[0])| <= 3 && Bounded(ScopeStep(scopes, order[0]), order[1..])
  {
    var first := |Joined(scopes, order[0])|;
    var rest := JoinedSizes(ScopeStep(scopes, order[0]), order[1..]);
    var sizes := [first] + rest;
    assert JoinedSizes(scopes, order) == sizes;
    if Bounded(scopes, order) {
      assert first in sizes;
      forall size | size in rest ensures size <= 3 {
        assert size in sizes;
      }
    }
  }

  /** The width loop accepts exactly what `induced_width` of the pricing engine accepts. */
  method WidthLoop(scopes: seq<set<nat>>, order: seq<nat>) returns (ok: bool)
    ensures ok <==> Bounded(scopes, order)
    ensures ok <==> WidthFrom(scopes, order, 0).Width?
  {
    WidthMeaning(scopes, order);
    var current := scopes;
    var k := 0;
    assert order[0..] == order;
    while k < |order|
      invariant 0 <= k <= |order|
      invariant Bounded(current, order[k..]) <==> Bounded(scopes, order)
    {
      BoundedStep(current, order[k..]);
      assert order[k..][1..] == order[k + 1..];
      var joined, remaining := JoinAndKeep(current, order[k]);
      if |joined| > 3 {
        return false;
      }
      current := remaining + [joined - {order[k]}];
      k := k + 1;
    }
    ok := true;
  }

  method Graph(order: seq<nat>, actual: seq<Table>, bias: seq<Table>, liquidity: nat) returns (ok: bool)
    requires forall k :: 0 <= k < |actual| ==> actual[k].values != []
    requires forall k :: 0 <= k < |bias| ==> bias[k].values != []
    ensures ok <==> GraphOk(order, actual, bias, liquidity)
  {
    if |actual| + |bias| > 64 {
      return false;
    }
    if Maxima(actual) + Maxima(bias) > 100 * liquidity {
      return false;
    }
    ok := WidthLoop(ScopesOf(actual) + ScopesOf(bias), order);
  }

  /** The events of a scope from i on. */
  function From(scope: set<nat>, i: nat): (r: set<nat>)
    ensures forall e: nat :: e in r <==> e in scope && e >= i
  {
    set e | e in scope && e >= i
  }

  /** Every event of the scope is one of the first eight. */
  predicate AmongEight(scope: set<nat>) {
    forall e | e in scope :: e < 8
  }

  function EventBit(state: set<nat>, e: nat): nat {
    if e in state then 1 else 0
  }

  lemma LocalStep(scope: set<nat>, state: set<nat>, i: nat)
    ensures i in scope ==>
      Project(From(scope, i), state) == EventBit(state, i) + 2 * Project(From(scope, i + 1), state)
    ensures i !in scope ==> Project(From(scope, i), state) == Project(From(scope, i + 1), state)
  {
    if i in scope {
      assert Least(From(scope, i)) == i;
      assert From(scope, i) - {i} == From(scope, i + 1);
    } else {
      assert From(scope, i) == From(scope, i + 1);
    }
  }

  /** The bits placed so far and the local index of the events still to come. */
  function Placed(local: nat, weight: nat, tail: nat): nat {
    local + weight * tail
  }

  lemma PlacedStep(local: nat, weight: nat, bit: nat, tail: nat, whole: nat)
    requires bit <= 1 && whole == bit + 2 * tail
    ensures Placed(local, weight, whole) == Placed(local + if bit == 1 then weight else 0, 2 * weight, tail)
  {
    Peel(weight, bit, tail);
  }

  /** The bit loop of `value_at` over the eight possible events. */
  method LocalIndex(scope: set<nat>, state: set<nat>) returns (local: nat)
    requires AmongEight(scope)
    ensures local == Project(scope, state)
  {
    local := 0;
    var weight: nat := 1; // 1 << index
    ghost var rest := Project(From(scope, 0), state);
    assert From(scope, 0) == scope;
    for i := 0 to 8
      invariant rest == Project(From(scope, i), state)
      invariant Placed(local, weight, rest) == Project(scope, state)
    {
      LocalStep(scope, state, i);
      ghost var tail := Project(From(scope, i + 1), state);
      if i in scope {
        PlacedStep(local, weight, EventBit(state, i), tail, rest);
        if i in state {
          local := local + weight;
        }
        weight := 2 * weight;
      }
      rest := tail;
    }
    assert From(scope, 8) == {};
  }

  lemma TotalSnoc(tables: seq<Table>, k: nat, state: set<nat>)
    requires AllShaped(tables) && k < |tables|
    ensures Shaped(tables[k])
    ensures Total(tables[..k + 1], state) == Total(tables[..k], state) + Value(tables[k], state)
  {
    assert tables[..k + 1][..k] == tables[..k];
  }

  method ValueAt(factors: seq<Table>, state: set<nat>) returns (total: int)
    requires AllShaped(factors)
    requires forall k :: 0 <= k < |factors| ==> AmongEight(factors[k].scope)
    ensures total == Total(factors, state)
  {
    total := 0;
    for k := 0 to |factors|
      invariant total == Total(factors[..k], state)
    {
      TotalSnoc(factors, k, state);
      var local := LocalIndex(factors[k].scope, state);
      total := total + factors[k].values[local];
    }
    assert factors[..|factors|] == factors;
  }
}
