/** Building an unsigned bias update (build_learning_proposal.py, `build`), and what an accepted one guarantees. */
module Proposal {
  import opened Scopes
  import opened Ising
  import opened FactorTables
  import opened Candidate
  import opened SetSums

  datatype Snapshot = Snapshot(events: nat, order: seq<nat>, decimals: nat, liquidity: nat, factors: seq<Table>,
                               biasFactors: seq<Table>, maxBiasMovement: nat, timestamp: nat, closesAt: nat)

  datatype Fault =
    | BadEvents | BadOrder | BadDecimals | BadLiquidity | BadDeadline | BadMovementPolicy | BadTolerance
    | BadParameterCount | ParameterOutOfDomain | EnergySpanExceeded | BadFactors | BadBias | BadGraph | BiasOverflow
    | BadCandidateGraph | MovementExceeded | ToleranceExceeded

  // The features are distinct scopes of one or two events.

  lemma {:induction false} PairsShape(i: nat, n: nat, k: nat)
    requires i <= n && k < |PairsFrom(i, n)|
    ensures exists a: nat, b: nat :: i <= a < b < n && PairsFrom(i, n)[k] == {a, b}
    decreases n - i
  {
    PairsAre(i, n);
    assert PairsFrom(i, n)[k] in PairsFrom(i, n);
  }

  lemma {:induction false} PairsNoRepeats(i: nat, n: nat)
    requires i <= n
    ensures NoRepeats(PairsFrom(i, n))
    decreases n - i
  {
    if i < n {
      PairsNoRepeats(i + 1, n);
      var first, rest := PairsWith(i, i + 1, n), PairsFrom(i + 1, n);
      forall k | 0 <= k < |rest| ensures i !in rest[k] {
        PairsShape(i + 1, n, k);
      }
      forall j, k | 0 <= j < k < |first| ensures first[j] != first[k] {
        assert i + 1 + j in first[j] && i + 1 + j !in first[k];
      }
      forall j | 0 <= j < |first| ensures i in first[j] {
        assert first[j] == {i, i + 1 + j};
      }
    }
  }

  lemma FeaturesNoRepeats(n: nat)
    ensures NoRepeats(Features(n))
  {
    PairsNoRepeats(0, n);
    var one, two := Singles(n), PairsFrom(0, n);
    forall j, k | 0 <= j < |one| && 0 <= k < |two| ensures one[j] != two[k] {
      PairsShape(0, n, k);
      var a: nat, b: nat :| 0 <= a < b < n && two[k] == {a, b};
      assert a in two[k] && b in two[k];
    }
    forall j, k | 0 <= j < k < |one| ensures one[j] != one[k] {
      assert j in one[j] && j !in one[k];
    }
  }

  lemma FeatureShape(n: nat, scope: set<nat>)
    requires scope in Features(n)
    ensures scope != {} && scope <= Range(n) && |scope| <= 2
  {
    if scope !in Singles(n) {
      PairsAre(0, n);
      var a: nat, b: nat :| 0 <= a < b < n && scope == {a, b};
      assert a in scope;
    } else {
      var k :| 0 <= k < n && Singles(n)[k] == scope;
      assert k in scope;
    }
  }

  // Movement.

  /** The table's values, or zeros when the scope is not listed. */
  function ValuesOr(tables: seq<Table>, scope: set<nat>): (r: seq<int>)
    ensures |r| == Pow2(|scope|)
  {
    var k := Find(tables, scope);
    if k < |tables| && Shaped(tables[k]) then tables[k].values else Zeros(Pow2(|scope|))
  }

  function Delta(bias: seq<Table>, previous: seq<Table>, scope: set<nat>): (r: seq<int>)
    ensures |r| == Pow2(|scope|)
  {
    Minus(ValuesOr(bias, scope), ValuesOr(previous, scope))
  }

  function Span(values: seq<int>): int
    requires values != []
  {
    MaxOf(values) - MinOf(values)
  }

  /** What the tables say of a state through one scope. */
  function At(tables: seq<Table>, scope: set<nat>, state: set<nat>): int {
    ValuesOr(tables, scope)[Project(scope, state)]
  }

  lemma {:induction false} FindSnoc(tables: seq<Table>, t: Table, scope: set<nat>)
    ensures Find(tables + [t], scope)
         == if Find(tables, scope) < |tables| then Find(tables, scope)
            else if t.scope == scope then |tables| else |tables| + 1
  {
    if tables != [] {
      assert (tables + [t])[1..] == tables[1..] + [t];
      FindSnoc(tables[1..], t, scope);
    }
  }

  lemma FindListed(tables: seq<Table>, scope: set<nat>)
    ensures Find(tables, scope) < |tables| ==> scope in ScopesOf(tables)
  {
    var k := Find(tables, scope);
    if k < |tables| {
      assert ScopesOf(tables)[k] == scope;
    }
  }

  lemma AtSnoc(tables: seq<Table>, t: Table, scope: set<nat>, state: set<nat>)
    requires AllShaped(tables) && Shaped(t) && t.scope !in ScopesOf(tables)
    ensures At(tables + [t], scope, state) == if scope == t.scope then Value(t, state) else At(tables, scope, state)
    ensures At(tables, t.scope, state) == 0
  {
    FindSnoc(tables, t, scope);
    FindListed(tables, t.scope);
  }

  ghost predicate Covers(keys: set<set<nat>>, tables: seq<Table>) {
    forall k :: 0 <= k < |tables| ==> tables[k].scope in keys
  }

  /** One more table adds its value at its own scope, and nowhere else. */
  lemma SumOfMore(before: seq<Table>, t: Table, keys: set<set<nat>>, state: set<nat>, f: set<nat> -> int,
                  g: set<nat> -> int)
    requires AllShaped(before) && Shaped(t) && t.scope !in ScopesOf(before) && t.scope in keys
    requires forall scope :: f(scope) == At(before + [t], scope, state)
    requires forall scope :: g(scope) == At(before, scope, state)
    ensures SumOver(keys, f) == SumOver(keys, g) + Value(t, state)
  {
    forall scope ensures f(scope) == if scope == t.scope then Value(t, state) else g(scope) {
      AtSnoc(before, t, scope, state);
    }
    AtSnoc(before, t, t.scope, state);
    SumOverBump(keys, f, g, t.scope, Value(t, state));
  }

  /** The total is the sum over any set of scopes that holds all of the tables' own. */
  lemma {:induction false} TotalIsSum(tables: seq<Table>, keys: set<set<nat>>, state: set<nat>, f: set<nat> -> int)
    requires AllShaped(tables) && Distinct(tables) && Covers(keys, tables)
    requires forall scope :: f(scope) == At(tables, scope, state)
    ensures Total(tables, state) == SumOver(keys, f)
  {
    if tables == [] {
      SumOverZero(keys, f);
    } else {
      var n := |tables| - 1;
      var before, t := tables[..n], tables[n];
      var g := scope => At(before, scope, state);
      assert tables == before + [t];
      assert t.scope !in ScopesOf(before);
      TotalIsSum(before, keys, state, g);
      SumOfMore(before, t, keys, state, f, g);
    }
  }

  function Keys(bias: seq<Table>, previous: seq<Table>): set<set<nat>> {
    (set scope | scope in ScopesOf(bias)) + (set scope | scope in ScopesOf(previous))
  }

  lemma KeysCover(bias: seq<Table>, previous: seq<Table>)
    ensures Covers(Keys(bias, previous), bias) && Covers(Keys(bias, previous), previous)
  {
    forall k | 0 <= k < |bias| ensures bias[k].scope in Keys(bias, previous) {
      assert ScopesOf(bias)[k] in ScopesOf(bias);
    }
    forall k | 0 <= k < |previous| ensures previous[k].scope in Keys(bias, previous) {
      assert ScopesOf(previous)[k] in ScopesOf(previous);
    }
  }

  /** Over the union of the scopes, how far each table's change spans. */
  ghost function Movement(bias: seq<Table>, previous: seq<Table>): int {
    SumOver(Keys(bias, previous), scope => Span(Delta(bias, previous, scope)))
  }

  method MovementLoop(bias: seq<Table>, previous: seq<Table>) returns (movement: int)
    ensures movement == Movement(bias, previous)
  {
    movement := 0;
    var rest := Keys(bias, previous);
    ghost var f := scope => Span(Delta(bias, previous, scope));
    while rest != {}
      invariant movement + SumOver(rest, f) == SumOver(Keys(bias, previous), f)
      decreases |rest|
    {
      var scope :| scope in rest;
      SumOverPick(rest, f, scope);
      var delta := Delta(bias, previous, scope);
      movement := movement + (MaxOf(delta) - MinOf(delta));
      rest := rest - {scope};
    }
  }

  lemma WithinTheSpan(values: seq<int>, i: nat, j: nat)
    requires i < |values| && j < |values|
    ensures values[i] - values[j] <= Span(values)
  {
    MaxOfIs(values);
    MinOfIs(values);
    assert values[i] in values && values[j] in values;
  }

  /** The movement bounds how far the update changes the difference of the total biases of any two states. */
  lemma MovementBoundsPairs(bias: seq<Table>, previous: seq<Table>, s: set<nat>, t: set<nat>)
    requires AllShaped(bias) && Distinct(bias) && AllShaped(previous) && Distinct(previous)
    ensures (Total(bias, s) - Total(previous, s)) - (Total(bias, t) - Total(previous, t)) <= Movement(bias, previous)
  {
    var keys := Keys(bias, previous);
    var a, b := scope => At(bias, scope, s), scope => At(previous, scope, s);
    var c, d := scope => At(bias, scope, t), scope => At(previous, scope, t);
    var g := scope => Span(Delta(bias, previous, scope));
    KeysCover(bias, previous);
    TotalIsSum(bias, keys, s, a);
    TotalIsSum(previous, keys, s, b);
    TotalIsSum(bias, keys, t, c);
    TotalIsSum(previous, keys, t, d);
    forall scope | scope in keys ensures (a(scope) - b(scope)) - (c(scope) - d(scope)) <= g(scope) {
      WithinTheSpan(Delta(bias, previous, scope), Project(scope, s), Project(scope, t));
    }
    SumOverBound(keys, a, b, c, d, g);
  }
}
