/** The candidate bias of a proposal (build_learning_proposal.py, `build`): rounded coefficients, less the
    liabilities, each table lowered to least entry zero. */
module Candidate {
  import opened RealFacts
  import opened Scopes
  import opened Ising
  import opened FactorTables

  /** Nearest integer, ties to even. */
  function Rounded(x: real): int {
    var low := x.Floor;
    var part := x - low as real;
    if part < 0.5 then low
    else if part > 0.5 then low + 1
    else if low % 2 == 0 then low else low + 1
  }

  predicate IsNearest(x: real, r: int) {
    var d := x - r as real;
    && -0.5 <= d <= 0.5
    && (d == 0.5 || d == -0.5 ==> r % 2 == 0)
  }

  /** Rounding returns the one integer within a half, and of two such integers the even one. */
  lemma RoundedIsNearest(x: real, r: int)
    ensures IsNearest(x, r) <==> r == Rounded(x)
  {
    var low := x.Floor;
    assert low as real <= x < low as real + 1.0;
    if IsNearest(x, r) {
      assert r == low || r == low + 1;
    }
  }

  /** parameter * liquidity, exactly. */
  function Exact(liquidity: nat, parameter: real): real {
    liquidity as real * parameter
  }

  function Coefficients(liquidity: nat, parameters: seq<real>): (r: seq<int>)
    ensures |r| == |parameters|
    ensures forall k :: 0 <= k < |r| ==> r[k] == Rounded(Exact(liquidity, parameters[k]))
  {
    seq(|parameters|, k requires 0 <= k < |parameters| => Rounded(Exact(liquidity, parameters[k])))
  }

  /** The rounding errors, added up. */
  function RoundingError(liquidity: nat, parameters: seq<real>): real {
    if parameters == [] then 0.0
    else
      var n := |parameters| - 1;
      var exact := Exact(liquidity, parameters[n]);
      RoundingError(liquidity, parameters[..n]) + Abs(exact - Rounded(exact) as real)
  }

  function RoundedEnergy(features: seq<set<nat>>, coefficients: seq<int>, state: set<nat>): int
    requires |coefficients| == |features|
  {
    if features == [] then 0
    else
      var n := |features| - 1;
      RoundedEnergy(features[..n], coefficients[..n], state) + (if features[n] <= state then coefficients[n] else 0)
  }

  /** At most half an atom for each parameter. */
  lemma {:induction false} RoundingErrorSmall(liquidity: nat, parameters: seq<real>)
    ensures 0.0 <= RoundingError(liquidity, parameters) <= |parameters| as real / 2.0
  {
    if parameters != [] {
      var n := |parameters| - 1;
      RoundingErrorSmall(liquidity, parameters[..n]);
      var exact := Exact(liquidity, parameters[n]);
      RoundedIsNearest(exact, Rounded(exact));
    }
  }

  /** The exact energy in atoms, less the rounded one. */
  function EnergyError(features: seq<set<nat>>, parameters: seq<real>, liquidity: nat, state: set<nat>): real
    requires |parameters| == |features|
  {
    Exact(liquidity, Energy(features, parameters, state))
    - RoundedEnergy(features, Coefficients(liquidity, parameters), state) as real
  }

  lemma EnergyErrorSnoc(features: seq<set<nat>>, parameters: seq<real>, liquidity: nat, state: set<nat>)
    requires |parameters| == |features| > 0
    ensures var n := |features| - 1; var exact := Exact(liquidity, parameters[n]);
      EnergyError(features, parameters, liquidity, state)
      == EnergyError(features[..n], parameters[..n], liquidity, state)
       + (if features[n] <= state then exact - Rounded(exact) as real else 0.0)
  {
    var n := |features| - 1;
    var before := Energy(features[..n], parameters[..n], state);
    var term := if features[n] <= state then parameters[n] else 0.0;
    DistributeSum(liquidity as real, before, term, Energy(features, parameters, state));
    assert Coefficients(liquidity, parameters)[..n] == Coefficients(liquidity, parameters[..n]);
  }

  /** Over all pairs of states the error spans at most the summed rounding errors. */
  lemma {:induction false} ErrorSpan(features: seq<set<nat>>, parameters: seq<real>, liquidity: nat, s: set<nat>,
                                     t: set<nat>)
    requires |parameters| == |features|
    ensures EnergyError(features, parameters, liquidity, s) - EnergyError(features, parameters, liquidity, t)
         <= RoundingError(liquidity, parameters)
  {
    if features != [] {
      var n := |features| - 1;
      ErrorSpan(features[..n], parameters[..n], liquidity, s, t);
      EnergyErrorSnoc(features, parameters, liquidity, s);
      EnergyErrorSnoc(features, parameters, liquidity, t);
    } else {
      assert Exact(liquidity, 0.0) == 0.0;
    }
  }

  function Zeros(n: nat): (r: seq<int>)
    ensures |r| == n && forall k :: 0 <= k < n ==> r[k] == 0
  {
    seq(n, k => 0)
  }

  /** A table that is zero except for its last entry, where every event of the scope happens. */
  function CoefficientTable(scope: set<nat>, coefficient: int): (t: Table)
    ensures Shaped(t) && t.scope == scope
  {
    Table(scope, Zeros(Pow2(|scope|) - 1) + [coefficient])
  }

  lemma {:induction false} ProjectFull(scope: set<nat>, state: set<nat>)
    ensures Project(scope, state) == Pow2(|scope|) - 1 <==> scope <= state
    decreases |scope|
  {
    if scope != {} {
      var e := Least(scope);
      ProjectFull(scope - {e}, state);
      assert scope == (scope - {e}) + {e};
    }
  }

  lemma CoefficientValue(scope: set<nat>, coefficient: int, state: set<nat>)
    ensures Value(CoefficientTable(scope, coefficient), state) == if scope <= state then coefficient else 0
  {
    ProjectFull(scope, state);
  }

  /** One table for every parameter that is not zero, also when its coefficient rounds to zero. */
  function CoefficientTables(features: seq<set<nat>>, parameters: seq<real>, coefficients: seq<int>): (r: seq<Table>)
    requires |coefficients| == |parameters| == |features|
  {
    if features == [] then []
    else
      var n := |features| - 1;
      CoefficientTables(features[..n], parameters[..n], coefficients[..n])
      + (if parameters[n] != 0.0 then [CoefficientTable(features[n], coefficients[n])] else [])
  }

  lemma {:induction false} CoefficientTablesShaped(features: seq<set<nat>>, parameters: seq<real>,
                                                   coefficients: seq<int>)
    requires |coefficients| == |parameters| == |features|
    ensures AllShaped(CoefficientTables(features, parameters, coefficients))
    ensures forall k :: 0 <= k < |CoefficientTables(features, parameters, coefficients)| ==>
      CoefficientTables(features, parameters, coefficients)[k].scope in features
  {
    if features != [] {
      var n := |features| - 1;
      CoefficientTablesShaped(features[..n], parameters[..n], coefficients[..n]);
      assert features == features[..n] + [features[n]];
    }
  }

  ghost predicate NoRepeats(features: seq<set<nat>>) {
    forall j, k :: 0 <= j < k < |features| ==> features[j] != features[k]
  }

  lemma {:induction false} CoefficientTablesDistinct(features: seq<set<nat>>, parameters: seq<real>,
                                                     coefficients: seq<int>)
    requires |coefficients| == |parameters| == |features| && NoRepeats(features)
    ensures Distinct(CoefficientTables(features, parameters, coefficients))
  {
    if features != [] {
      var n := |features| - 1;
      CoefficientTablesDistinct(features[..n], parameters[..n], coefficients[..n]);
      CoefficientTablesShaped(features[..n], parameters[..n], coefficients[..n]);
    }
  }

  lemma CoefficientTotalSnoc(features: seq<set<nat>>, parameters: seq<real>, coefficients: seq<int>, state: set<nat>)
    requires |coefficients| == |parameters| == |features| > 0
    requires parameters[|features| - 1] == 0.0 ==> coefficients[|features| - 1] == 0
    ensures var n := |features| - 1;
      var before := CoefficientTables(features[..n], parameters[..n], coefficients[..n]);
      var after := CoefficientTables(features, parameters, coefficients);
      AllShaped(before) && AllShaped(after)
      && Total(after, state) == Total(before, state) + (if features[n] <= state then coefficients[n] else 0)
  {
    var n := |features| - 1;
    var before := CoefficientTables(features[..n], parameters[..n], coefficients[..n]);
    var after := CoefficientTables(features, parameters, coefficients);
    CoefficientTablesShaped(features[..n], parameters[..n], coefficients[..n]);
    CoefficientTablesShaped(features, parameters, coefficients);
    CoefficientValue(features[n], coefficients[n], state);
    if parameters[n] != 0.0 {
      assert after == before + [CoefficientTable(features[n], coefficients[n])];
      assert after[..|after| - 1] == before;
    } else {
      assert after == before;
    }
  }

  lemma ZeroCoefficient(liquidity: nat)
    ensures Rounded(Exact(liquidity, 0.0)) == 0
  {
    assert Exact(liquidity, 0.0) == 0.0;
  }

  lemma {:induction false} CoefficientTotal(features: seq<set<nat>>, parameters: seq<real>, coefficients: seq<int>,
                                            state: set<nat>)
    requires |coefficients| == |parameters| == |features|
    requires forall k :: 0 <= k < |parameters| && parameters[k] == 0.0 ==> coefficients[k] == 0
    ensures AllShaped(CoefficientTables(features, parameters, coefficients))
    ensures Total(CoefficientTables(features, parameters, coefficients), state)
         == RoundedEnergy(features, coefficients, state)
  {
    if features != [] {
      var n := |features| - 1;
      CoefficientTotal(features[..n], parameters[..n], coefficients[..n], state);
      CoefficientTotalSnoc(features, parameters, coefficients, state);
    }
  }

  /** Where a scope is listed, or the length when it is not. */
  function Find(tables: seq<Table>, scope: set<nat>): (k: nat)
    ensures k <= |tables|
    ensures k < |tables| ==> tables[k].scope == scope
  {
    if tables == [] then 0
    else if tables[0].scope == scope then 0
    else 1 + Find(tables[1..], scope)
  }

  lemma {:induction false} FindMisses(tables: seq<Table>, scope: set<nat>, k: nat)
    requires k < |tables| && Find(tables, scope) == |tables|
    ensures tables[k].scope != scope
  {
    if k > 0 {
      FindMisses(tables[1..], scope, k - 1);
    }
  }

  function Minus(a: seq<int>, q: seq<int>): (r: seq<int>)
    requires |q| == |a|
    ensures |r| == |a|
    ensures forall k :: 0 <= k < |a| ==> r[k] == a[k] - q[k]
  {
    seq(|a|, k requires 0 <= k < |a| => a[k] - q[k])
  }

  /** The liabilities of one table are taken from the candidate's table of the same scope. */
  function Deduct(tables: seq<Table>, row: Table): (r: seq<Table>)
    requires AllShaped(tables) && Shaped(row)
    ensures AllShaped(r)
  {
    var k := Find(tables, row.scope);
    if k < |tables| then
      assert Shaped(tables[k]);
      tables[k := Table(row.scope, Minus(tables[k].values, row.values))]
    else tables + [Table(row.scope, Minus(Zeros(|row.values|), row.values))]
  }

  lemma DeductDistinct(tables: seq<Table>, row: Table)
    requires AllShaped(tables) && Shaped(row) && Distinct(tables)
    ensures Distinct(Deduct(tables, row))
    ensures forall k :: 0 <= k < |Deduct(tables, row)| ==>
      Deduct(tables, row)[k].scope == row.scope || Deduct(tables, row)[k].scope in ScopesOf(tables)
  {
    var r := Deduct(tables, row);
    forall j | 0 <= j < |tables| ensures tables[j].scope in ScopesOf(tables) {
      assert ScopesOf(tables)[j] == tables[j].scope;
    }
    if Find(tables, row.scope) == |tables| {
      forall j | 0 <= j < |tables| ensures r[j].scope != row.scope {
        FindMisses(tables, row.scope, j);
      }
    } else {
      forall j | 0 <= j < |tables| ensures r[j].scope == tables[j].scope {
      }
    }
  }

  lemma {:induction false} TotalUpdate(tables: seq<Table>, k: nat, t: Table, state: set<nat>)
    requires AllShaped(tables) && k < |tables| && Shaped(t)
    ensures AllShaped(tables[k := t]) && Shaped(tables[k])
    ensures Total(tables[k := t], state) == Total(tables, state) - Value(tables[k], state) + Value(t, state)
  {
    var n := |tables| - 1;
    if k < n {
      TotalUpdate(tables[..n], k, t, state);
      assert tables[k := t][..n] == tables[..n][k := t];
    } else {
      assert tables[k := t][..n] == tables[..n];
    }
  }

  lemma DeductTotal(tables: seq<Table>, row: Table, state: set<nat>)
    requires AllShaped(tables) && Shaped(row)
    ensures Total(Deduct(tables, row), state) == Total(tables, state) - Value(row, state)
  {
    var k := Find(tables, row.scope);
    var r := Deduct(tables, row);
    if k < |tables| {
      TotalUpdate(tables, k, r[k], state);
    } else {
      assert r[..|tables|] == tables;
    }
  }

  function DeductAll(tables: seq<Table>, rows: seq<Table>): (r: seq<Table>)
    requires AllShaped(tables) && AllShaped(rows)
    ensures AllShaped(r)
  {
    if rows == [] then tables
    else
      var n := |rows| - 1;
      Deduct(DeductAll(tables, rows[..n]), rows[n])
  }

  lemma {:induction false} DeductAllTotal(tables: seq<Table>, rows: seq<Table>, state: set<nat>)
    requires AllShaped(tables) && AllShaped(rows)
    ensures Total(DeductAll(tables, rows), state) == Total(tables, state) - Total(rows, state)
  {
    if rows != [] {
      var n := |rows| - 1;
      DeductAllTotal(tables, rows[..n], state);
      DeductTotal(DeductAll(tables, rows[..n]), rows[n], state);
    }
  }

  function Lowered(t: Table): (r: Table)
    requires Shaped(t)
    ensures Shaped(r) && r.scope == t.scope
  {
    var low := MinOf(t.values);
    Table(t.scope, seq(|t.values|, k requires 0 <= k < |t.values| => t.values[k] - low))
  }

  function LowerAll(tables: seq<Table>): (r: seq<Table>)
    requires AllShaped(tables)
    ensures |r| == |tables| && AllShaped(r)
  {
    seq(|tables|, k requires 0 <= k < |tables| => assert Shaped(tables[k]); Lowered(tables[k]))
  }

  /** What lowering takes off every state. */
  function Lows(tables: seq<Table>): int
    requires AllShaped(tables)
  {
    if tables == [] then 0
    else
      var n := |tables| - 1;
      assert Shaped(tables[n]);
      Lows(tables[..n]) + MinOf(tables[n].values)
  }

  lemma {:induction false} LowerAllTotal(tables: seq<Table>, state: set<nat>)
    requires AllShaped(tables)
    ensures Total(LowerAll(tables), state) == Total(tables, state) - Lows(tables)
  {
    if tables != [] {
      var n := |tables| - 1;
      LowerAllTotal(tables[..n], state);
      assert LowerAll(tables)[..n] == LowerAll(tables[..n]);
      assert Shaped(tables[n]);
    }
  }

  lemma LoweredIs(t: Table)
    requires Shaped(t)
    ensures IsMin(Lowered(t).values, 0)
  {
    MinOfIs(t.values);
    var r := Lowered(t).values;
    var k :| 0 <= k < |t.values| && t.values[k] == MinOf(t.values);
    assert r[k] == 0;
    forall v | v in r ensures 0 <= v {
      var j :| 0 <= j < |r| && r[j] == v;
      assert t.values[j] in t.values;
    }
  }

  /** Coefficients less liabilities. */
  function Raw(events: nat, parameters: seq<real>, liquidity: nat, actual: seq<Table>): (r: seq<Table>)
    requires |parameters| == |Features(events)| && AllShaped(actual)
    ensures AllShaped(r)
  {
    var coefficients := Coefficients(liquidity, parameters);
    CoefficientTablesShaped(Features(events), parameters, coefficients);
    DeductAll(CoefficientTables(Features(events), parameters, coefficients), actual)
  }

  function CandidateOf(events: nat, parameters: seq<real>, liquidity: nat, actual: seq<Table>): (r: seq<Table>)
    requires |parameters| == |Features(events)| && AllShaped(actual)
    ensures AllShaped(r)
  {
    LowerAll(Raw(events, parameters, liquidity, actual))
  }

  /** The liabilities cancel: what liabilities and candidate bias say of a state together is its rounded energy
      less a constant that no state changes. */
  lemma LiabilitiesCancel(events: nat, parameters: seq<real>, liquidity: nat, actual: seq<Table>, state: set<nat>)
    requires |parameters| == |Features(events)| && AllShaped(actual)
    ensures Total(actual, state) + Total(CandidateOf(events, parameters, liquidity, actual), state)
         == RoundedEnergy(Features(events), Coefficients(liquidity, parameters), state)
          - Lows(Raw(events, parameters, liquidity, actual))
  {
    var coefficients := Coefficients(liquidity, parameters);
    ZeroCoefficient(liquidity);
    CoefficientTotal(Features(events), parameters, coefficients, state);
    DeductAllTotal(CoefficientTables(Features(events), parameters, coefficients), actual, state);
    LowerAllTotal(Raw(events, parameters, liquidity, actual), state);
  }
}
