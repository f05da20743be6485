/** What a proposal holds, table by table, and what it takes to be accepted. */
module ProposalTerms {
  import opened Wrappers
  import opened RealFacts
  import opened Scopes
  import opened Width
  import opened Ising
  import opened FactorTables
  import opened Quantisation
  import opened Candidate
  import opened SetSums
  import opened Proposal
  import opened Builder
  import opened Acceptance

  // ---- Table by table ----

  /** The parameters of a scope, rounded to atoms: at most one feature has the scope. */
  function CoefficientAt(features: seq<set<nat>>, coefficients: seq<int>, scope: set<nat>): int
    requires |coefficients| == |features|
  {
    if features == [] then 0
    else
      var n := |features| - 1;
      CoefficientAt(features[..n], coefficients[..n], scope) + if features[n] == scope then coefficients[n] else 0
  }

  lemma {:induction false} CoefficientAtListed(features: seq<set<nat>>, coefficients: seq<int>, k: nat)
    requires |coefficients| == |features| && NoRepeats(features) && k < |features|
    ensures CoefficientAt(features, coefficients, features[k]) == coefficients[k]
  {
    var n := |features| - 1;
    if k < n {
      CoefficientAtListed(features[..n], coefficients[..n], k);
    } else {
      CoefficientAtMissing(features[..n], coefficients[..n], features[n]);
    }
  }

  lemma {:induction false} CoefficientAtMissing(features: seq<set<nat>>, coefficients: seq<int>, scope: set<nat>)
    requires |coefficients| == |features| && forall k :: 0 <= k < |features| ==> features[k] != scope
    ensures CoefficientAt(features, coefficients, scope) == 0
  {
    if features != [] {
      CoefficientAtMissing(features[..|features| - 1], coefficients[..|features| - 1], scope);
    }
  }

  lemma AtListed(tables: seq<Table>, k: nat, state: set<nat>)
    requires AllShaped(tables) && Distinct(tables) && k < |tables|
    ensures Shaped(tables[k]) && At(tables, tables[k].scope, state) == Value(tables[k], state)
  {
    if Find(tables, tables[k].scope) == |tables| {
      FindMisses(tables, tables[k].scope, k);
    }
  }

  lemma AtUpdate(tables: seq<Table>, k: nat, t: Table, scope: set<nat>, state: set<nat>)
    requires AllShaped(tables) && Distinct(tables) && k < |tables| && Shaped(t) && t.scope == tables[k].scope
    ensures At(tables[k := t], scope, state)
         == if scope == t.scope then Value(t, state) else At(tables, scope, state)
  {
    FindSame(tables, tables[k := t], scope);
    if scope == t.scope && Find(tables, scope) == |tables| {
      FindMisses(tables, scope, k);
    }
  }

  /** Where a scope is listed depends on the scopes alone. */
  lemma {:induction false} FindSame(one: seq<Table>, other: seq<Table>, scope: set<nat>)
    requires |other| == |one| && forall k :: 0 <= k < |one| ==> other[k].scope == one[k].scope
    ensures Find(other, scope) == Find(one, scope)
  {
    if one != [] {
      FindSame(one[1..], other[1..], scope);
    }
  }

  lemma {:induction false} CoefficientTablesAt(features: seq<set<nat>>, parameters: seq<real>, coefficients: seq<int>,
                                               scope: set<nat>, state: set<nat>)
    requires |coefficients| == |parameters| == |features| && NoRepeats(features)
    requires forall k :: 0 <= k < |parameters| && parameters[k] == 0.0 ==> coefficients[k] == 0
    ensures At(CoefficientTables(features, parameters, coefficients), scope, state)
         == if scope <= state then CoefficientAt(features, coefficients, scope) else 0
  {
    if features != [] {
      var n := |features| - 1;
      var before := CoefficientTables(features[..n], parameters[..n], coefficients[..n]);
      CoefficientTablesAt(features[..n], parameters[..n], coefficients[..n], scope, state);
      CoefficientTablesShaped(features[..n], parameters[..n], coefficients[..n]);
      CoefficientAtMissing(features[..n], coefficients[..n], features[n]);
      if parameters[n] != 0.0 {
        NewScope(before, features, n);
        AtSnoc(before, CoefficientTable(features[n], coefficients[n]), scope, state);
        CoefficientValue(features[n], coefficients[n], state);
      } else {
        assert before + [] == before;
      }
    }
  }

  lemma NewScope(before: seq<Table>, features: seq<set<nat>>, n: nat)
    requires n < |features| && NoRepeats(features)
    requires forall k :: 0 <= k < |before| ==> before[k].scope in features[..n]
    ensures features[n] !in ScopesOf(before)
  {
  }

  lemma DeductAt(tables: seq<Table>, row: Table, scope: set<nat>, state: set<nat>)
    requires AllShaped(tables) && Shaped(row) && Distinct(tables)
    ensures At(Deduct(tables, row), scope, state)
         == At(tables, scope, state) - if scope == row.scope then Value(row, state) else 0
  {
    var k := Find(tables, row.scope);
    var after := Deduct(tables, row);
    if k < |tables| {
      AtUpdate(tables, k, after[k], scope, state);
      AtListed(tables, k, state);
    } else {
      if row.scope in ScopesOf(tables) {
        var j :| 0 <= j < |tables| && tables[j].scope == row.scope;
        FindMisses(tables, row.scope, j);
      }
      AtSnoc(tables, after[|tables|], scope, state);
    }
  }

  lemma {:induction false} DeductAllDistinct(tables: seq<Table>, rows: seq<Table>)
    requires AllShaped(tables) && AllShaped(rows) && Distinct(tables)
    ensures Distinct(DeductAll(tables, rows))
  {
    if rows != [] {
      var n := |rows| - 1;
      DeductAllDistinct(tables, rows[..n]);
      DeductDistinct(DeductAll(tables, rows[..n]), rows[n]);
    }
  }

  lemma {:induction false} DeductAllAt(tables: seq<Table>, rows: seq<Table>, scope: set<nat>, state: set<nat>)
    requires AllShaped(tables) && AllShaped(rows) && Distinct(tables) && Distinct(rows)
    ensures At(DeductAll(tables, rows), scope, state) == At(tables, scope, state) - At(rows, scope, state)
  {
    if rows != [] {
      var rest, row := rows[..|rows| - 1], rows[|rows| - 1];
      DeductAllAt(tables, rest, scope, state);
      DeductStep(tables, rows, rest, row, DeductAll(tables, rest), scope, state);
      LastAt(rows, rest, row, scope, state);
    }
  }

  lemma DeductStep(tables: seq<Table>, rows: seq<Table>, rest: seq<Table>, row: Table, before: seq<Table>,
                   scope: set<nat>, state: set<nat>)
    requires AllShaped(tables) && AllShaped(rows) && Distinct(tables) && rows != []
    requires rest == rows[..|rows| - 1] && row == rows[|rows| - 1] && before == DeductAll(tables, rest)
    ensures Shaped(row)
    ensures At(DeductAll(tables, rows), scope, state)
         == At(before, scope, state) - if scope == row.scope then Value(row, state) else 0
  {
    DeductAllDistinct(tables, rest);
    DeductAt(before, row, scope, state);
  }

  lemma LastAt(rows: seq<Table>, rest: seq<Table>, row: Table, scope: set<nat>, state: set<nat>)
    requires rows == rest + [row] && AllShaped(rows) && Distinct(rows)
    ensures AllShaped(rest) && Shaped(row)
    ensures At(rows, scope, state) == At(rest, scope, state) + if scope == row.scope then Value(row, state) else 0
  {
    assert rows[|rest|] == row;
    assert forall k :: 0 <= k < |rest| ==> rest[k] == rows[k];
    AtSnoc(rest, row, scope, state);
  }

  /** Each table of a proposal holds the rounded parameter of its scope where every event of it happens, less the
      liabilities of its scope, shifted so that its least entry is zero. */
  ghost predicate IsTerm(model: IsingModel, s: Snapshot, t: Table, low: int)
    requires |model.parameters| == |Features(s.events)| && Shaped(t)
  {
    && IsMin(t.values, 0)
    && forall state: set<nat> ::
         Value(t, state)
         == (if t.scope <= state
             then CoefficientAt(Features(s.events), Coefficients(s.liquidity, model.parameters), t.scope) else 0)
            - At(s.factors, t.scope, state) - low
  }

  lemma RawAt(model: IsingModel, s: Snapshot, scope: set<nat>, state: set<nat>)
    requires |model.parameters| == |Features(s.events)| && AllShaped(s.factors) && Distinct(s.factors)
    ensures Distinct(Raw(s.events, model.parameters, s.liquidity, s.factors))
    ensures At(Raw(s.events, model.parameters, s.liquidity, s.factors), scope, state)
         == (if scope <= state
             then CoefficientAt(Features(s.events), Coefficients(s.liquidity, model.parameters), scope) else 0)
            - At(s.factors, scope, state)
  {
    var features, p, c := Features(s.events), model.parameters, Coefficients(s.liquidity, model.parameters);
    FeaturesNoRepeats(s.events);
    ZeroCoefficient(s.liquidity);
    CoefficientTablesShaped(features, p, c);
    CoefficientTablesDistinct(features, p, c);
    CoefficientTablesAt(features, p, c, scope, state);
    DeductAllDistinct(CoefficientTables(features, p, c), s.factors);
    DeductAllAt(CoefficientTables(features, p, c), s.factors, scope, state);
  }

  lemma LoweredValue(t: Table, state: set<nat>)
    requires Shaped(t)
    ensures Value(Lowered(t), state) == Value(t, state) - MinOf(t.values)
  {
  }

  lemma ProposedTerm(model: IsingModel, s: Snapshot, bias: seq<Table>, t: Table)
    requires Proposed(model, s, bias) && Distinct(s.factors) && t in bias
    ensures Shaped(t) && exists low :: IsTerm(model, s, t, low)
  {
    var raw := Raw(s.events, model.parameters, s.liquidity, s.factors);
    InMultiset(bias, LowerAll(raw), t);
    var k :| 0 <= k < |raw| && LowerAll(raw)[k] == t;
    assert Shaped(raw[k]);
    LoweredIs(raw[k]);
    var low := MinOf(raw[k].values);
    forall state: set<nat> ensures
      Value(t, state) == (if t.scope <= state
                          then CoefficientAt(Features(s.events), Coefficients(s.liquidity, model.parameters), t.scope)
                          else 0)
                         - At(s.factors, t.scope, state) - low
    {
      RawAt(model, s, t.scope, state);
      AtListed(raw, k, state);
      LoweredValue(raw[k], state);
    }
    assert IsTerm(model, s, t, low);
  }

  // ---- Which scopes are proposed ----

  lemma {:induction false} CoefficientScopes(features: seq<set<nat>>, parameters: seq<real>, coefficients: seq<int>,
                                             scope: set<nat>)
    requires |coefficients| == |parameters| == |features|
    ensures scope in ScopesOf(CoefficientTables(features, parameters, coefficients))
       <==> exists k :: 0 <= k < |features| && features[k] == scope && parameters[k] != 0.0
  {
    if features != [] {
      var n := |features| - 1;
      var before := CoefficientTables(features[..n], parameters[..n], coefficients[..n]);
      CoefficientScopes(features[..n], parameters[..n], coefficients[..n], scope);
      forall k | 0 <= k < n ensures features[..n][k] == features[k] && parameters[..n][k] == parameters[k] {
      }
      if parameters[n] != 0.0 {
        ScopesSnoc(before, CoefficientTable(features[n], coefficients[n]));
      } else {
        assert before + [] == before;
      }
    }
  }

  lemma ScopesSnoc(tables: seq<Table>, t: Table)
    ensures ScopesOf(tables + [t]) == ScopesOf(tables) + [t.scope]
  {
  }

  lemma DeductScope(tables: seq<Table>, row: Table, scope: set<nat>)
    requires AllShaped(tables) && Shaped(row)
    ensures scope in ScopesOf(Deduct(tables, row)) <==> scope in ScopesOf(tables) || scope == row.scope
  {
    var k := Find(tables, row.scope);
    var after := Deduct(tables, row);
    if k < |tables| {
      assert ScopesOf(after) == ScopesOf(tables);
      assert ScopesOf(tables)[k] == row.scope;
    } else {
      ScopesSnoc(tables, after[|tables|]);
    }
  }

  lemma {:induction false} DeductAllScope(tables: seq<Table>, rows: seq<Table>, scope: set<nat>)
    requires AllShaped(tables) && AllShaped(rows)
    ensures scope in ScopesOf(DeductAll(tables, rows)) <==> scope in ScopesOf(tables) || scope in ScopesOf(rows)
  {
    if rows != [] {
      var n := |rows| - 1;
      DeductAllScope(tables, rows[..n], scope);
      DeductScope(DeductAll(tables, rows[..n]), rows[n], scope);
      assert rows == rows[..n] + [rows[n]];
      ScopesSnoc(rows[..n], rows[n]);
    }
  }

  /** A proposal has a table for every feature with a parameter other than zero, also when it rounds to zero, and for
      every scope of the liabilities, and no other. */
  lemma ProposedScopes(model: IsingModel, s: Snapshot, bias: seq<Table>, scope: set<nat>)
    requires Proposed(model, s, bias)
    ensures (exists t :: t in bias && t.scope == scope) <==>
              || (exists k :: 0 <= k < |model.parameters| && Features(s.events)[k] == scope
                              && model.parameters[k] != 0.0)
              || scope in ScopesOf(s.factors)
  {
    var features, p, c := Features(s.events), model.parameters, Coefficients(s.liquidity, model.parameters);
    var raw := Raw(s.events, p, s.liquidity, s.factors);
    CoefficientTablesShaped(features, p, c);
    CoefficientScopes(features, p, c, scope);
    DeductAllScope(CoefficientTables(features, p, c), s.factors, scope);
    assert ScopesOf(LowerAll(raw)) == ScopesOf(raw);
    if scope in ScopesOf(raw) {
      var k :| 0 <= k < |raw| && ScopesOf(LowerAll(raw))[k] == scope;
      InMultiset(bias, LowerAll(raw), LowerAll(raw)[k]);
    }
    if t :| t in bias && t.scope == scope {
      InMultiset(bias, LowerAll(raw), t);
      var k :| 0 <= k < |raw| && LowerAll(raw)[k] == t;
      assert ScopesOf(LowerAll(raw))[k] == scope;
    }
  }

  // ---- What it takes to be accepted ----

  /** A pool with six decimals takes liquidities from one atom to 10^15. */
  lemma SixDecimals(liquidity: nat)
    ensures Builder.LiquidityOk(liquidity, 18 - 6) <==> 1 <= liquidity <= 1000000000000000
  {
    assert Pow10(3) == 1000;
    assert Pow10(6) == 1000000;
    assert Pow10(9) == 1000000000;
    assert Pow10(12) == 1000000000000;
  }

  lemma ParametersWithin(parameters: seq<real>)
    ensures (exists p | p in parameters :: p < -12.0 || p > 12.0)
       <==> !forall k :: 0 <= k < |parameters| ==> -12.0 <= parameters[k] <= 12.0
  {
    forall k | 0 <= k < |parameters| ensures parameters[k] in parameters {
    }
  }

  /** The terms of the snapshot are turned away by no check. */
  lemma SnapshotMeans(s: Snapshot, deadline: nat, tolerance: real)
    ensures SnapshotFault(s, deadline, tolerance) == None <==>
              && |s.order| == s.events && (forall e: nat :: e in s.order <==> e < s.events)
              && s.decimals <= 18
              && 1000000000000 <= s.liquidity * Pow10(18 - s.decimals) <= 1000000000000000000000000000
              && s.timestamp < deadline < s.closesAt
              && 0 < s.maxBiasMovement <= s.liquidity
              && 0.0 <= tolerance <= 1.0
  {
    OrderMeans(s.order, s.events);
  }

  lemma CountMeans(model: IsingModel)
    ensures WellFormed(model) <==>
              1 <= model.events <= 8 && 2 * |model.parameters| == model.events * (model.events + 1)
  {
    FeatureCount(model.events);
  }

  /** The model is turned away by no check. */
  lemma ModelMeans(model: IsingModel)
    requires 1 <= model.events <= 8
    ensures ModelFault(model) == None <==>
              && 2 * |model.parameters| == model.events * (model.events + 1)
              && (forall k :: 0 <= k < |model.parameters| ==> -12.0 <= model.parameters[k] <= 12.0)
              && (WellFormed(model) ==> !SpreadOver(model, 24.0))
  {
    CountMeans(model);
    ParametersWithin(model.parameters);
    if WellFormed(model) {
      SpanMeans(model, 24.0);
    }
  }

  lemma InputMeans(model: IsingModel, s: Snapshot, deadline: nat, tolerance: real)
    ensures InputFault(model, s, deadline, tolerance) == None <==>
              && 1 <= model.events <= 8 && s.events == model.events
              && SnapshotFault(s, deadline, tolerance) == None && ModelFault(model) == None
  {
  }

  lemma OrderMeans(order: seq<nat>, events: nat)
    ensures Elements(order) == Range(events) <==> forall e: nat :: e in order <==> e < events
  {
    forall e: nat ensures e in Elements(order) <==> e in order {
    }
  }

  /** The error span is within the tolerance: E / (1 - E) is, or anything is. */
  lemma BoundMeans(span: real, tolerance: real)
    requires 0.0 <= span && 0.0 <= tolerance <= 1.0
    ensures AcceptedBound(span) <= tolerance <==> tolerance == 1.0 || (span < 1.0 && span <= tolerance * (1.0 - span))
  {
    if span < 1.0 {
      var rest := 1.0 - span;
      OrderedFactor(span / rest, tolerance, rest, span, rest * tolerance);
      Cancel(span, rest);
    }
  }

  /** The largest difference that two states see in the change of one scope's table. */
  ghost predicate IsSpread(bias: seq<Table>, previous: seq<Table>, scope: set<nat>, most: int) {
    && (exists s: set<nat>, t: set<nat> :: Spread(bias, previous, scope, s, t) == most)
    && (forall s: set<nat>, t: set<nat> :: Spread(bias, previous, scope, s, t) <= most)
  }

  function Spread(bias: seq<Table>, previous: seq<Table>, scope: set<nat>, s: set<nat>, t: set<nat>): int {
    (At(bias, scope, s) - At(previous, scope, s)) - (At(bias, scope, t) - At(previous, scope, t))
  }

  lemma SpanIsSpread(bias: seq<Table>, previous: seq<Table>, scope: set<nat>)
    ensures IsSpread(bias, previous, scope, Span(Delta(bias, previous, scope)))
  {
    var delta := Delta(bias, previous, scope);
    MaxOfIs(delta);
    MinOfIs(delta);
    var i :| 0 <= i < |delta| && delta[i] == MaxOf(delta);
    var j :| 0 <= j < |delta| && delta[j] == MinOf(delta);
    ProjectExpand(scope, i);
    ProjectExpand(scope, j);
    assert Spread(bias, previous, scope, Expand(scope, i), Expand(scope, j)) == Span(delta);
    forall s: set<nat>, t: set<nat> ensures Spread(bias, previous, scope, s, t) <= Span(delta) {
      WithinTheSpan(delta, Project(scope, s), Project(scope, t));
    }
  }

  /** The movement adds up, over the scopes of both biases, the largest difference that two states see. */
  lemma MovementMeans(bias: seq<Table>, previous: seq<Table>, f: set<nat> -> int)
    requires forall scope :: IsSpread(bias, previous, scope, f(scope))
    ensures Movement(bias, previous) == SumOver(Keys(bias, previous), f)
    ensures forall scope :: scope in Keys(bias, previous) <==> scope in ScopesOf(bias) || scope in ScopesOf(previous)
  {
    var g := scope => Span(Delta(bias, previous, scope));
    forall scope ensures f(scope) == g(scope) {
      SpanIsSpread(bias, previous, scope);
    }
    SumOverSame(Keys(bias, previous), f, g);
  }

  /** One to three events of the pool, an entry of 128 bits for each of their joint states. */
  predicate RowFits(t: Table, events: nat) {
    && 1 <= |t.scope| <= 3 && t.scope <= Range(events)
    && |t.values| == Pow2(|t.scope|)
    && forall v :: v in t.values ==> 0 <= v < 0x1_0000_0000_0000_0000_0000_0000_0000_0000
  }

  lemma RowMeans(t: Table, events: nat)
    ensures RowOk(t, events) <==> RowFits(t, events)
  {
    assert t.scope == {} <==> |t.scope| == 0;
  }

  /** Ascending scopes, and a zero in every table. */
  ghost predicate CanonicalFits(rows: seq<Table>, events: nat) {
    && (forall j, k :: 0 <= j < k < |rows| ==> Number(events, rows[j].scope) < Number(events, rows[k].scope))
    && forall k :: 0 <= k < |rows| ==> 0 in rows[k].values
  }

  lemma CanonicalMeans(rows: seq<Table>, events: nat)
    requires forall k :: 0 <= k < |rows| ==> RowFits(rows[k], events)
    ensures Ascending(rows, events) && (forall k :: 0 <= k < |rows| ==> IsMin(rows[k].values, 0))
       <==> CanonicalFits(rows, events)
  {
  }

  /** The rows of a snapshot fit and have distinct scopes; a bias is canonical besides. */
  lemma TablesMean(rows: seq<Table>, events: nat, canonical: bool)
    ensures TablesOk(rows, events, canonical) <==>
              && |rows| <= 64
              && (forall k :: 0 <= k < |rows| ==> RowFits(rows[k], events))
              && (forall j, k :: 0 <= j < k < |rows| ==> rows[j].scope != rows[k].scope)
              && (canonical ==> CanonicalFits(rows, events))
  {
    forall k | 0 <= k < |rows| ensures RowOk(rows[k], events) <==> RowFits(rows[k], events) {
      RowMeans(rows[k], events);
    }
    if forall k :: 0 <= k < |rows| ==> RowFits(rows[k], events) {
      CanonicalMeans(rows, events);
    }
  }

  /** One entry of every table. */
  ghost predicate PicksFrom(tables: seq<Table>, picks: seq<int>) {
    |picks| == |tables| && forall k :: 0 <= k < |tables| ==> picks[k] in tables[k].values
  }

  function PickedSum(picks: seq<int>): int {
    if picks == [] then 0 else PickedSum(picks[..|picks| - 1]) + picks[|picks| - 1]
  }

  lemma {:induction false} PicksBelowMaxima(tables: seq<Table>, picks: seq<int>)
    requires PicksFrom(tables, picks) && forall k :: 0 <= k < |tables| ==> tables[k].values != []
    ensures PickedSum(picks) <= Maxima(tables)
  {
    if tables != [] {
      var n := |tables| - 1;
      MaxOfIs(tables[n].values);
      PicksBelowMaxima(tables[..n], picks[..n]);
    }
  }

  lemma {:induction false} MaximaReached(tables: seq<Table>) returns (picks: seq<int>)
    requires forall k :: 0 <= k < |tables| ==> tables[k].values != []
    ensures PicksFrom(tables, picks) && PickedSum(picks) == Maxima(tables)
  {
    if tables == [] {
      picks := [];
    } else {
      var n := |tables| - 1;
      MaxOfIs(tables[n].values);
      var before := MaximaReached(tables[..n]);
      picks := before + [MaxOf(tables[n].values)];
      assert picks[..n] == before;
    }
  }

  /** However one entry is picked from every table of both graphs, the entries stay within the numeric domain. */
  ghost predicate WithinDomain(actual: seq<Table>, bias: seq<Table>, liquidity: nat) {
    forall a, b :: PicksFrom(actual, a) && PicksFrom(bias, b) ==> PickedSum(a) + PickedSum(b) <= 100 * liquidity
  }

  /** A combined graph is accepted exactly when it has at most 64 tables, no choice of entries passes the numeric
      domain, and the pricing engine accepts its width. */
  lemma GraphMeans(order: seq<nat>, actual: seq<Table>, bias: seq<Table>, liquidity: nat)
    requires forall k :: 0 <= k < |actual| ==> actual[k].values != []
    requires forall k :: 0 <= k < |bias| ==> bias[k].values != []
    ensures GraphOk(order, actual, bias, liquidity) <==>
              && |actual| + |bias| <= 64 && WithinDomain(actual, bias, liquidity)
              && WidthFrom(ScopesOf(actual) + ScopesOf(bias), order, 0).Width?
  {
    WidthMeaning(ScopesOf(actual) + ScopesOf(bias), order);
    var a := MaximaReached(actual);
    var b := MaximaReached(bias);
    forall c, d | PicksFrom(actual, c) && PicksFrom(bias, d)
      ensures PickedSum(c) <= Maxima(actual) && PickedSum(d) <= Maxima(bias)
    {
      PicksBelowMaxima(actual, c);
      PicksBelowMaxima(bias, d);
    }
  }

  lemma BelowWordMeans(tables: seq<Table>)
    ensures BelowWord(tables) <==>
              forall k, v :: 0 <= k < |tables| && v in tables[k].values ==>
                v < 0x1_0000_0000_0000_0000_0000_0000_0000_0000
  {
  }

  /** A proposal whose input is well formed is accepted exactly when the snapshot's graph is, the candidate fits its
      words, is priced by the engine beside the liabilities, moves the old bias no further than allowed, and rounds
      within the tolerance. */
  lemma RefusalMeans(model: IsingModel, s: Snapshot, deadline: nat, tolerance: real, candidate: seq<Table>)
    requires InputFault(model, s, deadline, tolerance) == None && AllShaped(s.factors) && AllShaped(s.biasFactors)
    requires TablesOk(s.factors, s.events, false) && TablesOk(s.biasFactors, s.events, true)
    requires candidate == CandidateOf(s.events, model.parameters, s.liquidity, s.factors)
    ensures (forall k :: 0 <= k < |s.factors| ==> s.factors[k].values != [])
            && (forall k :: 0 <= k < |s.biasFactors| ==> s.biasFactors[k].values != [])
            && forall k :: 0 <= k < |candidate| ==> candidate[k].values != []
    ensures Refusal(model, s, deadline, tolerance) == None <==>
              && GraphOk(s.order, s.factors, s.biasFactors, s.liquidity)
              && BelowWord(candidate)
              && GraphOk(s.order, s.factors, candidate, s.liquidity)
              && Movement(candidate, s.biasFactors) <= s.maxBiasMovement
              && AcceptedBound(EnergySpan(model, s)) <= tolerance
  {
    ShapedNonempty(s.factors);
    ShapedNonempty(s.biasFactors);
    ShapedNonempty(candidate);
  }

  /** What is not well formed is never accepted. */
  lemma AcceptedIsWellFormed(model: IsingModel, s: Snapshot, deadline: nat, tolerance: real)
    requires Refusal(model, s, deadline, tolerance) == None
    ensures InputFault(model, s, deadline, tolerance) == None
    ensures TablesOk(s.factors, s.events, false) && TablesOk(s.biasFactors, s.events, true)
  {
  }

  // ---- Which fault is named ----

  /** Each fault of the snapshot's terms is the first check that fails. */
  lemma SnapshotFaultIsFirst(s: Snapshot, deadline: nat, tolerance: real)
    ensures var fault := SnapshotFault(s, deadline, tolerance);
            var order := OrderOk(s.order, s.events);
            var liquid := order && s.decimals <= 18 && Builder.LiquidityOk(s.liquidity, 18 - s.decimals);
            var timely := liquid && s.timestamp < deadline < s.closesAt;
            var movable := timely && 0 < s.maxBiasMovement <= s.liquidity;
            && (fault == Some(BadOrder) <==> !order)
            && (fault == Some(BadDecimals) <==> order && s.decimals > 18)
            && (fault == Some(BadLiquidity) <==> order && s.decimals <= 18 && !liquid)
            && (fault == Some(BadDeadline) <==> liquid && !timely)
            && (fault == Some(BadMovementPolicy) <==> timely && !movable)
            && (fault == Some(BadTolerance) <==> movable && !(0.0 <= tolerance <= 1.0))
  {
  }

  /** Each fault of the input is the first check that fails: events, then the terms, then the model. */
  lemma InputFaultIsFirst(model: IsingModel, s: Snapshot, deadline: nat, tolerance: real)
    ensures var fault := InputFault(model, s, deadline, tolerance);
            var counted := 1 <= model.events <= 8 && s.events == model.events;
            var passes := counted && SnapshotFault(s, deadline, tolerance) == None;
            && (fault == Some(BadEvents) <==> !counted)
            && (fault == Some(BadParameterCount) <==> passes && !WellFormed(model))
            && (fault == Some(ParameterOutOfDomain) <==>
                  passes && WellFormed(model)
                  && !forall k :: 0 <= k < |model.parameters| ==> -12.0 <= model.parameters[k] <= 12.0)
            && (fault == Some(EnergySpanExceeded) ==>
                  passes && WellFormed(model) && SpreadOver(model, 24.0)
                  && forall k :: 0 <= k < |model.parameters| ==> -12.0 <= model.parameters[k] <= 12.0)
  {
    ParametersWithin(model.parameters);
    SnapshotFaultIsFirst(s, deadline, tolerance);
    if WellFormed(model) {
      SpanMeans(model, 24.0);
    }
  }

  /** Then the factors and the bias are looked at. */
  lemma TablesFaultIsFirst(model: IsingModel, s: Snapshot, deadline: nat, tolerance: real)
    requires InputFault(model, s, deadline, tolerance) == None
    ensures Refusal(model, s, deadline, tolerance) == Some(BadFactors) <==> !TablesOk(s.factors, s.events, false)
    ensures Refusal(model, s, deadline, tolerance) == Some(BadBias) <==>
              TablesOk(s.factors, s.events, false) && !TablesOk(s.biasFactors, s.events, true)
  {
  }

  /** The later faults come in this order: the graph, overflow, the new graph, movement, tolerance. */
  lemma CandidateFaultIsFirst(graph: bool, fits: bool, priced: bool, near: bool, close: bool)
    ensures var fault := CandidateFault(graph, fits, priced, near, close);
            && (fault == Some(BadGraph) <==> !graph)
            && (fault == Some(BiasOverflow) <==> graph && !fits)
            && (fault == Some(BadCandidateGraph) <==> graph && fits && !priced)
            && (fault == Some(MovementExceeded) <==> graph && fits && priced && !near)
            && (fault == Some(ToleranceExceeded) <==> graph && fits && priced && near && !close)
            && (fault == None <==> graph && fits && priced && near && close)
  {
  }
}
