/** The builder itself (build_learning_proposal.py, `build`): its order of checks, and the guarantees of an
    accepted proposal. */
module Builder {
  import opened Wrappers
  import opened RealFacts
  import opened Scopes
  import opened Width
  import opened Distributions
  import opened Ising
  import opened FactorTables
  import opened Quantisation
  import opened Candidate
  import opened Proposal

  // Output order: ascending scope masks.

  function Insert(t: Table, tables: seq<Table>, n: nat): (r: seq<Table>)
    ensures multiset(r) == multiset(tables) + multiset{t}
  {
    if tables == [] || Number(n, t.scope) < Number(n, tables[0].scope) then [t] + tables
    else
      assert tables == [tables[0]] + tables[1..];
      [tables[0]] + Insert(t, tables[1..], n)
  }

  function Sorted(tables: seq<Table>, n: nat): (r: seq<Table>)
    ensures multiset(r) == multiset(tables)
  {
    if tables == [] then []
    else
      assert tables == [tables[0]] + tables[1..];
      Insert(tables[0], Sorted(tables[1..], n), n)
  }

  lemma NumberInjective(n: nat, s: set<nat>, t: set<nat>)
    requires s <= Range(n) && t <= Range(n) && Number(n, s) == Number(n, t)
    ensures s == t
  {
    StatesAreNumbered(n);
    assert States(n, {})[Number(n, s)] == s && States(n, {})[Number(n, t)] == t;
  }

  lemma InMultiset(a: seq<Table>, b: seq<Table>, t: Table)
    requires multiset(a) == multiset(b)
    ensures t in a <==> t in b
  {
    assert t in multiset(a) <==> t in multiset(b);
  }

  lemma {:induction false} InsertAscending(t: Table, tables: seq<Table>, n: nat)
    requires Ascending(tables, n) && forall u | u in tables :: Number(n, u.scope) != Number(n, t.scope)
    ensures Ascending(Insert(t, tables, n), n)
  {
    if tables != [] {
      var head, tail := tables[0], tables[1..];
      forall u | u in tail ensures Number(n, head.scope) < Number(n, u.scope) {
        var k :| 0 <= k < |tail| && tail[k] == u;
        assert tables[k + 1] == u;
      }
      if Number(n, t.scope) < Number(n, head.scope) {
        AscendingCons(t, tables, n);
      } else {
        InsertAscending(t, tail, n);
        var rest := Insert(t, tail, n);
        forall u | u in rest ensures Number(n, head.scope) < Number(n, u.scope) {
          assert u in multiset(rest);
          assert u == t || u in multiset(tail);
        }
        AscendingCons(head, rest, n);
      }
    }
  }

  lemma AscendingCons(t: Table, tables: seq<Table>, n: nat)
    requires Ascending(tables, n) && forall u | u in tables :: Number(n, t.scope) < Number(n, u.scope)
    ensures Ascending([t] + tables, n)
  {
    var more := [t] + tables;
    forall j, k | 0 <= j < k < |more| ensures Number(n, more[j].scope) < Number(n, more[k].scope) {
      assert more[k] == tables[k - 1];
      if j > 0 {
        assert more[j] == tables[j - 1];
      }
    }
  }

  lemma {:induction false} SortedAscending(tables: seq<Table>, n: nat)
    requires Distinct(tables) && forall t | t in tables :: t.scope <= Range(n)
    ensures Ascending(Sorted(tables, n), n)
  {
    if tables != [] {
      var t, tail := tables[0], tables[1..];
      SortedAscending(tail, n);
      forall u | u in Sorted(tail, n) ensures Number(n, u.scope) != Number(n, t.scope) {
        InMultiset(Sorted(tail, n), tail, u);
        var k :| 0 <= k < |tail| && tail[k] == u;
        assert tables[k + 1] == u;
        if Number(n, u.scope) == Number(n, t.scope) {
          NumberInjective(n, u.scope, t.scope);
        }
      }
      InsertAscending(t, Sorted(tail, n), n);
    }
  }

  lemma {:induction false} TotalCons(t: Table, tables: seq<Table>, state: set<nat>)
    requires Shaped(t) && AllShaped(tables)
    ensures AllShaped([t] + tables) && Total([t] + tables, state) == Value(t, state) + Total(tables, state)
  {
    var more := [t] + tables;
    if tables == [] {
      assert more[..0] == [];
    } else {
      var n := |tables| - 1;
      TotalCons(t, tables[..n], state);
      assert more[..n + 1] == [t] + tables[..n];
    }
  }

  /** A table that goes after the head: the total of the tail is all that changes. */
  lemma TotalTail(head: Table, tail: seq<Table>, longer: seq<Table>, tables: seq<Table>, state: set<nat>, more: int)
    requires Shaped(head) && AllShaped(tail) && AllShaped(longer) && Total(longer, state) == more + Total(tail, state)
    requires tables == [head] + tail
    ensures AllShaped([head] + longer) && AllShaped(tables)
    ensures Total([head] + longer, state) == more + Total(tables, state)
  {
    TotalCons(head, tail, state);
    TotalCons(head, longer, state);
  }

  lemma {:induction false} InsertTotal(t: Table, tables: seq<Table>, n: nat, state: set<nat>)
    requires Shaped(t) && AllShaped(tables)
    ensures AllShaped(Insert(t, tables, n))
    ensures Total(Insert(t, tables, n), state) == Value(t, state) + Total(tables, state)
  {
    if tables == [] || Number(n, t.scope) < Number(n, tables[0].scope) {
      TotalCons(t, tables, state);
    } else {
      InsertTotal(t, tables[1..], n, state);
      TotalTail(tables[0], tables[1..], Insert(t, tables[1..], n), tables, state, Value(t, state));
    }
  }

  /** Sorting the tables changes what they say of no state. */
  lemma {:induction false} SortedTotal(tables: seq<Table>, n: nat, state: set<nat>)
    requires AllShaped(tables)
    ensures AllShaped(Sorted(tables, n)) && Total(Sorted(tables, n), state) == Total(tables, state)
  {
    if tables != [] {
      var head, tail := tables[0], tables[1..];
      assert tables == [head] + tail;
      SortedTotal(tail, n, state);
      InsertTotal(head, Sorted(tail, n), n, state);
      TotalCons(head, tail, state);
    }
  }

  // Scopes of the candidate.

  ghost predicate FromFeaturesOrRows(tables: seq<Table>, features: seq<set<nat>>, rows: seq<Table>) {
    forall k :: 0 <= k < |tables| ==> tables[k].scope in features || tables[k].scope in ScopesOf(rows)
  }

  lemma {:induction false} DeductAllScopes(tables: seq<Table>, rows: seq<Table>, features: seq<set<nat>>)
    requires AllShaped(tables) && AllShaped(rows) && Distinct(tables)
    requires forall k :: 0 <= k < |tables| ==> tables[k].scope in features
    ensures Distinct(DeductAll(tables, rows))
    ensures FromFeaturesOrRows(DeductAll(tables, rows), features, rows)
  {
    if rows != [] {
      var n := |rows| - 1;
      var before := DeductAll(tables, rows[..n]);
      DeductAllScopes(tables, rows[..n], features);
      DeductDistinct(before, rows[n]);
      DeductScopes(before, rows, features);
    }
  }

  lemma DeductScopes(before: seq<Table>, rows: seq<Table>, features: seq<set<nat>>)
    requires rows != [] && AllShaped(before) && AllShaped(rows) && Distinct(before)
    requires FromFeaturesOrRows(before, features, rows[..|rows| - 1])
    ensures FromFeaturesOrRows(Deduct(before, rows[|rows| - 1]), features, rows)
  {
    var n := |rows| - 1;
    var after := Deduct(before, rows[n]);
    DeductDistinct(before, rows[n]);
    forall k | 0 <= k < |after| ensures after[k].scope in features || after[k].scope in ScopesOf(rows) {
      if after[k].scope == rows[n].scope {
        assert ScopesOf(rows)[n] == rows[n].scope;
      } else {
        var j :| 0 <= j < |before| && ScopesOf(before)[j] == after[k].scope;
        assert before[j].scope in features || before[j].scope in ScopesOf(rows[..n]);
        assert ScopesOf(rows) == ScopesOf(rows[..n]) + [rows[n].scope];
      }
    }
  }

  lemma CandidateScopes(events: nat, parameters: seq<real>, liquidity: nat, actual: seq<Table>)
    requires |parameters| == |Features(events)| && AllShaped(actual)
    ensures Distinct(CandidateOf(events, parameters, liquidity, actual))
    ensures FromFeaturesOrRows(CandidateOf(events, parameters, liquidity, actual), Features(events), actual)
  {
    var coefficients := Coefficients(liquidity, parameters);
    var tables := CoefficientTables(Features(events), parameters, coefficients);
    FeaturesNoRepeats(events);
    CoefficientTablesShaped(Features(events), parameters, coefficients);
    CoefficientTablesDistinct(Features(events), parameters, coefficients);
    DeductAllScopes(tables, actual, Features(events));
    var raw := Raw(events, parameters, liquidity, actual);
    var lowered := CandidateOf(events, parameters, liquidity, actual);
    assert forall k :: 0 <= k < |raw| ==> lowered[k].scope == raw[k].scope;
  }

  // The checks, in order.

  function Pow10(n: nat): nat {
    if n == 0 then 1 else 10 * Pow10(n - 1)
  }

  predicate OrderOk(order: seq<nat>, events: nat) {
    |order| == events && Elements(order) == Range(events)
  }

  /** 10^12 <= liquidity 10^(18 - decimals) <= 10^27. */
  predicate LiquidityOk(liquidity: nat, shift: nat) {
    1000000000000 <= liquidity * Pow10(shift) <= 1000000000000000000000000000
  }

  /** Why the snapshot's terms are turned away, in the order of the checks. */
  function SnapshotFault(s: Snapshot, deadline: nat, tolerance: real): (fault: Option<Fault>)
    ensures fault == None ==> s.liquidity > 0
  {
    if !OrderOk(s.order, s.events) then Some(BadOrder)
    else if s.decimals > 18 then Some(BadDecimals)
    else if !LiquidityOk(s.liquidity, 18 - s.decimals) then Some(BadLiquidity)
    else if !(s.timestamp < deadline < s.closesAt) then Some(BadDeadline)
    else if !(0 < s.maxBiasMovement <= s.liquidity) then Some(BadMovementPolicy)
    else if !(0.0 <= tolerance <= 1.0) then Some(BadTolerance)
    else None
  }

  /** Why the model is turned away, in the order of the checks. */
  function ModelFault(model: IsingModel): (fault: Option<Fault>)
    requires 1 <= model.events <= 8
    ensures fault == None ==> WellFormed(model)
  {
    if !WellFormed(model) then Some(BadParameterCount)
    else if exists p | p in model.parameters :: p < -12.0 || p > 12.0 then Some(ParameterOutOfDomain)
    else if Highest(ModelEnergies(model)) - Lowest(ModelEnergies(model)) > 24.0 then Some(EnergySpanExceeded)
    else None
  }

  function InputFault(model: IsingModel, s: Snapshot, deadline: nat, tolerance: real): (fault: Option<Fault>)
    ensures fault == None ==> s.liquidity > 0 && WellFormed(model) && model.events == s.events
  {
    if !(1 <= model.events <= 8 && s.events == model.events) then Some(BadEvents)
    else if SnapshotFault(s, deadline, tolerance).Some? then SnapshotFault(s, deadline, tolerance)
    else ModelFault(model)
  }

  predicate BelowWord(tables: seq<Table>) {
    forall k :: 0 <= k < |tables| ==> forall v | v in tables[k].values :: v < WORD
  }

  function PerUnit(atoms: real, liquidity: nat): real
    requires liquidity > 0
  {
    atoms / liquidity as real
  }

  lemma TablesShaped(rows: seq<Table>, events: nat, canonical: bool)
    requires TablesOk(rows, events, canonical)
    ensures AllShaped(rows) && forall k :: 0 <= k < |rows| ==> rows[k].values != []
  {
    forall k | 0 <= k < |rows| ensures Shaped(rows[k]) && rows[k].values != [] {
      assert RowOk(rows[k], events);
    }
  }

  lemma ShapedNonempty(tables: seq<Table>)
    requires AllShaped(tables)
    ensures forall k :: 0 <= k < |tables| ==> tables[k].values != []
  {
    forall k | 0 <= k < |tables| ensures tables[k].values != [] {
      assert Shaped(tables[k]);
    }
  }

  /** The first check on the graphs and the candidate that does not pass. */
  function CandidateFault(graph: bool, fits: bool, priced: bool, near: bool, close: bool): Option<Fault> {
    if !graph then Some(BadGraph)
    else if !fits then Some(BiasOverflow)
    else if !priced then Some(BadCandidateGraph)
    else if !near then Some(MovementExceeded)
    else if !close then Some(ToleranceExceeded)
    else None
  }

  /** Why a proposal is refused, if it is. */
  ghost function Refusal(model: IsingModel, s: Snapshot, deadline: nat, tolerance: real): Option<Fault> {
    if InputFault(model, s, deadline, tolerance).Some? then InputFault(model, s, deadline, tolerance)
    else if !TablesOk(s.factors, s.events, false) then Some(BadFactors)
    else if !TablesOk(s.biasFactors, s.events, true) then Some(BadBias)
    else
      TablesShaped(s.factors, s.events, false);
      TablesShaped(s.biasFactors, s.events, true);
      var candidate := CandidateOf(s.events, model.parameters, s.liquidity, s.factors);
      ShapedNonempty(candidate);
      CandidateFault(GraphOk(s.order, s.factors, s.biasFactors, s.liquidity), BelowWord(candidate),
                     GraphOk(s.order, s.factors, candidate, s.liquidity),
                     Movement(candidate, s.biasFactors) <= s.maxBiasMovement,
                     AcceptedBound(PerUnit(RoundingError(s.liquidity, model.parameters), s.liquidity)) <= tolerance)
  }

  // The loops.

  /** Assignment to a dictionary: a listed scope keeps its place. */
  function Assign(tables: seq<Table>, t: Table): seq<Table> {
    var k := Find(tables, t.scope);
    if k < |tables| then tables[k := t] else tables + [t]
  }

  lemma FeatureIsNew(features: seq<set<nat>>, parameters: seq<real>, coefficients: seq<int>, k: nat, t: Table)
    requires |coefficients| == |parameters| == |features| && NoRepeats(features) && k < |features|
    requires t.scope == features[k]
    ensures var tables := CoefficientTables(features[..k], parameters[..k], coefficients[..k]);
      Assign(tables, t) == tables + [t]
  {
    CoefficientTablesShaped(features[..k], parameters[..k], coefficients[..k]);
  }

  method QuantiseLoop(features: seq<set<nat>>, parameters: seq<real>, liquidity: nat)
    returns (candidate: seq<Table>, error: real)
    requires |parameters| == |features| && NoRepeats(features)
    ensures candidate == CoefficientTables(features, parameters, Coefficients(liquidity, parameters))
    ensures error == RoundingError(liquidity, parameters)
  {
    candidate := [];
    error := 0.0;
    ghost var coefficients := Coefficients(liquidity, parameters);
    for k := 0 to |features|
      invariant candidate == CoefficientTables(features[..k], parameters[..k], coefficients[..k])
      invariant error == RoundingError(liquidity, parameters[..k])
    {
      assert features[..k + 1][..k] == features[..k];
      assert parameters[..k + 1][..k] == parameters[..k];
      assert coefficients[..k + 1][..k] == coefficients[..k];
      var exact := Exact(liquidity, parameters[k]);
      var coefficient := Rounded(exact);
      error := error + Abs(exact - coefficient as real);
      if parameters[k] != 0.0 {
        FeatureIsNew(features, parameters, coefficients, k, CoefficientTable(features[k], coefficient));
        candidate := Assign(candidate, CoefficientTable(features[k], coefficient));
      }
    }
    assert features[..|features|] == features && parameters[..|features|] == parameters;
    assert coefficients[..|features|] == coefficients;
  }

  method DeductLoop(tables: seq<Table>, rows: seq<Table>) returns (candidate: seq<Table>)
    requires AllShaped(tables) && AllShaped(rows)
    ensures candidate == DeductAll(tables, rows)
  {
    candidate := tables;
    for k := 0 to |rows|
      invariant candidate == DeductAll(tables, rows[..k])
    {
      assert rows[..k + 1][..k] == rows[..k];
      candidate := Deduct(candidate, rows[k]);
    }
    assert rows[..|rows|] == rows;
  }

  lemma MaxBelow(values: seq<int>, bound: int)
    requires values != []
    ensures MaxOf(values) < bound <==> forall v | v in values :: v < bound
  {
    MaxOfIs(values);
  }

  method LowerLoop(tables: seq<Table>) returns (r: Option<seq<Table>>)
    requires AllShaped(tables)
    ensures r.Some? <==> BelowWord(LowerAll(tables))
    ensures r.Some? ==> r.value == LowerAll(tables)
  {
    var lowered := tables;
    for k := 0 to |tables|
      invariant |lowered| == |tables|
      invariant forall j :: 0 <= j < k ==> lowered[j] == LowerAll(tables)[j]
      invariant forall j :: k <= j < |tables| ==> lowered[j] == tables[j]
      invariant BelowWord(lowered[..k])
    {
      assert Shaped(tables[k]);
      var t := Lowered(tables[k]);
      MaxBelow(t.values, WORD);
      if MaxOf(t.values) >= WORD {
        assert LowerAll(tables)[k] == t;
        return None;
      }
      lowered := lowered[k := t];
      assert lowered[..k + 1] == lowered[..k] + [t];
    }
    assert lowered == LowerAll(tables) && lowered[..|tables|] == lowered;
    r := Some(lowered);
  }

  method Build(model: IsingModel, s: Snapshot, deadline: nat, tolerance: real) returns (r: Result<seq<Table>, Fault>)
    ensures r.Failure? ==> Refusal(model, s, deadline, tolerance) == Some(r.error)
    ensures r.Success? ==> Refusal(model, s, deadline, tolerance) == None
    ensures r.Success? ==> |model.parameters| == |Features(s.events)| && AllShaped(s.factors)
    ensures r.Success? ==>
      r.value == Sorted(CandidateOf(s.events, model.parameters, s.liquidity, s.factors), s.events)
  {
    var fault := InputFault(model, s, deadline, tolerance);
    if fault != None {
      return Failure(fault.value);
    }
    var actual := Tables(s.factors, s.events, false);
    if actual == None {
      return Failure(BadFactors);
    }
    var oldBias := Tables(s.biasFactors, s.events, true);
    if oldBias == None {
      return Failure(BadBias);
    }
    TablesShaped(s.factors, s.events, false);
    TablesShaped(s.biasFactors, s.events, true);
    var ok := Graph(s.order, actual.value, oldBias.value, s.liquidity);
    if !ok {
      return Failure(BadGraph);
    }
    r := Propose(model, s, tolerance);
  }

  /** The part after the snapshot is accepted. */
  method Propose(model: IsingModel, s: Snapshot, tolerance: real) returns (r: Result<seq<Table>, Fault>)
    requires |model.parameters| == |Features(s.events)| && AllShaped(s.factors) && AllShaped(s.biasFactors)
    requires s.liquidity > 0
    requires forall k :: 0 <= k < |s.factors| ==> s.factors[k].values != []
    ensures var candidate := CandidateOf(s.events, model.parameters, s.liquidity, s.factors);
      (forall k :: 0 <= k < |candidate| ==> candidate[k].values != []) &&
      r == if !BelowWord(candidate) then Failure(BiasOverflow)
           else if !GraphOk(s.order, s.factors, candidate, s.liquidity) then Failure(BadCandidateGraph)
           else if Movement(candidate, s.biasFactors) > s.maxBiasMovement then Failure(MovementExceeded)
           else if AcceptedBound(PerUnit(RoundingError(s.liquidity, model.parameters), s.liquidity)) > tolerance
             then Failure(ToleranceExceeded)
           else Success(Sorted(candidate, s.events))
  {
    FeaturesNoRepeats(s.events);
    var tables, error := QuantiseLoop(Features(s.events), model.parameters, s.liquidity);
    CoefficientTablesShaped(Features(s.events), model.parameters, Coefficients(s.liquidity, model.parameters));
    var raw := DeductLoop(tables, s.factors);
    var lowered := LowerLoop(raw);
    ShapedNonempty(LowerAll(raw));
    if lowered == None {
      return Failure(BiasOverflow);
    }
    var candidate := lowered.value;
    var ok := Graph(s.order, s.factors, candidate, s.liquidity);
    if !ok {
      return Failure(BadCandidateGraph);
    }
    var movement := MovementLoop(candidate, s.biasFactors);
    if movement > s.maxBiasMovement {
      return Failure(MovementExceeded);
    }
    if AcceptedBound(PerUnit(error, s.liquidity)) > tolerance {
      return Failure(ToleranceExceeded);
    }
    r := Success(Sorted(candidate, s.events));
  }
}
