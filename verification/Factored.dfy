/** The bounded-width market maker (factored.rs): snapshots, queries and trades.
    f64 amounts are exact reals; the logarithmic path works on weights exp(q/b). */
module Factored {
  import opened Wrappers
  import opened Scopes
  import opened Semiring
  import opened Width
  import opened Elimination
  import opened Exponential
  import opened RealFacts
  import Lmsr

  datatype Error =
    | InvalidEventCount
    | InvalidLiquidity
    | InvalidScope
    | InvalidValues
    | InvalidOrder
    | InvalidEvidence
    | InvalidClaim
    | InvalidQuantity
    | TooManyFactors
    | WidthExceeded

  /** A caller's factor: an increasing list of events and one liability per local state. */
  datatype Factor = Factor(scope: seq<nat>, values: seq<real>)

  datatype RealTable = RealTable(scope: set<nat>, values: seq<real>)

  datatype Snapshot = Snapshot(events: nat, b: real, factors: seq<RealTable>, order: seq<nat>, width: nat)

  // ---- Scope lists ----

  predicate Increasing(scope: seq<nat>) {
    forall i | 0 <= i < |scope| - 1 :: scope[i] < scope[i + 1]
  }

  function ScopeMask(events: nat, scope: seq<nat>): (r: Option<set<nat>>)
  {
    if |scope| > 3 || (exists i | 0 <= i < |scope| :: scope[i] >= events) || !Increasing(scope) then None
    else Some(Elements(scope))
  }

  lemma {:induction false} IncreasingStrict(scope: seq<nat>, i: nat, j: nat)
    requires Increasing(scope) && i < j < |scope|
    ensures scope[i] < scope[j]
  {
    if i + 1 < j {
      IncreasingStrict(scope, i, j - 1);
    }
  }

  lemma IncreasingCount(scope: seq<nat>)
    requires Increasing(scope)
    ensures |Elements(scope)| == |scope|
  {
    forall i, j | 0 <= i < j < |scope| ensures scope[i] != scope[j] {
      IncreasingStrict(scope, i, j);
    }
    DistinctCount(scope);
  }

  /** The events below n that a table's scope mentions, in increasing order. */
  function ScopeList(n: nat, scope: set<nat>): (r: seq<nat>)
    ensures forall e: nat :: e in r <==> e < n && e in scope
  {
    if n == 0 then [] else ScopeList(n - 1, scope) + (if n - 1 in scope then [n - 1] else [])
  }

  lemma {:induction false} ScopeListIncreasing(n: nat, scope: set<nat>)
    ensures Increasing(ScopeList(n, scope))
  {
    if n > 0 {
      ScopeListIncreasing(n - 1, scope);
      var list := ScopeList(n - 1, scope);
      assert list != [] ==> list[|list| - 1] in list;
    }
  }

  lemma ScopeListMask(events: nat, scope: set<nat>)
    requires scope <= Range(events) && |scope| <= 3
    ensures ScopeMask(events, ScopeList(events, scope)) == Some(scope)
    ensures |ScopeList(events, scope)| == |scope|
  {
    var list := ScopeList(events, scope);
    ScopeListIncreasing(events, scope);
    assert Elements(list) == scope;
    IncreasingCount(list);
    forall i | 0 <= i < |list| ensures list[i] < events {
      assert list[i] in list;
    }
  }

  lemma IncreasingHead(scope: seq<nat>)
    requires Increasing(scope) && scope != []
    ensures Elements(scope) != {} && Least(Elements(scope)) == scope[0]
    ensures Elements(scope) - {scope[0]} == Elements(scope[1..])
  {
    assert scope[0] in Elements(scope);
    forall i | 0 < i < |scope| ensures scope[0] < scope[i] {
      IncreasingStrict(scope, 0, i);
    }
    var l := Least(Elements(scope));
    assert l in Elements(scope) && l <= scope[0];
    var i :| 0 <= i < |scope| && scope[i] == l;
    assert scope == [scope[0]] + scope[1..];
    forall e | e in scope[1..] ensures e != scope[0] {
      var j :| 0 <= j < |scope[1..]| && scope[1..][j] == e;
      assert scope[j + 1] == e;
    }
  }

  /** Bit i of a local state selects the i-th listed event. */
  lemma {:induction false} ExpandList(scope: seq<nat>, local: nat, bit: nat)
    requires Increasing(scope) && bit < |scope|
    ensures scope[bit] in Expand(Elements(scope), local) <==> Bit(local, bit)
  {
    var first, rest := scope[0], scope[1..];
    IncreasingHead(scope);
    ExpandHead(Elements(scope), local, first);
    if bit > 0 {
      IncreasingStrict(scope, 0, bit);
      ExpandList(rest, local / 2, bit - 1);
    }
  }

  /** The lowest event of a scope is the lowest bit; the others are in the rest. */
  lemma ExpandHead(scope: set<nat>, local: nat, first: nat)
    requires scope != {} && Least(scope) == first
    ensures first in Expand(scope, local) <==> local % 2 == 1
    ensures forall e :: e != first ==> (e in Expand(scope, local) <==> e in Expand(scope - {first}, local / 2))
  {
  }

  // ---- Liabilities ----

  ghost predicate RealShaped(tables: seq<RealTable>) {
    forall t :: t in tables ==> |t.values| == Pow2(|t.scope|)
  }

  /** What the factors owe in one joint state. */
  ghost function Liability(tables: seq<RealTable>, state: set<nat>): real
    requires RealShaped(tables)
  {
    if tables == [] then 0.0
    else
      var t := tables[|tables| - 1];
      Liability(tables[..|tables| - 1], state) + t.values[Project(t.scope, state)]
  }

  ghost function LiabilitiesIn(tables: seq<RealTable>, states: seq<set<nat>>): (q: seq<real>)
    requires RealShaped(tables)
    ensures |q| == |states|
  {
    seq(|states|, i requires 0 <= i < |states| => Liability(tables, states[i]))
  }

  function Entry(mode: Mode, m: ExpLn, b: real, q: real): Num
    requires b > 0.0
  {
    if mode == MaxSum then Fin(q) else Fin(m.exp(q / b))
  }

  function LiftTable(mode: Mode, m: ExpLn, b: real, t: RealTable): (r: Table)
    requires b > 0.0
    ensures r.scope == t.scope && |r.values| == |t.values|
  {
    Table(t.scope, seq(|t.values|, i requires 0 <= i < |t.values| => Entry(mode, m, b, t.values[i])))
  }

  /** The tables `eliminate` starts from. */
  function Lift(mode: Mode, m: ExpLn, b: real, tables: seq<RealTable>): (r: seq<Table>)
    requires b > 0.0
    ensures |r| == |tables|
  {
    seq(|tables|, i requires 0 <= i < |tables| => LiftTable(mode, m, b, tables[i]))
  }

  lemma LiftShaped(mode: Mode, m: ExpLn, b: real, tables: seq<RealTable>, events: set<nat>)
    requires b > 0.0 && RealShaped(tables)
    ensures Shaped(Lift(mode, m, b, tables))
    ensures (forall t :: t in tables ==> t.scope <= events) ==> Within(Lift(mode, m, b, tables), events)
    ensures ScopesOf(Lift(mode, m, b, tables)) == RealScopes(tables)
  {
    var lifted := Lift(mode, m, b, tables);
    forall t | t in lifted ensures |t.values| == Pow2(|t.scope|) && exists s :: s in tables && s.scope == t.scope {
      var i :| 0 <= i < |lifted| && lifted[i] == t;
      assert tables[i] in tables;
    }
  }

  function RealScopes(tables: seq<RealTable>): seq<set<nat>> {
    seq(|tables|, i requires 0 <= i < |tables| => tables[i].scope)
  }

  lemma LiftSnoc(mode: Mode, m: ExpLn, b: real, tables: seq<RealTable>)
    requires b > 0.0 && tables != []
    ensures Lift(mode, m, b, tables)
         == Lift(mode, m, b, tables[..|tables| - 1]) + [LiftTable(mode, m, b, tables[|tables| - 1])]
  {
  }

  /** Products of weights are sums of liabilities: the joint value is the entry of the total liability. */
  lemma {:induction false} JointLift(mode: Mode, m: ExpLn, b: real, tables: seq<RealTable>, state: set<nat>)
    requires Lawful(m) && b > 0.0 && RealShaped(tables)
    ensures Shaped(Lift(mode, m, b, tables))
    ensures Joint(mode, Lift(mode, m, b, tables), state) == Entry(mode, m, b, Liability(tables, state))
  {
    LiftShaped(mode, m, b, tables, {});
    if tables == [] {
      ExpZero(m);
      assert Lift(mode, m, b, tables) == [];
    } else {
      var rest, last := tables[..|tables| - 1], tables[|tables| - 1];
      assert last in tables;
      JointLift(mode, m, b, rest, state);
      LiftSnoc(mode, m, b, tables);
      JointLiftSnoc(mode, m, b, Lift(mode, m, b, rest), last, state, Liability(rest, state),
                    last.values[Project(last.scope, state)]);
    }
  }

  lemma JointLiftSnoc(mode: Mode, m: ExpLn, b: real, lifted: seq<Table>, last: RealTable, state: set<nat>, x: real,
                      y: real)
    requires Lawful(m) && b > 0.0 && Shaped(lifted) && Joint(mode, lifted, state) == Entry(mode, m, b, x)
    requires |last.values| == Pow2(|last.scope|) && y == last.values[Project(last.scope, state)]
    ensures Shaped(lifted + [LiftTable(mode, m, b, last)])
    ensures Joint(mode, lifted + [LiftTable(mode, m, b, last)], state) == Entry(mode, m, b, x + y)
  {
    JointAppend(mode, lifted, LiftTable(mode, m, b, last), state);
    EntryAdds(mode, m, b, x, y);
  }

  lemma EntryAdds(mode: Mode, m: ExpLn, b: real, x: real, y: real)
    requires Lawful(m) && b > 0.0
    ensures Combine(mode, Entry(mode, m, b, x), Entry(mode, m, b, y)) == Entry(mode, m, b, x + y)
  {
    AddQuotients(x, y, b);
    ExpAdd(m, x / b, y / b);
  }

  function Weight(n: Num): real {
    if n.NegInf? then 0.0 else n.value
  }

  lemma WeightAggregate(a: Num, b: Num)
    ensures Weight(Aggregate(SumProduct, a, b)) == Weight(a) + Weight(b)
  {
  }

  ghost function Agreeing(evidence: Evidence, states: seq<set<nat>>): (pays: seq<bool>)
    ensures |pays| == |states|
  {
    seq(|states|, i requires 0 <= i < |states| => Agrees(evidence, states[i]))
  }

  /** The enumerated weight is the dense market's weight of the agreeing states. */
  lemma {:induction false} EnumeratedWeight(m: ExpLn, b: real, tables: seq<RealTable>, evidence: Evidence,
                                            states: seq<set<nat>>)
    requires Lawful(m) && b > 0.0 && RealShaped(tables)
    ensures Shaped(Lift(SumProduct, m, b, tables))
    ensures Weight(Enumerated(SumProduct, Lift(SumProduct, m, b, tables), evidence, states))
         == Lmsr.Paying(m, b, LiabilitiesIn(tables, states), Agreeing(evidence, states))
  {
    LiftShaped(SumProduct, m, b, tables, {});
    if states != [] {
      JointLift(SumProduct, m, b, tables, states[0]);
      var lifted := Lift(SumProduct, m, b, tables);
      WeightAggregate(Term(SumProduct, lifted, evidence, states[0]),
                      Enumerated(SumProduct, lifted, evidence, states[1..]));
      EnumeratedWeight(m, b, tables, evidence, states[1..]);
      assert LiabilitiesIn(tables, states)[1..] == LiabilitiesIn(tables, states[1..]);
      assert Agreeing(evidence, states)[1..] == Agreeing(evidence, states[1..]);
    }
  }

  lemma {:induction false} AllPaying(m: ExpLn, b: real, q: seq<real>, pays: seq<bool>)
    requires b > 0.0 && |pays| == |q| && forall i :: 0 <= i < |pays| ==> pays[i]
    ensures Lmsr.Paying(m, b, q, pays) == Lmsr.Partition(m, b, q)
  {
    if q != [] {
      AllPaying(m, b, q[1..], pays[1..]);
    }
  }

  ghost predicate IsMax(x: Num, q: seq<real>) {
    x.Fin? && x.value in q && forall i :: 0 <= i < |q| ==> q[i] <= x.value
  }

  lemma IsMaxCons(q: seq<real>, rest: Num)
    requires q != [] && (if |q| == 1 then rest == NegInf else IsMax(rest, q[1..]))
    ensures IsMax(Aggregate(MaxSum, Fin(q[0]), rest), q)
  {
    if |q| > 1 {
      var i :| 0 <= i < |q[1..]| && q[1..][i] == rest.value;
      assert q[i + 1] == rest.value;
      forall j | 0 <= j < |q| ensures q[j] <= Aggregate(MaxSum, Fin(q[0]), rest).value {
        assert j > 0 ==> q[j] == q[1..][j - 1];
      }
    }
  }

  /** Without evidence the enumerated maximum is the largest liability. */
  lemma {:induction false} EnumeratedMax(m: ExpLn, b: real, tables: seq<RealTable>, states: seq<set<nat>>)
    requires Lawful(m) && b > 0.0 && RealShaped(tables) && states != []
    ensures Shaped(Lift(MaxSum, m, b, tables))
    ensures IsMax(Enumerated(MaxSum, Lift(MaxSum, m, b, tables), map[], states), LiabilitiesIn(tables, states))
  {
    LiftShaped(MaxSum, m, b, tables, {});
    JointLift(MaxSum, m, b, tables, states[0]);
    var rest := states[1..];
    assert LiabilitiesIn(tables, states)[1..] == LiabilitiesIn(tables, rest);
    if rest != [] {
      EnumeratedMax(m, b, tables, rest);
    }
    IsMaxCons(LiabilitiesIn(tables, states), Enumerated(MaxSum, Lift(MaxSum, m, b, tables), map[], rest));
  }

  // ---- Construction ----

  /** The fold(0.0, f64::max) of one factor. */
  function Largest(values: seq<real>): (r: real)
    ensures r >= 0.0 && (r == 0.0 || r in values)
    ensures forall i :: 0 <= i < |values| ==> values[i] <= r
  {
    if values == [] then 0.0
    else
      var rest := Largest(values[..|values| - 1]);
      if rest >= values[|values| - 1] then rest else values[|values| - 1]
  }

  function ScaledMaxima(b: real, factors: seq<Factor>): real
    requires b > 0.0
  {
    if factors == [] then 0.0
    else ScaledMaxima(b, factors[..|factors| - 1]) + Largest(factors[|factors| - 1].values) / b
  }

  /** One entry of every factor, or nothing of it. */
  ghost predicate Picks(factors: seq<Factor>, picks: seq<real>) {
    && |picks| == |factors|
    && forall k :: 0 <= k < |picks| ==> picks[k] == 0.0 || picks[k] in factors[k].values
  }

  function PickSum(picks: seq<real>): real {
    if picks == [] then 0.0 else PickSum(picks[..|picks| - 1]) + picks[|picks| - 1]
  }

  /** No choice of one entry per factor owes more than 100 b. */
  ghost predicate WithinDomain(b: real, factors: seq<Factor>) {
    forall picks :: Picks(factors, picks) ==> PickSum(picks) <= 100.0 * b
  }

  lemma {:induction false} PickBelow(b: real, factors: seq<Factor>, picks: seq<real>, sum: real)
    requires b > 0.0 && Picks(factors, picks) && sum == ScaledMaxima(b, factors)
    ensures PickSum(picks) <= b * sum
  {
    if factors != [] {
      var n := |factors| - 1;
      var before := ScaledMaxima(b, factors[..n]);
      PickBelow(b, factors[..n], picks[..n], before);
      ScaledSum(b, before, Largest(factors[n].values), sum);
    }
  }

  /** The largest choice adds up to exactly the scaled maxima. */
  lemma {:induction false} PickReached(b: real, factors: seq<Factor>, sum: real) returns (picks: seq<real>)
    requires b > 0.0 && sum == ScaledMaxima(b, factors)
    ensures Picks(factors, picks) && PickSum(picks) == b * sum
  {
    if factors == [] {
      picks := [];
    } else {
      var n := |factors| - 1;
      var before, most := ScaledMaxima(b, factors[..n]), Largest(factors[n].values);
      var rest := PickReached(b, factors[..n], before);
      picks := rest + [most];
      assert picks[..n] == rest;
      ScaledSum(b, before, most, sum);
    }
  }

  lemma ScaledSum(b: real, before: real, most: real, sum: real)
    requires b > 0.0 && sum == before + most / b
    ensures b * sum == b * before + most
  {
    Distribute(b, before, most / b);
    Cancel(most, b);
  }

  lemma PickWithin(b: real, factors: seq<Factor>, picks: seq<real>, sum: real)
    requires b > 0.0 && Picks(factors, picks) && sum == ScaledMaxima(b, factors) && sum <= 100.0
    ensures PickSum(picks) <= 100.0 * b
  {
    PickBelow(b, factors, picks, sum);
    OrderedProduct(b, sum, 100.0);
  }

  lemma PickBeyond(b: real, factors: seq<Factor>, sum: real) returns (picks: seq<real>)
    requires b > 0.0 && sum == ScaledMaxima(b, factors) && sum > 100.0
    ensures Picks(factors, picks) && PickSum(picks) > 100.0 * b
  {
    picks := PickReached(b, factors, sum);
    StrictProduct(b, 100.0, sum);
  }

  /** The numeric domain check passes exactly when no choice of one entry per factor owes more than 100 b. */
  lemma DomainMeans(b: real, factors: seq<Factor>)
    requires b > 0.0
    ensures ScaledMaxima(b, factors) <= 100.0 <==> WithinDomain(b, factors)
  {
    var sum := ScaledMaxima(b, factors);
    if sum <= 100.0 {
      forall picks | Picks(factors, picks) ensures PickSum(picks) <= 100.0 * b {
        PickWithin(b, factors, picks, sum);
      }
    } else {
      var picks := PickBeyond(b, factors, sum);
    }
  }

  /** Why the constructor turns one factor away, in the order it looks. */
  function FactorFault(events: nat, f: Factor): Option<Error> {
    if ScopeMask(events, f.scope).None? then Some(InvalidScope)
    else if |f.values| != Pow2(|f.scope|) || exists i | 0 <= i < |f.values| :: f.values[i] < 0.0
        then Some(InvalidValues)
    else None
  }

  predicate FactorsOk(events: nat, factors: seq<Factor>) {
    forall i | 0 <= i < |factors| :: FactorFault(events, factors[i]).None?
  }

  /** The fault of the first factor that is turned away. */
  function FirstFault(events: nat, factors: seq<Factor>): (fault: Option<Error>)
    ensures fault.None? <==> FactorsOk(events, factors)
  {
    if factors == [] then None
    else if FactorFault(events, factors[0]).Some? then FactorFault(events, factors[0])
    else FirstFault(events, factors[1..])
  }

  lemma {:induction false} FirstFaultAt(events: nat, factors: seq<Factor>, k: nat)
    requires k < |factors| && FactorsOk(events, factors[..k]) && FactorFault(events, factors[k]).Some?
    ensures FirstFault(events, factors) == FactorFault(events, factors[k])
  {
    if k > 0 {
      assert factors[..k][0] == factors[0];
      assert factors[1..][..k - 1] == factors[..k][1..];
      FirstFaultAt(events, factors[1..], k - 1);
    }
  }

  function TableOf(events: nat, f: Factor): RealTable
    requires FactorFault(events, f).None?
  {
    RealTable(ScopeMask(events, f.scope).value, f.values)
  }

  function TablesOf(events: nat, factors: seq<Factor>): seq<RealTable>
    requires FactorsOk(events, factors)
  {
    seq(|factors|, i requires 0 <= i < |factors| => TableOf(events, factors[i]))
  }

  predicate LiquidityOk(b: real) {
    0.000001 <= b <= 1000000000.0
  }

  /** Exactly the models the constructor accepts. */
  ghost predicate Acceptable(events: nat, b: real, factors: seq<Factor>, order: seq<nat>) {
    && 1 <= events <= 32
    && LiquidityOk(b)
    && |factors| <= 64
    && IsOrder(order, events)
    && FactorsOk(events, factors)
    && ScaledMaxima(b, factors) <= 100.0
    && Bounded(RealScopes(TablesOf(events, factors)), order)
  }

  /** Up to three events in strictly increasing order, and an entry, not negative, for each of their joint states. */
  predicate FactorFits(events: nat, f: Factor) {
    && |f.scope| <= 3
    && (forall i :: 0 <= i < |f.scope| ==> f.scope[i] < events)
    && (forall i, j :: 0 <= i < j < |f.scope| ==> f.scope[i] < f.scope[j])
    && |f.values| == Pow2(|f.scope|)
    && forall i :: 0 <= i < |f.values| ==> f.values[i] >= 0.0
  }

  lemma FactorMeans(events: nat, f: Factor)
    ensures FactorFault(events, f).None? <==> FactorFits(events, f)
  {
    if Increasing(f.scope) {
      forall i, j | 0 <= i < j < |f.scope| ensures f.scope[i] < f.scope[j] {
        IncreasingStrict(f.scope, i, j);
      }
    }
  }

  lemma FactorsMean(events: nat, factors: seq<Factor>)
    ensures FactorsOk(events, factors) <==> forall i :: 0 <= i < |factors| ==> FactorFits(events, factors[i])
  {
    forall i | 0 <= i < |factors| ensures FactorFault(events, factors[i]).None? <==> FactorFits(events, factors[i]) {
      FactorMeans(events, factors[i]);
    }
  }

  /** Every event is listed, once. */
  predicate OrderFits(events: nat, order: seq<nat>) {
    && |order| == events
    && (forall k :: 0 <= k < |order| ==> order[k] < events)
    && forall j, k :: 0 <= j < k < |order| ==> order[j] != order[k]
  }

  lemma OrderMeans(events: nat, order: seq<nat>)
    ensures IsOrder(order, events) <==> OrderFits(events, order)
  {
    forall k | 0 <= k < |order| ensures order[k] in order {
    }
  }

  /** A model is accepted exactly when it has 1 to 32 events, a liquidity between a millionth and a billion, at most 64
      factors that fit, an order that lists every event once, entries of which no choice passes the numeric domain, and
      no elimination step that joins more than three events. */
  lemma AcceptableMeans(events: nat, b: real, factors: seq<Factor>, order: seq<nat>)
    ensures Acceptable(events, b, factors, order) <==>
              && 1 <= events <= 32
              && 0.000001 <= b <= 1000000000.0
              && |factors| <= 64
              && OrderFits(events, order)
              && (forall i :: 0 <= i < |factors| ==> FactorFits(events, factors[i]))
              && WithinDomain(b, factors)
              && (FactorsOk(events, factors) ==> WidthFrom(RealScopes(TablesOf(events, factors)), order, 0).Width?)
  {
    OrderMeans(events, order);
    FactorsMean(events, factors);
    if b > 0.0 {
      DomainMeans(b, factors);
    }
    if FactorsOk(events, factors) {
      WidthMeaning(RealScopes(TablesOf(events, factors)), order);
    }
  }

  /** What an accepted model owes in one state is a choice of one entry per factor. */
  lemma {:induction false} LiabilityIsPicked(events: nat, factors: seq<Factor>, state: set<nat>)
    returns (picks: seq<real>)
    requires FactorsOk(events, factors) && RealShaped(TablesOf(events, factors))
    ensures Picks(factors, picks) && PickSum(picks) == Liability(TablesOf(events, factors), state) >= 0.0
  {
    if factors == [] {
      picks := [];
    } else {
      var n := |factors| - 1;
      var tables := TablesOf(events, factors);
      assert TablesOf(events, factors[..n]) == tables[..n];
      var rest := LiabilityIsPicked(events, factors[..n], state);
      assert tables[n] in tables && FactorFault(events, factors[n]).None?;
      picks := rest + [tables[n].values[Project(tables[n].scope, state)]];
      assert picks[..n] == rest;
    }
  }

  /** Every joint state of an accepted model owes between nothing and 100 b. */
  lemma AcceptedLiability(events: nat, b: real, factors: seq<Factor>, order: seq<nat>, state: set<nat>)
    requires Acceptable(events, b, factors, order)
    ensures RealShaped(TablesOf(events, factors))
    ensures 0.0 <= Liability(TablesOf(events, factors), state) <= 100.0 * b
  {
    TablesValid(events, factors);
    var picks := LiabilityIsPicked(events, factors, state);
    DomainMeans(b, factors);
  }

  /** Why the constructor turns a model away, in the order of its checks. */
  ghost function Refusal(events: nat, b: real, factors: seq<Factor>, order: seq<nat>): (fault: Option<Error>)
    ensures fault.None? <==> Acceptable(events, b, factors, order)
  {
    if !(1 <= events <= 32) then Some(InvalidEventCount)
    else if !LiquidityOk(b) then Some(InvalidLiquidity)
    else if |factors| > 64 then Some(TooManyFactors)
    else if !IsOrder(order, events) then Some(InvalidOrder)
    else if FirstFault(events, factors).Some? then FirstFault(events, factors)
    else if ScaledMaxima(b, factors) > 100.0 then Some(InvalidValues)
    else if !Bounded(RealScopes(TablesOf(events, factors)), order) then Some(WidthExceeded)
    else None
  }

  /** The models that pass the checks before the factors are looked at. */
  predicate FramePasses(events: nat, b: real, factors: seq<Factor>, order: seq<nat>) {
    1 <= events <= 32 && LiquidityOk(b) && |factors| <= 64 && OrderFits(events, order)
  }

  /** Each fault of the constructor is the first check that fails. */
  lemma RefusalIsFirst(events: nat, b: real, factors: seq<Factor>, order: seq<nat>)
    ensures var fault := Refusal(events, b, factors, order);
            && (fault == Some(InvalidEventCount) <==> !(1 <= events <= 32))
            && (fault == Some(InvalidLiquidity) <==> 1 <= events <= 32 && !LiquidityOk(b))
            && (fault == Some(TooManyFactors) <==> 1 <= events <= 32 && LiquidityOk(b) && |factors| > 64)
            && (fault == Some(InvalidOrder) <==>
                  1 <= events <= 32 && LiquidityOk(b) && |factors| <= 64 && !OrderFits(events, order))
            && (fault == Some(WidthExceeded) ==>
                  FramePasses(events, b, factors, order) && FactorsOk(events, factors) && WithinDomain(b, factors))
            && (fault == Some(InvalidScope) || fault == Some(InvalidValues) ==>
                  FramePasses(events, b, factors, order)
                  && (FactorsOk(events, factors) ==> fault == Some(InvalidValues) && !WithinDomain(b, factors)))
  {
    OrderMeans(events, order);
    if LiquidityOk(b) {
      DomainMeans(b, factors);
    }
    FirstFaultIsFactor(events, factors);
  }

  /** A factor is turned away for its scope or for its values. */
  lemma {:induction false} FirstFaultIsFactor(events: nat, factors: seq<Factor>)
    ensures FirstFault(events, factors) in {None, Some(InvalidScope), Some(InvalidValues)}
  {
    if factors != [] {
      FirstFaultIsFactor(events, factors[1..]);
    }
  }

  ghost predicate Valid(s: Snapshot) {
    && 1 <= s.events <= 32
    && LiquidityOk(s.b)
    && |s.factors| <= 64
    && IsOrder(s.order, s.events)
    && RealShaped(s.factors)
    && (forall t :: t in s.factors ==> t.scope <= Range(s.events) && |t.scope| <= 3)
    && (forall t :: t in s.factors ==> forall i :: 0 <= i < |t.values| ==> t.values[i] >= 0.0)
    && Bounded(RealScopes(s.factors), s.order)
    && IsWidth(JoinedSizes(RealScopes(s.factors), s.order), s.width)
  }

  /** The liability of every joint state, in numeric order. */
  ghost function Vector(s: Snapshot): (q: seq<real>)
    requires RealShaped(s.factors)
  {
    LiabilitiesIn(s.factors, States(s.events, {}))
  }

  /** The loop over the factors: their tables and the sum of their scaled maxima, or the first fault. */
  method CheckFactors(events: nat, b: real, factors: seq<Factor>) returns (r: Result<(seq<RealTable>, real), Error>)
    requires b > 0.0
    ensures r.Failure? ==> FirstFault(events, factors) == Some(r.error)
    ensures r.Success? ==>
              FactorsOk(events, factors) && r.value == (TablesOf(events, factors), ScaledMaxima(b, factors))
  {
    var tables: seq<RealTable> := [];
    var scaledMaxima := 0.0;
    var k := 0;
    while k < |factors|
      invariant 0 <= k <= |factors|
      invariant FactorsOk(events, factors[..k]) && tables == TablesOf(events, factors[..k])
      invariant scaledMaxima == ScaledMaxima(b, factors[..k])
    {
      var f := factors[k];
      var mask := ScopeMask(events, f.scope);
      if mask.None? {
        FirstFaultAt(events, factors, k);
        return Failure(InvalidScope);
      }
      if |f.values| != Pow2(|f.scope|) || exists i | 0 <= i < |f.values| :: f.values[i] < 0.0 {
        FirstFaultAt(events, factors, k);
        return Failure(InvalidValues);
      }
      assert factors[..k + 1][..k] == factors[..k];
      scaledMaxima := scaledMaxima + Largest(f.values) / b;
      tables := tables + [RealTable(mask.value, f.values)];
      k := k + 1;
    }
    assert factors[..k] == factors;
    r := Success((tables, scaledMaxima));
  }

  /** `FactoredLmsr::new` checks in this order and accepts exactly the acceptable models. */
  method New(events: nat, b: real, factors: seq<Factor>, order: seq<nat>) returns (r: Result<Snapshot, Error>)
    ensures r.Success? <==> Acceptable(events, b, factors, order)
    ensures r.Success? ==> Valid(r.value)
    ensures r.Success? ==> r.value.(width := 0) == Snapshot(events, b, TablesOf(events, factors), order, 0)
    ensures r.Failure? ==> Refusal(events, b, factors, order) == Some(r.error)
  {
    if !(1 <= events <= 32) {
      return Failure(InvalidEventCount);
    }
    if !LiquidityOk(b) {
      return Failure(InvalidLiquidity);
    }
    if |factors| > 64 {
      return Failure(TooManyFactors);
    }
    if !IsOrder(order, events) {
      return Failure(InvalidOrder);
    }
    var checked := CheckFactors(events, b, factors);
    if checked.Failure? {
      return Failure(checked.error);
    }
    var (tables, scaledMaxima) := checked.value;
    if scaledMaxima > 100.0 {
      return Failure(InvalidValues);
    }
    var check := InducedWidth(RealScopes(tables), order);
    WidthMeaning(RealScopes(tables), order);
    if check.TooWide? {
      return Failure(WidthExceeded);
    }
    TablesValid(events, factors);
    r := Success(Snapshot(events, b, tables, order, check.width));
  }

  lemma TablesValid(events: nat, factors: seq<Factor>)
    requires FactorsOk(events, factors)
    ensures RealShaped(TablesOf(events, factors))
    ensures forall t :: t in TablesOf(events, factors) ==> t.scope <= Range(events) && |t.scope| <= 3
    ensures forall t :: t in TablesOf(events, factors) ==> forall i :: 0 <= i < |t.values| ==> t.values[i] >= 0.0
  {
    var tables := TablesOf(events, factors);
    forall t | t in tables
      ensures |t.values| == Pow2(|t.scope|) && t.scope <= Range(events) && |t.scope| <= 3
      ensures forall i :: 0 <= i < |t.values| ==> t.values[i] >= 0.0
    {
      var k :| 0 <= k < |tables| && tables[k] == t;
      var f := factors[k];
      assert FactorFault(events, f).None?;
      IncreasingCount(f.scope);
    }
  }

  /** `peak_table_entries`, 1 << (width + 1), is the size of the largest table the engine ever joins, in either reading
      and under any evidence, and at most eight. */
  lemma PeakTableEntries(mode: Mode, m: ExpLn, s: Snapshot, evidence: Evidence)
    requires Valid(s)
    ensures Shaped(Lift(mode, m, s.b, s.factors))
    ensures IsPeak(mode, Lift(mode, m, s.b, s.factors), evidence, s.order, Pow2(s.width + 1))
    ensures Pow2(s.width + 1) <= 8
  {
    var tables := Lift(mode, m, s.b, s.factors);
    LiftShaped(mode, m, s.b, s.factors, {});
    PeakOfRun(mode, tables, evidence, s.order, s.width);
  }

  // ---- Queries ----

  /** `eliminate` on a valid snapshot, in either reading. */
  method Run(mode: Mode, m: ExpLn, s: Snapshot, evidence: Evidence) returns (r: Num)
    requires Lawful(m) && Valid(s) && evidence.Keys <= Range(s.events)
    ensures Shaped(Lift(mode, m, s.b, s.factors))
    ensures r == Enumerated(mode, Lift(mode, m, s.b, s.factors), evidence, States(s.events, {}))
  {
    LiftShaped(mode, m, s.b, s.factors, Range(s.events));
    r := Eliminate(mode, Lift(mode, m, s.b, s.factors), s.events, s.order, evidence);
  }

  /** The weight of the joint states that agree with the evidence. */
  method EvidenceWeight(m: ExpLn, s: Snapshot, evidence: Evidence) returns (w: real)
    requires Lawful(m) && Valid(s) && evidence.Keys <= Range(s.events)
    ensures w == Lmsr.Paying(m, s.b, Vector(s), Agreeing(evidence, States(s.events, {})))
  {
    var r := Run(SumProduct, m, s, evidence);
    EnumeratedWeight(m, s.b, s.factors, evidence, States(s.events, {}));
    w := Weight(r);
  }

  method TotalWeight(m: ExpLn, s: Snapshot) returns (z: real)
    requires Lawful(m) && Valid(s)
    ensures z == Lmsr.Partition(m, s.b, Vector(s)) && z > 0.0
  {
    z := EvidenceWeight(m, s, map[]);
    AllPaying(m, s.b, Vector(s), Agreeing(map[], States(s.events, {})));
    Lmsr.PartitionPositive(m, s.b, Vector(s));
  }

  /** `cost` is the enumerated market maker's cost. */
  method Cost(m: ExpLn, s: Snapshot) returns (c: real)
    requires Lawful(m) && Valid(s)
    ensures c == Lmsr.Cost(m, s.b, Vector(s))
  {
    var z := TotalWeight(m, s);
    c := ScaledLn(m, s.b, z);
  }

  /** `max_liability` is the largest liability over all joint states. */
  method MaxLiability(m: ExpLn, s: Snapshot) returns (high: real)
    requires Lawful(m) && Valid(s)
    ensures high in Vector(s)
    ensures forall i :: 0 <= i < |Vector(s)| ==> Vector(s)[i] <= high
  {
    var r := Run(MaxSum, m, s, map[]);
    EnumeratedMax(m, s.b, s.factors, States(s.events, {}));
    high := r.value;
  }

  /** The evidence a caller lists is accepted when every event exists and none is listed twice. */
  predicate Assignable(events: nat, assignments: seq<(nat, bool)>) {
    && (forall i | 0 <= i < |assignments| :: assignments[i].0 < events)
    && (forall i, j | 0 <= i < j < |assignments| :: assignments[i].0 != assignments[j].0)
  }

  function EvidenceOf(assignments: seq<(nat, bool)>): Evidence {
    if assignments == [] then map[]
    else
      var last := assignments[|assignments| - 1];
      EvidenceOf(assignments[..|assignments| - 1])[last.0 := last.1]
  }

  lemma {:induction false} EvidenceKeys(assignments: seq<(nat, bool)>)
    ensures forall e: nat ::
              e in EvidenceOf(assignments) <==> exists i :: 0 <= i < |assignments| && assignments[i].0 == e
  {
    if assignments != [] {
      EvidenceKeys(assignments[..|assignments| - 1]);
    }
  }

  lemma AssignableGrows(events: nat, assignments: seq<(nat, bool)>, k: nat)
    requires k < |assignments| && Assignable(events, assignments[..k])
    ensures Assignable(events, assignments[..k + 1])
       <==> assignments[k].0 < events && assignments[k].0 !in EvidenceOf(assignments[..k])
    ensures EvidenceOf(assignments[..k + 1]) == EvidenceOf(assignments[..k])[assignments[k].0 := assignments[k].1]
  {
    var before, after := assignments[..k], assignments[..k + 1];
    assert after[..k] == before;
    EvidenceKeys(before);
    if assignments[k].0 in EvidenceOf(before) {
      var i :| 0 <= i < k && before[i].0 == assignments[k].0;
      assert after[i].0 == after[k].0;
    }
  }

  lemma AssignablePrefix(events: nat, assignments: seq<(nat, bool)>, k: nat)
    requires k <= |assignments| && Assignable(events, assignments)
    ensures Assignable(events, assignments[..k])
  {
  }

  method ReadEvidence(events: nat, assignments: seq<(nat, bool)>) returns (r: Result<Evidence, Error>)
    ensures r.Success? <==> Assignable(events, assignments)
    ensures r.Failure? ==> r.error == InvalidEvidence
    ensures r.Success? ==> r.value == EvidenceOf(assignments) && r.value.Keys <= Range(events)
  {
    var evidence: Evidence := map[];
    var k := 0;
    while k < |assignments|
      invariant 0 <= k <= |assignments|
      invariant Assignable(events, assignments[..k]) && evidence == EvidenceOf(assignments[..k])
    {
      AssignableGrows(events, assignments, k);
      var (event, value) := assignments[k];
      if event >= events || event in evidence {
        if Assignable(events, assignments) {
          AssignablePrefix(events, assignments, k + 1);
        }
        return Failure(InvalidEvidence);
      }
      evidence := evidence[event := value];
      k := k + 1;
    }
    assert assignments[..k] == assignments;
    EvidenceKeys(assignments);
    r := Success(evidence);
  }

  /** `probability`: the share of the agreeing states, for any listed evidence. */
  method Probability(m: ExpLn, s: Snapshot, assignments: seq<(nat, bool)>) returns (r: Result<real, Error>)
    requires Lawful(m) && Valid(s)
    ensures r.Success? <==> Assignable(s.events, assignments)
    ensures r.Failure? ==> r.error == InvalidEvidence
    ensures Lmsr.Partition(m, s.b, Vector(s)) > 0.0
    ensures r.Success? ==>
      r.value == Lmsr.Share(Lmsr.Paying(m, s.b, Vector(s), Agreeing(EvidenceOf(assignments), States(s.events, {}))),
                            Lmsr.Partition(m, s.b, Vector(s)))
  {
    Lmsr.PartitionPositive(m, s.b, Vector(s));
    var read := ReadEvidence(s.events, assignments);
    if read.Failure? {
      return Failure(read.error);
    }
    var w := EvidenceWeight(m, s, read.value);
    var z := TotalWeight(m, s);
    r := Success(Lmsr.Share(w, z));
  }
}
