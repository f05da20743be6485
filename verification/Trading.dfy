/** Trades on the bounded-width market maker (factored.rs, `simulate_trade`). */
module Trading {
  import opened Wrappers
  import opened Scopes
  import opened Width
  import opened Elimination
  import opened Exponential
  import opened RealFacts
  import opened Factored
  import Lmsr
  import TradeRuns

  /** In which listed joint states a claim on a scope pays: those whose local state is in its mask. */
  ghost function ClaimPays(scope: set<nat>, mask: set<nat>, states: seq<set<nat>>): (pays: seq<bool>)
    ensures |pays| == |states|
  {
    seq(|states|, i requires 0 <= i < |states| => Project(scope, states[i]) in mask)
  }

  // ---- The factors after a trade ----

  /** The tables of every other scope, in order. */
  function Others(tables: seq<RealTable>, scope: set<nat>): seq<RealTable> {
    if tables == [] then []
    else
      var t := tables[|tables| - 1];
      Others(tables[..|tables| - 1], scope) + (if t.scope == scope then [] else [t])
  }

  /** Entry `local` of the sum of the tables with exactly this scope. */
  function Merged(tables: seq<RealTable>, scope: set<nat>, local: nat): real
    requires forall t :: t in tables && t.scope == scope ==> local < |t.values|
  {
    if tables == [] then 0.0
    else
      var t := tables[|tables| - 1];
      assert t in tables;
      Merged(tables[..|tables| - 1], scope, local) + (if t.scope == scope then t.values[local] else 0.0)
  }

  lemma {:induction false} OthersAre(tables: seq<RealTable>, scope: set<nat>)
    ensures forall t :: t in Others(tables, scope) ==> t in tables && t.scope != scope
  {
    if tables != [] {
      OthersAre(tables[..|tables| - 1], scope);
    }
  }

  /** Merging the tables of one scope keeps every joint state's liability. */
  lemma {:induction false} LiabilitySplits(tables: seq<RealTable>, scope: set<nat>, state: set<nat>)
    requires RealShaped(tables)
    ensures RealShaped(Others(tables, scope))
    ensures Liability(tables, state)
         == Liability(Others(tables, scope), state) + Merged(tables, scope, Project(scope, state))
  {
    OthersAre(tables, scope);
    if tables != [] {
      var rest, t := tables[..|tables| - 1], tables[|tables| - 1];
      assert t in tables;
      LiabilitySplits(rest, scope, state);
      var local := Project(scope, state);
      var owed := t.values[Project(t.scope, state)];
      assert Liability(tables, state) == Liability(rest, state) + owed;
      if t.scope == scope {
        assert Others(tables, scope) == Others(rest, scope);
        assert Merged(tables, scope, local) == Merged(rest, scope, local) + t.values[local];
      } else {
        assert Others(tables, scope) == Others(rest, scope) + [t];
        LiabilitySnoc(Others(rest, scope), t, state);
        assert Merged(tables, scope, local) == Merged(rest, scope, local);
      }
    }
  }

  lemma LiabilitySnoc(tables: seq<RealTable>, t: RealTable, state: set<nat>)
    requires RealShaped(tables) && |t.values| == Pow2(|t.scope|)
    ensures RealShaped(tables + [t])
    ensures Liability(tables + [t], state) == Liability(tables, state) + t.values[Project(t.scope, state)]
  {
    assert (tables + [t])[..|tables + [t]| - 1] == tables;
  }

  /** The traded table: the merged entries, moved by the quantity where the mask pays. */
  ghost predicate IsTraded(tables: seq<RealTable>, scope: set<nat>, mask: set<nat>, quantity: real, values: seq<real>)
    requires RealShaped(tables)
  {
    && |values| == Pow2(|scope|)
    && forall i :: 0 <= i < |values| ==>
         values[i] == Merged(tables, scope, i) + if i in mask then quantity else 0.0
  }

  /** After a trade each joint state's liability has moved by the quantity exactly where the claim pays. */
  lemma TradeMovesLiability(tables: seq<RealTable>, scope: set<nat>, mask: set<nat>, quantity: real,
                            values: seq<real>, states: seq<set<nat>>)
    requires RealShaped(tables) && IsTraded(tables, scope, mask, quantity, values)
    ensures RealShaped(Others(tables, scope) + [RealTable(scope, values)])
    ensures LiabilitiesIn(Others(tables, scope) + [RealTable(scope, values)], states)
         == Lmsr.Moved(LiabilitiesIn(tables, states), ClaimPays(scope, mask, states), quantity)
  {
    OthersAre(tables, scope);
    var after := Others(tables, scope) + [RealTable(scope, values)];
    forall i | 0 <= i < |states|
      ensures Liability(after, states[i])
           == Liability(tables, states[i]) + if Project(scope, states[i]) in mask then quantity else 0.0
    {
      LiabilitySplits(tables, scope, states[i]);
      LiabilitySnoc(Others(tables, scope), RealTable(scope, values), states[i]);
    }
  }

  // ---- The claim's probability, summed from evidence eliminations ----

  /** The evidence that fixes every listed event to its bit in a local state. */
  function LocalEvidence(scope: seq<nat>, local: nat): (r: seq<(nat, bool)>)
    ensures |r| == |scope|
  {
    seq(|scope|, i requires 0 <= i < |scope| => (scope[i], Bit(local, i)))
  }

  lemma LocalEvidenceAssignable(events: nat, scope: seq<nat>, local: nat)
    requires ScopeMask(events, scope).Some?
    ensures Assignable(events, LocalEvidence(scope, local))
  {
    forall i, j | 0 <= i < j < |scope| ensures scope[i] != scope[j] {
      IncreasingStrict(scope, i, j);
    }
  }

  lemma {:induction false} EvidenceValue(assignments: seq<(nat, bool)>, i: nat)
    requires i < |assignments|
    requires forall j, k | 0 <= j < k < |assignments| :: assignments[j].0 != assignments[k].0
    ensures assignments[i].0 in EvidenceOf(assignments) && EvidenceOf(assignments)[assignments[i].0] == assignments[i].1
  {
    if i < |assignments| - 1 {
      EvidenceValue(assignments[..|assignments| - 1], i);
    }
  }

  /** The evidence of a local state is exactly its assignment of the scope's events. */
  lemma LocalEvidenceIs(events: nat, scope: seq<nat>, local: nat)
    requires ScopeMask(events, scope).Some?
    ensures var evidence := EvidenceOf(LocalEvidence(scope, local));
      && evidence.Keys == Elements(scope)
      && forall e: nat :: e in evidence ==> evidence[e] == (e in Expand(Elements(scope), local))
  {
    var assignments := LocalEvidence(scope, local);
    var evidence := EvidenceOf(assignments);
    LocalEvidenceAssignable(events, scope, local);
    EvidenceKeys(assignments);
    forall i | 0 <= i < |scope|
      ensures scope[i] in evidence && evidence[scope[i]] == (scope[i] in Expand(Elements(scope), local))
    {
      EvidenceValue(assignments, i);
      ExpandList(scope, local, i);
      assert assignments[i].0 == scope[i];
    }
    forall e: nat | e in evidence ensures e in Elements(scope) {
      var i :| 0 <= i < |assignments| && assignments[i].0 == e;
      assert scope[i] == e;
    }
  }

  /** A joint state agrees with a local state's evidence exactly when it projects to that local state. */
  lemma LocalEvidenceSelects(events: nat, scope: seq<nat>, local: nat, state: set<nat>)
    requires ScopeMask(events, scope).Some? && local < Pow2(|scope|)
    ensures Agrees(EvidenceOf(LocalEvidence(scope, local)), state) <==> Project(Elements(scope), state) == local
  {
    IncreasingCount(scope);
    LocalEvidenceIs(events, scope, local);
    AgreesMeansProjects(Elements(scope), local, EvidenceOf(LocalEvidence(scope, local)), state);
  }

  lemma AgreesMeansProjects(mask: set<nat>, local: nat, evidence: Evidence, state: set<nat>)
    requires local < Pow2(|mask|) && evidence.Keys == mask
    requires forall e: nat :: e in evidence ==> evidence[e] == (e in Expand(mask, local))
    ensures Agrees(evidence, state) <==> Project(mask, state) == local
  {
    ProjectExpand(mask, local);
    if Project(mask, state) == local {
      ExpandProject(mask, state);
    }
    if Agrees(evidence, state) {
      ProjectSame(mask, state, Expand(mask, local));
    }
  }

  lemma {:induction false} PayingUnion(m: ExpLn, b: real, q: seq<real>, p: seq<bool>, r: seq<bool>, both: seq<bool>)
    requires b > 0.0 && |p| == |q| && |r| == |q| && |both| == |q|
    requires forall i :: 0 <= i < |q| ==> !(p[i] && r[i]) && both[i] == (p[i] || r[i])
    ensures Lmsr.Paying(m, b, q, both) == Lmsr.Paying(m, b, q, p) + Lmsr.Paying(m, b, q, r)
  {
    if q != [] {
      PayingUnion(m, b, q[1..], p[1..], r[1..], both[1..]);
    }
  }

  lemma {:induction false} PayingNone(m: ExpLn, b: real, q: seq<real>, pays: seq<bool>)
    requires b > 0.0 && |pays| == |q| && forall i :: 0 <= i < |pays| ==> !pays[i]
    ensures Lmsr.Paying(m, b, q, pays) == 0.0
  {
    if q != [] {
      PayingNone(m, b, q[1..], pays[1..]);
    }
  }

  /** The local states of a mask below a bound. */
  function Below(mask: set<nat>, bound: nat): set<nat> {
    set i | i in mask && i < bound
  }

  /** The weight of the states in which a claim pays. */
  ghost function ClaimWeight(m: ExpLn, b: real, q: seq<real>, n: nat, claim: set<nat>, mask: set<nat>): real
    requires b > 0.0 && |q| == Pow2(n)
  {
    Lmsr.Paying(m, b, q, ClaimPays(claim, mask, States(n, {})))
  }

  /** The weight of the states that agree with the listed evidence. */
  ghost function EvidenceShare(m: ExpLn, b: real, q: seq<real>, n: nat, assignments: seq<(nat, bool)>): real
    requires b > 0.0 && |q| == Pow2(n)
  {
    Lmsr.Paying(m, b, q, Agreeing(EvidenceOf(assignments), States(n, {})))
  }

  /** Where the claim pays below a bound: the states before it and the states of the bound itself. */
  lemma ClaimPaysStep(n: nat, scope: seq<nat>, mask: set<nat>, local: nat, state: set<nat>)
    requires ScopeMask(n, scope).Some? && local < Pow2(|scope|)
    ensures local in mask ==>
      ((Project(Elements(scope), state) in Below(mask, local + 1))
       == (Project(Elements(scope), state) in Below(mask, local)
           || Agrees(EvidenceOf(LocalEvidence(scope, local)), state)))
    ensures Project(Elements(scope), state) in Below(mask, local) ==>
            !Agrees(EvidenceOf(LocalEvidence(scope, local)), state)
    ensures local !in mask ==> Below(mask, local + 1) == Below(mask, local)
  {
    LocalEvidenceSelects(n, scope, local, state);
  }

  lemma ClaimWeightStep(m: ExpLn, b: real, q: seq<real>, n: nat, scope: seq<nat>, mask: set<nat>, local: nat)
    requires b > 0.0 && |q| == Pow2(n) && ScopeMask(n, scope).Some? && local < Pow2(|scope|)
    ensures ClaimWeight(m, b, q, n, Elements(scope), Below(mask, local + 1))
         == ClaimWeight(m, b, q, n, Elements(scope), Below(mask, local))
            + if local in mask then EvidenceShare(m, b, q, n, LocalEvidence(scope, local)) else 0.0
  {
    var states := States(n, {});
    var claim := Elements(scope);
    var before, after := ClaimPays(claim, Below(mask, local), states), ClaimPays(claim, Below(mask, local + 1), states);
    var single := Agreeing(EvidenceOf(LocalEvidence(scope, local)), states);
    if local in mask {
      forall i | 0 <= i < |states| ensures !(before[i] && single[i]) && after[i] == (before[i] || single[i]) {
        ClaimPaysStep(n, scope, mask, local, states[i]);
      }
      PayingUnion(m, b, q, before, single, after);
    } else {
      ClaimPaysStep(n, scope, mask, local, {});
    }
  }

  /** The probability of one local state of the claim. */
  ghost function StateShare(m: ExpLn, b: real, q: seq<real>, n: nat, scope: seq<nat>, local: nat): real
    requires Lawful(m) && b > 0.0 && |q| == Pow2(n)
  {
    Lmsr.PartitionPositive(m, b, q);
    Lmsr.Share(EvidenceShare(m, b, q, n, LocalEvidence(scope, local)), Lmsr.Partition(m, b, q))
  }

  /** `self.probability(&evidence)?` for one local state of the claim: it cannot fail. */
  method StateProbability(m: ExpLn, s: Snapshot, scope: seq<nat>, local: nat) returns (p: real)
    requires Lawful(m) && Valid(s) && ScopeMask(s.events, scope).Some?
    ensures p == StateShare(m, s.b, Vector(s), s.events, scope, local)
  {
    LocalEvidenceAssignable(s.events, scope, local);
    var r := Probability(m, s, LocalEvidence(scope, local));
    p := r.value;
  }

  /** The sum of the listed amounts of a mask below a bound. */
  ghost function SumIn(amounts: seq<real>, mask: set<nat>, bound: nat): real
    requires bound <= |amounts|
  {
    if bound == 0 then 0.0 else SumIn(amounts, mask, bound - 1) + if bound - 1 in mask then amounts[bound - 1] else 0.0
  }

  ghost function StateShares(m: ExpLn, b: real, q: seq<real>, n: nat, scope: seq<nat>): (amounts: seq<real>)
    requires Lawful(m) && b > 0.0 && |q| == Pow2(n)
  {
    seq(Pow2(|scope|), local requires 0 <= local < Pow2(|scope|) => StateShare(m, b, q, n, scope, local))
  }

  /** What one local state adds. */
  method LocalProbability(m: ExpLn, s: Snapshot, scope: seq<nat>, mask: set<nat>, local: nat, ghost amounts: seq<real>)
    returns (p: real)
    requires Lawful(m) && Valid(s) && ScopeMask(s.events, scope).Some? && local < |amounts| == Pow2(|scope|)
    requires amounts == StateShares(m, s.b, Vector(s), s.events, scope)
    ensures p == if local in mask then amounts[local] else 0.0
  {
    p := 0.0;
    if local in mask {
      p := StateProbability(m, s, scope, local);
    }
  }

  /** The loop that adds the probabilities of the local states in which the claim pays. */
  method SumProbabilities(m: ExpLn, s: Snapshot, scope: seq<nat>, mask: set<nat>, ghost amounts: seq<real>)
    returns (probability: real)
    requires Lawful(m) && Valid(s) && ScopeMask(s.events, scope).Some? && |amounts| == Pow2(|scope|)
    requires amounts == StateShares(m, s.b, Vector(s), s.events, scope)
    ensures probability == SumIn(amounts, mask, |amounts|)
  {
    probability := 0.0;
    var local: nat := 0;
    while local < Pow2(|scope|)
      invariant local <= |amounts|
      invariant probability == SumIn(amounts, mask, local)
    {
      var p := LocalProbability(m, s, scope, mask, local, amounts);
      probability := probability + p;
      local := local + 1;
    }
  }

  lemma ShareStep(amounts: seq<real>, mask: set<nat>, local: nat, z: real, before: real, share: real, weight: real)
    requires local < |amounts| && z > 0.0 && amounts[local] == Lmsr.Share(share, z)
    requires SumIn(amounts, mask, local) == Lmsr.Share(before, z)
    requires weight == before + if local in mask then share else 0.0
    ensures SumIn(amounts, mask, local + 1) == Lmsr.Share(weight, z)
  {
    if local in mask {
      Lmsr.ShareAdds(before, share, weight, z);
    }
  }

  lemma ShareOfLocal(m: ExpLn, b: real, q: seq<real>, n: nat, scope: seq<nat>, local: nat, z: real)
    requires Lawful(m) && b > 0.0 && |q| == Pow2(n) && local < Pow2(|scope|) && z == Lmsr.Partition(m, b, q) && z > 0.0
    ensures StateShares(m, b, q, n, scope)[local]
            == Lmsr.Share(EvidenceShare(m, b, q, n, LocalEvidence(scope, local)), z)
  {
  }

  lemma NothingPays(m: ExpLn, b: real, q: seq<real>, n: nat, claim: set<nat>, mask: set<nat>)
    requires b > 0.0 && |q| == Pow2(n)
    ensures ClaimWeight(m, b, q, n, claim, Below(mask, 0)) == 0.0
  {
    PayingNone(m, b, q, ClaimPays(claim, Below(mask, 0), States(n, {})));
  }

  lemma {:induction false} SharesAddUp(m: ExpLn, b: real, q: seq<real>, n: nat, scope: seq<nat>, mask: set<nat>,
                                       bound: nat,
                                       z: real, amounts: seq<real>)
    requires Lawful(m) && b > 0.0 && |q| == Pow2(n) && ScopeMask(n, scope).Some? && bound <= Pow2(|scope|)
    requires z == Lmsr.Partition(m, b, q) && z > 0.0 && amounts == StateShares(m, b, q, n, scope)
    ensures SumIn(amounts, mask, bound) == Lmsr.Share(ClaimWeight(m, b, q, n, Elements(scope), Below(mask, bound)), z)
  {
    if bound == 0 {
      NothingPays(m, b, q, n, Elements(scope), mask);
      Lmsr.ShareAdds(0.0, 0.0, 0.0, z);
    } else {
      var local := bound - 1;
      SharesAddUp(m, b, q, n, scope, mask, local, z, amounts);
      ClaimWeightStep(m, b, q, n, scope, mask, local);
      ShareOfLocal(m, b, q, n, scope, local, z);
      ShareStep(amounts, mask, local, z, ClaimWeight(m, b, q, n, Elements(scope), Below(mask, local)),
                EvidenceShare(m, b, q, n, LocalEvidence(scope, local)),
                ClaimWeight(m, b, q, n, Elements(scope), Below(mask, bound)));
    }
  }

  method ClaimProbability(m: ExpLn, s: Snapshot, scope: seq<nat>, mask: set<nat>) returns (probability: real)
    requires Lawful(m) && Valid(s) && ScopeMask(s.events, scope).Some? && mask <= Range(Pow2(|scope|))
    ensures Lmsr.Partition(m, s.b, Vector(s)) > 0.0
    ensures probability
         == Lmsr.Share(ClaimWeight(m, s.b, Vector(s), s.events, Elements(scope), mask),
                       Lmsr.Partition(m, s.b, Vector(s)))
  {
    ghost var q := Vector(s);
    Lmsr.PartitionPositive(m, s.b, q);
    assert Below(mask, Pow2(|scope|)) == mask;
    ghost var amounts := StateShares(m, s.b, q, s.events, scope);
    SharesAddUp(m, s.b, q, s.events, scope, mask, Pow2(|scope|), Lmsr.Partition(m, s.b, q), amounts);
    probability := SumProbabilities(m, s, scope, mask, amounts);
  }

  // ---- The trade ----

  /** Why a trade is refused before any table is touched, in the order of the checks. */
  function TradeFault(s: Snapshot, scope: seq<nat>, mask: set<nat>, quantity: real): Option<Error> {
    if ScopeMask(s.events, scope).None? || scope == [] then Some(InvalidScope)
    else if mask == {} || mask == Range(Pow2(|scope|)) || !(mask <= Range(Pow2(|scope|))) then Some(InvalidClaim)
    else if quantity != 0.0 && !(s.b / 1000000000.0 <= Abs(quantity) <= s.b) then Some(InvalidQuantity)
    else None
  }

  /** The factors that list some tables again. */
  function Listed(events: nat, tables: seq<RealTable>): (factors: seq<Factor>)
    ensures |factors| == |tables|
  {
    seq(|tables|, i requires 0 <= i < |tables| => Factor(ScopeList(events, tables[i].scope), tables[i].values))
  }

  /** The entries of the claim's own table after the trade. */
  function TradedValues(s: Snapshot, scope: seq<nat>, mask: set<nat>, quantity: real): (values: seq<real>)
    requires RealShaped(s.factors) && Increasing(scope)
    ensures |values| == Pow2(|scope|)
  {
    IncreasingCount(scope);
    seq(Pow2(|scope|), i requires 0 <= i < Pow2(|scope|) =>
      Merged(s.factors, Elements(scope), i) + if i in mask then quantity else 0.0)
  }

  /** The model a trade offers to the constructor: every other table as it was, and the claim's own. */
  function Offered(s: Snapshot, scope: seq<nat>, mask: set<nat>, quantity: real): seq<Factor>
    requires RealShaped(s.factors) && Increasing(scope)
  {
    Listed(s.events, Others(s.factors, Elements(scope))) + [Factor(scope, TradedValues(s, scope, mask, quantity))]
  }

  /** A table that is listed again is the same table. */
  lemma FactorOfTable(events: nat, t: RealTable)
    requires |t.values| == Pow2(|t.scope|) && t.scope <= Range(events) && |t.scope| <= 3
    requires forall i :: 0 <= i < |t.values| ==> t.values[i] >= 0.0
    ensures FactorFault(events, Factor(ScopeList(events, t.scope), t.values)).None?
    ensures TableOf(events, Factor(ScopeList(events, t.scope), t.values)) == t
  {
    ScopeListMask(events, t.scope);
  }

  /** The factor list handed to the constructor keeps these tables. */
  ghost predicate Lists(events: nat, factors: seq<Factor>, tables: seq<RealTable>) {
    FactorsOk(events, factors) && TablesOf(events, factors) == tables
  }

  lemma ListsSnoc(events: nat, factors: seq<Factor>, tables: seq<RealTable>, f: Factor, t: RealTable)
    requires Lists(events, factors, tables) && FactorFault(events, f).None? && TableOf(events, f) == t
    ensures Lists(events, factors + [f], tables + [t])
  {
  }

  ghost predicate IsMerged(tables: seq<RealTable>, scope: set<nat>, values: seq<real>)
    requires RealShaped(tables)
  {
    && |values| == Pow2(|scope|)
    && forall i :: 0 <= i < |values| ==> values[i] == Merged(tables, scope, i)
  }

  /** `for (total, value) in values.iter_mut().zip(&table.values)`. */
  method AddInto(values: seq<real>, more: seq<real>) returns (r: seq<real>)
    requires |values| == |more|
    ensures |r| == |values| && forall i :: 0 <= i < |r| ==> r[i] == values[i] + more[i]
  {
    r := values;
    for i := 0 to |values|
      invariant |r| == |values|
      invariant forall j :: 0 <= j < i ==> r[j] == values[j] + more[j]
      invariant forall j :: i <= j < |values| ==> r[j] == values[j]
    {
      r := r[i := r[i] + more[i]];
    }
  }

  /** `if mask & (1 << state) != 0 { *value += quantity }`. */
  method Pay(values: seq<real>, mask: set<nat>, quantity: real) returns (r: seq<real>)
    ensures |r| == |values|
    ensures forall i :: 0 <= i < |r| ==> r[i] == values[i] + if i in mask then quantity else 0.0
  {
    r := values;
    for i := 0 to |values|
      invariant |r| == |values|
      invariant forall j :: 0 <= j < i ==> r[j] == values[j] + if j in mask then quantity else 0.0
      invariant forall j :: i <= j < |values| ==> r[j] == values[j]
    {
      if i in mask {
        r := r[i := r[i] + quantity];
      }
    }
  }

  lemma {:induction false} OthersListed(s: Snapshot, tables: seq<RealTable>, candidate: set<nat>)
    requires Valid(s) && forall t :: t in tables ==> t in s.factors
    ensures Lists(s.events, Listed(s.events, Others(tables, candidate)), Others(tables, candidate))
  {
    if tables != [] {
      var rest, t := tables[..|tables| - 1], tables[|tables| - 1];
      OthersListed(s, rest, candidate);
      if t.scope != candidate {
        var f := Factor(ScopeList(s.events, t.scope), t.values);
        FactorOfTable(s.events, t);
        ListsSnoc(s.events, Listed(s.events, Others(rest, candidate)), Others(rest, candidate), f, t);
        ListedSnoc(s.events, Others(rest, candidate), t);
      }
    }
  }

  lemma ListedSnoc(events: nat, tables: seq<RealTable>, t: RealTable)
    ensures Listed(events, tables + [t]) == Listed(events, tables) + [Factor(ScopeList(events, t.scope), t.values)]
  {
  }

  /** The first loop of `simulate_trade`: same-scope tables are added up, the others are listed again. */
  method MergeTables(s: Snapshot, candidate: set<nat>) returns (factors: seq<Factor>, values: seq<real>)
    requires Valid(s)
    ensures factors == Listed(s.events, Others(s.factors, candidate))
    ensures IsMerged(s.factors, candidate, values)
  {
    factors := [];
    values := seq(Pow2(|candidate|), _ => 0.0);
    var k := 0;
    while k < |s.factors|
      invariant 0 <= k <= |s.factors|
      invariant factors == Listed(s.events, Others(s.factors[..k], candidate))
      invariant IsMerged(s.factors[..k], candidate, values)
    {
      var t := s.factors[k];
      assert t in s.factors;
      assert s.factors[..k + 1][..k] == s.factors[..k];
      if t.scope == candidate {
        values := AddInto(values, t.values);
      } else {
        ListedSnoc(s.events, Others(s.factors[..k], candidate), t);
        factors := factors + [Factor(ScopeList(s.events, t.scope), t.values)];
      }
      k := k + 1;
    }
    assert s.factors[..k] == s.factors;
  }

  /** What an accepted trade returns: the liabilities moved exactly where the claim pays, the rest of the
      model unchanged, and a price equal to the difference of the costs. */
  ghost predicate Traded(m: ExpLn, s: Snapshot, scope: seq<nat>, mask: set<nat>, quantity: real, paid: real,
                         after: Snapshot)
    requires Valid(s) && ScopeMask(s.events, scope).Some?
  {
    && Valid(after)
    && after.events == s.events && after.b == s.b && after.order == s.order
    && Vector(after) == Lmsr.Moved(Vector(s), ClaimPays(Elements(scope), mask, States(s.events, {})), quantity)
    && paid == Lmsr.Cost(m, s.b, Vector(after)) - Lmsr.Cost(m, s.b, Vector(s))
  }

  /** One accepted call: the claim, the signed quantity and the collateral it returned. */
  datatype Deal = Deal(scope: seq<nat>, mask: set<nat>, quantity: real, paid: real)

  /** The call was accepted on one snapshot and returned the other. */
  ghost predicate Dealt(m: ExpLn, s: Snapshot, deal: Deal, after: Snapshot) {
    && Valid(s)
    && TradeFault(s, deal.scope, deal.mask, deal.quantity).None?
    && if deal.quantity == 0.0 then deal.paid == 0.0 && after == s
       else Traded(m, s, deal.scope, deal.mask, deal.quantity, deal.paid, after)
  }

  lemma AddedTables(s: Snapshot, factors: seq<Factor>, scope: seq<nat>, values: seq<real>)
    requires Valid(s) && ScopeMask(s.events, scope).Some?
    requires Lists(s.events, factors, Others(s.factors, Elements(scope)))
    requires FactorsOk(s.events, factors + [Factor(scope, values)])
    ensures TablesOf(s.events, factors + [Factor(scope, values)])
         == Others(s.factors, Elements(scope)) + [RealTable(Elements(scope), values)]
  {
    var added := factors + [Factor(scope, values)];
    assert added[|factors|] == Factor(scope, values);
    forall i | 0 <= i < |factors| ensures TablesOf(s.events, added)[i] == TablesOf(s.events, factors)[i] {
      assert added[i] == factors[i];
    }
  }

  /** The offered model owes what the old one owed, moved by the quantity exactly where the claim pays. */
  lemma OfferedMoves(s: Snapshot, scope: seq<nat>, mask: set<nat>, quantity: real, tables: seq<RealTable>)
    requires Valid(s) && ScopeMask(s.events, scope).Some? && FactorsOk(s.events, Offered(s, scope, mask, quantity))
    requires tables == TablesOf(s.events, Offered(s, scope, mask, quantity))
    ensures RealShaped(tables)
    ensures LiabilitiesIn(tables, States(s.events, {}))
         == Lmsr.Moved(Vector(s), ClaimPays(Elements(scope), mask, States(s.events, {})), quantity)
  {
    IncreasingCount(scope);
    var values := TradedValues(s, scope, mask, quantity);
    OthersListed(s, s.factors, Elements(scope));
    AddedTables(s, Listed(s.events, Others(s.factors, Elements(scope))), scope, values);
    TradeMovesLiability(s.factors, Elements(scope), mask, quantity, values, States(s.events, {}));
  }

  /** The model after a trade, revalidated by the constructor. */
  method Rebuild(s: Snapshot, scope: seq<nat>, mask: set<nat>, quantity: real) returns (after: Result<Snapshot, Error>)
    requires Valid(s) && ScopeMask(s.events, scope).Some?
    ensures after.Success? <==> Acceptable(s.events, s.b, Offered(s, scope, mask, quantity), s.order)
    ensures after.Failure? ==> Refusal(s.events, s.b, Offered(s, scope, mask, quantity), s.order) == Some(after.error)
    ensures after.Success? ==>
              && Valid(after.value)
              && after.value.events == s.events && after.value.b == s.b && after.value.order == s.order
              && Vector(after.value) == Lmsr.Moved(Vector(s), ClaimPays(Elements(scope), mask, States(s.events, {})),
                                                   quantity)
  {
    IncreasingCount(scope);
    var factors, merged := MergeTables(s, Elements(scope));
    var values := Pay(merged, mask, quantity);
    var added := factors + [Factor(scope, values)];
    assert values == TradedValues(s, scope, mask, quantity);
    after := New(s.events, s.b, added, s.order);
    if after.Success? {
      OfferedMoves(s, scope, mask, quantity, after.value.factors);
    }
  }

  method SimulateTrade(m: ExpLn, s: Snapshot, scope: seq<nat>, mask: set<nat>, quantity: real)
    returns (r: Result<(real, Snapshot), Error>)
    requires Lawful(m) && Valid(s)
    ensures TradeFault(s, scope, mask, quantity).Some? ==> r == Failure(TradeFault(s, scope, mask, quantity).value)
    ensures TradeFault(s, scope, mask, quantity).None? && quantity == 0.0 ==> r.Success?
    ensures TradeFault(s, scope, mask, quantity).None? && quantity != 0.0 ==>
              r.Success? == Acceptable(s.events, s.b, Offered(s, scope, mask, quantity), s.order)
    ensures TradeFault(s, scope, mask, quantity).None? && r.Failure? ==>
              Refusal(s.events, s.b, Offered(s, scope, mask, quantity), s.order) == Some(r.error)
    ensures r.Success? ==> Dealt(m, s, Deal(scope, mask, quantity, r.value.0), r.value.1)
  {
    var candidate := ScopeMask(s.events, scope);
    if candidate.None? || scope == [] {
      return Failure(InvalidScope);
    }
    var states := Pow2(|scope|);
    if mask == {} || mask == Range(states) || !(mask <= Range(states)) {
      return Failure(InvalidClaim);
    }
    if quantity != 0.0 && !(s.b / 1000000000.0 <= Abs(quantity) <= s.b) {
      return Failure(InvalidQuantity);
    }
    if quantity == 0.0 {
      return Success((0.0, s));
    }
    // Revalidate the whole graph and domain before quoting.
    var after := Rebuild(s, scope, mask, quantity);
    if after.Failure? {
      return Failure(after.error);
    }
    var probability := ClaimProbability(m, s, scope, mask);
    TradePrice(m, s, scope, mask, quantity, after.value);
    var collateral := Lmsr.Price(m, s.b, probability, quantity);
    r := Success((collateral, after.value));
  }

  /** No accepted trade leaves a state owing less than nothing or more than 100 b. */
  lemma TradeStaysInDomain(s: Snapshot, scope: seq<nat>, mask: set<nat>, quantity: real, i: nat)
    requires Valid(s) && ScopeMask(s.events, scope).Some? && i < |Vector(s)|
    requires Acceptable(s.events, s.b, Offered(s, scope, mask, quantity), s.order)
    ensures 0.0 <= Vector(s)[i] + (if ClaimPays(Elements(scope), mask, States(s.events, {}))[i] then quantity else 0.0)
            <= 100.0 * s.b
  {
    var offered, states := Offered(s, scope, mask, quantity), States(s.events, {});
    OfferedMoves(s, scope, mask, quantity, TablesOf(s.events, offered));
    AcceptedLiability(s.events, s.b, offered, s.order, states[i]);
    assert LiabilitiesIn(TablesOf(s.events, offered), states)[i] == Liability(TablesOf(s.events, offered), states[i]);
  }

  lemma SizeOfProduct(q: real, b: real, x: real)
    requires b > 0.0 && x == b * q
    ensures Abs(q) * b == Abs(x)
  {
    if q >= 0.0 {
      OrderedProduct(b, 0.0, q);
    } else {
      StrictProduct(b, q, 0.0);
    }
  }

  /** Comparing sizes before or after multiplying by the liquidity is the same. */
  lemma AtMost(x: real, y: real, b: real)
    requires b > 0.0
    ensures x <= y <==> b * x <= b * y
  {
    if x <= y {
      OrderedProduct(b, x, y);
    } else {
      StrictProduct(b, y, x);
    }
  }

  lemma SizeOfQuotient(x: real, b: real)
    requires b > 0.0
    ensures Abs(x / b) >= 0.000000001 <==> Abs(x) >= b / 1000000000.0
    ensures Abs(x / b) <= 1.0 <==> Abs(x) <= b
  {
    var q := x / b;
    Cancel(x, b);
    SizeOfProduct(q, b, x);
    AtMost(Abs(q), 1.0, b);
    AtMost(0.000000001, Abs(q), b);
  }

  /** A nonzero quantity is accepted when its size is between a billionth of the liquidity and the liquidity. */
  lemma QuantityMeans(s: Snapshot, scope: seq<nat>, mask: set<nat>, quantity: real)
    requires s.b > 0.0 && quantity != 0.0
    ensures TradeFault(s, scope, mask, quantity) == Some(InvalidQuantity)
       <==> TradeFault(s, scope, mask, 0.0).None? && !(0.000000001 <= Abs(quantity / s.b) <= 1.0)
  {
    SizeOfQuotient(quantity, s.b);
  }

  /** A trade is turned away by no check on its terms exactly when the claim lists one to three events of the market in
      increasing order, pays in some but not all of their joint states, and the quantity is nothing or in range. */
  lemma TradeFaultMeans(s: Snapshot, scope: seq<nat>, mask: set<nat>, quantity: real)
    ensures TradeFault(s, scope, mask, quantity).None? <==>
              && 1 <= |scope| <= 3
              && (forall i :: 0 <= i < |scope| ==> scope[i] < s.events)
              && (forall i, j :: 0 <= i < j < |scope| ==> scope[i] < scope[j])
              && mask != {} && mask < Range(Pow2(|scope|))
              && (quantity == 0.0 || s.b / 1000000000.0 <= quantity <= s.b || s.b / 1000000000.0 <= -quantity <= s.b)
  {
    if Increasing(scope) {
      forall i, j | 0 <= i < j < |scope| ensures scope[i] < scope[j] {
        IncreasingStrict(scope, i, j);
      }
    }
  }

  /** Each fault is the first check that fails. */
  lemma TradeFaultIsFirst(s: Snapshot, scope: seq<nat>, mask: set<nat>, quantity: real)
    ensures TradeFault(s, scope, mask, quantity) == Some(InvalidScope) <==>
              |scope| > 3 || scope == [] || (exists i :: 0 <= i < |scope| && scope[i] >= s.events) || !Increasing(scope)
    ensures TradeFault(s, scope, mask, quantity) == Some(InvalidClaim) <==>
              TradeFault(s, scope, mask, quantity) != Some(InvalidScope) && !({} < mask < Range(Pow2(|scope|)))
  {
  }

  lemma TradePrice(m: ExpLn, s: Snapshot, scope: seq<nat>, mask: set<nat>, quantity: real, after: Snapshot)
    requires Lawful(m) && Valid(s) && Valid(after) && after.events == s.events && ScopeMask(s.events, scope).Some?
    requires Vector(after) == Lmsr.Moved(Vector(s), ClaimPays(Elements(scope), mask, States(s.events, {})), quantity)
    ensures Lmsr.Partition(m, s.b, Vector(s)) > 0.0
    ensures Lmsr.Price(m, s.b, Lmsr.Share(ClaimWeight(m, s.b, Vector(s), s.events, Elements(scope), mask),
                                          Lmsr.Partition(m, s.b, Vector(s))), quantity)
         == Lmsr.Cost(m, s.b, Vector(after)) - Lmsr.Cost(m, s.b, Vector(s))
  {
    var q := Vector(s);
    Lmsr.PartitionPositive(m, s.b, q);
    var pays := ClaimPays(Elements(scope), mask, States(s.events, {}));
    Lmsr.PriceIsCostDifference(m, s.b, q, pays, quantity, Lmsr.Partition(m, s.b, q), Lmsr.Paying(m, s.b, q, pays));
  }

  // ---- Every accepted trade is a priced move of the enumerated market ----

  lemma StateOfLocal(events: nat, claim: set<nat>, mask: set<nat>, local: nat)
    requires claim <= Range(events) && local < Pow2(|claim|)
    ensures (local in mask) in ClaimPays(claim, mask, States(events, {}))
  {
    var state := Expand(claim, local);
    ProjectExpand(claim, local);
    StateOfNumber(events, {}, state);
    var pays := ClaimPays(claim, mask, States(events, {}));
    assert pays[Number(events, state)] == (local in mask);
  }

  /** A claim that is neither empty nor full pays in some joint state and not in another. */
  lemma ClaimIsProper(events: nat, scope: seq<nat>, mask: set<nat>)
    requires ScopeMask(events, scope).Some? && mask != {} && mask < Range(Pow2(|scope|))
    ensures true in ClaimPays(Elements(scope), mask, States(events, {}))
    ensures false in ClaimPays(Elements(scope), mask, States(events, {}))
  {
    IncreasingCount(scope);
    var paying: nat :| paying in mask;
    var losing: nat :| losing in Range(Pow2(|scope|)) && losing !in mask;
    StateOfLocal(events, Elements(scope), mask, paying);
    StateOfLocal(events, Elements(scope), mask, losing);
  }

  /** An accepted trade is a move priced by the enumerated market's rule, of a claim that pays in some state
      and not in another: every statement about runs of moves applies to runs of accepted trades. */
  lemma TradeIsPricedMove(m: ExpLn, s: Snapshot, scope: seq<nat>, mask: set<nat>, quantity: real, paid: real,
                          after: Snapshot)
    requires Lawful(m) && Valid(s) && TradeFault(s, scope, mask, quantity).None?
    requires Traded(m, s, scope, mask, quantity, paid, after)
    ensures var move := TradeRuns.Move(ClaimPays(Elements(scope), mask, States(s.events, {})), quantity, paid);
      && TradeRuns.Priced(m, s.b, Vector(s), move)
      && Vector(after) == Lmsr.Moved(Vector(s), move.pays, quantity)
      && true in move.pays && false in move.pays
  {
    TradePrice(m, s, scope, mask, quantity, after);
    ClaimIsProper(s.events, scope, mask);
  }
}
