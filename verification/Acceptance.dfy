/** What holds of every proposal that the builder accepts. */
module Acceptance {
  import opened Wrappers
  import opened RealFacts
  import opened Scopes
  import opened Exponential
  import opened Distributions
  import opened Ising
  import opened FactorTables
  import opened Quantisation
  import opened Candidate
  import opened Proposal
  import opened Builder

  /** The builder refused nothing and this is what it returned. */
  ghost predicate Accepted(model: IsingModel, s: Snapshot, deadline: nat, tolerance: real, bias: seq<Table>) {
    Refusal(model, s, deadline, tolerance) == None && Proposed(model, s, bias)
  }

  ghost predicate Proposed(model: IsingModel, s: Snapshot, bias: seq<Table>) {
    && |model.parameters| == |Features(s.events)| && AllShaped(s.factors)
    && bias == Sorted(CandidateOf(s.events, model.parameters, s.liquidity, s.factors), s.events)
  }

  /** Liability plus bias of a state, in atoms. */
  ghost function PricedAtoms(s: Snapshot, bias: seq<Table>, state: set<nat>): real
    requires AllShaped(s.factors) && AllShaped(bias)
  {
    (Total(s.factors, state) + Total(bias, state)) as real
  }

  /** What the pool prices by after the update: liabilities plus bias of every state, over the liquidity. */
  ghost function ImpliedEnergies(s: Snapshot, bias: seq<Table>): (r: seq<real>)
    requires s.liquidity > 0 && AllShaped(s.factors) && AllShaped(bias)
    ensures |r| == Pow2(s.events)
  {
    var states := States(s.events, {});
    seq(|states|, k requires 0 <= k < |states| =>
      PerUnit(PricedAtoms(s, bias, states[k]), s.liquidity))
  }

  /** The summed rounding errors over the liquidity. */
  function EnergySpan(model: IsingModel, s: Snapshot): real
    requires s.liquidity > 0
  {
    PerUnit(RoundingError(s.liquidity, model.parameters), s.liquidity)
  }

  lemma ProposedShapes(model: IsingModel, s: Snapshot, bias: seq<Table>)
    requires Proposed(model, s, bias)
    ensures AllShaped(bias)
  {
    SortedTotal(CandidateOf(s.events, model.parameters, s.liquidity, s.factors), s.events, {});
  }

  /** The checks that the guarantees rest on. */
  lemma AcceptedFacts(model: IsingModel, s: Snapshot, deadline: nat, tolerance: real, bias: seq<Table>)
    requires Accepted(model, s, deadline, tolerance, bias)
    ensures s.liquidity > 0 && WellFormed(model) && model.events == s.events
    ensures TablesOk(s.factors, s.events, false) && TablesOk(s.biasFactors, s.events, true)
    ensures BelowWord(CandidateOf(s.events, model.parameters, s.liquidity, s.factors))
    ensures |CandidateOf(s.events, model.parameters, s.liquidity, s.factors)| <= 64
    ensures Movement(CandidateOf(s.events, model.parameters, s.liquidity, s.factors), s.biasFactors)
            <= s.maxBiasMovement
    ensures AcceptedBound(EnergySpan(model, s)) <= tolerance
  {
  }

  /** Liabilities plus bias is the exact energy in atoms, less the rounding error and a constant. */
  lemma ImpliedTotal(model: IsingModel, s: Snapshot, bias: seq<Table>, state: set<nat>)
    requires Proposed(model, s, bias) && AllShaped(bias)
    ensures PricedAtoms(s, bias, state)
         == Exact(s.liquidity, Energy(Features(s.events), model.parameters, state))
          - EnergyError(Features(s.events), model.parameters, s.liquidity, state)
          - Lows(Raw(s.events, model.parameters, s.liquidity, s.factors)) as real
  {
    LiabilitiesCancel(s.events, model.parameters, s.liquidity, s.factors, state);
    SortedTotal(CandidateOf(s.events, model.parameters, s.liquidity, s.factors), s.events, state);
  }

  lemma PairSpan(liquidity: nat, e: real, f: real, t: real, u: real, error: real)
    requires liquidity > 0 && (t - Exact(liquidity, e)) - (u - Exact(liquidity, f)) <= error
    ensures (PerUnit(t, liquidity) - e) - (PerUnit(u, liquidity) - f) <= PerUnit(error, liquidity)
  {
    var b := liquidity as real;
    QuotientsSpan(b, e, f, t, u, t / b, u / b, error, error / b);
  }

  lemma QuotientsSpan(b: real, e: real, f: real, t: real, u: real, tb: real, ub: real, error: real, ratio: real)
    requires b > 0.0 && tb == t / b && ub == u / b && ratio == error / b && (t - b * e) - (u - b * f) <= error
    ensures (tb - e) - (ub - f) <= ratio
  {
    Cancel(t, b);
    Cancel(u, b);
    Cancel(error, b);
    Distribute(b, tb, e);
    Distribute(b, ub, f);
    Distribute(b, tb - e, ub - f);
    var gap := (tb - e) - (ub - f);
    if ratio < gap {
      StrictProduct(b, ratio, gap);
    }
  }

  /** The implied energy differs from the learned one by a constant and an error that spans at most the
      summed rounding errors. */
  lemma ImpliedPair(model: IsingModel, s: Snapshot, bias: seq<Table>, one: set<nat>, two: set<nat>)
    requires Proposed(model, s, bias) && AllShaped(bias) && s.liquidity > 0
    ensures (PerUnit(PricedAtoms(s, bias, one), s.liquidity) - Energy(Features(s.events), model.parameters, one))
          - (PerUnit(PricedAtoms(s, bias, two), s.liquidity) - Energy(Features(s.events), model.parameters, two))
         <= EnergySpan(model, s)
  {
    ImpliedTotal(model, s, bias, one);
    ImpliedTotal(model, s, bias, two);
    ErrorSpan(Features(s.events), model.parameters, s.liquidity, two, one);
    PairSpan(s.liquidity, Energy(Features(s.events), model.parameters, one),
             Energy(Features(s.events), model.parameters, two), PricedAtoms(s, bias, one), PricedAtoms(s, bias, two),
             RoundingError(s.liquidity, model.parameters));
  }

  lemma ImpliedWithinSpan(model: IsingModel, s: Snapshot, bias: seq<Table>)
    requires Proposed(model, s, bias) && s.liquidity > 0 && AllShaped(bias)
    requires WellFormed(model) && model.events == s.events
    ensures WithinSpan(ModelEnergies(model), ImpliedEnergies(s, bias), EnergySpan(model, s))
  {
    var states := States(s.events, {});
    var e, d := ModelEnergies(model), ImpliedEnergies(s, bias);
    forall i, j | 0 <= i < |e| && 0 <= j < |e| ensures (d[i] - e[i]) - (d[j] - e[j]) <= EnergySpan(model, s) {
      ImpliedPair(model, s, bias, states[i], states[j]);
    }
  }

  lemma SpanNonnegative(model: IsingModel, s: Snapshot)
    requires s.liquidity > 0
    ensures 0.0 <= EnergySpan(model, s) <= PerUnit(|model.parameters| as real / 2.0, s.liquidity)
  {
    RoundingErrorSmall(s.liquidity, model.parameters);
    OrderedQuotient(0.0, RoundingError(s.liquidity, model.parameters), s.liquidity as real);
    OrderedQuotient(RoundingError(s.liquidity, model.parameters), |model.parameters| as real / 2.0,
                    s.liquidity as real);
  }

  /** Soundness of the quantisation: the distribution that the accepted bias implies is within exp(E) - 1 and
      within the tolerance of the learned one, in total variation. */
  lemma AcceptedVariation(m: ExpLn, model: IsingModel, s: Snapshot, deadline: nat, tolerance: real, bias: seq<Table>)
    requires Lawful(m) && Accepted(model, s, deadline, tolerance, bias)
    ensures WellFormed(model) && s.liquidity > 0 && AllShaped(bias) && model.events == s.events
    ensures Variation(Softmax(m, ModelEnergies(model)), Softmax(m, ImpliedEnergies(s, bias)))
         <= m.exp(EnergySpan(model, s)) - 1.0
    ensures Variation(Softmax(m, ModelEnergies(model)), Softmax(m, ImpliedEnergies(s, bias))) <= tolerance
  {
    AcceptedFacts(model, s, deadline, tolerance, bias);
    ProposedShapes(model, s, bias);
    ProposedVariation(m, model, s, bias);
  }

  lemma ProposedVariation(m: ExpLn, model: IsingModel, s: Snapshot, bias: seq<Table>)
    requires Lawful(m) && Proposed(model, s, bias) && AllShaped(bias)
    requires WellFormed(model) && s.liquidity > 0 && model.events == s.events
    ensures Variation(Softmax(m, ModelEnergies(model)), Softmax(m, ImpliedEnergies(s, bias)))
         <= m.exp(EnergySpan(model, s)) - 1.0
    ensures Variation(Softmax(m, ModelEnergies(model)), Softmax(m, ImpliedEnergies(s, bias)))
         <= AcceptedBound(EnergySpan(model, s))
  {
    ImpliedWithinSpan(model, s, bias);
    SpanNonnegative(model, s);
    SpanBoundsVariation(m, ModelEnergies(model), ImpliedEnergies(s, bias), EnergySpan(model, s));
  }

  lemma SortedKeepsMovement(model: IsingModel, s: Snapshot, bias: seq<Table>, one: set<nat>, two: set<nat>)
    requires Proposed(model, s, bias) && AllShaped(bias) && AllShaped(s.biasFactors) && Distinct(s.biasFactors)
    ensures (Total(bias, one) - Total(s.biasFactors, one)) - (Total(bias, two) - Total(s.biasFactors, two))
         <= Movement(CandidateOf(s.events, model.parameters, s.liquidity, s.factors), s.biasFactors)
  {
    var candidate := CandidateOf(s.events, model.parameters, s.liquidity, s.factors);
    SortedTotal(candidate, s.events, one);
    SortedTotal(candidate, s.events, two);
    CandidateScopes(s.events, model.parameters, s.liquidity, s.factors);
    MovementBoundsPairs(candidate, s.biasFactors, one, two);
  }

  /** The update moves no pair of states apart or together by more than the movement limit. */
  lemma AcceptedMovement(model: IsingModel, s: Snapshot, deadline: nat, tolerance: real, bias: seq<Table>,
                         one: set<nat>, two: set<nat>)
    requires Accepted(model, s, deadline, tolerance, bias)
    ensures AllShaped(bias) && AllShaped(s.biasFactors)
    ensures var change :=
              (Total(bias, one) - Total(s.biasFactors, one)) - (Total(bias, two) - Total(s.biasFactors, two));
      -(s.maxBiasMovement as int) <= change <= s.maxBiasMovement
  {
    AcceptedFacts(model, s, deadline, tolerance, bias);
    ProposedShapes(model, s, bias);
    TablesShaped(s.biasFactors, s.events, true);
    SortedKeepsMovement(model, s, bias, one, two);
    SortedKeepsMovement(model, s, bias, two, one);
  }

  lemma CandidateRow(model: IsingModel, s: Snapshot, k: nat)
    requires |model.parameters| == |Features(s.events)| && TablesOk(s.factors, s.events, false) && AllShaped(s.factors)
    requires k < |CandidateOf(s.events, model.parameters, s.liquidity, s.factors)|
    requires BelowWord(CandidateOf(s.events, model.parameters, s.liquidity, s.factors))
    ensures var t := CandidateOf(s.events, model.parameters, s.liquidity, s.factors)[k];
      RowOk(t, s.events) && IsMin(t.values, 0)
  {
    var t := CandidateOf(s.events, model.parameters, s.liquidity, s.factors)[k];
    CandidateScopes(s.events, model.parameters, s.liquidity, s.factors);
    assert Shaped(t) && Shaped(Raw(s.events, model.parameters, s.liquidity, s.factors)[k]);
    LoweredIs(Raw(s.events, model.parameters, s.liquidity, s.factors)[k]);
    if t.scope in Features(s.events) {
      FeatureShape(s.events, t.scope);
    } else {
      var j :| 0 <= j < |s.factors| && ScopesOf(s.factors)[j] == t.scope;
      assert RowOk(s.factors[j], s.events);
    }
  }

  /** The proposed bias is canonical: the next builder accepts it as the bias of its snapshot, and no entry is
      negative. */
  lemma AcceptedIsCanonical(model: IsingModel, s: Snapshot, deadline: nat, tolerance: real, bias: seq<Table>)
    requires Accepted(model, s, deadline, tolerance, bias)
    ensures TablesOk(bias, s.events, true)
  {
    AcceptedFacts(model, s, deadline, tolerance, bias);
    var candidate := CandidateOf(s.events, model.parameters, s.liquidity, s.factors);
    CandidateScopes(s.events, model.parameters, s.liquidity, s.factors);
    forall t | t in candidate ensures RowOk(t, s.events) && IsMin(t.values, 0) {
      var k :| 0 <= k < |candidate| && candidate[k] == t;
      CandidateRow(model, s, k);
    }
    SortedAscending(candidate, s.events);
    forall k | 0 <= k < |bias| ensures RowOk(bias[k], s.events) && IsMin(bias[k].values, 0) {
      InMultiset(bias, candidate, bias[k]);
    }
    assert |multiset(bias)| == |multiset(candidate)|;
    AscendingDistinct(bias, s.events);
  }

  lemma AscendingDistinct(tables: seq<Table>, n: nat)
    requires Ascending(tables, n)
    ensures Distinct(tables)
  {
    forall j, k | 0 <= j < k < |tables| ensures tables[j].scope != tables[k].scope {
      assert Number(n, tables[j].scope) < Number(n, tables[k].scope);
    }
  }
}
