/** The learned model: one parameter per event, then one per pair of events (parlay_learning.rs,
    build_learning_proposal.py). Only its energies and its distribution are used outside learning. */
module Ising {
  import opened Wrappers
  import opened Scopes
  import opened Exponential
  import opened Distributions

  /** The scopes {0}, ..., {n-1}. */
  function Singles(n: nat): (r: seq<set<nat>>)
    ensures |r| == n
    ensures forall k :: 0 <= k < n ==> r[k] == {k}
  {
    seq(n, k requires 0 <= k < n => {k})
  }

  /** The scopes {i,j}, ..., {i,n-1}. */
  function PairsWith(i: nat, j: nat, n: nat): (r: seq<set<nat>>)
    requires j <= n
    ensures |r| == n - j
    ensures forall k :: 0 <= k < n - j ==> r[k] == {i, j + k}
    decreases n - j
  {
    if j == n then [] else [{i, j}] + PairsWith(i, j + 1, n)
  }

  /** The pairs of events from i on, first member first. */
  function PairsFrom(i: nat, n: nat): seq<set<nat>>
    requires i <= n
    decreases n - i
  {
    if i == n then [] else PairsWith(i, i + 1, n) + PairsFrom(i + 1, n)
  }

  function Features(n: nat): seq<set<nat>> {
    Singles(n) + PairsFrom(0, n)
  }

  lemma {:induction false} PairCount(i: nat, n: nat)
    requires i <= n
    ensures 2 * |PairsFrom(i, n)| == (n - i) * (n - i - 1)
    decreases n - i
  {
    if i < n {
      PairCount(i + 1, n);
      var d := n - i;
      assert 2 * (d - 1) + (d - 1) * (d - 2) == d * (d - 1);
    }
  }

  /** n(n+1)/2 parameters. */
  lemma FeatureCount(n: nat)
    ensures |Features(n)| == n * (n + 1) / 2
  {
    PairCount(0, n);
    assert 2 * n + n * (n - 1) == n * (n + 1);
  }

  /** The features are the nonempty scopes of at most two events, each once. */
  lemma {:induction false} PairsAre(i: nat, n: nat)
    requires i <= n
    ensures forall s :: s in PairsFrom(i, n) <==> exists j: nat, k: nat :: i <= j < k < n && s == {j, k}
    decreases n - i
  {
    if i < n {
      PairsAre(i + 1, n);
      var first := PairsWith(i, i + 1, n);
      forall s | exists j: nat, k: nat :: i <= j < k < n && s == {j, k} ensures s in PairsFrom(i, n) {
        var j: nat, k: nat :| i <= j < k < n && s == {j, k};
        if j == i {
          assert first[k - i - 1] == s;
        }
      }
    }
  }

  /** The sum of the parameters of the features that happen in a state. */
  function Energy(features: seq<set<nat>>, parameters: seq<real>, state: set<nat>): real
    requires |parameters| == |features|
  {
    if features == [] then 0.0
    else
      var n := |features| - 1;
      Energy(features[..n], parameters[..n], state) + (if features[n] <= state then parameters[n] else 0.0)
  }

  // What the energy of a state is, parameter by parameter.

  /** Where the parameter of the pair {i, j} with i < j stands: after n fields and the rows of the smaller events. */
  function PairAt(n: nat, i: nat, j: nat): int {
    n + i * (2 * n - i - 1) / 2 + (j - i - 1)
  }

  /** The fields of the events below k that happen: parameter e belongs to event e. */
  function Fields(parameters: seq<real>, state: set<nat>, k: nat): real
    requires k <= |parameters|
  {
    if k == 0 then 0.0 else Fields(parameters, state, k - 1) + (if k - 1 in state then parameters[k - 1] else 0.0)
  }

  lemma RowIdentity(n: int, i: int, d: int)
    requires n == i + d
    ensures i * (2 * n - i - 1) + d * (d - 1) == n * (n - 1)
  {
    assert i * (i + 2 * d - 1) == i * i + 2 * (i * d) - i;
    assert (i + d) * (i + d - 1) == i * i + 2 * (i * d) + d * d - i - d;
  }

  /** The rows before i take i(2n - i - 1)/2 places: the pairs from i on take the rest. */
  lemma RowStarts(n: nat, i: nat)
    requires i <= n
    ensures i * (2 * n - i - 1) / 2 + |PairsFrom(i, n)| == |PairsFrom(0, n)|
    ensures n + |PairsFrom(0, n)| == n * (n + 1) / 2
  {
    PairCount(i, n);
    PairCount(0, n);
    FeatureCount(n);
    RowIdentity(n, i, n - i);
  }

  lemma PairFits(n: nat, i: nat, j: nat, start: int, after: nat, total: int)
    requires i < j < n && start >= 0 && start + (n - i - 1) + after == total
    ensures n <= n + start + (j - i - 1) < n + total
  {
  }

  lemma StartNonnegative(n: nat, i: nat)
    requires i < n
    ensures i * (2 * n - i - 1) / 2 >= 0
  {
    var width := 2 * n - i - 1;
    assert i * width >= 0;
  }

  lemma PairInRange(n: nat, i: nat, j: nat)
    requires i < j < n
    ensures n <= PairAt(n, i, j) < n * (n + 1) / 2
  {
    RowStarts(n, i);
    StartNonnegative(n, i);
    PairFits(n, i, j, i * (2 * n - i - 1) / 2, |PairsFrom(i + 1, n)|, |PairsFrom(0, n)|);
  }

  /** The couplings of event i with the events from i + 1 up to j that happen with it. */
  function Row(n: nat, parameters: seq<real>, state: set<nat>, i: nat, j: nat): real
    requires i < j <= n && n * (n + 1) / 2 == |parameters|
    decreases j
  {
    if j == i + 1 then 0.0
    else
      PairInRange(n, i, j - 1);
      Row(n, parameters, state, i, j - 1)
      + (if i in state && j - 1 in state then parameters[PairAt(n, i, j - 1)] else 0.0)
  }

  /** The couplings of the pairs whose smaller event is i or later. */
  function Couplings(n: nat, parameters: seq<real>, state: set<nat>, i: nat): real
    requires i <= n && n * (n + 1) / 2 == |parameters|
    decreases n - i
  {
    if i == n then 0.0 else Row(n, parameters, state, i, n) + Couplings(n, parameters, state, i + 1)
  }

  lemma {:induction false} EnergyConcat(f: seq<set<nat>>, p: seq<real>, g: seq<set<nat>>, q: seq<real>, state: set<nat>)
    requires |p| == |f| && |q| == |g|
    ensures Energy(f + g, p + q, state) == Energy(f, p, state) + Energy(g, q, state)
  {
    if g == [] {
      assert f + g == f && p + q == p;
    } else {
      var n := |g| - 1;
      EnergyConcat(f, p, g[..n], q[..n], state);
      assert (f + g)[..|f| + n] == f + g[..n] && (p + q)[..|p| + n] == p + q[..n];
    }
  }

  lemma {:induction false} FieldEnergy(n: nat, parameters: seq<real>, state: set<nat>, k: nat)
    requires k <= n <= |parameters|
    ensures Energy(Singles(n)[..k], parameters[..k], state) == Fields(parameters, state, k)
  {
    if k > 0 {
      FieldEnergy(n, parameters, state, k - 1);
      assert Singles(n)[..k][..k - 1] == Singles(n)[..k - 1] && parameters[..k][..k - 1] == parameters[..k - 1];
    }
  }

  /** The pairs of event i, in order, with the parameters from their first place on. */
  lemma {:induction false} RowEnergy(n: nat, parameters: seq<real>, state: set<nat>, i: nat, j: nat, first: nat)
    requires i < j <= n && n * (n + 1) / 2 == |parameters| && first == PairAt(n, i, i + 1)
    requires first + (j - i - 1) <= |parameters|
    ensures Energy(PairsWith(i, i + 1, n)[..j - i - 1], parameters[first..first + (j - i - 1)], state)
         == Row(n, parameters, state, i, j)
  {
    if j > i + 1 {
      var k := j - i - 1;
      RowEnergy(n, parameters, state, i, j - 1, first);
      PairInRange(n, i, j - 1);
      assert PairsWith(i, i + 1, n)[..k][..k - 1] == PairsWith(i, i + 1, n)[..k - 1];
      assert parameters[first..first + k][..k - 1] == parameters[first..first + k - 1];
      assert PairsWith(i, i + 1, n)[k - 1] == {i, j - 1} && first + k - 1 == PairAt(n, i, j - 1);
    }
  }

  lemma NextRow(n: nat, i: nat)
    requires i + 1 < n
    ensures PairAt(n, i + 1, i + 2) == PairAt(n, i, i + 1) + (n - i - 1)
  {
    RowStarts(n, i);
    RowStarts(n, i + 1);
  }

  /** The pairs from event i on, with the last parameters. */
  lemma {:induction false} PairEnergy(n: nat, parameters: seq<real>, state: set<nat>, i: nat, first: nat)
    requires i <= n && n * (n + 1) / 2 == |parameters|
    requires first + |PairsFrom(i, n)| == |parameters| && (i < n ==> first == PairAt(n, i, i + 1))
    ensures Energy(PairsFrom(i, n), parameters[first..], state) == Couplings(n, parameters, state, i)
    decreases n - i
  {
    if i < n {
      var row, rest, next := PairsWith(i, i + 1, n), PairsFrom(i + 1, n), first + (n - i - 1);
      if i + 1 < n {
        NextRow(n, i);
      }
      PairEnergy(n, parameters, state, i + 1, next);
      RowEnergy(n, parameters, state, i, n, first);
      assert row[..n - i - 1] == row;
      assert parameters[first..] == parameters[first..next] + parameters[next..];
      EnergyConcat(row, parameters[first..next], rest, parameters[next..], state);
    }
  }

  /** The energy of a state is the sum of parameter e over its events e, and of the parameter at
      n + i(2n-i-1)/2 + (j-i-1) over its pairs i < j. */
  lemma EnergyIs(n: nat, parameters: seq<real>, state: set<nat>)
    requires n * (n + 1) / 2 == |parameters|
    ensures |Features(n)| == |parameters| && n <= |parameters|
    ensures Energy(Features(n), parameters, state) == Fields(parameters, state, n) + Couplings(n, parameters, state, 0)
  {
    FeatureCount(n);
    FieldEnergy(n, parameters, state, n);
    PairEnergy(n, parameters, state, 0, n);
    assert Singles(n)[..n] == Singles(n) && parameters == parameters[..n] + parameters[n..];
    EnergyConcat(Singles(n), parameters[..n], PairsFrom(0, n), parameters[n..], state);
  }

  datatype IsingModel = IsingModel(events: nat, parameters: seq<real>)

  predicate WellFormed(model: IsingModel) {
    1 <= model.events <= 8 && |model.parameters| == |Features(model.events)|
  }

  /** The energies of all joint states in numeric order. */
  function ModelEnergies(model: IsingModel): (r: seq<real>)
    requires WellFormed(model)
    ensures |r| == Pow2(model.events) && r != []
  {
    var states := States(model.events, {});
    seq(|states|, k requires 0 <= k < |states| => Energy(Features(model.events), model.parameters, states[k]))
  }

  /** The learned distribution, refused when the energies span more than 24. */
  function ModelDistribution(m: ExpLn, model: IsingModel): (r: Option<seq<real>>)
    requires Lawful(m) && WellFormed(model)
    ensures r.Some? ==> |r.value| == Pow2(model.events)
  {
    var energies := ModelEnergies(model);
    if Highest(energies) - Lowest(energies) > 24.0 then None else Some(Softmax(m, energies))
  }

  /** The energies of some two joint states are more than the limit apart. */
  ghost predicate SpreadOver(model: IsingModel, limit: real)
    requires WellFormed(model)
  {
    exists s: set<nat>, t: set<nat> ::
      && s <= Range(model.events) && t <= Range(model.events)
      && Energy(Features(model.events), model.parameters, s)
         - Energy(Features(model.events), model.parameters, t) > limit
  }

  lemma EnergyOf(model: IsingModel, s: set<nat>)
    requires WellFormed(model) && s <= Range(model.events)
    ensures Energy(Features(model.events), model.parameters, s) in ModelEnergies(model)
  {
    StatesAreNumbered(model.events);
    var k := Number(model.events, s);
    assert States(model.events, {})[k] == s;
    assert ModelEnergies(model)[k] == Energy(Features(model.events), model.parameters, s);
  }

  lemma StateOf(model: IsingModel, e: real) returns (s: set<nat>)
    requires WellFormed(model) && e in ModelEnergies(model)
    ensures s <= Range(model.events) && Energy(Features(model.events), model.parameters, s) == e
  {
    var k :| 0 <= k < |ModelEnergies(model)| && ModelEnergies(model)[k] == e;
    NumberOfState(model.events, {}, k);
    s := States(model.events, {})[k];
  }

  /** The span of the energies is the largest difference over all pairs of joint states. */
  lemma SpanMeans(model: IsingModel, limit: real)
    requires WellFormed(model)
    ensures Highest(ModelEnergies(model)) - Lowest(ModelEnergies(model)) > limit <==> SpreadOver(model, limit)
  {
    var energies := ModelEnergies(model);
    HighestIs(energies);
    LowestIs(energies);
    if Highest(energies) - Lowest(energies) > limit {
      var s := StateOf(model, Highest(energies));
      var t := StateOf(model, Lowest(energies));
    }
    if SpreadOver(model, limit) {
      var s: set<nat>, t: set<nat> :| s <= Range(model.events) && t <= Range(model.events)
        && Energy(Features(model.events), model.parameters, s)
           - Energy(Features(model.events), model.parameters, t) > limit;
      EnergyOf(model, s);
      EnergyOf(model, t);
    }
  }

  /** A model has a distribution exactly when no two states are more than 24 apart. */
  lemma DistributionExists(m: ExpLn, model: IsingModel)
    requires Lawful(m) && WellFormed(model)
    ensures ModelDistribution(m, model).Some? <==> !SpreadOver(model, 24.0)
  {
    SpanMeans(model, 24.0);
  }
}
