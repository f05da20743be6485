/** How far rounding the energies can move the distribution they define. */
module Quantisation {
  import opened RealFacts
  import opened Exponential
  import opened Lmsr
  import opened Distributions

  /** The differences d - e of any two states are at most `span` apart. */
  ghost predicate WithinSpan(e: seq<real>, d: seq<real>, span: real)
    requires |d| == |e|
  {
    forall i, j :: 0 <= i < |e| && 0 <= j < |e| ==> (d[i] - e[i]) - (d[j] - e[j]) <= span
  }

  lemma {:induction false} PartitionAbove(m: ExpLn, e: seq<real>, d: seq<real>, shift: real, c: real, z: real)
    requires Lawful(m) && |d| == |e| && c == m.exp(shift) && z == Partition(m, 1.0, e)
    requires forall i :: 0 <= i < |e| ==> e[i] + shift <= d[i]
    ensures Partition(m, 1.0, d) >= c * z
  {
    if e != [] {
      var z1 := Partition(m, 1.0, e[1..]);
      PartitionAbove(m, e[1..], d[1..], shift, c, z1);
      WeightAbove(m, e[0], d[0], shift, c);
      assert e[0] / 1.0 == e[0] && d[0] / 1.0 == d[0];
      DistributeSum(c, m.exp(e[0]), z1, z);
    }
  }

  lemma WeightAbove(m: ExpLn, e: real, d: real, shift: real, c: real)
    requires Lawful(m) && c == m.exp(shift) && e + shift <= d
    ensures m.exp(d) >= c * m.exp(e)
  {
    ExpAdd(m, shift, e);
    ExpIncreasing(m, shift + e, d);
  }

  /** a/w <= k (x/z) when a = (k c) x and w >= c z. */
  lemma QuotientBound(a: real, w: real, x: real, z: real, k: real, c: real, p: real, r: real)
    requires z > 0.0 && w > 0.0 && k > 0.0 && p >= 0.0
    requires x == z * p && a == w * r && a == k * c * x && w >= c * z
    ensures r <= k * p
  {
    var kp := k * p;
    NonnegativeProduct(k, p);
    Reorder(k, c, z, p);
    OrderedProduct(kp, c * z, w);
    OrderedFactor(r, kp, w, a, w * kp);
  }

  lemma Reorder(k: real, c: real, z: real, p: real)
    ensures k * c * (z * p) == k * p * (c * z)
  {
    var x, y := k * c, z * p;
    assert x * y == (k * c) * z * p;
    assert (k * c) * z * p == (k * p) * (c * z);
  }

  /** The other partition is at least exp(shift) times this one, for the shift that state i sees. */
  lemma PartitionFromState(m: ExpLn, e: seq<real>, d: seq<real>, span: real, i: nat, c: real, z: real)
    requires Lawful(m) && |d| == |e| && WithinSpan(e, d, span) && i < |e|
    requires c == m.exp(d[i] - e[i] - span) && z == Partition(m, 1.0, e)
    ensures Partition(m, 1.0, d) >= c * z
  {
    var shift := d[i] - e[i] - span;
    forall j | 0 <= j < |e| ensures e[j] + shift <= d[j] {
      assert (d[i] - e[i]) - (d[j] - e[j]) <= span;
    }
    PartitionAbove(m, e, d, shift, c, z);
  }

  /** No state's probability grows by more than exp(span). */
  lemma RatioBound(m: ExpLn, e: seq<real>, d: seq<real>, span: real, i: nat, k: real, p: real, r: real)
    requires Lawful(m) && |d| == |e| && WithinSpan(e, d, span) && i < |e| && k == m.exp(span)
    requires p == Softmax(m, e)[i] && r == Softmax(m, d)[i]
    ensures r <= k * p
  {
    var z, w := Partition(m, 1.0, e), Partition(m, 1.0, d);
    SoftmaxIs(m, e, i, z);
    SoftmaxIs(m, d, i, w);
    var c := m.exp(d[i] - e[i] - span);
    PartitionFromState(m, e, d, span, i, c, z);
    SharesBound(m, e[i], d[i], span, z, w, k, c, p, r);
  }

  lemma SharesBound(m: ExpLn, e: real, d: real, span: real, z: real, w: real, k: real, c: real, p: real, r: real)
    requires Lawful(m) && z > 0.0 && w > 0.0 && k == m.exp(span) && c == m.exp(d - e - span) && w >= c * z
    requires p == Share(m.exp(e), z) && r == Share(m.exp(d), w)
    ensures r <= k * p
  {
    SplitWeight(m, e, d, span, d - e - span, k, c);
    ShareOf(m.exp(e), z);
    ShareOf(m.exp(d), w);
    ExpPositive(m, span);
    ExpPositive(m, e);
    SharePositive(m.exp(e), z);
    QuotientBound(m.exp(d), w, m.exp(e), z, k, c, p, r);
  }

  lemma ShareOf(x: real, z: real)
    requires z > 0.0
    ensures x == z * Share(x, z)
  {
    Cancel(x, z);
  }

  lemma SplitWeight(m: ExpLn, e: real, d: real, span: real, shift: real, k: real, c: real)
    requires Lawful(m) && shift == d - e - span && k == m.exp(span) && c == m.exp(shift)
    ensures m.exp(d) == k * c * m.exp(e)
  {
    ExpAdd(m, span, shift);
    ExpAdd(m, span + shift, e);
    assert span + shift + e == d;
  }

  lemma {:induction false} ChosenScaled(p: seq<real>, r: seq<real>, pays: seq<bool>, k: real, total: real)
    requires |p| == |r| == |pays| && total == Chosen(p, pays)
    requires forall i :: 0 <= i < |p| ==> r[i] <= k * p[i]
    ensures Chosen(r, pays) <= k * total
  {
    if p != [] {
      var rest := Chosen(p[1..], pays[1..]);
      ChosenScaled(p[1..], r[1..], pays[1..], k, rest);
      DistributeSum(k, if pays[0] then p[0] else 0.0, rest, total);
    }
  }

  lemma {:induction false} ChosenWithin(p: seq<real>, pays: seq<bool>)
    requires |pays| == |p| && forall i :: 0 <= i < |p| ==> p[i] > 0.0
    ensures 0.0 <= Chosen(p, pays) <= Sum(p)
  {
    if p != [] {
      ChosenWithin(p[1..], pays[1..]);
    }
  }

  /** If every ratio is at most k, the total variation distance is at most k - 1, and never more than 1. */
  lemma VariationBound(p: seq<real>, r: seq<real>, k: real)
    requires |p| == |r| && IsDistribution(p) && IsDistribution(r) && k >= 1.0
    requires forall i :: 0 <= i < |p| ==> r[i] <= k * p[i]
    ensures Variation(p, r) <= k - 1.0 && Variation(p, r) <= 1.0
  {
    var up := Rises(p, r);
    var mass := Chosen(p, up);
    VariationIsReached(p, r);
    ChosenWithin(p, up);
    ChosenWithin(r, up);
    ChosenScaled(p, r, up, k, mass);
    MassBound(k, mass, Chosen(r, up), Variation(p, r));
  }

  lemma MassBound(k: real, mass: real, moved: real, variation: real)
    requires k >= 1.0 && 0.0 <= mass <= 1.0 && moved <= k * mass && variation == moved - mass
    ensures variation <= k - 1.0
  {
    OrderedProduct(k - 1.0, mass, 1.0);
  }

  /** min(1, E/(1-E)) below 1 and 1 from there on: the exact bound that a proposal is accepted on. */
  function AcceptedBound(span: real): real {
    if span < 1.0 then
      var bound := span / (1.0 - span);
      if bound < 1.0 then bound else 1.0
    else 1.0
  }

  lemma ReciprocalBound(m: ExpLn, span: real, k: real)
    requires Lawful(m) && 0.0 <= span < 1.0 && k == m.exp(span)
    ensures k - 1.0 <= span / (1.0 - span)
  {
    ExpBelowReciprocal(m, span);
    var left := 1.0 - span;
    var bound := span / left;
    Cancel(span, left);
    Distribute(left, k, 1.0);
    OrderedFactor(k - 1.0, bound, left, left * (k - 1.0), span);
  }

  /** Energies that move by at most a span E define distributions at most exp(E) - 1 apart, and no further
      apart than the bound that is accepted. */
  lemma SpanBoundsVariation(m: ExpLn, e: seq<real>, d: seq<real>, span: real)
    requires Lawful(m) && |d| == |e| && e != [] && span >= 0.0 && WithinSpan(e, d, span)
    ensures Variation(Softmax(m, e), Softmax(m, d)) <= m.exp(span) - 1.0
    ensures Variation(Softmax(m, e), Softmax(m, d)) <= AcceptedBound(span)
  {
    var k := m.exp(span);
    assert AboveTangent(m, span);
    SoftmaxIsDistribution(m, e);
    SoftmaxIsDistribution(m, d);
    forall i | 0 <= i < |e| ensures Softmax(m, d)[i] <= k * Softmax(m, e)[i] {
      RatioBound(m, e, d, span, i, k, Softmax(m, e)[i], Softmax(m, d)[i]);
    }
    VariationBound(Softmax(m, e), Softmax(m, d), k);
    if span < 1.0 {
      ReciprocalBound(m, span, k);
    }
  }
}
