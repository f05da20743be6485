/** Vectors of reals, and the normalisation by which energies become a probability distribution. */
module Distributions {
  import opened Exponential
  import opened RealFacts
  import opened Lmsr

  function Sum(xs: seq<real>): real {
    if xs == [] then 0.0 else xs[0] + Sum(xs[1..])
  }

  ghost predicate IsHighest(xs: seq<real>, high: real) {
    high in xs && forall x | x in xs :: x <= high
  }

  ghost predicate IsLowest(xs: seq<real>, low: real) {
    low in xs && forall x | x in xs :: low <= x
  }

  function Highest(xs: seq<real>): real
    requires xs != []
  {
    if |xs| == 1 then xs[0]
    else
      var high := Highest(xs[1..]);
      if xs[0] > high then xs[0] else high
  }

  function Lowest(xs: seq<real>): real
    requires xs != []
  {
    if |xs| == 1 then xs[0]
    else
      var low := Lowest(xs[1..]);
      if xs[0] < low then xs[0] else low
  }

  lemma {:induction false} HighestIs(xs: seq<real>)
    requires xs != []
    ensures IsHighest(xs, Highest(xs))
  {
    if |xs| > 1 {
      HighestIs(xs[1..]);
      assert xs == [xs[0]] + xs[1..];
    }
  }

  lemma {:induction false} LowestIs(xs: seq<real>)
    requires xs != []
    ensures IsLowest(xs, Lowest(xs))
  {
    if |xs| > 1 {
      LowestIs(xs[1..]);
      assert xs == [xs[0]] + xs[1..];
    }
  }

  /** The probability of a claim: the sum over the states in which it pays. */
  function Chosen(p: seq<real>, pays: seq<bool>): real
    requires |pays| == |p|
  {
    if p == [] then 0.0
    else (if pays[0] then p[0] else 0.0) + Chosen(p[1..], pays[1..])
  }

  /** Half the sum of the absolute differences of two distributions. */
  function Variation(p: seq<real>, r: seq<real>): real
    requires |r| == |p|
  {
    AbsoluteDifference(p, r) / 2.0
  }

  function AbsoluteDifference(p: seq<real>, r: seq<real>): real
    requires |r| == |p|
  {
    if p == [] then 0.0
    else (if p[0] < r[0] then r[0] - p[0] else p[0] - r[0]) + AbsoluteDifference(p[1..], r[1..])
  }

  ghost predicate IsDistribution(p: seq<real>) {
    && Sum(p) == 1.0
    && forall i :: 0 <= i < |p| ==> p[i] > 0.0
  }

  /** The weights exp(e), each divided by the same total. */
  function Shares(m: ExpLn, energies: seq<real>, total: real): (p: seq<real>)
    requires total > 0.0
    ensures |p| == |energies|
  {
    seq(|energies|, i requires 0 <= i < |energies| => Share(m.exp(energies[i]), total))
  }

  lemma ShareAt(m: ExpLn, energies: seq<real>, total: real, i: nat, energy: real)
    requires total > 0.0 && i < |energies| && energy == energies[i]
    ensures Shares(m, energies, total)[i] == Share(m.exp(energy), total)
  {
  }

  /** Energies relative to the highest, exponentiated and divided by their sum. */
  function Softmax(m: ExpLn, energies: seq<real>): (p: seq<real>)
    requires Lawful(m) && energies != []
    ensures |p| == |energies|
  {
    var relative := Shifted(energies, Highest(energies));
    PartitionPositive(m, 1.0, relative);
    Shares(m, relative, Partition(m, 1.0, relative))
  }

  lemma {:induction false} ChosenShares(m: ExpLn, b: real, q: seq<real>, pays: seq<bool>, p: seq<real>, z: real)
    requires b > 0.0 && |pays| == |q| == |p| && z > 0.0
    requires forall i :: 0 <= i < |q| ==> p[i] == Share(m.exp(q[i] / b), z)
    ensures Chosen(p, pays) == Share(Paying(m, b, q, pays), z)
  {
    if q == [] {
      ShareAdds(0.0, 0.0, 0.0, z);
    } else {
      ChosenShares(m, b, q[1..], pays[1..], p[1..], z);
      var w := if pays[0] then m.exp(q[0] / b) else 0.0;
      ShareAdds(w, Paying(m, b, q[1..], pays[1..]), Paying(m, b, q, pays), z);
    }
  }

  lemma {:induction false} SumShares(m: ExpLn, b: real, q: seq<real>, p: seq<real>, z: real)
    requires b > 0.0 && |q| == |p| && z > 0.0
    requires forall i :: 0 <= i < |q| ==> p[i] == Share(m.exp(q[i] / b), z)
    ensures Sum(p) == Share(Partition(m, b, q), z)
  {
    if q == [] {
      ShareAdds(0.0, 0.0, 0.0, z);
    } else {
      SumShares(m, b, q[1..], p[1..], z);
      ShareAdds(m.exp(q[0] / b), Partition(m, b, q[1..]), Partition(m, b, q), z);
    }
  }

  lemma ShareScales(k: real, x: real, z: real, kx: real, kz: real)
    requires k > 0.0 && z > 0.0 && kx == k * x && kz == k * z && kz > 0.0
    ensures Share(kx, kz) == Share(x, z)
  {
    var s := x / z;
    Cancel(x, z);
    Regroup(k, z, s);
    assert kx == kz * s;
    Cancel(kx, kz);
    var t := kx / kz;
    OrderedFactor(s, t, kz, kx, kx);
    OrderedFactor(t, s, kz, kx, kx);
  }

  lemma RelativePartition(m: ExpLn, energies: seq<real>, high: real, k: real, z: real)
    requires Lawful(m) && energies != []
    requires k == m.exp(high) && z == Partition(m, 1.0, Shifted(energies, high))
    ensures k > 0.0 && z > 0.0 && Partition(m, 1.0, energies) == k * z
  {
    ExpPositive(m, high);
    assert high / 1.0 == high;
    PartitionPositive(m, 1.0, Shifted(energies, high));
    PartitionShift(m, 1.0, Shifted(energies, high), energies, high, k, z);
  }

  lemma RelativeWeight(m: ExpLn, energy: real, high: real, k: real, w: real)
    requires Lawful(m) && k == m.exp(high) && w == m.exp(energy - high)
    ensures m.exp(energy) == k * w
  {
    ExpAdd(m, high, energy - high);
    assert high + (energy - high) == energy;
  }

  lemma SoftmaxAt(m: ExpLn, energies: seq<real>, i: nat, high: real, z: real)
    requires Lawful(m) && i < |energies| && high == Highest(energies)
    requires z == Partition(m, 1.0, Shifted(energies, high))
    ensures z > 0.0 && Softmax(m, energies)[i] == Share(m.exp(energies[i] - high), z)
  {
    var relative := Shifted(energies, high);
    PartitionPositive(m, 1.0, relative);
    assert Softmax(m, energies) == Shares(m, relative, z);
    ShareAt(m, relative, z, i, energies[i] - high);
  }

  /** Subtracting the highest energy first does not change the result. */
  lemma SoftmaxIs(m: ExpLn, energies: seq<real>, i: nat, total: real)
    requires Lawful(m) && i < |energies| && total == Partition(m, 1.0, energies)
    ensures total > 0.0 && Softmax(m, energies)[i] == Share(m.exp(energies[i]), total)
  {
    var high := Highest(energies);
    var k, z, w := m.exp(high), Partition(m, 1.0, Shifted(energies, high)), m.exp(energies[i] - high);
    PartitionPositive(m, 1.0, energies);
    SoftmaxAt(m, energies, i, high, z);
    SoftmaxScales(m, energies, i, high, k, z, w, total);
  }

  lemma SoftmaxScales(m: ExpLn, energies: seq<real>, i: nat, high: real, k: real, z: real, w: real, total: real)
    requires Lawful(m) && i < |energies| && total == Partition(m, 1.0, energies) && total > 0.0 && z > 0.0
    requires k == m.exp(high) && z == Partition(m, 1.0, Shifted(energies, high)) && w == m.exp(energies[i] - high)
    ensures Share(m.exp(energies[i]), total) == Share(w, z)
  {
    RelativePartition(m, energies, high, k, z);
    RelativeWeight(m, energies[i], high, k, w);
    ShareScales(k, w, z, m.exp(energies[i]), total);
  }

  lemma ShareWhole(z: real)
    requires z > 0.0
    ensures Share(z, z) == 1.0
  {
  }

  lemma SharePositive(x: real, z: real)
    requires x > 0.0 && z > 0.0
    ensures Share(x, z) > 0.0
  {
    OrderedQuotient(0.0, x, z);
  }

  lemma SoftmaxIsDistribution(m: ExpLn, energies: seq<real>)
    requires Lawful(m) && energies != []
    ensures IsDistribution(Softmax(m, energies))
  {
    var relative := Shifted(energies, Highest(energies));
    var z := Partition(m, 1.0, relative);
    PartitionPositive(m, 1.0, relative);
    var p := Softmax(m, energies);
    forall i | 0 <= i < |relative| ensures p[i] == Share(m.exp(relative[i] / 1.0), z) && p[i] > 0.0 {
      assert relative[i] / 1.0 == relative[i];
      ExpPositive(m, relative[i]);
      SharePositive(m.exp(relative[i]), z);
    }
    SumShares(m, 1.0, relative, p, z);
    ShareWhole(z);
  }

  lemma {:induction false} ChosenAtMost(p: seq<real>, r: seq<real>, pays: seq<bool>)
    requires |p| == |r| == |pays|
    ensures 2.0 * (Chosen(r, pays) - Chosen(p, pays)) <= AbsoluteDifference(p, r) + Sum(r) - Sum(p)
    ensures 2.0 * (Chosen(p, pays) - Chosen(r, pays)) <= AbsoluteDifference(p, r) + Sum(p) - Sum(r)
  {
    if p != [] {
      ChosenAtMost(p[1..], r[1..], pays[1..]);
    }
  }

  /** The total variation distance bounds the move of every Boolean claim's probability. */
  lemma VariationBoundsClaims(p: seq<real>, r: seq<real>, pays: seq<bool>)
    requires |p| == |r| == |pays| && Sum(p) == 1.0 && Sum(r) == 1.0
    ensures Chosen(r, pays) - Chosen(p, pays) <= Variation(p, r)
    ensures Chosen(p, pays) - Chosen(r, pays) <= Variation(p, r)
  {
    ChosenAtMost(p, r, pays);
  }

  /** The claim that pays exactly where the second distribution is larger moves by the whole distance. */
  function Rises(p: seq<real>, r: seq<real>): (pays: seq<bool>)
    requires |r| == |p|
    ensures |pays| == |p|
  {
    seq(|p|, i requires 0 <= i < |p| => p[i] < r[i])
  }

  lemma {:induction false} RisesMove(p: seq<real>, r: seq<real>)
    requires |r| == |p|
    ensures 2.0 * (Chosen(r, Rises(p, r)) - Chosen(p, Rises(p, r))) == AbsoluteDifference(p, r) + Sum(r) - Sum(p)
  {
    if p != [] {
      RisesMove(p[1..], r[1..]);
      assert Rises(p, r)[1..] == Rises(p[1..], r[1..]);
    }
  }

  /** The bound is met: the distance is the largest move of any claim. */
  lemma VariationIsReached(p: seq<real>, r: seq<real>)
    requires |r| == |p| && Sum(p) == 1.0 && Sum(r) == 1.0
    ensures Chosen(r, Rises(p, r)) - Chosen(p, Rises(p, r)) == Variation(p, r)
  {
    RisesMove(p, r);
  }
}
