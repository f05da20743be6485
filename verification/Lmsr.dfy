/** The enumerated market maker (pricing.rs, `ReferenceLmsr`): one liability per joint state.
    The factored engine and the funded market are both measured against these vectors. */
module Lmsr {
  import opened Exponential
  import opened RealFacts

  /** The sum of the state weights exp(q/b). */
  function Partition(m: ExpLn, b: real, q: seq<real>): (z: real)
    requires b > 0.0
  {
    if q == [] then 0.0 else m.exp(q[0] / b) + Partition(m, b, q[1..])
  }

  /** The weight of the states in which the claim pays. */
  function Paying(m: ExpLn, b: real, q: seq<real>, pays: seq<bool>): (z: real)
    requires b > 0.0 && |pays| == |q|
  {
    if q == [] then 0.0
    else (if pays[0] then m.exp(q[0] / b) else 0.0) + Paying(m, b, q[1..], pays[1..])
  }

  /** b ln(sum of exp(q/b)). */
  function Cost(m: ExpLn, b: real, q: seq<real>): real
    requires b > 0.0
  {
    ScaledLn(m, b, Partition(m, b, q))
  }

  /** The liabilities after `quantity` units of a claim. */
  function Moved(q: seq<real>, pays: seq<bool>, quantity: real): (r: seq<real>)
    requires |pays| == |q|
    ensures |r| == |q|
  {
    seq(|q|, i requires 0 <= i < |q| => if pays[i] then q[i] + quantity else q[i])
  }

  /** The share of the total weight: a probability. */
  function Share(part: real, total: real): real
    requires total > 0.0
  {
    part / total
  }

  /** exp_m1(quantity/b). */
  function Growth(m: ExpLn, b: real, quantity: real): real
    requires b > 0.0
  {
    m.exp(quantity / b) - 1.0
  }

  /** How a trade scales the partition. */
  function Ratio(p: real, growth: real): real {
    1.0 + p * growth
  }

  /** The code's price: b ln_1p(p exp_m1(quantity/b)). */
  function Price(m: ExpLn, b: real, probability: real, quantity: real): real
    requires b > 0.0
  {
    ScaledLn(m, b, Ratio(probability, Growth(m, b, quantity)))
  }

  lemma ShareAdds(x: real, y: real, sum: real, total: real)
    requires total > 0.0 && sum == x + y
    ensures Share(sum, total) == Share(x, total) + Share(y, total)
    ensures x == 0.0 ==> Share(x, total) == 0.0
  {
    AddQuotients(x, y, total);
  }

  lemma {:induction false} PartitionPositive(m: ExpLn, b: real, q: seq<real>)
    requires Lawful(m) && b > 0.0
    ensures Partition(m, b, q) >= 0.0
    ensures q != [] ==> Partition(m, b, q) > 0.0
  {
    if q != [] {
      ExpPositive(m, q[0] / b);
      PartitionPositive(m, b, q[1..]);
    }
  }

  lemma {:induction false} PartitionAtLeast(m: ExpLn, b: real, q: seq<real>, i: nat)
    requires Lawful(m) && b > 0.0 && i < |q|
    ensures m.exp(q[i] / b) <= Partition(m, b, q)
  {
    PartitionPositive(m, b, q[1..]);
    if i > 0 {
      ExpPositive(m, q[0] / b);
      PartitionAtLeast(m, b, q[1..], i - 1);
    }
  }

  lemma {:induction false} PayingBounds(m: ExpLn, b: real, q: seq<real>, pays: seq<bool>)
    requires Lawful(m) && b > 0.0 && |pays| == |q|
    ensures 0.0 <= Paying(m, b, q, pays) <= Partition(m, b, q)
    ensures true in pays ==> 0.0 < Paying(m, b, q, pays)
    ensures false in pays ==> Paying(m, b, q, pays) < Partition(m, b, q)
  {
    if q != [] {
      ExpPositive(m, q[0] / b);
      assert pays == [pays[0]] + pays[1..];
      PayingBounds(m, b, q[1..], pays[1..]);
    }
  }

  /** Only the paying weights are scaled: Z' = Z + P (k - 1) with k = exp(quantity/b). */
  lemma {:induction false} PartitionMoved(m: ExpLn, b: real, q: seq<real>, pays: seq<bool>, quantity: real,
                                          z: real, p: real, growth: real)
    requires Lawful(m) && b > 0.0 && |pays| == |q|
    requires z == Partition(m, b, q) && p == Paying(m, b, q, pays) && growth == Growth(m, b, quantity)
    ensures Partition(m, b, Moved(q, pays, quantity)) == z + p * growth
  {
    if q != [] {
      var z1, p1 := Partition(m, b, q[1..]), Paying(m, b, q[1..], pays[1..]);
      PartitionMoved(m, b, q[1..], pays[1..], quantity, z1, p1, growth);
      assert Moved(q, pays, quantity)[1..] == Moved(q[1..], pays[1..], quantity);
      WeightMoved(m, b, q[0], quantity, growth);
      MovedSum(m.exp(q[0] / b), pays[0], growth, z1, p1, p);
    }
  }

  lemma MovedSum(w: real, pays: bool, growth: real, z: real, p: real, sum: real)
    requires sum == (if pays then w else 0.0) + p
    ensures (if pays then w + growth * w else w) + (z + p * growth) == w + z + sum * growth
  {
    if pays {
      DistributeSum(growth, w, p, sum);
    }
  }

  /** A paying weight is scaled by k. */
  lemma WeightMoved(m: ExpLn, b: real, x: real, quantity: real, growth: real)
    requires Lawful(m) && b > 0.0 && growth == Growth(m, b, quantity)
    ensures m.exp((x + quantity) / b) == m.exp(x / b) + growth * m.exp(x / b)
  {
    var w := m.exp(x / b);
    ExpAdd(m, x / b, quantity / b);
    AddQuotients(x, quantity, b);
    DistributeSum(w, growth, 1.0, growth + 1.0);
  }

  /** The price of a trade is the difference of the costs after and before it. */
  lemma PriceIsCostDifference(m: ExpLn, b: real, q: seq<real>, pays: seq<bool>, quantity: real, z: real, p: real)
    requires Lawful(m) && b > 0.0 && q != [] && |pays| == |q|
    requires z == Partition(m, b, q) && z > 0.0 && p == Paying(m, b, q, pays)
    ensures Price(m, b, Share(p, z), quantity) == Cost(m, b, Moved(q, pays, quantity)) - Cost(m, b, q)
  {
    var after := Partition(m, b, Moved(q, pays, quantity));
    var growth := Growth(m, b, quantity);
    var ratio := Ratio(Share(p, z), growth);
    PartitionPositive(m, b, Moved(q, pays, quantity));
    PartitionMoved(m, b, q, pays, quantity, z, p, growth);
    RatioTimes(z, p, growth, after, ratio);
    LnRatio(m, b, ratio, z, after);
  }

  lemma RatioTimes(z: real, p: real, growth: real, after: real, ratio: real)
    requires z > 0.0 && after > 0.0 && after == z + p * growth && ratio == Ratio(Share(p, z), growth)
    ensures after == ratio * z && ratio > 0.0
  {
    Cancel(p, z);
    Regroup(p / z, growth, z);
    Distribute(z, 1.0, p / z * growth);
    if ratio <= 0.0 {
      OrderedProduct(z, ratio, 0.0);
    }
  }

  /** A claim that pays in some state but not in all costs strictly between nothing and its full value:
      0 < price < quantity for a buy, quantity < price < 0 for a sale. */
  lemma PriceStrictlyBetween(m: ExpLn, b: real, p: real, quantity: real)
    requires Lawful(m) && b > 0.0 && 0.0 < p < 1.0
    ensures quantity > 0.0 ==> 0.0 < Price(m, b, p, quantity) < quantity
    ensures quantity < 0.0 ==> quantity < Price(m, b, p, quantity) < 0.0
    ensures quantity == 0.0 ==> Price(m, b, p, quantity) == 0.0
  {
    var s := quantity / b;
    Cancel(quantity, b);
    OrderedQuotient(0.0, quantity, b);
    OrderedQuotient(quantity, 0.0, b);
    var growth := Growth(m, b, quantity);
    var ratio := Ratio(p, growth);
    ScaledStrictlyBetween(m, b, s, growth + 1.0, growth, ratio, p, quantity);
  }

  lemma ScaledStrictlyBetween(m: ExpLn, b: real, s: real, k: real, growth: real, ratio: real, p: real, quantity: real)
    requires Lawful(m) && b > 0.0 && 0.0 < p < 1.0
    requires k == m.exp(s) && growth == k - 1.0 && ratio == 1.0 + p * growth && quantity == b * s
    ensures s > 0.0 ==> 0.0 < ScaledLn(m, b, ratio) < quantity
    ensures s < 0.0 ==> quantity < ScaledLn(m, b, ratio) < 0.0
    ensures s == 0.0 ==> ScaledLn(m, b, ratio) == 0.0
  {
    ExpZero(m);
    LnOne(m);
    LnExp(m, s);
    ExpPositive(m, s);
    ExpIncreasing(m, 0.0, s);
    ExpIncreasing(m, s, 0.0);
    Shrinks(p, growth, ratio, k);
    var l := m.ln(ratio);
    if s > 0.0 {
      LnIncreasing(m, 1.0, ratio);
      LnIncreasing(m, ratio, k);
      StrictProduct(b, 0.0, l);
      StrictProduct(b, l, s);
    } else if s < 0.0 {
      LnIncreasing(m, k, ratio);
      LnIncreasing(m, ratio, 1.0);
      StrictProduct(b, l, 0.0);
      StrictProduct(b, s, l);
    }
  }

  lemma Shrinks(p: real, growth: real, ratio: real, k: real)
    requires 0.0 < p < 1.0 && growth == k - 1.0 && ratio == 1.0 + p * growth
    ensures growth > 0.0 ==> 1.0 < ratio < k
    ensures growth < 0.0 ==> k < ratio < 1.0
    ensures growth == 0.0 ==> ratio == 1.0
  {
    var x := p * growth;
    ShrinksProduct(p, growth, x);
  }

  lemma ShrinksProduct(p: real, d: real, x: real)
    requires 0.0 < p < 1.0 && x == p * d
    ensures d > 0.0 ==> 0.0 < x < d
    ensures d < 0.0 ==> d < x < 0.0
  {
    if d > 0.0 {
      ShrinksPositive(p, d, x);
    } else if d < 0.0 {
      var e := -d;
      var y := p * e;
      ShrinksPositive(p, e, y);
      NegateProduct(p, d, x, y);
    }
  }

  lemma ShrinksPositive(p: real, d: real, x: real)
    requires 0.0 < p < 1.0 && d > 0.0 && x == p * d
    ensures 0.0 < x < d
  {
    PositiveProduct(p, d);
    var y := 1.0 - p;
    PositiveProduct(y, d);
    DistributeSum(d, p, y, 1.0);
    assert d == x + y * d;
  }

  lemma NegateProduct(p: real, d: real, x: real, y: real)
    requires x == p * d && y == p * -d
    ensures y == -x
  {
  }

  lemma {:induction false} PartitionShift(m: ExpLn, b: real, q: seq<real>, r: seq<real>, shift: real, k: real, z: real)
    requires Lawful(m) && b > 0.0 && |r| == |q|
    requires forall i :: 0 <= i < |q| ==> r[i] == q[i] + shift
    requires k == m.exp(shift / b) && z == Partition(m, b, q)
    ensures Partition(m, b, r) == k * z
  {
    if q != [] {
      var z1 := Partition(m, b, q[1..]);
      PartitionShift(m, b, q[1..], r[1..], shift, k, z1);
      ExpAdd(m, shift / b, q[0] / b);
      AddQuotients(q[0], shift, b);
      DistributeSum(k, m.exp(q[0] / b), z1, z);
    }
  }

  /** A complete set of claims costs exactly its payout. */
  lemma CostShift(m: ExpLn, b: real, q: seq<real>, r: seq<real>, shift: real)
    requires Lawful(m) && b > 0.0 && q != [] && |r| == |q|
    requires forall i :: 0 <= i < |q| ==> r[i] == q[i] + shift
    ensures Cost(m, b, r) == Cost(m, b, q) + shift
  {
    var k, z := m.exp(shift / b), Partition(m, b, q);
    var after := Partition(m, b, r);
    PartitionShift(m, b, q, r, shift, k, z);
    PartitionPositive(m, b, q);
    ExpPositive(m, shift / b);
    LnRatio(m, b, k, z, after);
    LnScaled(m, b, shift);
  }

  function Opposite(pays: seq<bool>): (r: seq<bool>)
    ensures |r| == |pays|
  {
    seq(|pays|, i requires 0 <= i < |pays| => !pays[i])
  }

  /** Buying the opposite of a claim costs a complete set less what selling the claim returns. */
  lemma OppositeIsSetLessClaim(m: ExpLn, b: real, q: seq<real>, pays: seq<bool>, quantity: real)
    requires Lawful(m) && b > 0.0 && q != [] && |pays| == |q|
    ensures Cost(m, b, Moved(q, Opposite(pays), quantity)) - Cost(m, b, q)
         == quantity + (Cost(m, b, Moved(q, pays, -quantity)) - Cost(m, b, q))
  {
    CostShift(m, b, Moved(q, pays, -quantity), Moved(q, Opposite(pays), quantity), quantity);
  }

  function Shifted(q: seq<real>, shift: real): (r: seq<real>)
    ensures |r| == |q|
  {
    seq(|q|, i requires 0 <= i < |q| => q[i] - shift)
  }

  /** The stable form the code evaluates subtracts the largest entry before exponentiating. */
  lemma StableCost(m: ExpLn, b: real, q: seq<real>, high: real)
    requires Lawful(m) && b > 0.0 && q != []
    ensures high + Cost(m, b, Shifted(q, high)) == Cost(m, b, q)
  {
    CostShift(m, b, Shifted(q, high), q, high);
  }

  /** The cost covers the liability of every state. */
  lemma CostCovers(m: ExpLn, b: real, q: seq<real>, i: nat)
    requires Lawful(m) && b > 0.0 && i < |q|
    ensures Cost(m, b, q) >= q[i]
  {
    PartitionAtLeast(m, b, q, i);
    ExpPositive(m, q[i] / b);
    var w, z := m.exp(q[i] / b), Partition(m, b, q);
    ScaledLnIncreasing(m, b, w, z);
    LnScaled(m, b, q[i]);
  }
}
