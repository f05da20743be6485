/** The funded market (funded_repricing.rs): one cash account, actual liabilities and a pricing bias
    that learning may move, whose extra reserve is paid by outside funding. */
module Funded {
  import opened Wrappers
  import opened RealFacts
  import opened Scopes
  import opened Exponential
  import opened Lmsr
  import opened Distributions
  import opened Ising

  datatype RepricingError = Domain | Claim | Quantity | Liability | StaleRevision | FundingLimit | MovementLimit

  datatype Receipt = Receipt(reserveBefore: real, reserveAfter: real, fundingAdded: real, totalVariation: real)

  datatype Market = Market(events: nat, liquidity: real, liabilities: seq<real>, bias: seq<real>, cash: real,
                           revision: nat)

  const U64_MAX: nat := 0xFFFF_FFFF_FFFF_FFFF

  /** The shape that every market has. */
  ghost predicate Valid(f: Market) {
    && 1 <= f.events <= 8
    && 0.000001 <= f.liquidity <= 1000000000.0
    && |f.liabilities| == |f.bias| == Pow2(f.events)
    && (forall i :: 0 <= i < |f.liabilities| ==> 0.0 <= f.liabilities[i] <= 100.0 * f.liquidity)
    && IsLowest(f.bias, 0.0)
    && f.revision <= U64_MAX
  }

  function Plus(q: seq<real>, a: seq<real>): (r: seq<real>)
    requires |a| == |q|
    ensures |r| == |q|
  {
    seq(|q|, i requires 0 <= i < |q| => q[i] + a[i])
  }

  function Over(v: seq<real>, b: real): (r: seq<real>)
    requires b > 0.0
    ensures |r| == |v|
  {
    seq(|v|, i requires 0 <= i < |v| => v[i] / b)
  }

  /** Liability plus bias of every state: what the pricing sees. */
  function Priced(f: Market): (r: seq<real>)
    requires |f.bias| == |f.liabilities|
    ensures |r| == |f.liabilities|
  {
    Plus(f.liabilities, f.bias)
  }

  /** The code's stable form: b (high + ln(sum of exp(energy - high))). */
  function RequiredReserve(m: ExpLn, f: Market): real
    requires f.liquidity > 0.0 && |f.bias| == |f.liabilities| && f.bias != []
  {
    var energies := Over(Priced(f), f.liquidity);
    var high := Highest(energies);
    Scaled(f.liquidity, high + m.ln(Partition(m, 1.0, Shifted(energies, high))))
  }

  function Scaled(b: real, x: real): real {
    b * x
  }

  function Distribution(m: ExpLn, f: Market): (p: seq<real>)
    requires Lawful(m) && f.liquidity > 0.0 && |f.bias| == |f.liabilities| && f.bias != []
    ensures |p| == |f.liabilities|
  {
    Softmax(m, Over(Priced(f), f.liquidity))
  }

  /** The largest liability, no less than zero. */
  function MaxLiability(f: Market): real
    requires f.liabilities != []
  {
    var high := Highest(f.liabilities);
    if high > 0.0 then high else 0.0
  }

  lemma MaxLiabilityIs(f: Market)
    requires f.liabilities != [] && forall i :: 0 <= i < |f.liabilities| ==> f.liabilities[i] >= 0.0
    ensures MaxLiability(f) in f.liabilities
    ensures forall i :: 0 <= i < |f.liabilities| ==> f.liabilities[i] <= MaxLiability(f)
  {
    HighestIs(f.liabilities);
    var k :| 0 <= k < |f.liabilities| && f.liabilities[k] == Highest(f.liabilities);
    assert MaxLiability(f) == f.liabilities[k];
    forall i | 0 <= i < |f.liabilities| ensures f.liabilities[i] <= MaxLiability(f) {
      assert f.liabilities[i] in f.liabilities;
    }
  }

  lemma {:induction false} PartitionOver(m: ExpLn, b: real, v: seq<real>)
    requires b > 0.0
    ensures Partition(m, 1.0, Over(v, b)) == Partition(m, b, v)
  {
    if v != [] {
      PartitionOver(m, b, v[1..]);
      assert Over(v, b)[1..] == Over(v[1..], b);
      var e := v[0] / b;
      assert e / 1.0 == e;
    }
  }

  /** The stable form is the cost function on liability plus bias. */
  lemma ReserveIsCost(m: ExpLn, f: Market)
    requires Lawful(m) && f.liquidity > 0.0 && |f.bias| == |f.liabilities| && f.bias != []
    ensures RequiredReserve(m, f) == Cost(m, f.liquidity, Priced(f))
  {
    var energies := Over(Priced(f), f.liquidity);
    var high := Highest(energies);
    StableCost(m, 1.0, energies, high);
    PartitionOver(m, f.liquidity, Priced(f));
    UnitCost(m, energies);
    UnitCost(m, Shifted(energies, high));
  }

  lemma UnitCost(m: ExpLn, v: seq<real>)
    ensures Cost(m, 1.0, v) == m.ln(Partition(m, 1.0, v))
  {
  }

  /** Every state's probability is its share of the total weight. */
  /** The prices of the states are positive and add up to one. */
  lemma DistributionSums(m: ExpLn, f: Market)
    requires Lawful(m) && f.liquidity > 0.0 && |f.bias| == |f.liabilities| && f.bias != []
    ensures Sum(Distribution(m, f)) == 1.0
  {
    SoftmaxIsDistribution(m, Over(Priced(f), f.liquidity));
  }

  lemma DistributionIs(m: ExpLn, f: Market, i: nat, z: real)
    requires Lawful(m) && f.liquidity > 0.0 && |f.bias| == |f.liabilities| && i < |f.bias|
    requires z == Partition(m, f.liquidity, Priced(f))
    ensures z > 0.0 && Distribution(m, f)[i] == Share(m.exp(Priced(f)[i] / f.liquidity), z)
  {
    PartitionOver(m, f.liquidity, Priced(f));
    SoftmaxIs(m, Over(Priced(f), f.liquidity), i, z);
  }

  /** Summing the distribution where a claim pays gives the claim's share of the weight. */
  lemma ChosenIsShare(m: ExpLn, f: Market, pays: seq<bool>, z: real)
    requires Lawful(m) && f.liquidity > 0.0 && |f.bias| == |f.liabilities| == |pays| && pays != []
    requires z == Partition(m, f.liquidity, Priced(f))
    ensures z > 0.0 && Chosen(Distribution(m, f), pays) == Share(Paying(m, f.liquidity, Priced(f), pays), z)
  {
    PartitionPositive(m, f.liquidity, Priced(f));
    var p := Distribution(m, f);
    forall i | 0 <= i < |p| ensures p[i] == Share(m.exp(Priced(f)[i] / f.liquidity), z) {
      DistributionIs(m, f, i, z);
    }
    ChosenShares(m, f.liquidity, Priced(f), pays, p, z);
  }

  lemma PricedMoved(f: Market, pays: seq<bool>, quantity: real)
    requires |f.bias| == |f.liabilities| == |pays|
    ensures Plus(Moved(f.liabilities, pays, quantity), f.bias) == Moved(Priced(f), pays, quantity)
  {
  }

  /** What the market covers: a state's liability, since no bias is negative. */
  lemma ReserveCovers(m: ExpLn, f: Market, i: nat)
    requires Lawful(m) && Valid(f) && i < |f.liabilities|
    ensures RequiredReserve(m, f) >= f.liabilities[i]
  {
    ReserveIsCost(m, f);
    CostCovers(m, f.liquidity, Priced(f), i);
    assert f.bias[i] in f.bias;
  }

  /** Cash covers the required reserve. */
  ghost predicate Solvent(m: ExpLn, f: Market) {
    Valid(f) && f.cash >= RequiredReserve(m, f)
  }

  /** A solvent market pays in every state. */
  lemma SolventPays(m: ExpLn, f: Market)
    requires Lawful(m) && Solvent(m, f)
    ensures f.cash >= MaxLiability(f) >= 0.0
    ensures forall i :: 0 <= i < |f.liabilities| ==> f.cash >= f.liabilities[i]
  {
    HighestIs(f.liabilities);
    forall i | 0 <= i < |f.liabilities| ensures f.cash >= f.liabilities[i] {
      ReserveCovers(m, f, i);
    }
    assert f.liabilities[0] in f.liabilities;
  }

  predicate EventsOk(events: nat) {
    1 <= events <= 8
  }

  function Zeros(n: nat): (r: seq<real>)
    ensures |r| == n && forall i :: 0 <= i < n ==> r[i] == 0.0
  {
    seq(n, i => 0.0)
  }

  /** The initial subsidy is b ln(2^events): the reserve of a market that owes nothing. */
  function New(m: ExpLn, events: nat, liquidity: real): (r: Result<Market, RepricingError>)
    ensures r.Success? <==> 1 <= events <= 8 && 0.000001 <= liquidity <= 1000000000.0
    ensures r.Failure? ==> r.error == Domain
  {
    if !EventsOk(events) || !(0.000001 <= liquidity <= 1000000000.0) then Failure(Domain)
    else
      var n := Pow2(events);
      var empty := Market(events, liquidity, Zeros(n), Zeros(n), 0.0, 0);
      Success(empty.(cash := RequiredReserve(m, empty)))
  }

  lemma {:induction false} PartitionOfZeros(m: ExpLn, b: real, v: seq<real>)
    requires Lawful(m) && b > 0.0 && forall i :: 0 <= i < |v| ==> v[i] == 0.0
    ensures Partition(m, b, v) == |v| as real
  {
    if v != [] {
      PartitionOfZeros(m, b, v[1..]);
      ExpZero(m);
      assert 0.0 / b == 0.0;
    }
  }

  lemma NewIsSolvent(m: ExpLn, events: nat, liquidity: real)
    requires Lawful(m) && New(m, events, liquidity).Success?
    ensures Solvent(m, New(m, events, liquidity).value)
    ensures New(m, events, liquidity).value.cash == ScaledLn(m, liquidity, Pow2(events) as real)
    ensures var f := New(m, events, liquidity).value;
            && f.events == events && f.liquidity == liquidity && f.revision == 0
            && |f.liabilities| == |f.bias| == Pow2(events)
            && forall i :: 0 <= i < |f.bias| ==> f.liabilities[i] == 0.0 && f.bias[i] == 0.0
  {
    var f := New(m, events, liquidity).value;
    ReserveIsCost(m, f);
    PartitionOfZeros(m, liquidity, Priced(f));
    assert f.bias[0] in f.bias;
  }

  predicate Stale(f: Market, expected: nat) {
    expected != f.revision || expected == U64_MAX
  }

  predicate QuantityOk(b: real, quantity: real) {
    var size := if quantity < 0.0 then -quantity else quantity;
    b / 1000000000.0 <= size <= b
  }

  predicate LiabilityOk(b: real, q: real) {
    0.0 <= q <= 100.0 * b
  }

  /** Some state that the claim pays in would owe less than nothing or more than 100 b. */
  ghost predicate TradeLeavesRange(f: Market, payoff: seq<bool>, quantity: real)
    requires |payoff| == |f.liabilities|
  {
    exists i :: 0 <= i < |payoff| && payoff[i] && !LiabilityOk(f.liquidity, f.liabilities[i] + quantity)
  }

  /** Why a trade is refused, if it is. */
  ghost function TradeRefusal(f: Market, expected: nat, payoff: seq<bool>, quantity: real): Option<RepricingError> {
    if Stale(f, expected) then Some(StaleRevision)
    else if |payoff| != |f.liabilities| || true !in payoff || false !in payoff then Some(Claim)
    else if !QuantityOk(f.liquidity, quantity) then Some(Quantity)
    else if TradeLeavesRange(f, payoff, quantity) then Some(Liability)
    else None
  }

  function AfterTrade(f: Market, payoff: seq<bool>, quantity: real, paid: real): Market
    requires |payoff| == |f.liabilities|
  {
    f.(liabilities := Moved(f.liabilities, payoff, quantity), cash := f.cash + paid, revision := f.revision + 1)
  }

  /** The payment is the difference of the reserves, so cash less reserve does not move. */
  lemma TradePayment(m: ExpLn, f: Market, payoff: seq<bool>, quantity: real, paid: real)
    requires Lawful(m) && f.liquidity > 0.0 && |f.bias| == |f.liabilities| == |payoff| && payoff != []
    requires paid == Price(m, f.liquidity, Chosen(Distribution(m, f), payoff), quantity)
    ensures RequiredReserve(m, AfterTrade(f, payoff, quantity, paid)) == RequiredReserve(m, f) + paid
  {
    var z := Partition(m, f.liquidity, Priced(f));
    ChosenIsShare(m, f, payoff, z);
    ReserveIsCost(m, f);
    ReserveIsCost(m, AfterTrade(f, payoff, quantity, paid));
    PricedMoved(f, payoff, quantity);
    PriceIsCostDifference(m, f.liquidity, Priced(f), payoff, quantity, z, Paying(m, f.liquidity, Priced(f), payoff));
  }

  lemma {:induction false} ChosenProper(p: seq<real>, pays: seq<bool>)
    requires |pays| == |p| && forall i :: 0 <= i < |p| ==> p[i] > 0.0
    ensures 0.0 <= Chosen(p, pays) <= Sum(p)
    ensures true in pays ==> Chosen(p, pays) > 0.0
    ensures false in pays ==> Chosen(p, pays) < Sum(p)
  {
    if p != [] {
      ChosenProper(p[1..], pays[1..]);
      assert pays == [pays[0]] + pays[1..];
    }
  }

  /** A claim that pays somewhere but not everywhere has a probability strictly between 0 and 1. */
  lemma ProperProbability(m: ExpLn, f: Market, payoff: seq<bool>)
    requires Lawful(m) && Valid(f) && |payoff| == |f.liabilities| && true in payoff && false in payoff
    ensures 0.0 < Chosen(Distribution(m, f), payoff) < 1.0
  {
    SoftmaxIsDistribution(m, Over(Priced(f), f.liquidity));
    ChosenProper(Distribution(m, f), payoff);
  }

  /** One accepted trade: the code's price, paid into the cash account. */
  ghost predicate Traded(m: ExpLn, f: Market, expected: nat, payoff: seq<bool>, quantity: real, paid: real,
                         next: Market)
    requires Lawful(m) && Valid(f)
  {
    && TradeRefusal(f, expected, payoff, quantity) == None
    && paid == Price(m, f.liquidity, Chosen(Distribution(m, f), payoff), quantity)
    && next == AfterTrade(f, payoff, quantity, paid)
  }

  /** Cash and required reserve move together, by strictly less than the claims bought or sold. */
  lemma TradeSettles(m: ExpLn, f: Market, expected: nat, payoff: seq<bool>, quantity: real, paid: real, next: Market)
    requires Lawful(m) && Valid(f) && Traded(m, f, expected, payoff, quantity, paid, next)
    ensures Valid(next)
    ensures RequiredReserve(m, next) == RequiredReserve(m, f) + paid
    ensures quantity > 0.0 ==> 0.0 < paid < quantity
    ensures quantity < 0.0 ==> quantity < paid < 0.0
  {
    TradePayment(m, f, payoff, quantity, paid);
    ProperProbability(m, f, payoff);
    PriceStrictlyBetween(m, f.liquidity, Chosen(Distribution(m, f), payoff), quantity);
    AfterTradeValid(f, expected, payoff, quantity, paid);
  }

  lemma AfterTradeValid(f: Market, expected: nat, payoff: seq<bool>, quantity: real, paid: real)
    requires Valid(f) && TradeRefusal(f, expected, payoff, quantity) == None
    ensures Valid(AfterTrade(f, payoff, quantity, paid))
  {
    var q := AfterTrade(f, payoff, quantity, paid).liabilities;
    forall i | 0 <= i < |q| ensures LiabilityOk(f.liquidity, q[i]) {
      if payoff[i] {
        assert q[i] == f.liabilities[i] + quantity;
      }
    }
  }

  /** The loop that adds the quantity where the claim pays and stops at the first liability out of range. */
  method MoveLiabilities(f: Market, payoff: seq<bool>, quantity: real) returns (r: Option<seq<real>>)
    requires Valid(f) && |payoff| == |f.liabilities|
    ensures r.Some? ==> r.value == Moved(f.liabilities, payoff, quantity)
    ensures r.Some? ==> forall i :: 0 <= i < |r.value| ==> LiabilityOk(f.liquidity, r.value[i])
    ensures r.None? <==> TradeLeavesRange(f, payoff, quantity)
  {
    var next := f.liabilities;
    for i := 0 to |next|
      invariant |next| == |f.liabilities|
      invariant forall j :: i <= j < |next| ==> next[j] == f.liabilities[j]
      invariant forall j :: 0 <= j < i ==> next[j] == Moved(f.liabilities, payoff, quantity)[j]
      invariant forall j :: 0 <= j < i ==> LiabilityOk(f.liquidity, next[j])
    {
      if payoff[i] {
        next := next[i := next[i] + quantity];
      }
      if !LiabilityOk(f.liquidity, next[i]) {
        return None;
      }
    }
    assert forall i :: 0 <= i < |payoff| && payoff[i] ==> next[i] == f.liabilities[i] + quantity;
    return Some(next);
  }

  /** Signed cash paid to the pool at a fixed bias, and the market after it. */
  method SimulateTrade(m: ExpLn, f: Market, expected: nat, payoff: seq<bool>, quantity: real)
    returns (r: Result<(real, Market), RepricingError>)
    requires Lawful(m) && Valid(f)
    ensures r.Failure? ==> TradeRefusal(f, expected, payoff, quantity) == Some(r.error)
    ensures r.Success? ==> Traded(m, f, expected, payoff, quantity, r.value.0, r.value.1)
    ensures r.Success? <==>
              && expected == f.revision < 0xFFFF_FFFF_FFFF_FFFF
              && |payoff| == |f.liabilities| && true in payoff && false in payoff
              && (f.liquidity <= 1000000000.0 * quantity <= 1000000000.0 * f.liquidity
                  || f.liquidity <= -1000000000.0 * quantity <= 1000000000.0 * f.liquidity)
              && forall i :: 0 <= i < |payoff| && payoff[i] ==>
                   0.0 <= f.liabilities[i] + quantity <= 100.0 * f.liquidity
    ensures r.Success? ==> r.value.1.revision == f.revision + 1 && r.value.1.cash == f.cash + r.value.0
    ensures r == Failure(StaleRevision) <==> expected != f.revision || f.revision == 0xFFFF_FFFF_FFFF_FFFF
    ensures r == Failure(Quantity) || r == Failure(Liability) ==>
              |payoff| == |f.liabilities| && true in payoff && false in payoff
    ensures r == Failure(Liability) ==> QuantityOk(f.liquidity, quantity)
    ensures r.Success? ==> RequiredReserve(m, r.value.1) == RequiredReserve(m, f) + r.value.0
    ensures r.Success? && quantity > 0.0 ==> 0.0 < r.value.0 < quantity
    ensures r.Success? && quantity < 0.0 ==> quantity < r.value.0 < 0.0
  {
    if Stale(f, expected) {
      return Failure(StaleRevision);
    }
    if |payoff| != |f.liabilities| || true !in payoff || false !in payoff {
      return Failure(Claim);
    }
    if !QuantityOk(f.liquidity, quantity) {
      return Failure(Quantity);
    }
    var moved := MoveLiabilities(f, payoff, quantity);
    if moved == None {
      return Failure(Liability);
    }
    var paid := Price(m, f.liquidity, Chosen(Distribution(m, f), payoff), quantity);
    r := Success((paid, f.(liabilities := moved.value, cash := f.cash + paid, revision := f.revision + 1)));
    TradeSettles(m, f, expected, payoff, quantity, paid, r.value.1);
  }

  /** The bias before it is shifted: b ln p(x) - q(x). */
  function LogBias(m: ExpLn, b: real, p: seq<real>, q: seq<real>): (a: seq<real>)
    requires |q| == |p|
    ensures |a| == |p|
  {
    seq(|p|, i requires 0 <= i < |p| => ScaledLn(m, b, p[i]) - q[i])
  }

  /** The largest, over the states, of the liability plus b ln(1/p): what a market that prices by p must hold. */
  ghost function WorstState(m: ExpLn, b: real, p: seq<real>, q: seq<real>): real
    requires |q| == |p| && p != []
  {
    Highest(seq(|p|, i requires 0 <= i < |p| => q[i] - ScaledLn(m, b, p[i])))
  }

  lemma {:induction false} NegatedHighest(a: seq<real>, c: seq<real>)
    requires |c| == |a| && a != [] && forall i :: 0 <= i < |a| ==> c[i] == -a[i]
    ensures Highest(c) == -Lowest(a)
  {
    if |a| > 1 {
      NegatedHighest(a[1..], c[1..]);
    }
  }

  lemma WorstIsLow(m: ExpLn, b: real, p: seq<real>, q: seq<real>)
    requires |q| == |p| && p != []
    ensures WorstState(m, b, p, q) == -Lowest(LogBias(m, b, p, q))
  {
    NegatedHighest(LogBias(m, b, p, q), seq(|p|, i requires 0 <= i < |p| => q[i] - ScaledLn(m, b, p[i])));
  }

  lemma LogQuotient(b: real, l: real, low: real, scaled: real)
    requires b > 0.0 && scaled == b * l
    ensures (scaled - low) / b == -low / b + l
  {
    AddQuotients(scaled, low, b);
    assert scaled == Scaled(b, l);
    ShareOfMultiple(b, l, scaled);
    assert Share(scaled, b) == scaled / b;
  }

  /** exp((b ln x - low)/b) == x exp(-low/b). */
  lemma WeightOfLog(m: ExpLn, b: real, x: real, low: real, k: real)
    requires Lawful(m) && b > 0.0 && x > 0.0 && k == m.exp(-low / b)
    ensures m.exp((ScaledLn(m, b, x) - low) / b) == Scaled(k, x)
  {
    LogQuotient(b, m.ln(x), low, ScaledLn(m, b, x));
    ExpAdd(m, -low / b, m.ln(x));
    ExpLnIs(m, x);
  }

  lemma LogsAdd(k: real, x: real, rest: real, sum: real, weight: real, others: real)
    requires sum == x + rest && weight == Scaled(k, x) && others == k * rest
    ensures weight + others == k * sum
  {
    DistributeSum(k, x, rest, sum);
  }

  lemma {:induction false} PartitionOfLogs(m: ExpLn, b: real, p: seq<real>, v: seq<real>, low: real, k: real, sum: real)
    requires Lawful(m) && b > 0.0 && |v| == |p| && k == m.exp(-low / b) && sum == Sum(p)
    requires forall i :: 0 <= i < |p| ==> p[i] > 0.0 && v[i] == ScaledLn(m, b, p[i]) - low
    ensures Partition(m, b, v) == k * sum
  {
    if p != [] {
      var rest := Sum(p[1..]);
      PartitionOfLogs(m, b, p[1..], v[1..], low, k, rest);
      WeightOfLog(m, b, p[0], low, k);
      LogsAdd(k, p[0], rest, sum, m.exp(v[0] / b), Partition(m, b, v[1..]));
    }
  }

  /** What a repricing leaves: the bias moved, the cash topped up, the liabilities untouched. */
  ghost predicate Repriced(m: ExpLn, f: Market, p: seq<real>, next: Market)
    requires |p| == |f.liabilities|
  {
    && next == f.(bias := next.bias, cash := next.cash, revision := f.revision + 1)
    && next.bias == Shifted(LogBias(m, f.liquidity, p, f.liabilities), LogBiasFloor(m, f, p))
  }

  ghost function LogBiasFloor(m: ExpLn, f: Market, p: seq<real>): real
    requires |p| == |f.liabilities|
  {
    if p == [] then 0.0 else Lowest(LogBias(m, f.liquidity, p, f.liabilities))
  }

  lemma RepricedWeight(m: ExpLn, f: Market, p: seq<real>, next: Market, low: real, k: real)
    requires Lawful(m) && Valid(f) && |p| == |f.liabilities| && IsDistribution(p) && Repriced(m, f, p, next)
    requires low == LogBiasFloor(m, f, p) && k == m.exp(-low / f.liquidity)
    ensures k > 0.0 && Partition(m, f.liquidity, Priced(next)) == k
    ensures forall i :: 0 <= i < |p| ==> m.exp(Priced(next)[i] / f.liquidity) == Scaled(k, p[i])
  {
    var v := Priced(next);
    assert forall i :: 0 <= i < |p| ==> v[i] == ScaledLn(m, f.liquidity, p[i]) - low;
    PartitionOfLogs(m, f.liquidity, p, v, low, k, 1.0);
    ExpPositive(m, -low / f.liquidity);
    forall i | 0 <= i < |p| ensures m.exp(v[i] / f.liquidity) == Scaled(k, p[i]) {
      WeightOfLog(m, f.liquidity, p[i], low, k);
    }
  }

  /** The new bias prices every state at its learned probability. */
  lemma RepricedDistribution(m: ExpLn, f: Market, p: seq<real>, next: Market)
    requires Lawful(m) && Valid(f) && |p| == |f.liabilities| && IsDistribution(p) && Repriced(m, f, p, next)
    ensures Distribution(m, next) == p
  {
    var low := LogBiasFloor(m, f, p);
    var k := m.exp(-low / f.liquidity);
    RepricedWeight(m, f, p, next, low, k);
    forall i | 0 <= i < |p| ensures Distribution(m, next)[i] == p[i] {
      DistributionIs(m, next, i, k);
      ShareOfMultiple(k, p[i], m.exp(Priced(next)[i] / f.liquidity));
    }
  }

  /** The new bias has minimum zero, and the reserve is what the worst state needs. */
  lemma RepricedReserve(m: ExpLn, f: Market, p: seq<real>, next: Market)
    requires Lawful(m) && Valid(f) && |p| == |f.liabilities| && IsDistribution(p) && Repriced(m, f, p, next)
    ensures IsLowest(next.bias, 0.0)
    ensures RequiredReserve(m, next) == WorstState(m, f.liquidity, p, f.liabilities)
  {
    var low := LogBiasFloor(m, f, p);
    ShiftedLowest(LogBias(m, f.liquidity, p, f.liabilities));
    RepricedWeight(m, f, p, next, low, m.exp(-low / f.liquidity));
    ReserveIsCost(m, next);
    LnScaled(m, f.liquidity, -low);
    WorstIsLow(m, f.liquidity, p, f.liabilities);
  }

  lemma ShareOfMultiple(k: real, x: real, kx: real)
    requires k > 0.0 && kx == Scaled(k, x)
    ensures Share(kx, k) == x
  {
    Cancel(kx, k);
    var t := kx / k;
    OrderedFactor(t, x, k, kx, kx);
    OrderedFactor(x, t, k, kx, kx);
  }

  lemma ShiftedLowest(raw: seq<real>)
    requires raw != []
    ensures IsLowest(Shifted(raw, Lowest(raw)), 0.0)
  {
    var low := Lowest(raw);
    LowestIs(raw);
    var i :| 0 <= i < |raw| && raw[i] == low;
    var shifted := Shifted(raw, low);
    assert shifted[i] == 0.0;
    forall x | x in shifted ensures 0.0 <= x {
      var j :| 0 <= j < |raw| && shifted[j] == x;
      assert raw[j] in raw;
    }
  }

  predicate LimitsOk(maxFunding: real, maxVariation: real) {
    0.0 <= maxFunding && 0.0 <= maxVariation <= 1.0
  }

  /** Why a repricing is refused, if it is. */
  ghost function RepriceRefusal(m: ExpLn, f: Market, expected: nat, model: IsingModel, maxFunding: real,
                                maxVariation: real): Option<RepricingError>
    requires Lawful(m) && Valid(f) && WellFormed(model)
  {
    if Stale(f, expected) then Some(StaleRevision)
    else if model.events != f.events || !LimitsOk(maxFunding, maxVariation) then Some(Domain)
    else
      var p := ModelDistribution(m, model);
      if p == None then Some(Domain)
      else if Variation(Distribution(m, f), p.value) > maxVariation then Some(MovementLimit)
      else if WorstState(m, f.liquidity, p.value, f.liabilities) - f.cash > maxFunding then Some(FundingLimit)
      else None
  }

  /** One accepted repricing: prices become the learned ones, and funding tops the cash up to the new reserve. */
  ghost predicate Learned(m: ExpLn, f: Market, model: IsingModel, receipt: Receipt, next: Market)
    requires Lawful(m) && Valid(f) && WellFormed(model)
  {
    && ModelDistribution(m, model).Some?
    && model.events == f.events
    && var p := ModelDistribution(m, model).value;
    && Repriced(m, f, p, next)
    && receipt.reserveBefore == RequiredReserve(m, f)
    && receipt.reserveAfter == WorstState(m, f.liquidity, p, f.liabilities)
    && receipt.fundingAdded == (if receipt.reserveAfter > f.cash then receipt.reserveAfter - f.cash else 0.0)
    && receipt.totalVariation == Variation(Distribution(m, f), p)
    && next.cash == f.cash + receipt.fundingAdded
    && f.revision < U64_MAX
  }

  /** A repricing needs no one's money but the funding: the new reserve is met and the old cash kept. */
  lemma LearnedSettles(m: ExpLn, f: Market, model: IsingModel, receipt: Receipt, next: Market)
    requires Lawful(m) && Valid(f) && WellFormed(model) && Learned(m, f, model, receipt, next)
    ensures Valid(next)
    ensures Distribution(m, next) == ModelDistribution(m, model).value
    ensures receipt.reserveBefore == RequiredReserve(m, f) && RequiredReserve(m, next) == receipt.reserveAfter
    ensures next.cash >= RequiredReserve(m, next) && next.cash >= f.cash
    ensures receipt.fundingAdded > 0.0 ==> next.cash == RequiredReserve(m, next)
    ensures next.liabilities == f.liabilities
  {
    var p := ModelDistribution(m, model).value;
    SoftmaxIsDistribution(m, ModelEnergies(model));
    RepricedDistribution(m, f, p, next);
    RepricedReserve(m, f, p, next);
  }

  /** The claim's probability moves by at most the bound, either way. */
  ghost predicate MovesWithin(p: seq<real>, r: seq<real>, pays: seq<bool>, bound: real)
    requires |p| == |r| == |pays|
  {
    Chosen(r, pays) - Chosen(p, pays) <= bound && Chosen(p, pays) - Chosen(r, pays) <= bound
  }

  /** A repricing moves no claim's probability by more than the variation it reports. */
  lemma LearnedMoves(m: ExpLn, f: Market, model: IsingModel, receipt: Receipt, next: Market, pays: seq<bool>)
    requires Lawful(m) && Valid(f) && WellFormed(model) && Learned(m, f, model, receipt, next)
    requires |pays| == |f.liabilities|
    ensures Valid(next) && |Distribution(m, next)| == |Distribution(m, f)| == |pays|
    ensures MovesWithin(Distribution(m, f), Distribution(m, next), pays, receipt.totalVariation)
  {
    LearnedSettles(m, f, model, receipt, next);
    DistributionSums(m, f);
    DistributionSums(m, next);
    VariationBoundsClaims(Distribution(m, f), Distribution(m, next), pays);
  }

  /** When the variation is over a limit, some claim would move by more than the limit. */
  lemma SomeClaimMoves(m: ExpLn, f: Market, model: IsingModel, limit: real)
    requires Lawful(m) && Valid(f) && WellFormed(model) && model.events == f.events && ModelDistribution(m, model).Some?
    requires Variation(Distribution(m, f), ModelDistribution(m, model).value) > limit
    ensures exists pays: seq<bool> :: |pays| == |f.liabilities|
              && !MovesWithin(Distribution(m, f), ModelDistribution(m, model).value, pays, limit)
  {
    var p, r := Distribution(m, f), ModelDistribution(m, model).value;
    DistributionSums(m, f);
    SoftmaxIsDistribution(m, ModelEnergies(model));
    VariationIsReached(p, r);
    assert !MovesWithin(p, r, Rises(p, r), limit);
  }

  /** The loop that shifts every bias down by the smallest. */
  method ShiftDown(raw: seq<real>, low: real) returns (bias: seq<real>)
    ensures bias == Shifted(raw, low)
  {
    bias := raw;
    for i := 0 to |bias|
      invariant |bias| == |raw|
      invariant forall j :: 0 <= j < i ==> bias[j] == raw[j] - low
      invariant forall j :: i <= j < |bias| ==> bias[j] == raw[j]
    {
      bias := bias[i := bias[i] - low];
    }
  }

  method SimulateReprice(m: ExpLn, f: Market, expected: nat, model: IsingModel, maxFunding: real, maxVariation: real)
    returns (r: Result<(Receipt, Market), RepricingError>)
    requires Lawful(m) && Valid(f) && WellFormed(model)
    ensures r.Failure? ==> RepriceRefusal(m, f, expected, model, maxFunding, maxVariation) == Some(r.error)
    ensures r.Success? ==> RepriceRefusal(m, f, expected, model, maxFunding, maxVariation) == None
    ensures r.Success? ==> Learned(m, f, model, r.value.0, r.value.1)
    ensures r.Success? ==> expected == f.revision < 0xFFFF_FFFF_FFFF_FFFF && r.value.1.revision == f.revision + 1
    ensures r.Success? ==> model.events == f.events && 0.0 <= maxFunding && 0.0 <= maxVariation <= 1.0
    ensures r.Success? ==> r.value.0.fundingAdded <= maxFunding && r.value.0.totalVariation <= maxVariation
    ensures r.Success? ==> Valid(r.value.1) && forall pays: seq<bool> :: |pays| == |f.liabilities| ==>
              |Distribution(m, r.value.1)| == |pays|
              && MovesWithin(Distribution(m, f), Distribution(m, r.value.1), pays, maxVariation)
    ensures r == Failure(StaleRevision) <==> expected != f.revision || f.revision == 0xFFFF_FFFF_FFFF_FFFF
    ensures r == Failure(FundingLimit) ==>
              ModelDistribution(m, model).Some?
              && |ModelDistribution(m, model).value| == |f.liabilities|
              && Variation(Distribution(m, f), ModelDistribution(m, model).value) <= maxVariation
    ensures r == Failure(Domain) ==>
              model.events != f.events || maxFunding < 0.0 || !(0.0 <= maxVariation <= 1.0) || SpreadOver(model, 24.0)
    ensures r == Failure(MovementLimit) ==>
              model.events == f.events && ModelDistribution(m, model).Some?
              && exists pays: seq<bool> :: |pays| == |f.liabilities|
                   && !MovesWithin(Distribution(m, f), ModelDistribution(m, model).value, pays, maxVariation)
  {
    if Stale(f, expected) {
      return Failure(StaleRevision);
    }
    if model.events != f.events || !LimitsOk(maxFunding, maxVariation) {
      return Failure(Domain);
    }
    DistributionExists(m, model);
    var learned := ModelDistribution(m, model);
    if learned == None {
      return Failure(Domain);
    }
    var p := learned.value;
    var movement := Variation(Distribution(m, f), p);
    if movement > maxVariation {
      SomeClaimMoves(m, f, model, maxVariation);
      return Failure(MovementLimit);
    }
    var raw := LogBias(m, f.liquidity, p, f.liabilities);
    var bias := ShiftDown(raw, Lowest(raw));
    var next := f.(bias := bias, revision := f.revision + 1);
    SoftmaxIsDistribution(m, ModelEnergies(model));
    RepricedReserve(m, f, p, next);
    var reserveAfter := RequiredReserve(m, next);
    var funding := if reserveAfter - f.cash > 0.0 then reserveAfter - f.cash else 0.0;
    if funding > maxFunding {
      return Failure(FundingLimit);
    }
    next := next.(cash := if f.cash > reserveAfter then f.cash else reserveAfter);
    var receipt := Receipt(RequiredReserve(m, f), reserveAfter, funding, movement);
    LearnedSettles(m, f, model, receipt, next);
    forall pays: seq<bool> | |pays| == |f.liabilities|
      ensures |Distribution(m, next)| == |pays|
      ensures MovesWithin(Distribution(m, f), Distribution(m, next), pays, maxVariation)
    {
      LearnedMoves(m, f, model, receipt, next, pays);
    }
    r := Success((receipt, next));
  }

  lemma ShareTimes(x: real, z: real, s: real)
    requires z > 0.0 && s == Share(x, z)
    ensures x == z * s
  {
    Cancel(x, z);
  }

  lemma EqualShares(m: ExpLn, x: real, y: real, z: real, w: real)
    requires Lawful(m) && z > 0.0 && w > 0.0 && Share(m.exp(x), z) == Share(m.exp(y), w)
    ensures x - m.ln(z) == y - m.ln(w)
  {
    var s := Share(m.exp(x), z);
    ShareTimes(m.exp(x), z, s);
    ShareTimes(m.exp(y), w, s);
    ExpPositive(m, x);
    SharePositive(m.exp(x), z);
    LnProduct(m, z, s);
    LnProduct(m, w, s);
    LnExp(m, x);
    LnExp(m, y);
  }

  /** Equal shares of two totals: the exponents differ by what the logarithms of the totals differ by. */
  lemma EqualSharesScaled(m: ExpLn, b: real, x: real, y: real, z: real, w: real)
    requires Lawful(m) && b > 0.0 && z > 0.0 && w > 0.0
    requires Share(m.exp(x / b), z) == Share(m.exp(y / b), w)
    ensures x - y == ScaledLn(m, b, z) - ScaledLn(m, b, w)
  {
    var u, v := x / b, y / b;
    EqualShares(m, u, v, z, w);
    Cancel(x, b);
    Cancel(y, b);
    Distribute(b, u, v);
    Distribute(b, m.ln(z), m.ln(w));
  }

  lemma BiasStep(m: ExpLn, f: Market, g: Market, i: nat, z: real, w: real)
    requires Lawful(m) && Valid(f) && Valid(g) && g == f.(bias := g.bias) && Distribution(m, g) == Distribution(m, f)
    requires z == Partition(m, f.liquidity, Priced(f)) && w == Partition(m, f.liquidity, Priced(g)) && i < |f.bias|
    ensures f.bias[i] - g.bias[i] == ScaledLn(m, f.liquidity, z) - ScaledLn(m, f.liquidity, w)
  {
    DistributionIs(m, f, i, z);
    DistributionIs(m, g, i, w);
    EqualSharesScaled(m, f.liquidity, Priced(f)[i], Priced(g)[i], z, w);
  }

  /** No other bias with minimum zero prices every state at the same probability. */
  lemma BiasIsUnique(m: ExpLn, f: Market, g: Market)
    requires Lawful(m) && Valid(f) && Valid(g) && g == f.(bias := g.bias) && Distribution(m, g) == Distribution(m, f)
    ensures g.bias == f.bias
  {
    var z, w := Partition(m, f.liquidity, Priced(f)), Partition(m, f.liquidity, Priced(g));
    var step := ScaledLn(m, f.liquidity, z) - ScaledLn(m, f.liquidity, w);
    forall i | 0 <= i < |f.bias| ensures f.bias[i] - g.bias[i] == step {
      BiasStep(m, f, g, i, z, w);
    }
    EqualUpToStep(f.bias, g.bias, step);
  }

  lemma EqualUpToStep(a: seq<real>, c: seq<real>, step: real)
    requires |c| == |a| && IsLowest(a, 0.0) && IsLowest(c, 0.0)
    requires forall i :: 0 <= i < |a| ==> a[i] - c[i] == step
    ensures a == c
  {
    var i :| 0 <= i < |a| && a[i] == 0.0;
    var j :| 0 <= j < |c| && c[j] == 0.0;
    assert c[i] in c && a[j] in a;
  }
}
