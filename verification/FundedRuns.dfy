/** Every run of the funded market: any sequence of accepted trades and repricings from a new market. */
module FundedRuns {
  import opened Wrappers
  import opened Exponential
  import opened Ising
  import opened Funded

  /** An accepted operation and what it moved. */
  datatype Step =
    | TradeStep(payoff: seq<bool>, quantity: real, paid: real)
    | RepriceStep(model: IsingModel, maxFunding: real, maxVariation: real, receipt: Receipt)

  /** The market moves by one accepted call of `SimulateTrade` or `SimulateReprice`. */
  ghost predicate Moves(m: ExpLn, f: Market, step: Step, next: Market)
    requires Lawful(m)
  {
    && Valid(f)
    && match step
       case TradeStep(payoff, quantity, paid) => Traded(m, f, f.revision, payoff, quantity, paid, next)
       case RepriceStep(model, maxFunding, maxVariation, receipt) =>
         && WellFormed(model)
         && RepriceRefusal(m, f, f.revision, model, maxFunding, maxVariation) == None
         && Learned(m, f, model, receipt, next)
  }

  /** Markets after 0, 1, ..., |steps| operations, the first one new. */
  ghost predicate IsRun(m: ExpLn, markets: seq<Market>, steps: seq<Step>)
    requires Lawful(m)
  {
    && |markets| == |steps| + 1
    && (exists events: nat, liquidity: real :: New(m, events, liquidity) == Success(markets[0]))
    && forall k :: 0 <= k < |steps| ==> MovesAt(m, markets, steps, k)
  }

  /** Step k leads from market k to the next. */
  ghost predicate MovesAt(m: ExpLn, markets: seq<Market>, steps: seq<Step>, k: nat)
    requires Lawful(m) && |markets| == |steps| + 1 && k < |steps|
  {
    Moves(m, markets[k], steps[k], markets[k + 1])
  }

  /** Net collateral that traders paid. */
  ghost function PaidIn(steps: seq<Step>): real {
    if steps == [] then 0.0
    else
      var last := steps[|steps| - 1];
      PaidIn(steps[..|steps| - 1]) + (if last.TradeStep? then last.paid else 0.0)
  }

  /** Outside funding added. */
  ghost function FundingIn(steps: seq<Step>): real {
    if steps == [] then 0.0
    else
      var last := steps[|steps| - 1];
      FundingIn(steps[..|steps| - 1]) + (if last.RepriceStep? then last.receipt.fundingAdded else 0.0)
  }

  /** What the claims bought and not sold pay in outcome i. */
  ghost function Owed(steps: seq<Step>, i: nat): real {
    if steps == [] then 0.0
    else
      var last := steps[|steps| - 1];
      Owed(steps[..|steps| - 1], i)
      + (if last.TradeStep? && i < |last.payoff| && last.payoff[i] then last.quantity else 0.0)
  }

  lemma StepIsSolvent(m: ExpLn, f: Market, step: Step, next: Market)
    requires Lawful(m) && Solvent(m, f) && Moves(m, f, step, next)
    ensures Solvent(m, next) && next.events == f.events
    ensures step.TradeStep? ==> next.cash - RequiredReserve(m, next) == f.cash - RequiredReserve(m, f)
  {
    match step
    case TradeStep(payoff, quantity, paid) =>
      TradeSettles(m, f, f.revision, payoff, quantity, paid, next);
    case RepriceStep(model, maxFunding, maxVariation, receipt) =>
      LearnedSettles(m, f, model, receipt, next);
  }

  lemma FirstIsSolvent(m: ExpLn, markets: seq<Market>, steps: seq<Step>)
    requires Lawful(m) && IsRun(m, markets, steps)
    ensures Solvent(m, markets[0])
    ensures markets[0].cash == ScaledLn(m, markets[0].liquidity, |markets[0].liabilities| as real)
    ensures forall i :: 0 <= i < |markets[0].liabilities| ==> markets[0].liabilities[i] == 0.0
  {
    var events: nat, liquidity: real :| New(m, events, liquidity) == Success(markets[0]);
    NewIsSolvent(m, events, liquidity);
  }

  lemma NextIsSolvent(m: ExpLn, markets: seq<Market>, steps: seq<Step>, k: nat)
    requires Lawful(m) && IsRun(m, markets, steps) && k < |steps|
    requires Solvent(m, markets[k]) && |markets[k].liabilities| == |markets[0].liabilities|
    ensures Solvent(m, markets[k + 1]) && |markets[k + 1].liabilities| == |markets[0].liabilities|
  {
    assert MovesAt(m, markets, steps, k);
    StepIsSolvent(m, markets[k], steps[k], markets[k + 1]);
  }

  /** Every market of a run is solvent. */
  lemma {:induction false} RunIsSolvent(m: ExpLn, markets: seq<Market>, steps: seq<Step>, k: nat)
    requires Lawful(m) && IsRun(m, markets, steps) && k <= |steps|
    ensures Solvent(m, markets[k]) && |markets[k].liabilities| == |markets[0].liabilities|
  {
    if k == 0 {
      FirstIsSolvent(m, markets, steps);
    } else {
      RunIsSolvent(m, markets, steps, k - 1);
      NextIsSolvent(m, markets, steps, k - 1);
    }
  }

  /** Conservation: the cash is the first cash plus everything paid in, and the liabilities are the claims
      outstanding. */
  lemma {:induction false} RunConserves(m: ExpLn, markets: seq<Market>, steps: seq<Step>, k: nat, i: nat)
    requires Lawful(m) && IsRun(m, markets, steps) && k <= |steps| && i < |markets[0].liabilities|
    ensures markets[k].cash == markets[0].cash + PaidIn(steps[..k]) + FundingIn(steps[..k])
    ensures |markets[k].liabilities| == |markets[0].liabilities|
    ensures markets[k].liabilities[i] == Owed(steps[..k], i)
    ensures FundingIn(steps[..k]) >= 0.0
  {
    if k == 0 {
      FirstIsSolvent(m, markets, steps);
      assert steps[..0] == [];
    } else {
      RunConserves(m, markets, steps, k - 1, i);
      assert steps[..k][..k - 1] == steps[..k - 1];
      assert MovesAt(m, markets, steps, k - 1);
    }
  }

  /** Solvency over every run: in every reachable market and for every outcome, the initial subsidy b ln(2^n)
      with what traders paid and what was funded covers what the outstanding claims pay. */
  lemma RunAlwaysPays(m: ExpLn, markets: seq<Market>, steps: seq<Step>, k: nat, i: nat)
    requires Lawful(m) && IsRun(m, markets, steps) && k <= |steps| && i < |markets[0].liabilities|
    ensures ScaledLn(m, markets[0].liquidity, |markets[0].liabilities| as real)
          + PaidIn(steps[..k]) + FundingIn(steps[..k]) >= Owed(steps[..k], i) >= 0.0
    ensures Solvent(m, markets[k]) && RequiredReserve(m, markets[k]) >= Owed(steps[..k], i)
  {
    RunIsSolvent(m, markets, steps, k);
    RunConserves(m, markets, steps, k, i);
    ReserveCovers(m, markets[k], i);
    FirstIsSolvent(m, markets, steps);
  }

  /** Between repricings the path does not matter: over trades alone the surplus never moves and the payments
      add up to the difference of the reserves. */
  lemma {:induction false} TradesKeepSurplus(m: ExpLn, markets: seq<Market>, steps: seq<Step>, j: nat, k: nat)
    requires Lawful(m) && IsRun(m, markets, steps) && j <= k <= |steps|
    requires forall l :: j <= l < k ==> steps[l].TradeStep?
    ensures Solvent(m, markets[j]) && Solvent(m, markets[k])
    ensures markets[k].cash - RequiredReserve(m, markets[k]) == markets[j].cash - RequiredReserve(m, markets[j])
    decreases k - j
  {
    RunIsSolvent(m, markets, steps, k);
    if j < k {
      TradesKeepSurplus(m, markets, steps, j, k - 1);
      assert MovesAt(m, markets, steps, k - 1);
      StepIsSolvent(m, markets[k - 1], steps[k - 1], markets[k]);
    }
  }

  /** No repricing of a run moves the probability of any claim by more than its own limit, nor adds more funding than
      its own limit. */
  lemma RepricingIsLimited(m: ExpLn, markets: seq<Market>, steps: seq<Step>, k: nat, pays: seq<bool>)
    requires Lawful(m) && IsRun(m, markets, steps) && k < |steps| && steps[k].RepriceStep?
    requires |pays| == |markets[k].liabilities|
    ensures Valid(markets[k]) && Valid(markets[k + 1]) && |markets[k + 1].liabilities| == |pays|
    ensures MovesWithin(Distribution(m, markets[k]), Distribution(m, markets[k + 1]), pays, steps[k].maxVariation)
    ensures steps[k].receipt.fundingAdded <= steps[k].maxFunding
  {
    assert MovesAt(m, markets, steps, k);
    LearnedMoves(m, markets[k], steps[k].model, steps[k].receipt, markets[k + 1], pays);
  }
}
