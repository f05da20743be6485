/** Runs of accepted trades on the bounded-width market maker: snapshots joined by `simulate_trade` (factored.rs). */
module EngineRuns {
  import opened Scopes
  import opened Width
  import opened Exponential
  import opened Factored
  import opened Trading
  import Lmsr
  import TradeRuns

  /** One accepted call of a run and the snapshot it returned. */
  datatype Call = Call(deal: Deal, after: Snapshot)

  ghost predicate IsRun(m: ExpLn, s: Snapshot, calls: seq<Call>)
    decreases |calls|
  {
    calls != [] ==> Dealt(m, s, calls[0].deal, calls[0].after) && IsRun(m, calls[0].after, calls[1..])
  }

  function Last(s: Snapshot, calls: seq<Call>): Snapshot {
    if calls == [] then s else calls[|calls| - 1].after
  }

  function Paid(calls: seq<Call>): real {
    if calls == [] then 0.0 else calls[0].deal.paid + Paid(calls[1..])
  }

  ghost function CostOf(m: ExpLn, s: Snapshot): real
    requires Valid(s)
  {
    Lmsr.Cost(m, s.b, Vector(s))
  }

  lemma DealPays(m: ExpLn, s: Snapshot, deal: Deal, after: Snapshot)
    requires Dealt(m, s, deal, after)
    ensures Valid(after) && after.events == s.events && after.b == s.b && deal.paid == CostOf(m, after) - CostOf(m, s)
  {
  }

  lemma LastOfRest(s: Snapshot, calls: seq<Call>)
    requires calls != []
    ensures Last(calls[0].after, calls[1..]) == Last(s, calls)
  {
  }

  /** What a run of calls paid is the cost it added, and the market stays the same one. */
  lemma {:induction false} RunPaysCostDifference(m: ExpLn, s: Snapshot, calls: seq<Call>, last: Snapshot)
    requires Valid(s) && IsRun(m, s, calls) && last == Last(s, calls)
    ensures Valid(last) && last.events == s.events && last.b == s.b
    ensures Paid(calls) == CostOf(m, last) - CostOf(m, s)
    decreases |calls|
  {
    if calls != [] {
      var call := calls[0];
      DealPays(m, s, call.deal, call.after);
      LastOfRest(s, calls);
      RunPaysCostDifference(m, call.after, calls[1..], last);
    }
  }

  /** Two runs on the same liquidity that begin with the same liabilities and end with the same liabilities pay the
      same, however the factors, the orders and the claims between them differ. */
  lemma PathIndependent(m: ExpLn, s: Snapshot, calls: seq<Call>, other: Snapshot, more: seq<Call>)
    requires Valid(s) && IsRun(m, s, calls) && Valid(other) && IsRun(m, other, more)
    requires s.b == other.b && Vector(s) == Vector(other)
    ensures Valid(Last(s, calls)) && Valid(Last(other, more))
    ensures Vector(Last(s, calls)) == Vector(Last(other, more)) ==> Paid(calls) == Paid(more)
    ensures Vector(Last(s, calls)) == Vector(s) ==> Paid(calls) == 0.0
  {
    RunPaysCostDifference(m, s, calls, Last(s, calls));
    RunPaysCostDifference(m, other, more, Last(other, more));
  }

  /** Where the claim of a deal pays, among the joint states of the market. */
  ghost function PaysOf(s: Snapshot, deal: Deal): (pays: seq<bool>)
    ensures |pays| == |States(s.events, {})|
  {
    ClaimPays(Elements(deal.scope), deal.mask, States(s.events, {}))
  }

  lemma DealMoves(m: ExpLn, s: Snapshot, deal: Deal, after: Snapshot, q: seq<real>, pays: seq<bool>)
    requires Dealt(m, s, deal, after) && q == Vector(s) && pays == PaysOf(s, deal)
    ensures Vector(after) == Lmsr.Moved(q, pays, deal.quantity)
  {
  }

  /** Buying a claim and then selling as much of it restores every liability and nets exactly nothing. */
  lemma BuyThenSell(m: ExpLn, s: Snapshot, buy: Deal, between: Snapshot, sell: Deal, after: Snapshot)
    requires Dealt(m, s, buy, between) && Dealt(m, between, sell, after)
    requires sell.scope == buy.scope && sell.mask == buy.mask && sell.quantity == -buy.quantity
    ensures Valid(after) && Vector(after) == Vector(s)
    ensures buy.paid + sell.paid == 0.0
  {
    DealPays(m, s, buy, between);
    DealPays(m, between, sell, after);
    var q, moved, pays := Vector(s), Vector(between), PaysOf(s, buy);
    DealMoves(m, s, buy, between, q, pays);
    DealMoves(m, between, sell, after, moved, pays);
    MovesBack(q, moved, Vector(after), pays, buy.quantity, sell.quantity);
  }

  lemma MovesBack(q: seq<real>, moved: seq<real>, back: seq<real>, pays: seq<bool>, quantity: real, reverse: real)
    requires |pays| == |q| && reverse == -quantity
    requires moved == Lmsr.Moved(q, pays, quantity) && back == Lmsr.Moved(moved, pays, reverse)
    ensures back == q
  {
  }

  /** Every accepted buy costs more than nothing and less than its quantity; a sale returns more than nothing and
      less than its quantity. */
  lemma PaidStrictlyBetween(m: ExpLn, s: Snapshot, deal: Deal, after: Snapshot)
    requires Lawful(m) && Dealt(m, s, deal, after)
    ensures deal.quantity > 0.0 ==> 0.0 < deal.paid < deal.quantity
    ensures deal.quantity < 0.0 ==> deal.quantity < deal.paid < 0.0
  {
    if deal.quantity != 0.0 {
      TradeIsPricedMove(m, s, deal.scope, deal.mask, deal.quantity, deal.paid, after);
      var pays := ClaimPays(Elements(deal.scope), deal.mask, States(s.events, {}));
      TradeRuns.PaidStrictlyBetween(m, s.b, Vector(s), TradeRuns.Move(pays, deal.quantity, deal.paid));
    }
  }

  lemma ComplementPays(claim: set<nat>, mask: set<nat>, size: nat, states: seq<set<nat>>)
    requires size == Pow2(|claim|)
    ensures ClaimPays(claim, Range(size) - mask, states) == Lmsr.Opposite(ClaimPays(claim, mask, states))
  {
    forall i | 0 <= i < |states| ensures Project(claim, states[i]) in Range(size) {
      assert Project(claim, states[i]) < size;
    }
  }

  /** On one snapshot, buying the complement of a claim costs a complete set less what selling the claim returns. */
  lemma ComplementPrice(m: ExpLn, s: Snapshot, buy: Deal, bought: Snapshot, sell: Deal, sold: Snapshot)
    requires Lawful(m) && Dealt(m, s, buy, bought) && Dealt(m, s, sell, sold)
    requires buy.scope == sell.scope && buy.mask == Range(Pow2(|sell.scope|)) - sell.mask
             && sell.quantity == -buy.quantity
    ensures buy.paid == buy.quantity + sell.paid
  {
    if buy.quantity != 0.0 {
      var pays := ClaimPays(Elements(sell.scope), sell.mask, States(s.events, {}));
      IncreasingCount(sell.scope);
      ComplementPays(Elements(sell.scope), sell.mask, Pow2(|sell.scope|), States(s.events, {}));
      TradeIsPricedMove(m, s, buy.scope, buy.mask, buy.quantity, buy.paid, bought);
      TradeIsPricedMove(m, s, sell.scope, sell.mask, sell.quantity, sell.paid, sold);
      TradeRuns.ComplementPrice(m, s.b, Vector(s), TradeRuns.Move(Lmsr.Opposite(pays), buy.quantity, buy.paid),
                                TradeRuns.Move(pays, sell.quantity, sell.paid));
    }
  }
}
