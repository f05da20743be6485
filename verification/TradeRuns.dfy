/** What holds of every run of trades, on the liability vectors that both market makers keep. */
module TradeRuns {
  import opened Exponential
  import opened RealFacts
  import opened Lmsr

  /** One trade: where the claim pays, its signed quantity and the collateral the pricing rule charges. */
  datatype Move = Move(pays: seq<bool>, quantity: real, paid: real)

  /** The trade is priced by the rule of both `simulate_trade` functions. */
  ghost predicate Priced(m: ExpLn, b: real, q: seq<real>, move: Move)
    requires b > 0.0
  {
    && |move.pays| == |q|
    && Partition(m, b, q) > 0.0
    && move.paid == Price(m, b, Share(Paying(m, b, q, move.pays), Partition(m, b, q)), move.quantity)
  }

  ghost predicate IsRun(m: ExpLn, b: real, q: seq<real>, moves: seq<Move>)
    requires b > 0.0
    decreases |moves|
  {
    moves != [] ==>
      && Priced(m, b, q, moves[0])
      && IsRun(m, b, Moved(q, moves[0].pays, moves[0].quantity), moves[1..])
  }

  /** The liabilities when the run ends. */
  ghost function Final(q: seq<real>, moves: seq<Move>): (r: seq<real>)
    decreases |moves|
  {
    if moves == [] then q
    else if |moves[0].pays| != |q| then q
    else Final(Moved(q, moves[0].pays, moves[0].quantity), moves[1..])
  }

  function Paid(moves: seq<Move>): real {
    if moves == [] then 0.0 else moves[0].paid + Paid(moves[1..])
  }

  /** What traders paid over a whole run is the difference of the costs at its ends, whatever the path. */
  lemma {:induction false} RunPaysCostDifference(m: ExpLn, b: real, q: seq<real>, moves: seq<Move>)
    requires Lawful(m) && b > 0.0 && q != [] && IsRun(m, b, q, moves)
    ensures |Final(q, moves)| == |q|
    ensures Paid(moves) == Cost(m, b, Final(q, moves)) - Cost(m, b, q)
    decreases |moves|
  {
    if moves != [] {
      var move := moves[0];
      PriceIsCostDifference(m, b, q, move.pays, move.quantity, Partition(m, b, q), Paying(m, b, q, move.pays));
      RunPaysCostDifference(m, b, Moved(q, move.pays, move.quantity), moves[1..]);
    }
  }

  /** Two runs that end with the same liabilities cost the same: prices do not depend on the path,
      and a run that returns to its start nets nothing. */
  lemma PathIndependent(m: ExpLn, b: real, q: seq<real>, one: seq<Move>, other: seq<Move>)
    requires Lawful(m) && b > 0.0 && q != [] && IsRun(m, b, q, one) && IsRun(m, b, q, other)
    ensures Final(q, one) == Final(q, other) ==> Paid(one) == Paid(other)
    ensures Final(q, one) == q ==> Paid(one) == 0.0
  {
    RunPaysCostDifference(m, b, q, one);
    RunPaysCostDifference(m, b, q, other);
  }

  /** Buying and then selling the same quantity of a claim nets exactly nothing. */
  lemma BuyThenSell(m: ExpLn, b: real, q: seq<real>, buy: Move, sell: Move)
    requires Lawful(m) && b > 0.0 && q != [] && IsRun(m, b, q, [buy, sell])
    requires sell.pays == buy.pays && sell.quantity == -buy.quantity
    ensures buy.paid + sell.paid == 0.0
  {
    var moves := [buy, sell];
    assert moves[1..] == [sell] && [sell][1..] == [];
    var moved := Moved(q, buy.pays, buy.quantity);
    assert IsRun(m, b, moved, [sell]);
    assert Moved(moved, buy.pays, -buy.quantity) == q;
    assert Final(moved, [sell]) == Final(q, []);
    RunPaysCostDifference(m, b, q, moves);
    assert Paid(moves) == buy.paid + Paid([sell]) && Paid([sell]) == sell.paid + Paid([]);
  }

  /** A buy of a claim that pays in some state and not in another costs more than nothing and less than its
      quantity; a sale returns more than nothing and less than its quantity. */
  lemma PaidStrictlyBetween(m: ExpLn, b: real, q: seq<real>, move: Move)
    requires Lawful(m) && b > 0.0 && Priced(m, b, q, move) && true in move.pays && false in move.pays
    ensures move.quantity > 0.0 ==> 0.0 < move.paid < move.quantity
    ensures move.quantity < 0.0 ==> move.quantity < move.paid < 0.0
  {
    PayingBounds(m, b, q, move.pays);
    var weight, z := Paying(m, b, q, move.pays), Partition(m, b, q);
    ProperShare(weight, z);
    PriceStrictlyBetween(m, b, Share(weight, z), move.quantity);
  }

  lemma ProperShare(weight: real, z: real)
    requires 0.0 < weight < z
    ensures 0.0 < Share(weight, z) < 1.0
  {
    OrderedQuotient(0.0, weight, z);
    OrderedQuotient(weight, z, z);
    Cancel(z, z);
    assert z / z == 1.0;
  }

  /** Buying a complement costs a complete set less what a sale of the claim itself returns. */
  lemma ComplementPrice(m: ExpLn, b: real, q: seq<real>, buy: Move, sell: Move)
    requires Lawful(m) && b > 0.0 && q != [] && Priced(m, b, q, buy) && Priced(m, b, q, sell)
    requires buy.pays == Opposite(sell.pays) && sell.quantity == -buy.quantity
    ensures buy.paid == buy.quantity + sell.paid
  {
    PriceIsCostDifference(m, b, q, buy.pays, buy.quantity, Partition(m, b, q), Paying(m, b, q, buy.pays));
    PriceIsCostDifference(m, b, q, sell.pays, sell.quantity, Partition(m, b, q), Paying(m, b, q, sell.pays));
    OppositeIsSetLessClaim(m, b, q, sell.pays, buy.quantity);
  }
}
