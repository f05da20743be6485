/** Average-cost realised profit over a trade history (portfolio-performance.ts, `realizedPerformance`). */
module Performance {
  import opened SetSums

  /** A position is one claim of one owner in one pool, names compared without case. */
  datatype Position = Position(pool: string, owner: string, scope: int, mask: nat)

  datatype Action = Buy | Sell | Payout

  datatype Trade = Trade(position: Position, action: Action, quantity: nat, cash: nat, block: nat, index: nat)

  datatype Lot = Lot(quantity: nat, cost: nat)

  datatype Point = Point(trade: Trade, value: int)

  type Inventory = map<Position, Lot>

  datatype Performance = Performance(realized: int, points: seq<Point>, valid: bool, inventory: Inventory)

  // The order of the history.

  predicate Before(a: Trade, b: Trade) {
    a.block < b.block || (a.block == b.block && a.index < b.index)
  }

  ghost predicate Ordered(trades: seq<Trade>) {
    forall j, k :: 0 <= j < k < |trades| ==> !Before(trades[k], trades[j])
  }

  /** A trade goes after every trade that it is not before. */
  function Insert(trades: seq<Trade>, t: Trade): (r: seq<Trade>)
    ensures |r| == |trades| + 1
  {
    if trades == [] then [t]
    else
      var n := |trades| - 1;
      if Before(t, trades[n]) then Insert(trades[..n], t) + [trades[n]] else trades + [t]
  }

  /** The stable sort by block and index. */
  function Sorted(trades: seq<Trade>): (r: seq<Trade>)
    ensures |r| == |trades|
  {
    if trades == [] then []
    else
      var n := |trades| - 1;
      Insert(Sorted(trades[..n]), trades[n])
  }

  lemma {:induction false} InsertKeeps(trades: seq<Trade>, t: Trade)
    requires Ordered(trades)
    ensures Ordered(Insert(trades, t))
    ensures multiset(Insert(trades, t)) == multiset(trades) + multiset{t}
  {
    if trades != [] {
      var n := |trades| - 1;
      var last := trades[n];
      assert trades == trades[..n] + [last];
      if Before(t, last) {
        InsertKeeps(trades[..n], t);
        InsertBelow(trades[..n], t, last);
      }
    }
  }

  lemma {:induction false} InsertBelow(trades: seq<Trade>, t: Trade, last: Trade)
    requires !Before(last, t) && forall k :: 0 <= k < |trades| ==> !Before(last, trades[k])
    ensures forall k :: 0 <= k < |Insert(trades, t)| ==> !Before(last, Insert(trades, t)[k])
  {
    if trades != [] {
      InsertBelow(trades[..|trades| - 1], t, last);
    }
  }

  lemma {:induction false} SortedIs(trades: seq<Trade>)
    ensures Ordered(Sorted(trades)) && multiset(Sorted(trades)) == multiset(trades)
  {
    if trades != [] {
      var n := |trades| - 1;
      SortedIs(trades[..n]);
      InsertKeeps(Sorted(trades[..n]), trades[n]);
      assert trades == trades[..n] + [trades[n]];
    }
  }

  /** Earlier blocks come first, and within a block lower indexes. */
  lemma SortedAscends(trades: seq<Trade>, j: nat, k: nat)
    requires j < k < |trades|
    ensures var s := Sorted(trades);
            s[j].block < s[k].block || (s[j].block == s[k].block && s[j].index <= s[k].index)
  {
    SortedIs(trades);
    assert !Before(Sorted(trades)[k], Sorted(trades)[j]);
  }

  /** The trades recorded at one place of the chain, in their order. */
  function At(trades: seq<Trade>, block: nat, index: nat): seq<Trade> {
    if trades == [] then []
    else
      var n := |trades| - 1;
      At(trades[..n], block, index)
      + if trades[n].block == block && trades[n].index == index then [trades[n]] else []
  }

  lemma AtSnoc(trades: seq<Trade>, t: Trade, block: nat, index: nat)
    ensures At(trades + [t], block, index)
         == At(trades, block, index) + if t.block == block && t.index == index then [t] else []
  {
    assert (trades + [t])[..|trades|] == trades;
  }

  lemma {:induction false} AtInsert(trades: seq<Trade>, t: Trade, block: nat, index: nat)
    ensures At(Insert(trades, t), block, index) == At(trades + [t], block, index)
  {
    AtSnoc(trades, t, block, index);
    if trades != [] {
      var n := |trades| - 1;
      if Before(t, trades[n]) {
        AtInsert(trades[..n], t, block, index);
        AtSnoc(trades[..n], t, block, index);
        AtSnoc(Insert(trades[..n], t), trades[n], block, index);
      }
    }
  }

  /** The sort is stable: trades of one place keep their order. */
  lemma {:induction false} SortedIsStable(trades: seq<Trade>, block: nat, index: nat)
    ensures At(Sorted(trades), block, index) == At(trades, block, index)
  {
    if trades != [] {
      var n := |trades| - 1;
      SortedIsStable(trades[..n], block, index);
      AtInsert(Sorted(trades[..n]), trades[n], block, index);
      AtSnoc(Sorted(trades[..n]), trades[n], block, index);
    }
  }

  /** The trades of one position, in their order. */
  function Of(trades: seq<Trade>, p: Position): (r: seq<Trade>)
  {
    if trades == [] then []
    else
      var n := |trades| - 1;
      if trades[n].position == p then Of(trades[..n], p) + [trades[n]] else Of(trades[..n], p)
  }

  lemma {:induction false} OfAll(trades: seq<Trade>, p: Position)
    ensures forall k :: 0 <= k < |Of(trades, p)| ==> Of(trades, p)[k] in trades && Of(trades, p)[k].position == p
  {
    if trades != [] {
      OfAll(trades[..|trades| - 1], p);
      assert trades == trades[..|trades| - 1] + [trades[|trades| - 1]];
    }
  }

  lemma OfSnoc(trades: seq<Trade>, t: Trade, p: Position)
    ensures Of(trades + [t], p) == if t.position == p then Of(trades, p) + [t] else Of(trades, p)
  {
    assert (trades + [t])[..|trades|] == trades;
  }

  lemma InsertLast(trades: seq<Trade>, t: Trade)
    requires forall k :: 0 <= k < |trades| ==> !Before(t, trades[k])
    ensures Insert(trades, t) == trades + [t]
  {
  }

  lemma InsertSnoc(trades: seq<Trade>, last: Trade, t: Trade)
    requires Before(t, last)
    ensures Insert(trades + [last], t) == Insert(trades, t) + [last]
  {
    assert (trades + [last])[..|trades|] == trades;
  }

  lemma SortedSnoc(trades: seq<Trade>, t: Trade)
    ensures Sorted(trades + [t]) == Insert(Sorted(trades), t)
  {
    assert (trades + [t])[..|trades|] == trades;
  }

  /** Inserting into the history inserts into the position's own trades, or leaves them alone. */
  ghost predicate InsertsAlike(trades: seq<Trade>, t: Trade, p: Position) {
    Of(Insert(trades, t), p) == if t.position == p then Insert(Of(trades, p), t) else Of(trades, p)
  }

  lemma OfInsertBefore(trades: seq<Trade>, rest: seq<Trade>, last: Trade, t: Trade, p: Position)
    requires trades == rest + [last] && Before(t, last) && InsertsAlike(rest, t, p)
    ensures InsertsAlike(trades, t, p)
  {
    InsertSnoc(rest, last, t);
    OfSnoc(Insert(rest, t), last, p);
    OfSnoc(rest, last, p);
    InsertSnoc(Of(rest, p), last, t);
  }

  lemma AfterAll(trades: seq<Trade>, t: Trade, p: Position)
    requires Ordered(trades) && trades != [] && !Before(t, trades[|trades| - 1])
    ensures forall k :: 0 <= k < |Of(trades, p)| ==> !Before(t, Of(trades, p)[k])
  {
    OfAll(trades, p);
    forall k | 0 <= k < |Of(trades, p)| ensures !Before(t, Of(trades, p)[k]) {
      var j :| 0 <= j < |trades| && trades[j] == Of(trades, p)[k];
      assert j < |trades| - 1 ==> !Before(trades[|trades| - 1], trades[j]);
    }
  }

  lemma OfInsertLast(trades: seq<Trade>, t: Trade, p: Position)
    requires Ordered(trades) && trades != [] && !Before(t, trades[|trades| - 1])
    ensures InsertsAlike(trades, t, p)
  {
    OfSnoc(trades, t, p);
    AfterAll(trades, t, p);
    InsertLast(Of(trades, p), t);
  }

  lemma OfInsertOnly(t: Trade, p: Position)
    ensures InsertsAlike([], t, p)
  {
    OfSnoc([], t, p);
    assert [] + [t] == [t];
  }

  lemma {:induction false} OfInsert(trades: seq<Trade>, t: Trade, p: Position)
    requires Ordered(trades)
    ensures InsertsAlike(trades, t, p)
  {
    if trades == [] {
      OfInsertOnly(t, p);
    } else {
      var rest, last := trades[..|trades| - 1], trades[|trades| - 1];
      if Before(t, last) {
        assert trades == rest + [last];
        OfInsert(rest, t, p);
        OfInsertBefore(trades, rest, last, t, p);
      } else {
        OfInsertLast(trades, t, p);
      }
    }
  }

  /** Sorting the whole history sorts every position's own. */
  lemma {:induction false} OfSorted(trades: seq<Trade>, p: Position)
    ensures Of(Sorted(trades), p) == Sorted(Of(trades, p))
  {
    if trades != [] {
      var n := |trades| - 1;
      var rest, t := trades[..n], trades[n];
      assert trades == rest + [t];
      OfSorted(rest, p);
      SortedIs(rest);
      OfInsert(Sorted(rest), t, p);
      OfSnoc(rest, t, p);
      SortedSnoc(Of(rest, p), t);
    }
  }

  // One trade.

  /** The share of the cost that leaves with a quantity, rounded down; all of it with the last unit. */
  function CostOut(held: Lot, quantity: nat): (cost: nat)
    requires quantity <= held.quantity
  {
    if quantity == held.quantity then held.cost else held.cost * quantity / held.quantity
  }

  lemma CostOutBounds(held: Lot, quantity: nat)
    requires quantity <= held.quantity
    ensures CostOut(held, quantity) <= held.cost
    ensures quantity < held.quantity ==>
              CostOut(held, quantity) * held.quantity
                  <= held.cost * quantity < (CostOut(held, quantity) + 1) * held.quantity
  {
    if quantity < held.quantity {
      ShareBelow(held.cost, quantity, held.quantity);
    }
  }

  lemma ShareBelow(c: nat, q: nat, h: nat)
    requires q < h
    ensures c * q / h <= c && c * q / h * h <= c * q < (c * q / h + 1) * h
  {
    var k := c * q / h;
    QuotientBelow(c * q, h);
    assert c * q <= c * h;
    assert k > c ==> k * h >= (c + 1) * h;
  }

  lemma QuotientBelow(a: nat, h: nat)
    requires h > 0
    ensures a / h * h <= a < (a / h + 1) * h
  {
  }

  function LotOf(inventory: Inventory, p: Position): Lot {
    if p in inventory then inventory[p] else Lot(0, 0)
  }

  /** What a trade does to its own position. */
  function NextLot(held: Lot, t: Trade): Lot {
    if t.action == Buy then Lot(held.quantity + t.quantity, held.cost + t.cash)
    else if held.quantity < t.quantity then Lot(0, 0)
    else
      CostOutBounds(held, t.quantity);
      Lot(held.quantity - t.quantity, held.cost - CostOut(held, t.quantity))
  }

  predicate Covered(held: Lot, t: Trade) {
    t.action == Buy || t.quantity <= held.quantity
  }

  /** The profit that a trade realises. */
  function Gain(held: Lot, t: Trade): int {
    if t.action == Buy || held.quantity < t.quantity then 0 else t.cash - CostOut(held, t.quantity)
  }

  function Start(): Performance {
    Performance(0, [], true, map[])
  }

  function Step(r: Performance, t: Trade): Performance {
    var held := LotOf(r.inventory, t.position);
    var realized := r.realized + Gain(held, t);
    Performance(realized,
                if t.action != Buy && Covered(held, t) then r.points + [Point(t, realized)] else r.points,
                r.valid && Covered(held, t),
                r.inventory[t.position := NextLot(held, t)])
  }

  function Run(trades: seq<Trade>): Performance {
    if trades == [] then Start()
    else
      var n := |trades| - 1;
      Step(Run(trades[..n]), trades[n])
  }

  lemma RunSnoc(trades: seq<Trade>, t: Trade)
    ensures Run(trades + [t]) == Step(Run(trades), t)
  {
    assert (trades + [t])[..|trades|] == trades;
  }

  /** One trade on its own position: whether enough is held, what is realised, and what is held afterwards. */
  method Account(held: Lot, trade: Trade) returns (covered: bool, gain: int, next: Lot)
    ensures covered == Covered(held, trade) && gain == Gain(held, trade) && next == NextLot(held, trade)
  {
    if trade.action == Buy {
      return true, 0, Lot(held.quantity + trade.quantity, held.cost + trade.cash);
    }
    if held.quantity < trade.quantity {
      return false, 0, Lot(0, 0);
    }
    CostOutBounds(held, trade.quantity);
    var cost := if trade.quantity == held.quantity then held.cost else held.cost * trade.quantity / held.quantity;
    return true, trade.cash - cost, Lot(held.quantity - trade.quantity, held.cost - cost);
  }

  method RealizedPerformance(trades: seq<Trade>) returns (r: Performance)
    ensures r == Run(Sorted(trades))
  {
    var sorted := Sorted(trades);
    var inventory: Inventory := map[];
    var realized, valid, points := 0, true, [];
    for k := 0 to |sorted|
      invariant Performance(realized, points, valid, inventory) == Run(sorted[..k])
    {
      ghost var before := Performance(realized, points, valid, inventory);
      var trade := sorted[k];
      var held := if trade.position in inventory then inventory[trade.position] else Lot(0, 0);
      var covered, gain, next := Account(held, trade);
      realized, valid := realized + gain, valid && covered;
      if covered && trade.action != Buy {
        points := points + [Point(trade, realized)];
      }
      inventory := inventory[trade.position := next];
      assert Performance(realized, points, valid, inventory) == Step(before, trade);
      assert sorted[..k + 1] == sorted[..k] + [trade];
      RunSnoc(sorted[..k], trade);
    }
    assert sorted[..|sorted|] == sorted;
    r := Performance(realized, points, valid, inventory);
  }

  // What validity means, and what is reported.

  /** The quantity of a position that was bought. */
  function Bought(trades: seq<Trade>, p: Position): nat {
    if trades == [] then 0
    else
      var t := trades[|trades| - 1];
      Bought(trades[..|trades| - 1], p) + if t.position == p && t.action == Buy then t.quantity else 0
  }

  /** The quantity of a position that was sold or paid out. */
  function Sold(trades: seq<Trade>, p: Position): nat {
    if trades == [] then 0
    else
      var t := trades[|trades| - 1];
      Sold(trades[..|trades| - 1], p) + if t.position == p && t.action != Buy then t.quantity else 0
  }

  /** In a valid history what is held is what was bought and not sold. */
  lemma {:induction false} HeldIsBought(trades: seq<Trade>, p: Position)
    requires Run(trades).valid
    ensures LotOf(Run(trades).inventory, p).quantity == Bought(trades, p) - Sold(trades, p)
  {
    if trades != [] {
      HeldIsBought(trades[..|trades| - 1], p);
    }
  }

  ghost predicate NotOversold(trades: seq<Trade>) {
    forall p :: Sold(trades, p) <= Bought(trades, p)
  }

  /** At no moment more of a position has been sold than bought. */
  ghost predicate NeverOversold(trades: seq<Trade>) {
    forall k :: 0 <= k <= |trades| ==> NotOversold(trades[..k])
  }

  lemma OversoldSnoc(trades: seq<Trade>, t: Trade)
    ensures NeverOversold(trades + [t]) <==>
              NeverOversold(trades) && NotOversold(trades + [t])
  {
    var all := trades + [t];
    assert all[..|all|] == all;
    assert forall k :: 0 <= k <= |trades| ==> all[..k] == trades[..k];
    if NeverOversold(all) {
      assert NotOversold(all[..|all|]);
      forall k | 0 <= k <= |trades| ensures NotOversold(trades[..k]) {
        assert NotOversold(all[..k]);
      }
    }
  }

  lemma TradedSnoc(rest: seq<Trade>, t: Trade, p: Position)
    ensures Bought(rest + [t], p) == Bought(rest, p) + if t.position == p && t.action == Buy then t.quantity else 0
    ensures Sold(rest + [t], p) == Sold(rest, p) + if t.position == p && t.action != Buy then t.quantity else 0
  {
    assert (rest + [t])[..|rest|] == rest;
  }

  /** The next trade oversells when its own position does. */
  lemma LastDecides(rest: seq<Trade>, t: Trade)
    requires Run(rest).valid
    ensures Covered(LotOf(Run(rest).inventory, t.position), t) <==> NotOversold(rest + [t])
  {
    HeldIsBought(rest, t.position);
    TradedSnoc(rest, t, t.position);
    if Covered(LotOf(Run(rest).inventory, t.position), t) {
      forall p ensures Sold(rest + [t], p) <= Bought(rest + [t], p) {
        HeldIsBought(rest, p);
        TradedSnoc(rest, t, p);
      }
    } else {
      assert Sold(rest + [t], t.position) > Bought(rest + [t], t.position);
    }
  }

  /** A history is valid exactly when no sale or payout ever exceeds what was bought before it. */
  lemma {:induction false} ValidMeans(trades: seq<Trade>)
    ensures Run(trades).valid <==> NeverOversold(trades)
  {
    if trades != [] {
      var rest, t := trades[..|trades| - 1], trades[|trades| - 1];
      assert trades == rest + [t];
      ValidMeans(rest);
      OversoldSnoc(rest, t);
      if Run(rest).valid {
        LastDecides(rest, t);
      }
    }
  }

  /** How many trades close something. */
  function Exits(trades: seq<Trade>): nat {
    if trades == [] then 0
    else Exits(trades[..|trades| - 1]) + if trades[|trades| - 1].action == Buy then 0 else 1
  }

  /** Trade k is reported with the profit realised up to and including it. */
  ghost predicate Reported(trades: seq<Trade>, k: nat)
    requires k < |trades|
  {
    var j := Exits(trades[..k]);
    j < |Run(trades).points| && Run(trades).points[j] == Point(trades[k], Run(trades[..k + 1]).realized)
  }

  /** In a valid history every sale and payout, and nothing else, is reported, in order. */
  lemma {:induction false} EveryExitIsReported(trades: seq<Trade>)
    requires Run(trades).valid
    ensures |Run(trades).points| == Exits(trades)
    ensures forall k :: 0 <= k < |trades| && trades[k].action != Buy ==> Reported(trades, k)
  {
    if trades != [] {
      var n := |trades| - 1;
      EveryExitIsReported(trades[..n]);
      forall k | 0 <= k < |trades| && trades[k].action != Buy ensures Reported(trades, k) {
        if k < n {
          assert Reported(trades[..n], k);
          assert trades[..n][..k] == trades[..k] && trades[..n][..k + 1] == trades[..k + 1];
        } else {
          assert trades[..k + 1] == trades;
        }
      }
    }
  }

  /** A sale of more than is held realises nothing, is not reported, and leaves the position empty and the history
      invalid for good. */
  lemma OversaleEmpties(trades: seq<Trade>, t: Trade)
    requires t.action != Buy && t.quantity > LotOf(Run(trades).inventory, t.position).quantity
    ensures Run(trades + [t])
         == Performance(Run(trades).realized, Run(trades).points, false,
                        Run(trades).inventory[t.position := Lot(0, 0)])
  {
    RunSnoc(trades, t);
  }

  // No residue.

  /** Only trades of a positive quantity are recorded. */
  ghost predicate Recorded(trades: seq<Trade>) {
    forall k :: 0 <= k < |trades| ==> trades[k].quantity > 0
  }

  lemma NextLotEmpty(held: Lot, t: Trade)
    requires (held.quantity == 0 ==> held.cost == 0) && t.quantity > 0
    ensures NextLot(held, t).quantity == 0 ==> NextLot(held, t).cost == 0
  {
  }

  /** A position without quantity has no cost: no division leaves a remainder behind. */
  lemma {:induction false} NothingHeldCostsNothing(trades: seq<Trade>, p: Position)
    requires Recorded(trades)
    ensures LotOf(Run(trades).inventory, p).quantity == 0 ==> LotOf(Run(trades).inventory, p).cost == 0
  {
    if trades != [] {
      var n := |trades| - 1;
      NothingHeldCostsNothing(trades[..n], p);
      NextLotEmpty(LotOf(Run(trades[..n]).inventory, p), trades[n]);
    }
  }

  // Separability.

  /** The position's own history leads to its lot, whatever else was traded in between. */
  lemma {:induction false} LotIsOwn(trades: seq<Trade>, p: Position)
    ensures LotOf(Run(trades).inventory, p) == LotOf(Run(Of(trades, p)).inventory, p)
  {
    if trades != [] {
      var n := |trades| - 1;
      var rest, t := trades[..n], trades[n];
      LotIsOwn(rest, p);
      if t.position == p {
        RunSnoc(Of(rest, p), t);
      }
    }
  }

  ghost predicate Lists(keys: set<Position>, trades: seq<Trade>) {
    forall k :: 0 <= k < |trades| ==> trades[k].position in keys
  }

  /** What a position's own trades come to. */
  ghost function Own(trades: seq<Trade>, p: Position): Performance {
    Run(Of(trades, p))
  }

  /** A trade adds its gain to its own position and touches no other. */
  lemma OwnStep(trades: seq<Trade>, t: Trade, p: Position)
    ensures p != t.position ==> Own(trades + [t], p) == Own(trades, p)
    ensures p == t.position ==>
      var held := LotOf(Run(trades).inventory, p);
      && Own(trades + [t], p).realized == Own(trades, p).realized + Gain(held, t)
      && Own(trades + [t], p).valid == (Own(trades, p).valid && Covered(held, t))
  {
    OfSnoc(trades, t, p);
    if p == t.position {
      RunSnoc(Of(trades, p), t);
      LotIsOwn(trades, p);
    }
  }

  /** f gives the realised profit of every position's own trades. */
  ghost predicate IsOwn(f: Position -> int, trades: seq<Trade>) {
    forall p :: f(p) == Own(trades, p).realized
  }

  lemma OwnAfter(trades: seq<Trade>, t: Trade, g: Position -> int, gain: int) returns (f: Position -> int)
    requires IsOwn(g, trades) && gain == Gain(LotOf(Run(trades).inventory, t.position), t)
    ensures IsOwn(f, trades + [t]) && f(t.position) == g(t.position) + gain
    ensures forall p :: p != t.position ==> f(p) == g(p)
  {
    f := p => if p == t.position then g(p) + gain else g(p);
    forall p ensures f(p) == Own(trades + [t], p).realized {
      OwnStep(trades, t, p);
    }
  }

  /** The realised profit is the sum over the positions. */
  ghost predicate IsSum(trades: seq<Trade>, keys: set<Position>, f: Position -> int) {
    IsOwn(f, trades) && Run(trades).realized == SumOver(keys, f)
  }

  lemma RealizedStep(trades: seq<Trade>, t: Trade, keys: set<Position>, g: Position -> int) returns (f: Position -> int)
    requires t.position in keys && IsSum(trades, keys, g)
    ensures IsSum(trades + [t], keys, f)
  {
    var gain := Gain(LotOf(Run(trades).inventory, t.position), t);
    f := OwnAfter(trades, t, g, gain);
    SumOverBump(keys, f, g, t.position, gain);
    RunSnoc(trades, t);
  }

  /** The total is the sum over the positions, each computed from its own trades alone. */
  lemma {:induction false} RealizedIsSum(trades: seq<Trade>, keys: set<Position>) returns (f: Position -> int)
    requires Lists(keys, trades)
    ensures IsSum(trades, keys, f)
  {
    if trades == [] {
      f := p => 0;
      SumOverZero(keys, f);
    } else {
      var rest, t := trades[..|trades| - 1], trades[|trades| - 1];
      var g := RealizedIsSum(rest, keys);
      f := RealizedStep(rest, t, keys, g);
      assert rest + [t] == trades;
    }
  }

  ghost predicate AllValid(trades: seq<Trade>) {
    forall p :: Own(trades, p).valid
  }

  lemma ValidStep(trades: seq<Trade>, t: Trade)
    ensures AllValid(trades + [t]) <==> AllValid(trades) && Covered(LotOf(Run(trades).inventory, t.position), t)
  {
    OwnStep(trades, t, t.position);
    if AllValid(trades + [t]) {
      forall p ensures Own(trades, p).valid {
        OwnStep(trades, t, p);
        assert Own(trades + [t], p).valid;
      }
      assert Own(trades + [t], t.position).valid;
    } else {
      var p :| !Own(trades + [t], p).valid;
      OwnStep(trades, t, p);
      assert AllValid(trades) ==> Own(trades, p).valid;
    }
  }

  /** A history is valid when every position's own is. */
  lemma {:induction false} ValidIsAll(trades: seq<Trade>)
    ensures Run(trades).valid <==> AllValid(trades)
  {
    if trades == [] {
      forall p ensures Own(trades, p).valid {
        assert Of(trades, p) == [];
      }
    } else {
      var n := |trades| - 1;
      var rest, t := trades[..n], trades[n];
      ValidIsAll(rest);
      assert trades == rest + [t];
      ValidStep(rest, t);
      RunSnoc(rest, t);
    }
  }

  /** Separability of the whole computation: the realised profit of a history is the sum of the realised profits
      of its positions, each sorted and computed on its own, however they were interleaved. */
  lemma PositionsAreSeparate(trades: seq<Trade>, keys: set<Position>, f: Position -> int)
    requires Lists(keys, trades) && forall p :: f(p) == Run(Sorted(Of(trades, p))).realized
    ensures Run(Sorted(trades)).realized == SumOver(keys, f)
  {
    SortedLists(trades, keys);
    var g := RealizedIsSum(Sorted(trades), keys);
    forall p ensures f(p) == g(p) {
      OfSorted(trades, p);
      assert g(p) == Own(Sorted(trades), p).realized;
    }
    SumOverSame(keys, f, g);
  }

  lemma SortedLists(trades: seq<Trade>, keys: set<Position>)
    requires Lists(keys, trades)
    ensures Lists(keys, Sorted(trades))
  {
    SortedIs(trades);
    forall k | 0 <= k < |Sorted(trades)| ensures Sorted(trades)[k].position in keys {
      assert Sorted(trades)[k] in multiset(Sorted(trades));
      assert Sorted(trades)[k] in multiset(trades);
      var j :| 0 <= j < |trades| && trades[j] == Sorted(trades)[k];
    }
  }

  ghost predicate ValidAlone(trades: seq<Trade>, p: Position) {
    Run(Sorted(Of(trades, p))).valid
  }

  lemma AloneIsOwn(trades: seq<Trade>, p: Position)
    ensures ValidAlone(trades, p) == Own(Sorted(trades), p).valid
  {
    OfSorted(trades, p);
  }

  /** And it is valid exactly when each of them is. */
  lemma ValidityIsSeparate(trades: seq<Trade>)
    ensures Run(Sorted(trades)).valid <==> forall p :: ValidAlone(trades, p)
  {
    var sorted := Sorted(trades);
    ValidIsAll(sorted);
    if AllValid(sorted) {
      forall p ensures ValidAlone(trades, p) {
        AloneIsOwn(trades, p);
      }
    } else {
      var p :| !Own(sorted, p).valid;
      AloneIsOwn(trades, p);
    }
  }

  // Conservation.

  /** Cash that sales and payouts brought in. */
  function CashOut(trades: seq<Trade>): nat {
    if trades == [] then 0
    else
      var t := trades[|trades| - 1];
      CashOut(trades[..|trades| - 1]) + (if t.action == Buy then 0 else t.cash)
  }

  /** Cash that purchases cost. */
  function CashIn(trades: seq<Trade>): nat {
    if trades == [] then 0
    else
      var t := trades[|trades| - 1];
      CashIn(trades[..|trades| - 1]) + (if t.action == Buy then t.cash else 0)
  }

  ghost function CostOf(inventory: Inventory): Position -> int {
    p => LotOf(inventory, p).cost
  }

  /** In a valid history the realised profit is what sales and payouts brought in, less what purchases cost,
      plus the cost of what is still held. */
  lemma {:induction false} ProfitIsConserved(trades: seq<Trade>, keys: set<Position>)
    requires Lists(keys, trades) && Run(trades).valid
    ensures Run(trades).realized == CashOut(trades) - CashIn(trades) + SumOver(keys, CostOf(Run(trades).inventory))
  {
    if trades == [] {
      SumOverZero(keys, CostOf(Run(trades).inventory));
    } else {
      var n := |trades| - 1;
      var rest, t := trades[..n], trades[n];
      assert trades == rest + [t];
      ProfitIsConserved(rest, keys);
      var held := LotOf(Run(rest).inventory, t.position);
      SumOverBump(keys, CostOf(Run(trades).inventory), CostOf(Run(rest).inventory), t.position,
                  NextLot(held, t).cost - held.cost);
    }
  }

  /** Once everything bought has been sold or paid out, profit is exactly cash in hand. */
  lemma ClosedProfitIsCash(trades: seq<Trade>, keys: set<Position>)
    requires Lists(keys, trades) && Run(trades).valid && Recorded(trades)
    requires forall p :: p in keys ==> LotOf(Run(trades).inventory, p).quantity == 0
    ensures Run(trades).realized == CashOut(trades) - CashIn(trades)
  {
    ProfitIsConserved(trades, keys);
    forall p | p in keys ensures CostOf(Run(trades).inventory)(p) == 0 {
      NothingHeldCostsNothing(trades, p);
    }
    SumOverZero(keys, CostOf(Run(trades).inventory));
  }
}
