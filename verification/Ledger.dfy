/** The integer ledger with owners (accounting.rs, `ReferenceLedger`). */
module Ledger {
  import opened Wrappers
  import opened Scopes

  /** A claim pays one unit per quantity in the states of its mask. */
  datatype Payoff = Payoff(events: nat, mask: set<nat>)

  datatype Key = Key(owner: nat, mask: set<nat>)

  datatype Side = Buy | Sell

  datatype AccountingError =
    | UnsupportedEventCount
    | DifferentStateSpaces
    | ConstantClaim
    | ZeroQuantity
    | InsufficientHoldings
    | InsufficientCollateral
    | UncoveredLiability
    | ArithmeticOverflow
    | InconsistentLiability

  type Holdings = map<Key, nat>

  const U128: nat := 0x1_0000_0000_0000_0000_0000_0000_0000_0000

  predicate IsPayoff(claim: Payoff) {
    1 <= claim.events <= 3 && claim.mask <= Range(Pow2(claim.events))
  }

  /** What one entry pays in a state. */
  function Pays(key: Key, quantity: nat, state: nat): nat {
    if state in key.mask then quantity else 0
  }

  /** What all owners' claims together pay in a state. */
  ghost function Outstanding(h: Holdings, state: nat): nat
    decreases |h|
  {
    if h == map[] then 0
    else
      var k :| k in h;
      Pays(k, h[k], state) + Outstanding(h - {k}, state)
  }

  lemma {:induction false} OutstandingPick(h: Holdings, k: Key, state: nat)
    requires k in h
    ensures Outstanding(h, state) == Pays(k, h[k], state) + Outstanding(h - {k}, state)
    decreases |h|
  {
    var j :| j in h && Outstanding(h, state) == Pays(j, h[j], state) + Outstanding(h - {j}, state);
    if j != k {
      OutstandingPick(h - {j}, k, state);
      OutstandingPick(h - {k}, j, state);
      assert h - {j} - {k} == h - {k} - {j};
    }
  }

  /** The holdings after an entry becomes `quantity`; an empty entry is removed. */
  function Put(h: Holdings, k: Key, quantity: nat): Holdings {
    if quantity == 0 then h - {k} else h[k := quantity]
  }

  function Held(h: Holdings, k: Key): nat {
    if k in h then h[k] else 0
  }

  /** An entry that is written is held, whether it is kept or removed; no other changes. */
  lemma HeldPut(h: Holdings, k: Key, quantity: nat, j: Key)
    ensures Held(Put(h, k, quantity), j) == if j == k then quantity else Held(h, j)
  {
  }

  lemma OutstandingHeld(h: Holdings, k: Key, state: nat)
    ensures Outstanding(h, state) == Pays(k, Held(h, k), state) + Outstanding(h - {k}, state)
  {
    if k in h {
      OutstandingPick(h, k, state);
    } else {
      assert h - {k} == h;
    }
  }

  lemma OutstandingPut(h: Holdings, k: Key, quantity: nat, state: nat)
    ensures Outstanding(Put(h, k, quantity), state) + Pays(k, Held(h, k), state)
         == Outstanding(h, state) + Pays(k, quantity, state)
  {
    OutstandingHeld(h, k, state);
    OutstandingHeld(Put(h, k, quantity), k, state);
    assert Put(h, k, quantity) - {k} == h - {k};
  }

  function Largest(liabilities: seq<nat>): nat {
    if liabilities == [] then 0
    else
      var rest := Largest(liabilities[1..]);
      if liabilities[0] > rest then liabilities[0] else rest
  }

  lemma {:induction false} LargestIs(liabilities: seq<nat>, bound: nat)
    ensures Largest(liabilities) <= bound <==> forall k :: 0 <= k < |liabilities| ==> liabilities[k] <= bound
  {
    if liabilities != [] {
      LargestIs(liabilities[1..], bound);
      assert liabilities == [liabilities[0]] + liabilities[1..];
    }
  }

  /** Liabilities after a trade. */
  function Moved(liabilities: seq<nat>, mask: set<nat>, quantity: nat, side: Side): (r: seq<int>)
    ensures |r| == |liabilities|
  {
    seq(|liabilities|, k requires 0 <= k < |liabilities| =>
      if k !in mask then liabilities[k] else if side.Buy? then liabilities[k] + quantity else liabilities[k] - quantity)
  }

  ghost predicate Overflows(liabilities: seq<nat>, mask: set<nat>, quantity: nat) {
    exists state :: 0 <= state < |liabilities| && state in mask && liabilities[state] + quantity >= U128
  }

  /** The loop over the states. `InconsistentLiability` is returned only if a liability is smaller than the
      quantity sold, which no valid ledger with enough holdings has. */
  method MoveLiabilities(liabilities: seq<nat>, mask: set<nat>, quantity: nat, side: Side)
    returns (r: Result<seq<nat>, AccountingError>)
    requires side == Sell ==> forall state :: 0 <= state < |liabilities| && state in mask ==>
             quantity <= liabilities[state]
    ensures r.Success? ==> r.value == Moved(liabilities, mask, quantity, side)
    ensures r.Failure? <==> side == Buy && Overflows(liabilities, mask, quantity)
    ensures r.Failure? ==> r.error == ArithmeticOverflow
  {
    var next := liabilities;
    for state := 0 to |next|
      invariant |next| == |liabilities|
      invariant forall k :: state <= k < |next| ==> next[k] == liabilities[k]
      invariant forall k :: 0 <= k < state ==> next[k] == Moved(liabilities, mask, quantity, side)[k]
      invariant side == Buy ==> forall k :: 0 <= k < state && k in mask ==> liabilities[k] + quantity < U128
    {
      if state in mask {
        match side {
          case Buy =>
            if next[state] + quantity >= U128 {
              return Failure(ArithmeticOverflow);
            }
            next := next[state := next[state] + quantity];
          case Sell =>
            if next[state] < quantity {
              return Failure(InconsistentLiability);
            }
            next := next[state := next[state] - quantity];
        }
      }
    }
    assert next == Moved(liabilities, mask, quantity, side);
    r := Success(next);
  }

  /** The owner's holdings, the liabilities and the collateral that a trade leads to. */
  datatype Plan = Plan(owned: nat, liabilities: seq<nat>, collateral: nat)

  class ReferenceLedger {
    const events: nat
    var collateral: nat
    var liabilities: seq<nat>
    var holdings: Holdings
    ghost var subsidy: nat
    ghost var received: nat
    ghost var paidOut: nat

    /** Every liability is backed by holdings and covered by collateral, and no collateral is unaccounted for. */
    ghost predicate Valid()
      reads this
    {
      && 1 <= events <= 3
      && |liabilities| == Pow2(events)
      && (forall k :: k in holdings ==> holdings[k] > 0 && k.mask <= Range(Pow2(events)) && k.mask != {}
                                        && k.mask != Range(Pow2(events)))
      && (forall state :: 0 <= state < |liabilities| ==> liabilities[state] == Outstanding(holdings, state))
      && (forall state :: 0 <= state < |liabilities| ==> liabilities[state] <= collateral)
      && collateral < U128
      && collateral + paidOut == subsidy + received
    }

    /** The supplied subsidy and nothing owed; the caller supports one to three events. */
    constructor (events: nat, subsidy: nat)
      requires 1 <= events <= 3 && subsidy < U128
      ensures Valid() && this.events == events && holdings == map[] && collateral == subsidy
      ensures this.subsidy == subsidy && received == 0 && paidOut == 0
    {
      this.events := events;
      collateral := subsidy;
      liabilities := seq(Pow2(events), k => 0);
      holdings := map[];
      this.subsidy := subsidy;
      received := 0;
      paidOut := 0;
    }

    static method New(events: nat, subsidy: nat) returns (r: Result<ReferenceLedger, AccountingError>)
      requires subsidy < U128
      ensures r.Failure? <==> !(1 <= events <= 3)
      ensures r.Failure? ==> r.error == UnsupportedEventCount
      ensures r.Success? ==> fresh(r.value) && r.value.Valid()
      ensures r.Success? ==> r.value.events == events && r.value.collateral == subsidy
    {
      if !(1 <= events <= 3) {
        return Failure(UnsupportedEventCount);
      }
      var ledger := new ReferenceLedger(events, subsidy);
      r := Success(ledger);
    }

    function RequiredCollateral(): nat
      reads this
    {
      Largest(liabilities)
    }

    /** The subtraction never underflows. */
    function Headroom(): (surplus: nat)
      requires Valid()
      reads this
      ensures surplus + RequiredCollateral() == collateral
    {
      LargestIs(liabilities, collateral);
      collateral - RequiredCollateral()
    }

    function HoldingsOf(owner: nat, claim: Payoff): (r: Result<nat, AccountingError>)
      reads this
      ensures r.Success? ==> r.value == Held(holdings, Key(owner, claim.mask))
    {
      if claim.events != events then Failure(DifferentStateSpaces)
      else Success(if Key(owner, claim.mask) in holdings then holdings[Key(owner, claim.mask)] else 0)
    }

    /** Why a trade is refused, if it is: never because a liability would be negative. */
    ghost function Refusal(owner: nat, claim: Payoff, quantity: nat, cash: nat, side: Side): Option<AccountingError>
      reads this
    {
      var owned := Held(holdings, Key(owner, claim.mask));
      if claim.events != events then Some(DifferentStateSpaces)
      else if claim.mask == {} || claim.mask == Range(Pow2(claim.events)) then Some(ConstantClaim)
      else if quantity == 0 then Some(ZeroQuantity)
      else if SideRefusal(owned, quantity, cash, side).Some? then SideRefusal(owned, quantity, cash, side)
      else LateRefusal(claim.mask, quantity, cash, side)
    }

    /** The checks on the amounts after the trade. */
    ghost function SideRefusal(owned: nat, quantity: nat, cash: nat, side: Side): Option<AccountingError>
      reads this
    {
      if side == Buy && (owned + quantity >= U128 || collateral + cash >= U128) then Some(ArithmeticOverflow)
      else if side == Sell && owned < quantity then Some(InsufficientHoldings)
      else if side == Sell && collateral < cash then Some(InsufficientCollateral)
      else None
    }

    /** The checks on the liabilities. */
    ghost function LateRefusal(mask: set<nat>, quantity: nat, cash: nat, side: Side): Option<AccountingError>
      reads this
    {
      if side == Buy && Overflows(liabilities, mask, quantity) then Some(ArithmeticOverflow)
      else if Uncovered(mask, quantity, cash, side) then Some(UncoveredLiability)
      else None
    }

    /** Some liability after the trade exceeds the collateral after it. */
    ghost predicate Uncovered(mask: set<nat>, quantity: nat, cash: nat, side: Side)
      reads this
    {
      var after := if side.Buy? then collateral + cash else collateral - cash;
      exists state :: 0 <= state < |liabilities| && Moved(liabilities, mask, quantity, side)[state] > after
    }

    /** What the trade adds to the owner's entry and to every liability of the states that the claim pays in. */
    function Change(quantity: nat, side: Side): int {
      if side.Buy? then quantity as int else -(quantity as int)
    }

    /** A trade is accepted exactly when the claim is proper and of this ledger, the amounts fit 128 bits, a seller owns
        enough and the collateral after it covers every liability after it. */
    lemma AcceptedMeans(owner: nat, claim: Payoff, quantity: nat, cash: nat, side: Side)
      requires Valid()
      ensures OwnedAfter(Key(owner, claim.mask), quantity, side)
           == Held(holdings, Key(owner, claim.mask)) + Change(quantity, side)
      ensures Refusal(owner, claim, quantity, cash, side) == None <==>
                var after: int := if side.Buy? then collateral + cash else collateral - cash;
                var owned: int := Held(holdings, Key(owner, claim.mask)) + Change(quantity, side);
                && claim.events == events && claim.mask != {} && claim.mask != Range(Pow2(events))
                && quantity > 0
                && 0 <= owned < 0x1_0000_0000_0000_0000_0000_0000_0000_0000
                && 0 <= after < 0x1_0000_0000_0000_0000_0000_0000_0000_0000
                && forall state :: 0 <= state < |liabilities| ==>
                     liabilities[state] + (if state in claim.mask then Change(quantity, side) else 0) <= after
    {
      var moved := Moved(liabilities, claim.mask, quantity, side);
      forall state | 0 <= state < |liabilities|
        ensures moved[state] == liabilities[state] + if state in claim.mask then Change(quantity, side) else 0
      {
      }
      OwnedBelow(Key(owner, claim.mask));
    }

    /** Each refusal is the first check that fails. */
    lemma RefusalIsFirst(owner: nat, claim: Payoff, quantity: nat, cash: nat, side: Side)
      ensures var fault := Refusal(owner, claim, quantity, cash, side);
              var owned := Held(holdings, Key(owner, claim.mask));
              var proper := claim.events == events && claim.mask != {} && claim.mask != Range(Pow2(claim.events));
              && (fault == Some(DifferentStateSpaces) <==> claim.events != events)
              && (fault == Some(ConstantClaim) <==> claim.events == events && !proper)
              && (fault == Some(ZeroQuantity) <==> proper && quantity == 0)
              && (fault == Some(InsufficientHoldings) <==> proper && quantity > 0 && side == Sell && owned < quantity)
              && (fault == Some(InsufficientCollateral) <==>
                    proper && 0 < quantity <= owned && side == Sell && collateral < cash)
              && (fault == Some(UncoveredLiability) ==>
                    proper && quantity > 0 && (side == Sell ==> quantity <= owned && cash <= collateral))
    {
    }

    /** No one owns more than the pool holds. */
    lemma OwnedBelow(key: Key)
      requires Valid()
      ensures Held(holdings, key) <= collateral
    {
      if key in holdings {
        var state :| state in key.mask;
        OwnedIsOwed(key, state);
      }
    }

    /** A seller's own claims are part of every liability of the states that the claim pays in. */
    lemma OwnedIsOwed(key: Key, state: nat)
      requires Valid() && state < |liabilities| && state in key.mask
      ensures Held(holdings, key) <= liabilities[state]
    {
      OutstandingHeld(holdings, key, state);
    }

    /** What the owner holds and what the pool holds after the trade. */
    method CheckSide(owned: nat, quantity: nat, cash: nat, side: Side) returns (r: Result<(nat, nat), AccountingError>)
      requires collateral < U128
      ensures r.Failure? ==> SideRefusal(owned, quantity, cash, side) == Some(r.error)
      ensures r.Success? ==> SideRefusal(owned, quantity, cash, side) == None && r.value.1 < U128
      ensures r.Success? ==>
        if side == Buy then owned + quantity < U128 && r.value == (owned + quantity, collateral + cash)
        else quantity <= owned && cash <= collateral && r.value == (owned - quantity, collateral - cash)
    {
      match side {
        case Buy =>
          if owned + quantity >= U128 || collateral + cash >= U128 {
            return Failure(ArithmeticOverflow);
          }
          r := Success((owned + quantity, collateral + cash));
        case Sell =>
          if owned < quantity {
            return Failure(InsufficientHoldings);
          }
          if collateral < cash {
            return Failure(InsufficientCollateral);
          }
          r := Success((owned - quantity, collateral - cash));
      }
    }

    /** The checks before the liabilities: the owner's holdings and the collateral after the trade. */
    method CheckTrade(owner: nat, claim: Payoff, quantity: nat, cash: nat, side: Side)
      returns (r: Result<(nat, nat), AccountingError>)
      requires Valid() && quantity < U128 && cash < U128
      ensures r.Failure? ==> Refusal(owner, claim, quantity, cash, side) == Some(r.error)
      ensures r.Success? ==>
                Refusal(owner, claim, quantity, cash, side) == LateRefusal(claim.mask, quantity, cash, side)
      ensures r.Success? ==>
        var owned := Held(holdings, Key(owner, claim.mask));
        && claim.events == events && claim.mask != {} && claim.mask != Range(Pow2(claim.events)) && quantity > 0
        && r.value.1 < U128
        && if side == Buy then owned + quantity < U128 && r.value == (owned + quantity, collateral + cash)
           else quantity <= owned && cash <= collateral && r.value == (owned - quantity, collateral - cash)
    {
      var found := HoldingsOf(owner, claim);
      if found.Failure? {
        return Failure(found.error);
      }
      var owned := found.value;
      if claim.mask == {} || claim.mask == Range(Pow2(claim.events)) {
        return Failure(ConstantClaim);
      }
      if quantity == 0 {
        return Failure(ZeroQuantity);
      }
      r := CheckSide(owned, quantity, cash, side);
    }

    /** Holdings and liabilities move together. */
    lemma BackingKept(key: Key, quantity: nat, newOwned: nat, side: Side, state: nat)
      requires Valid() && state < |liabilities|
      requires newOwned == if side == Buy then Held(holdings, key) + quantity else Held(holdings, key) - quantity
      ensures Moved(liabilities, key.mask, quantity, side)[state] == Outstanding(Put(holdings, key, newOwned), state)
    {
      OutstandingPut(holdings, key, newOwned, state);
    }

    /** What an accepted trade writes. */
    ghost predicate Planned(plan: Plan, key: Key, quantity: nat, cash: nat, side: Side)
      reads this
    {
      var owned := Held(holdings, key);
      && plan.liabilities == Moved(liabilities, key.mask, quantity, side)
      && (forall state :: 0 <= state < |plan.liabilities| ==> plan.liabilities[state] <= plan.collateral)
      && plan.collateral < U128
      && if side == Buy then plan.owned == owned + quantity && plan.collateral == collateral + cash
         else plan.owned + quantity == owned && plan.collateral + cash == collateral
    }

    /** The last check decides coverage. */
    lemma CoverDecided(mask: set<nat>, quantity: nat, cash: nat, side: Side, moved: seq<nat>, after: nat)
      requires moved == Moved(liabilities, mask, quantity, side)
      requires after == if side.Buy? then collateral + cash else collateral - cash
      ensures Largest(moved) > after <==> Uncovered(mask, quantity, cash, side)
    {
      LargestIs(moved, after);
    }

    lemma SellerIsOwed(key: Key, quantity: nat)
      requires Valid() && quantity <= Held(holdings, key)
      ensures forall state :: 0 <= state < |liabilities| && state in key.mask ==> quantity <= liabilities[state]
    {
      forall state | 0 <= state < |liabilities| && state in key.mask ensures quantity <= liabilities[state] {
        OwnedIsOwed(key, state);
      }
    }

    /** Every check; nothing is written. */
    method PlanTrade(owner: nat, claim: Payoff, quantity: nat, cash: nat, side: Side)
      returns (r: Result<Plan, AccountingError>)
      requires Valid() && quantity < U128 && cash < U128
      ensures r.Failure? ==> Refusal(owner, claim, quantity, cash, side) == Some(r.error)
      ensures r.Success? ==> Refusal(owner, claim, quantity, cash, side) == None
      ensures r.Success? ==> Planned(r.value, Key(owner, claim.mask), quantity, cash, side)
    {
      var key := Key(owner, claim.mask);
      var checks := CheckTrade(owner, claim, quantity, cash, side);
      if checks.Failure? {
        return Failure(checks.error);
      }
      var (newOwned, newCollateral) := checks.value;
      if side == Sell {
        SellerIsOwed(key, quantity);
      }
      var moved := MoveLiabilities(liabilities, claim.mask, quantity, side);
      if moved.Failure? {
        return Failure(moved.error);
      }
      LargestIs(moved.value, newCollateral);
      CoverDecided(claim.mask, quantity, cash, side, moved.value, newCollateral);
      if Largest(moved.value) > newCollateral {
        return Failure(UncoveredLiability);
      }
      r := Success(Plan(newOwned, moved.value, newCollateral));
    }

    ghost function OwnedAfter(key: Key, quantity: nat, side: Side): int
      reads this
    {
      if side == Buy then Held(holdings, key) + quantity else Held(holdings, key) - quantity
    }

    /** The three assignments at the end. */
    method Apply(plan: Plan, key: Key, quantity: nat, cash: nat, side: Side)
      requires Valid() && key.mask <= Range(Pow2(events)) && key.mask != {} && key.mask != Range(Pow2(events))
      requires Planned(plan, key, quantity, cash, side)
      modifies this
      ensures Valid() && subsidy == old(subsidy)
      ensures liabilities == plan.liabilities && collateral == plan.collateral
      ensures holdings == Put(old(holdings), key, plan.owned)
      ensures received == old(received) + (if side == Buy then cash else 0)
      ensures paidOut == old(paidOut) + (if side == Buy then 0 else cash)
    {
      forall state | 0 <= state < |liabilities|
        ensures plan.liabilities[state] == Outstanding(Put(holdings, key, plan.owned), state)
      {
        BackingKept(key, quantity, plan.owned, side, state);
      }
      holdings := if plan.owned == 0 then holdings - {key} else holdings[key := plan.owned];
      liabilities := plan.liabilities;
      collateral := plan.collateral;
      if side == Buy {
        received := received + cash;
      } else {
        paidOut := paidOut + cash;
      }
    }

    /** All checks pass before any field changes; on an error nothing has. */
    method RecordTrade(owner: nat, claim: Payoff, quantity: nat, cash: nat, side: Side)
      returns (r: Result<(), AccountingError>)
      requires Valid() && IsPayoff(claim) && quantity < U128 && cash < U128
      modifies this
      ensures Valid() && subsidy == old(subsidy)
      ensures r.Failure? ==> old(Refusal(owner, claim, quantity, cash, side)) == Some(r.error) && unchanged(this)
      ensures r.Success? ==> old(Refusal(owner, claim, quantity, cash, side)) == None
      ensures r.Success? ==> liabilities == Moved(old(liabilities), claim.mask, quantity, side)
      ensures r.Success? ==> old(OwnedAfter(Key(owner, claim.mask), quantity, side)) >= 0
      ensures r.Success? ==>
        holdings == Put(old(holdings), Key(owner, claim.mask), old(OwnedAfter(Key(owner, claim.mask), quantity, side)))
      ensures r.Success? && side == Buy ==> collateral == old(collateral) + cash && received == old(received) + cash
      ensures r.Success? && side == Buy ==> paidOut == old(paidOut)
      ensures r.Success? && side == Sell ==> collateral == old(collateral) - cash && paidOut == old(paidOut) + cash
      ensures r.Success? && side == Sell ==> received == old(received)
    {
      var plan := PlanTrade(owner, claim, quantity, cash, side);
      if plan.Failure? {
        return Failure(plan.error);
      }
      assert claim.events == events && claim.mask != {} && claim.mask != Range(Pow2(events));
      Apply(plan.value, Key(owner, claim.mask), quantity, cash, side);
      r := Success(());
    }
  }
}
