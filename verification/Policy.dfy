/** The execution policy (packages/sdk-cpp/src/policy.cpp): spend, worst-case loss, the eighteen checks,
    the tightening by the published policy, recovery steps and receipt effects.
    128-bit amounts are unbounded integers. */
module Policy {
  import opened Wrappers
  import opened Scopes

  datatype Action = Approve | Buy | Sell | Redeem

  datatype Status = Planned | Signed | Broadcast | Confirmed | Reverted | Mismatch | Replaced | Expired | Abandoned

  predicate Unfinished(s: Status) {
    s == Planned || s == Signed || s == Broadcast
  }

  /** The scope is a set of events, the mask a set of local states. */
  datatype Claim = Claim(scope: set<nat>, mask: set<nat>)

  /** `pays_in`: the local state of a joint outcome is in the mask, below bit 32. */
  predicate PaysIn(c: Claim, state: set<nat>) {
    var local := Project(c.scope, state);
    local < 32 && local in c.mask
  }

  /** A claim pays in a state when its mask holds the index whose bits are the scope's events of the state. */
  lemma PaysMeans(c: Claim, state: set<nat>)
    ensures PaysIn(c, state) <==>
              exists local :: local in c.mask && local < 32 && local < Pow2(|c.scope|)
                && forall e :: e in c.scope ==> (Bit(local, Place(c.scope, e)) <==> e in state)
  {
    var local := Project(c.scope, state);
    ProjectBits(c.scope, state, local);
    forall other | other in c.mask && other < Pow2(|c.scope|) && other != local
      ensures !forall e :: e in c.scope ==> (Bit(other, Place(c.scope, e)) <==> e in state)
    {
      ProjectBits(c.scope, state, other);
    }
  }

  datatype Window = Window(seconds: int, atoms: int)

  datatype Limits = Limits(
    markets: set<nat>,
    maxQuantity: int,
    maxTradeCost: int,
    maxSlippageBps: int,
    total: int,
    windows: seq<Window>,
    maxPosition: int,
    maxWorstCaseLoss: int,
    maxFee: int,
    reserve: int,
    quoteMaxAge: int,
    minSecondsBeforeClose: int,
    maxPending: nat,
    allowSell: bool,
    allowRedeem: bool)

  datatype Market = Market(name: nat, events: nat, closesAt: int, open: bool, resolved: bool)

  datatype Holding = Holding(claim: Claim, quantity: int)

  datatype PolicyEntry = PolicyEntry(
    action: Action, market: nat, status: Status, claim: Option<Claim>,
    quantity: int, limit: int, cost: Option<int>, plannedAt: int)

  datatype Candidate = Candidate(
    action: Action, market: nat, claim: Claim, quantity: int, limit: int,
    slippageBps: int, quoteTime: int, gasLimit: int, maxFeePerGas: int)

  datatype Input = Input(
    limits: Limits, now: int, market: Market, nativeBalance: int,
    holdings: seq<Holding>, journal: seq<PolicyEntry>, candidate: Candidate)

  const SERVICE_MAX: int := 100000000

  function ValueOr(o: Option<int>, default: int): int {
    if o.Some? then o.value else default
  }

  /** What an entry has spent or may still spend. */
  function SpendOf(e: PolicyEntry): int {
    if e.action != Buy then 0
    else if e.status == Confirmed then ValueOr(e.cost, 0)
    else if Unfinished(e.status) || e.status == Mismatch then e.limit
    else 0
  }

  // ---- Worst-case loss ----

  /** What one sum over the journal adds up: the cost basis, or the net quantity of one claim. */
  datatype Measure = Basis | Net(claim: Claim)

  function Amount(e: PolicyEntry, market: nat, what: Measure): int {
    if e.market != market || e.claim.None? then 0
    else
      match what
      case Basis =>
        if e.action == Buy && e.status == Confirmed then ValueOr(e.cost, 0)
        else if e.action == Buy && Unfinished(e.status) then e.limit
        else 0
      case Net(c) =>
        if c != e.claim.value then 0
        else if e.action == Buy && (e.status == Confirmed || Unfinished(e.status)) then e.quantity
        else if (e.action == Sell || e.action == Redeem) && e.status == Confirmed then -e.quantity
        else 0
  }

  function Sum(journal: seq<PolicyEntry>, market: nat, what: Measure): int {
    if journal == [] then 0
    else Sum(journal[..|journal| - 1], market, what) + Amount(journal[|journal| - 1], market, what)
  }

  lemma {:induction false} SumAdds(a: seq<PolicyEntry>, b: seq<PolicyEntry>, market: nat, what: Measure)
    ensures Sum(a + b, market, what) == Sum(a, market, what) + Sum(b, market, what)
  {
    if b == [] {
      assert a + b == a;
    } else {
      SumAdds(a, b[..|b| - 1], market, what);
      assert (a + b)[..|a + b| - 1] == a + b[..|b| - 1];
    }
  }

  /** One entry of a market adds its cost, or its limit until the cost is known, and moves the position of its own
      claim: up when it is a buy that went through or still may, down when it is a sale or redemption that went
      through. */
  lemma SumOfOne(e: PolicyEntry, market: nat, c: Claim)
    ensures e.market != market || e.claim != Some(c) ==> Sum([e], market, Net(c)) == 0
    ensures e.market == market && e.claim == Some(c) ==>
              Sum([e], market, Net(c))
              == match e.status
                 case Confirmed =>
                   if e.action == Buy then e.quantity else if e.action == Approve then 0 else -e.quantity
                 case Planned | Signed | Broadcast => if e.action == Buy then e.quantity else 0
                 case Mismatch | Reverted | Replaced | Expired | Abandoned => 0
    ensures Sum([e], market, Basis)
         == if e.market != market || e.claim.None? || e.action != Buy then 0
            else match e.status
                 case Confirmed => if e.cost.Some? then e.cost.value else 0
                 case Planned | Signed | Broadcast => e.limit
                 case Mismatch | Reverted | Replaced | Expired | Abandoned => 0
  {
    assert [e][..0] == [];
  }

  /** The claims the journal and the candidate mention. */
  function Mentioned(in_: Input): set<Claim> {
    (set e | e in in_.journal && e.market == in_.market.name && e.claim.Some? :: e.claim.value) + {in_.candidate.claim}
  }

  /** The net quantity of a claim once the candidate is filled. */
  function Position(in_: Input, c: Claim): int {
    Sum(in_.journal, in_.market.name, Net(c)) + if c == in_.candidate.claim then in_.candidate.quantity else 0
  }

  /** The most the agent can have paid once the candidate is filled. */
  function CostBasis(in_: Input): int {
    Sum(in_.journal, in_.market.name, Basis) + in_.candidate.limit
  }

  /** What the net positive positions among some claims pay in one outcome. */
  ghost function Payout(in_: Input, claims: set<Claim>, state: set<nat>): int {
    if claims == {} then 0
    else
      var c :| c in claims;
      Payout(in_, claims - {c}, state) + Gain(in_, c, state)
  }

  function Gain(in_: Input, c: Claim, state: set<nat>): int {
    if Position(in_, c) > 0 && PaysIn(c, state) then Position(in_, c) else 0
  }

  /** The loss in one outcome: the cost basis less what the net positive positions pay there. */
  ghost function LossIn(in_: Input, state: set<nat>): int {
    CostBasis(in_) - Payout(in_, Mentioned(in_), state)
  }

  lemma {:induction false} PayoutPeel(in_: Input, claims: set<Claim>, state: set<nat>, c: Claim)
    requires c in claims
    ensures Payout(in_, claims, state) == Payout(in_, claims - {c}, state) + Gain(in_, c, state)
  {
    var d :| d in claims && Payout(in_, claims, state) == Payout(in_, claims - {d}, state) + Gain(in_, d, state);
    if d != c {
      PayoutPeel(in_, claims - {d}, state, c);
      PayoutPeel(in_, claims - {c}, state, d);
      assert claims - {d} - {c} == claims - {c} - {d};
    }
  }

  lemma {:induction false} PayoutNonnegative(in_: Input, claims: set<Claim>, state: set<nat>)
    ensures Payout(in_, claims, state) >= 0
  {
    if claims != {} {
      var c :| c in claims;
      PayoutPeel(in_, claims, state, c);
      PayoutNonnegative(in_, claims - {c}, state);
    }
  }

  lemma SumSnoc(journal: seq<PolicyEntry>, market: nat, what: Measure, k: nat)
    requires k < |journal|
    ensures Sum(journal[..k + 1], market, what) == Sum(journal[..k], market, what) + Amount(journal[k], market, what)
  {
    assert journal[..k + 1][..k] == journal[..k];
  }

  ghost predicate IsPositions(positions: map<Claim, int>, journal: seq<PolicyEntry>, market: nat) {
    && (forall c :: c in positions ==> positions[c] == Sum(journal, market, Net(c)))
    && positions.Keys <= (set e | e in journal && e.market == market && e.claim.Some? :: e.claim.value)
    && (forall c :: c !in positions ==> Sum(journal, market, Net(c)) == 0)
  }

  /** The claims that a journal leaves without a position have no net quantity and pay nothing. */
  lemma {:induction false} PayoutIgnoresFlat(in_: Input, claims: set<Claim>, more: set<Claim>, state: set<nat>)
    requires claims <= more && forall c :: c in more - claims ==> Position(in_, c) <= 0
    ensures Payout(in_, more, state) == Payout(in_, claims, state)
    decreases |more|
  {
    if claims != more {
      assert more - claims != {} by {
        assert more == claims + (more - claims);
      }
      var c :| c in more - claims;
      PayoutPeel(in_, more, state, c);
      PayoutIgnoresFlat(in_, claims, more - {c}, state);
    }
  }

  function Add(positions: map<Claim, int>, c: Claim, q: int): map<Claim, int> {
    positions[c := (if c in positions then positions[c] else 0) + q]
  }

  /** One entry of the journal. */
  method AddEntry(journal: seq<PolicyEntry>, market: nat, k: nat, before: map<Claim, int>, cost: int)
    returns (positions: map<Claim, int>, after: int)
    requires k < |journal| && IsPositions(before, journal[..k], market)
    ensures IsPositions(positions, journal[..k + 1], market) && after == cost + Amount(journal[k], market, Basis)
  {
    var e := journal[k];
    positions, after := before, cost;
    if e.market == market && e.claim.Some? {
      if e.action == Buy && e.status == Confirmed {
        positions := Add(positions, e.claim.value, e.quantity);
        after := cost + ValueOr(e.cost, 0);
      } else if e.action == Buy && Unfinished(e.status) {
        positions := Add(positions, e.claim.value, e.quantity);
        after := cost + e.limit;
      } else if (e.action == Sell || e.action == Redeem) && e.status == Confirmed {
        positions := Add(positions, e.claim.value, -e.quantity);
      }
    }
    PositionsStep(journal, market, k, before, positions);
  }

  /** The first loop of `worst_case_loss`: net positions and cost basis of the journal. */
  method Accumulate(in_: Input) returns (positions: map<Claim, int>, cost: int)
    ensures IsPositions(positions, in_.journal, in_.market.name)
    ensures cost == Sum(in_.journal, in_.market.name, Basis)
  {
    positions := map[];
    cost := 0;
    var k := 0;
    while k < |in_.journal|
      invariant 0 <= k <= |in_.journal|
      invariant IsPositions(positions, in_.journal[..k], in_.market.name)
      invariant cost == Sum(in_.journal[..k], in_.market.name, Basis)
    {
      SumSnoc(in_.journal, in_.market.name, Basis, k);
      positions, cost := AddEntry(in_.journal, in_.market.name, k, positions, cost);
      k := k + 1;
    }
    assert in_.journal[..k] == in_.journal;
  }

  lemma PositionsStep(journal: seq<PolicyEntry>, market: nat, k: nat, before: map<Claim, int>, after: map<Claim, int>)
    requires k < |journal| && IsPositions(before, journal[..k], market)
    requires var e := journal[k];
      after == before
      || (e.market == market && e.claim.Some?
          && after == Add(before, e.claim.value, Amount(e, market, Net(e.claim.value))))
    requires after == before ==> forall c :: Amount(journal[k], market, Net(c)) == 0
    ensures IsPositions(after, journal[..k + 1], market)
  {
    var e := journal[k];
    forall c ensures Sum(journal[..k + 1], market, Net(c))
        == Sum(journal[..k], market, Net(c)) + Amount(e, market, Net(c)) {
      SumSnoc(journal, market, Net(c), k);
    }
    assert forall x :: x in journal[..k] ==> x in journal[..k + 1];
    assert e in journal[..k + 1];
  }

  /** The second loop for one outcome: the payout of the net positive positions. */
  method PayoutOf(in_: Input, positions: map<Claim, int>, state: set<nat>) returns (payout: int)
    requires forall c :: c in positions ==> positions[c] == Position(in_, c)
    ensures payout == Payout(in_, positions.Keys, state)
  {
    payout := 0;
    var left := positions.Keys;
    while left != {}
      invariant left <= positions.Keys
      invariant payout + Payout(in_, left, state) == Payout(in_, positions.Keys, state)
      decreases |left|
    {
      var c :| c in left;
      PayoutPeel(in_, left, state, c);
      if positions[c] > 0 && PaysIn(c, state) {
        payout := payout + positions[c];
      }
      left := left - {c};
    }
  }

  /** The outcome loop of `worst_case_loss`: the lowest payout. */
  method LowestPayout(in_: Input, positions: map<Claim, int>, states: seq<set<nat>>) returns (floor: int, ghost at: nat)
    requires forall c :: c in positions ==> positions[c] == Position(in_, c)
    requires states != []
    ensures at < |states| && floor == Payout(in_, positions.Keys, states[at])
    ensures forall i :: 0 <= i < |states| ==> floor <= Payout(in_, positions.Keys, states[i])
  {
    var lowest: Option<int> := None;
    at := 0;
    var k: nat := 0;
    while k < |states|
      invariant k <= |states|
      invariant lowest.None? <==> k == 0
      invariant lowest.Some? ==> at < k && lowest.value == Payout(in_, positions.Keys, states[at])
      invariant forall i :: 0 <= i < k ==> lowest.value <= Payout(in_, positions.Keys, states[i])
    {
      var payout := PayoutOf(in_, positions, states[k]);
      if lowest.None? || payout < lowest.value {
        lowest := Some(payout);
        at := k;
      }
      k := k + 1;
    }
    floor := ValueOr(lowest, 0);
  }

  ghost predicate IsWorstLoss(in_: Input, loss: int) {
    && (exists state: set<nat> :: state <= Range(in_.market.events) && loss == LossIn(in_, state))
    && (forall state: set<nat> :: state <= Range(in_.market.events) ==> LossIn(in_, state) <= loss)
  }

  lemma FloorIsWorst(in_: Input, claims: set<Claim>, floor: int, at: nat)
    requires claims <= Mentioned(in_) && forall c :: c in Mentioned(in_) - claims ==> Position(in_, c) <= 0
    requires var states := States(in_.market.events, {});
      && at < |states| && floor == Payout(in_, claims, states[at])
      && forall i :: 0 <= i < |states| ==> floor <= Payout(in_, claims, states[i])
    ensures IsWorstLoss(in_, CostBasis(in_) - floor)
  {
    var n := in_.market.events;
    var states := States(n, {});
    NumberOfState(n, {}, at);
    assert states[at] <= Range(n);
    PayoutIgnoresFlat(in_, claims, Mentioned(in_), states[at]);
    assert CostBasis(in_) - floor == LossIn(in_, states[at]);
    forall state: set<nat> | state <= Range(n) ensures LossIn(in_, state) <= CostBasis(in_) - floor {
      PayoutIgnoresFlat(in_, claims, Mentioned(in_), state);
      StateOfNumber(n, {}, state);
      assert states[Number(n, state)] == state;
    }
  }

  /** `worst_case_loss` is the true maximum of the loss over all 2^n outcomes. */
  method WorstCaseLoss(in_: Input) returns (loss: int)
    ensures IsWorstLoss(in_, loss)
  {
    var positions, cost := Accumulate(in_);
    positions := Add(positions, in_.candidate.claim, in_.candidate.quantity);
    cost := cost + in_.candidate.limit;
    var floor, at := LowestPayout(in_, positions, States(in_.market.events, {}));
    FloorIsWorst(in_, positions.Keys, floor, at);
    loss := cost - floor;
  }

  /** A journal that ends with the candidate, filled or to be filled, with nothing more to buy. */
  predicate Filled(in_: Input, after: Input) {
    var e, c := after.journal, in_.candidate;
    && |e| == |in_.journal| + 1 && e[..|in_.journal|] == in_.journal && after.market == in_.market
    && e[|in_.journal|].action == Buy && Unfinished(e[|in_.journal|].status)
    && e[|in_.journal|].market == in_.market.name
    && e[|in_.journal|].claim == Some(c.claim) && e[|in_.journal|].quantity == c.quantity
    && e[|in_.journal|].limit == c.limit
    && after.candidate == c.(quantity := 0, limit := 0)
  }

  lemma {:induction false} FilledPayout(in_: Input, after: Input, claims: set<Claim>, state: set<nat>)
    requires Filled(in_, after)
    ensures Payout(after, claims, state) == Payout(in_, claims, state)
    decreases |claims|
  {
    if claims != {} {
      var c :| c in claims;
      PayoutPeel(in_, claims, state, c);
      PayoutPeel(after, claims, state, c);
      FilledPayout(in_, after, claims - {c}, state);
    }
  }

  /** The loss that was checked for a candidate is the loss of the journal that contains it. */
  lemma FilledLoss(in_: Input, after: Input, state: set<nat>)
    requires Filled(in_, after)
    ensures LossIn(after, state) == LossIn(in_, state)
  {
    var last := |in_.journal|;
    assert Mentioned(after) == Mentioned(in_) by {
      forall e | e in after.journal ensures e in in_.journal || e == after.journal[last] {
        var k :| 0 <= k < |after.journal| && after.journal[k] == e;
        if k < last {
          assert in_.journal[k] == e;
        }
      }
      forall e | e in in_.journal ensures e in after.journal {
        assert e in after.journal[..last];
      }
    }
    FilledPayout(in_, after, Mentioned(in_), state);
  }

  // ---- The order of the journal does not matter ----

  lemma {:induction false} SumRemove(journal: seq<PolicyEntry>, market: nat, what: Measure, i: nat)
    requires i < |journal|
    ensures Sum(journal, market, what)
            == Sum(journal[..i] + journal[i + 1..], market, what) + Amount(journal[i], market, what)
  {
    var last := |journal| - 1;
    if i == last {
      assert journal[..i] + journal[i + 1..] == journal[..last];
    } else {
      SumRemove(journal[..last], market, what, i);
      assert (journal[..i] + journal[i + 1..])[..last - 1] == journal[..last][..i] + journal[..last][i + 1..];
    }
  }

  lemma RemoveOne(s: seq<PolicyEntry>, i: nat)
    requires i < |s|
    ensures multiset(s[..i] + s[i + 1..]) == multiset(s) - multiset{s[i]}
  {
    assert s == s[..i] + ([s[i]] + s[i + 1..]);
    assert multiset(s) == multiset(s[..i]) + (multiset{s[i]} + multiset(s[i + 1..]));
  }

  lemma {:induction false} SumPermuted(one: seq<PolicyEntry>, other: seq<PolicyEntry>, market: nat, what: Measure)
    requires multiset(one) == multiset(other)
    ensures Sum(one, market, what) == Sum(other, market, what)
  {
    assert |one| == |multiset(one)| == |multiset(other)| == |other|;
    if one != [] {
      var last := |one| - 1;
      assert multiset(one)[one[last]] > 0;
      var i := Occurrence(other, one[last]);
      RemoveOne(other, i);
      RemoveOne(one, last);
      assert one[..last] + one[last + 1..] == one[..last];
      SumPermuted(one[..last], other[..i] + other[i + 1..], market, what);
      SumRemove(other, market, what, i);
    }
  }

  lemma Occurrence(s: seq<PolicyEntry>, x: PolicyEntry) returns (i: nat)
    requires multiset(s)[x] > 0
    ensures i < |s| && s[i] == x
  {
    assert x in multiset(s);
    i :| i < |s| && s[i] == x;
  }

  /** The loss in every outcome depends on which entries the journal holds, not on their order. */
  lemma LossIgnoresOrder(in_: Input, journal: seq<PolicyEntry>, state: set<nat>)
    requires multiset(journal) == multiset(in_.journal)
    ensures LossIn(in_.(journal := journal), state) == LossIn(in_, state)
  {
    var other := in_.(journal := journal);
    SumPermuted(journal, in_.journal, in_.market.name, Basis);
    forall e ensures e in journal <==> e in in_.journal {
      assert e in multiset(journal) <==> e in multiset(in_.journal);
    }
    assert Mentioned(other) == Mentioned(in_);
    PayoutSame(in_, other, Mentioned(in_), state);
  }

  lemma {:induction false} PayoutSame(in_: Input, other: Input, claims: set<Claim>, state: set<nat>)
    requires multiset(other.journal) == multiset(in_.journal) && other.market == in_.market
             && other.candidate == in_.candidate
    ensures Payout(other, claims, state) == Payout(in_, claims, state)
    decreases |claims|
  {
    if claims != {} {
      var c :| c in claims;
      PayoutPeel(in_, claims, state, c);
      PayoutPeel(other, claims, state, c);
      SumPermuted(other.journal, in_.journal, in_.market.name, Net(c));
      PayoutSame(in_, other, claims - {c}, state);
    }
  }

  // ---- The checks ----

  datatype Violation =
    | ServiceLimit | MarketNotAllowed | MarketClosed | MarketNotResolved | TooCloseToClose | ActionDisabled
    | HoldingsInsufficient | QuantityLimit | TradeCostLimit | SlippageLimit | QuoteStale | TotalSpendLimit
    | WindowSpendLimit | PositionLimit | WorstCaseLossLimit | GasFeeLimit | GasReserve | PendingLimit

  /** The protocol's fixed order of codes. */
  const VIOLATIONS: seq<Violation> := [
    ServiceLimit, MarketNotAllowed, MarketClosed, MarketNotResolved, TooCloseToClose, ActionDisabled,
    HoldingsInsufficient, QuantityLimit, TradeCostLimit, SlippageLimit, QuoteStale, TotalSpendLimit,
    WindowSpendLimit, PositionLimit, WorstCaseLossLimit, GasFeeLimit, GasReserve, PendingLimit]

  /** What one entry adds to a spend or pending total. */
  datatype Tally =
    | Spend
    | SpendBetween(from: int, to: int)
    | SpendSince(since: int)
    | PendingOf(market: nat, claim: Claim)
    | Pending

  function TallyOf(e: PolicyEntry, t: Tally): int {
    match t
    case Spend => SpendOf(e)
    case SpendBetween(from, to) => if from <= e.plannedAt <= to then SpendOf(e) else 0
    case SpendSince(since) => if e.plannedAt >= since then SpendOf(e) else 0
    case PendingOf(market, claim) =>
      if e.action == Buy && Unfinished(e.status) && e.market == market && e.claim == Some(claim) then e.quantity else 0
    case Pending => if Unfinished(e.status) then 1 else 0
  }

  function Total(journal: seq<PolicyEntry>, t: Tally): int {
    if journal == [] then 0
    else Total(journal[..|journal| - 1], t) + TallyOf(journal[|journal| - 1], t)
  }

  /** The spend of a journal is the spend of its parts. */
  lemma {:induction false} TotalAdds(a: seq<PolicyEntry>, b: seq<PolicyEntry>, t: Tally)
    ensures Total(a + b, t) == Total(a, t) + Total(b, t)
  {
    if b == [] {
      assert a + b == a;
    } else {
      TotalAdds(a, b[..|b| - 1], t);
      assert (a + b)[..|a + b| - 1] == a + b[..|b| - 1];
    }
  }

  /** A buy counts with what it cost once it is confirmed, with its limit while it may still cost that much or nobody
      knows what it cost, and with nothing when it never happened; nothing else counts. */
  lemma SpendOfOne(e: PolicyEntry, from: int, to: int)
    ensures Total([e], Spend)
         == match e.status
            case Confirmed => if e.action == Buy && e.cost.Some? then e.cost.value else 0
            case Planned | Signed | Broadcast | Mismatch => if e.action == Buy then e.limit else 0
            case Reverted | Replaced | Expired | Abandoned => 0
    ensures Total([e], SpendSince(from)) == if from <= e.plannedAt then Total([e], Spend) else 0
    ensures Total([e], SpendBetween(from, to)) == if from <= e.plannedAt <= to then Total([e], Spend) else 0
  {
    assert [e][..0] == [];
  }

  function Held(holdings: seq<Holding>, c: Claim): int {
    if holdings == [] then 0
    else Held(holdings[..|holdings| - 1], c)
         + if holdings[|holdings| - 1].claim == c then holdings[|holdings| - 1].quantity else 0
  }

  /** What is held of a claim is the sum over the holdings of that claim. */
  lemma HeldAdds(holdings: seq<Holding>, h: Holding, c: Claim)
    ensures Held([h], c) == if h.claim == c then h.quantity else 0
    ensures Held(holdings + [h], c) == Held(holdings, c) + Held([h], c)
  {
    assert (holdings + [h])[..|holdings|] == holdings;
    assert [h][..0] == [];
  }

  predicate IsTrade(a: Action) {
    a == Buy || a == Sell
  }

  predicate IsClosed(in_: Input) {
    !in_.market.open || in_.now >= in_.market.closesAt
  }

  /** When each code applies. */
  ghost predicate Violates(in_: Input, v: Violation) {
    var p, c, market := in_.limits, in_.candidate, in_.market;
    match v
    case ServiceLimit =>
      c.quantity < 1 || c.quantity > SERVICE_MAX || c.limit > SERVICE_MAX
      || (IsTrade(c.action) && c.slippageBps != 10 && c.slippageBps != 50 && c.slippageBps != 100)
    case MarketNotAllowed => c.market !in p.markets || c.market != market.name
    case MarketClosed => IsTrade(c.action) && IsClosed(in_)
    case MarketNotResolved => c.action == Redeem && !market.resolved
    case TooCloseToClose => IsTrade(c.action) && !IsClosed(in_) && market.closesAt - in_.now < p.minSecondsBeforeClose
    case ActionDisabled => (c.action == Sell && !p.allowSell) || (c.action == Redeem && !p.allowRedeem)
    case HoldingsInsufficient => c.action != Buy && Held(in_.holdings, c.claim) < c.quantity
    case QuantityLimit => c.quantity > p.maxQuantity
    case TradeCostLimit => c.action == Buy && c.limit > p.maxTradeCost
    case SlippageLimit => IsTrade(c.action) && c.slippageBps > p.maxSlippageBps
    case QuoteStale => IsTrade(c.action) && in_.now - c.quoteTime > p.quoteMaxAge
    case TotalSpendLimit => c.action == Buy && Total(in_.journal, Spend) + c.limit > p.total
    case WindowSpendLimit =>
      c.action == Buy
      && exists i :: 0 <= i < |p.windows| && OverWindow(in_, p.windows[i])
    case PositionLimit =>
      c.action == Buy
      && Held(in_.holdings, c.claim) + Total(in_.journal, PendingOf(c.market, c.claim)) + c.quantity > p.maxPosition
    case WorstCaseLossLimit =>
      c.action == Buy
      && exists state: set<nat> :: state <= Range(market.events) && LossIn(in_, state) > p.maxWorstCaseLoss
    case GasFeeLimit => c.gasLimit * c.maxFeePerGas > p.maxFee
    case GasReserve => in_.nativeBalance - c.gasLimit * c.maxFeePerGas < p.reserve
    case PendingLimit => Total(in_.journal, Pending) >= p.maxPending
  }

  /** The request is within the service's limits, on an allowed market that is in the right state. */
  predicate RequestPasses(in_: Input) {
    var p, c, market := in_.limits, in_.candidate, in_.market;
    && 1 <= c.quantity <= 100000000 && c.limit <= 100000000
    && c.market == market.name && c.market in p.markets
    && (c.action == Buy || c.action == Sell ==>
          && (c.slippageBps == 10 || c.slippageBps == 50 || c.slippageBps == 100)
          && market.open && market.closesAt > in_.now && market.closesAt >= in_.now + p.minSecondsBeforeClose)
    && (c.action == Sell ==> p.allowSell)
    && (c.action == Redeem ==> p.allowRedeem && market.resolved)
  }

  /** The terms are within the wallet's holdings and the limits on a single order, and freshly quoted. */
  predicate TermsPass(in_: Input) {
    var p, c := in_.limits, in_.candidate;
    && c.quantity <= p.maxQuantity
    && (c.action != Buy ==> c.quantity <= Held(in_.holdings, c.claim))
    && (c.action == Buy ==> c.limit <= p.maxTradeCost && c.limit + Total(in_.journal, Spend) <= p.total)
    && (c.action == Buy || c.action == Sell ==>
          c.slippageBps <= p.maxSlippageBps && c.quoteTime + p.quoteMaxAge >= in_.now)
  }

  /** Gas and pending entries are within their limits, and what a buy adds to the windows, the position and the loss. */
  ghost predicate RiskPasses(in_: Input) {
    var p, c := in_.limits, in_.candidate;
    && c.gasLimit * c.maxFeePerGas <= p.maxFee && c.gasLimit * c.maxFeePerGas + p.reserve <= in_.nativeBalance
    && Total(in_.journal, Pending) < p.maxPending
    && (c.action == Buy ==>
          && (forall w <- p.windows :: Total(in_.journal, SpendSince(in_.now - w.seconds)) + c.limit <= w.atoms)
          && Held(in_.holdings, c.claim) + Total(in_.journal, PendingOf(c.market, c.claim)) + c.quantity
             <= p.maxPosition
          && forall state: set<nat> :: state <= Range(in_.market.events) ==> LossIn(in_, state) <= p.maxWorstCaseLoss)
  }

  lemma RequestMeans(in_: Input)
    ensures RequestPasses(in_) <==>
              && !Violates(in_, ServiceLimit) && !Violates(in_, MarketNotAllowed) && !Violates(in_, MarketClosed)
              && !Violates(in_, MarketNotResolved) && !Violates(in_, TooCloseToClose) && !Violates(in_, ActionDisabled)
  {
  }

  lemma TermsMean(in_: Input)
    ensures TermsPass(in_) <==>
              && !Violates(in_, HoldingsInsufficient) && !Violates(in_, QuantityLimit) && !Violates(in_, TradeCostLimit)
              && !Violates(in_, SlippageLimit) && !Violates(in_, QuoteStale) && !Violates(in_, TotalSpendLimit)
  {
  }

  lemma WindowsPass(in_: Input)
    requires in_.candidate.action == Buy
    ensures !Violates(in_, WindowSpendLimit) <==>
              forall w <- in_.limits.windows ::
                Total(in_.journal, SpendSince(in_.now - w.seconds)) + in_.candidate.limit <= w.atoms
  {
    var windows := in_.limits.windows;
    forall i | 0 <= i < |windows| ensures windows[i] in windows {
    }
    if !Violates(in_, WindowSpendLimit) {
      forall w | w in windows
        ensures Total(in_.journal, SpendSince(in_.now - w.seconds)) + in_.candidate.limit <= w.atoms
      {
        var i :| 0 <= i < |windows| && windows[i] == w;
        assert !OverWindow(in_, windows[i]);
      }
    }
  }

  lemma RiskMeans(in_: Input)
    ensures RiskPasses(in_) <==>
              && !Violates(in_, WindowSpendLimit) && !Violates(in_, PositionLimit) && !Violates(in_, WorstCaseLossLimit)
              && !Violates(in_, GasFeeLimit) && !Violates(in_, GasReserve) && !Violates(in_, PendingLimit)
  {
    if in_.candidate.action == Buy {
      WindowsPass(in_);
    }
  }

  /** No check refuses an order exactly when request, terms and risk pass. */
  lemma PassesMeans(in_: Input)
    ensures (forall v :: !Violates(in_, v)) <==> RequestPasses(in_) && TermsPass(in_) && RiskPasses(in_)
  {
    RequestMeans(in_);
    TermsMean(in_);
    RiskMeans(in_);
    if RequestPasses(in_) && TermsPass(in_) && RiskPasses(in_) {
      forall v ensures !Violates(in_, v) {
        RankIndexes(v);
        assert v == VIOLATIONS[Rank(v)];
      }
    }
  }

  lemma TotalSnoc(journal: seq<PolicyEntry>, t: Tally, k: nat)
    requires k < |journal|
    ensures Total(journal[..k + 1], t) == Total(journal[..k], t) + TallyOf(journal[k], t)
  {
    assert journal[..k + 1][..k] == journal[..k];
  }

  /** The summing loops of `evaluate_policy`. */
  method SumTally(journal: seq<PolicyEntry>, t: Tally) returns (total: int)
    ensures total == Total(journal, t)
  {
    total := 0;
    for k := 0 to |journal|
      invariant total == Total(journal[..k], t)
    {
      TotalSnoc(journal, t, k);
      total := total + TallyOf(journal[k], t);
    }
    assert journal[..|journal|] == journal;
  }

  method SumHeld(holdings: seq<Holding>, c: Claim) returns (held: int)
    ensures held == Held(holdings, c)
  {
    held := 0;
    for k := 0 to |holdings|
      invariant held == Held(holdings[..k], c)
    {
      assert holdings[..k + 1][..k] == holdings[..k];
      if holdings[k].claim == c {
        held := held + holdings[k].quantity;
      }
    }
    assert holdings[..|holdings|] == holdings;
  }

  ghost predicate OverWindow(in_: Input, w: Window) {
    Total(in_.journal, SpendSince(in_.now - w.seconds)) + in_.candidate.limit > w.atoms
  }

  /** The loop over the spend windows. */
  method WindowExceeded(in_: Input) returns (exceeded: bool)
    ensures exceeded <==> exists i :: 0 <= i < |in_.limits.windows| && OverWindow(in_, in_.limits.windows[i])
  {
    exceeded := false;
    for k := 0 to |in_.limits.windows|
      invariant exceeded <==> exists i :: 0 <= i < k && OverWindow(in_, in_.limits.windows[i])
    {
      var w := in_.limits.windows[k];
      var spent := SumTally(in_.journal, SpendSince(in_.now - w.seconds));
      if spent + in_.candidate.limit > w.atoms {
        exceeded := true;
      }
    }
  }

  /** The set holds exactly the codes that apply among those already checked. */
  ghost predicate Exact(in_: Input, found: set<Violation>, checked: set<Violation>) {
    found == Applying(in_) * checked
  }

  ghost function Applying(in_: Input): set<Violation> {
    set v: Violation | Violates(in_, v)
  }

  /** `if (applies) found.insert(v)`. */
  method Check(in_: Input, found: set<Violation>, v: Violation, applies: bool, ghost checked: set<Violation>)
    returns (r: set<Violation>)
    requires Exact(in_, found, checked) && (applies <==> Violates(in_, v))
    ensures Exact(in_, r, checked + {v})
  {
    r := if applies then found + {v} else found;
  }

  /** The checks on the request and the market. */
  method MarketViolations(in_: Input) returns (found: set<Violation>)
    ensures Exact(in_, found, {ServiceLimit, MarketNotAllowed, MarketClosed, MarketNotResolved, TooCloseToClose})
  {
    var p, c, market := in_.limits, in_.candidate, in_.market;
    var trade := IsTrade(c.action);
    var slippageOk := c.slippageBps == 10 || c.slippageBps == 50 || c.slippageBps == 100;
    var closed := !market.open || in_.now >= market.closesAt;
    found := Check(in_, {}, ServiceLimit,
                   c.quantity < 1 || c.quantity > SERVICE_MAX || c.limit > SERVICE_MAX || (trade && !slippageOk), {});
    found := Check(in_, found, MarketNotAllowed, c.market !in p.markets || c.market != market.name, {ServiceLimit});
    found := Check(in_, found, MarketClosed, trade && closed, {ServiceLimit, MarketNotAllowed});
    found := Check(in_, found, MarketNotResolved, c.action == Redeem && !market.resolved,
                   {ServiceLimit, MarketNotAllowed, MarketClosed});
    found := Check(in_, found, TooCloseToClose, trade && !closed && market.closesAt - in_.now < p.minSecondsBeforeClose,
                   {ServiceLimit, MarketNotAllowed, MarketClosed, MarketNotResolved});
  }

  /** The checks on the quoted terms. */
  method QuoteViolations(in_: Input, before: set<Violation>) returns (found: set<Violation>)
    requires Exact(in_, before, {ActionDisabled, HoldingsInsufficient, QuantityLimit})
    ensures Exact(in_, found, {ActionDisabled, HoldingsInsufficient, QuantityLimit, TradeCostLimit, SlippageLimit,
                               QuoteStale})
  {
    var p, c := in_.limits, in_.candidate;
    var trade := IsTrade(c.action);
    ghost var checked := {ActionDisabled, HoldingsInsufficient, QuantityLimit};
    found := Check(in_, before, TradeCostLimit, c.action == Buy && c.limit > p.maxTradeCost, checked);
    found := Check(in_, found, SlippageLimit, trade && c.slippageBps > p.maxSlippageBps, checked + {TradeCostLimit});
    found := Check(in_, found, QuoteStale, trade && in_.now - c.quoteTime > p.quoteMaxAge,
                   checked + {TradeCostLimit} + {SlippageLimit});
    assert checked + {TradeCostLimit} + {SlippageLimit} + {QuoteStale}
        == {ActionDisabled, HoldingsInsufficient, QuantityLimit, TradeCostLimit, SlippageLimit, QuoteStale};
  }

  /** The checks on one trade. */
  method TradeViolations(in_: Input, held: int) returns (found: set<Violation>)
    requires held == Held(in_.holdings, in_.candidate.claim)
    ensures Exact(in_, found, {ActionDisabled, HoldingsInsufficient, QuantityLimit, TradeCostLimit, SlippageLimit,
                               QuoteStale})
  {
    var p, c := in_.limits, in_.candidate;
    var buy := c.action == Buy;
    found := Check(in_, {}, ActionDisabled,
                   (c.action == Sell && !p.allowSell) || (c.action == Redeem && !p.allowRedeem), {});
    found := Check(in_, found, HoldingsInsufficient, !buy && held < c.quantity, {ActionDisabled});
    found := Check(in_, found, QuantityLimit, c.quantity > p.maxQuantity, {ActionDisabled, HoldingsInsufficient});
    found := QuoteViolations(in_, found);
  }

  lemma WorstLossDecides(in_: Input, loss: int)
    requires in_.candidate.action == Buy && IsWorstLoss(in_, loss)
    ensures loss > in_.limits.maxWorstCaseLoss <==> Violates(in_, WorstCaseLossLimit)
  {
  }

  /** The checks that only a buy goes through. */
  method BuyViolations(in_: Input, held: int) returns (found: set<Violation>)
    requires held == Held(in_.holdings, in_.candidate.claim)
    ensures Exact(in_, found, {TotalSpendLimit, WindowSpendLimit, PositionLimit, WorstCaseLossLimit})
  {
    var p, c := in_.limits, in_.candidate;
    if c.action != Buy {
      return {};
    }
    var total := SumTally(in_.journal, Spend);
    found := Check(in_, {}, TotalSpendLimit, total + c.limit > p.total, {});
    var exceeded := WindowExceeded(in_);
    found := Check(in_, found, WindowSpendLimit, exceeded, {TotalSpendLimit});
    var pendingSame := SumTally(in_.journal, PendingOf(c.market, c.claim));
    found := Check(in_, found, PositionLimit, held + pendingSame + c.quantity > p.maxPosition,
                   {TotalSpendLimit, WindowSpendLimit});
    found := CheckLoss(in_, found, {TotalSpendLimit, WindowSpendLimit, PositionLimit});
  }

  method CheckLoss(in_: Input, found: set<Violation>, ghost checked: set<Violation>) returns (r: set<Violation>)
    requires in_.candidate.action == Buy && Exact(in_, found, checked)
    ensures Exact(in_, r, checked + {WorstCaseLossLimit})
  {
    var loss := WorstCaseLoss(in_);
    WorstLossDecides(in_, loss);
    r := Check(in_, found, WorstCaseLossLimit, loss > in_.limits.maxWorstCaseLoss, checked);
  }

  /** The gas and pending checks, which every action goes through. */
  method LateViolations(in_: Input) returns (found: set<Violation>)
    ensures Exact(in_, found, {GasFeeLimit, GasReserve, PendingLimit})
  {
    var fee := in_.candidate.gasLimit * in_.candidate.maxFeePerGas;
    found := Check(in_, {}, GasFeeLimit, fee > in_.limits.maxFee, {});
    found := Check(in_, found, GasReserve, in_.nativeBalance - fee < in_.limits.reserve, {GasFeeLimit});
    var pending := SumTally(in_.journal, Pending);
    found := Check(in_, found, PendingLimit, pending >= in_.limits.maxPending, {GasFeeLimit, GasReserve});
  }

  function Rank(v: Violation): nat {
    match v
    case ServiceLimit => 0 case MarketNotAllowed => 1 case MarketClosed => 2 case MarketNotResolved => 3
    case TooCloseToClose => 4 case ActionDisabled => 5 case HoldingsInsufficient => 6 case QuantityLimit => 7
    case TradeCostLimit => 8 case SlippageLimit => 9 case QuoteStale => 10 case TotalSpendLimit => 11
    case WindowSpendLimit => 12 case PositionLimit => 13 case WorstCaseLossLimit => 14 case GasFeeLimit => 15
    case GasReserve => 16 case PendingLimit => 17
  }

  lemma RankIndexes(v: Violation)
    ensures Rank(v) < |VIOLATIONS| && VIOLATIONS[Rank(v)] == v
  {
  }

  /** `evaluate_policy`: exactly the codes that apply, each once, in the protocol's order. */
  method EvaluatePolicy(in_: Input) returns (out: seq<Violation>)
    ensures forall v :: v in out <==> Violates(in_, v)
    ensures forall i, j :: 0 <= i < j < |out| ==> Rank(out[i]) < Rank(out[j])
  {
    var held := SumHeld(in_.holdings, in_.candidate.claim);
    var market := MarketViolations(in_);
    var trade := TradeViolations(in_, held);
    var buy := BuyViolations(in_, held);
    var late := LateViolations(in_);
    FourParts(Applying(in_), market, trade, buy, late);
    out := InOrder(market + trade + buy + late);
  }

  /** Every code is checked in exactly one of the four parts. */
  lemma FourParts(applying: set<Violation>, market: set<Violation>, trade: set<Violation>, buy: set<Violation>,
                  late: set<Violation>)
    requires market == applying * {ServiceLimit, MarketNotAllowed, MarketClosed, MarketNotResolved, TooCloseToClose}
    requires trade == applying * {ActionDisabled, HoldingsInsufficient, QuantityLimit, TradeCostLimit, SlippageLimit,
                                  QuoteStale}
    requires buy == applying * {TotalSpendLimit, WindowSpendLimit, PositionLimit, WorstCaseLossLimit}
    requires late == applying * {GasFeeLimit, GasReserve, PendingLimit}
    ensures market + trade + buy + late == applying
  {
    forall v | v in applying ensures v in market + trade + buy + late {
      RankIndexes(v);
      match v
      case ServiceLimit | MarketNotAllowed | MarketClosed | MarketNotResolved | TooCloseToClose =>
      case ActionDisabled | HoldingsInsufficient | QuantityLimit | TradeCostLimit | SlippageLimit | QuoteStale =>
      case TotalSpendLimit | WindowSpendLimit | PositionLimit | WorstCaseLossLimit =>
      case GasFeeLimit | GasReserve | PendingLimit =>
    }
  }

  method InOrder(found: set<Violation>) returns (out: seq<Violation>)
    ensures forall v :: v in out <==> v in found
    ensures forall i, j :: 0 <= i < j < |out| ==> Rank(out[i]) < Rank(out[j])
  {
    out := [];
    for k := 0 to |VIOLATIONS|
      invariant forall v :: v in out <==> v in found && Rank(v) < k
      invariant forall i, j :: 0 <= i < j < |out| ==> Rank(out[i]) < Rank(out[j])
    {
      assert Rank(VIOLATIONS[k]) == k;
      forall v | Rank(v) == k ensures v == VIOLATIONS[k] {
        RankIndexes(v);
      }
      if VIOLATIONS[k] in found {
        assert forall i :: 0 <= i < |out| ==> out[i] in out;
        out := out + [VIOLATIONS[k]];
      }
    }
    forall v ensures Rank(v) < |VIOLATIONS| {
      RankIndexes(v);
    }
  }

  // ---- The published policy ----

  datatype Published = Published(paused: bool, liveEnabled: bool, maxTradeCost: Option<int>, windows: seq<Window>)

  datatype Reason = LocalPaperMode | PolicyStale | LiveDisabled | Paused

  datatype Effective = Effective(maxTradeCost: int, windows: seq<Window>, reason: Option<Reason>)

  /** `effective_policy` on the local limits. */
  function EffectivePolicy(live: bool, local: Limits, published: Option<Published>, readAt: Option<int>, now: int,
                           maxAge: int): Effective {
    var cost :=
      if published.Some? && published.value.maxTradeCost.Some?
          && published.value.maxTradeCost.value < local.maxTradeCost
      then published.value.maxTradeCost.value else local.maxTradeCost;
    var windows := local.windows + if published.Some? then published.value.windows else [];
    var stale := readAt.None? || now - readAt.value > maxAge;
    var reason :=
      if !live then Some(LocalPaperMode)
      else if published.None? then Some(PolicyStale)
      else if !published.value.liveEnabled then Some(LiveDisabled)
      else if published.value.paused then Some(Paused)
      else if stale then Some(PolicyStale)
      else None;
    Effective(cost, windows, reason)
  }

  /** The limits the executor plans with (runner.cpp, `Controls::policy`). */
  function Tightened(local: Limits, e: Effective): Limits {
    local.(maxTradeCost := e.maxTradeCost, windows := e.windows)
  }

  /** The published policy only tightens. With it an order is refused for what the local limits refuse it for, and
      besides only when a buy passes the published cost limit or a published window. */
  lemma PublishedOnlyTightens(in_: Input, live: bool, published: Option<Published>, readAt: Option<int>, now: int,
                              maxAge: int, v: Violation)
    ensures var e := EffectivePolicy(live, in_.limits, published, readAt, now, maxAge);
            Violates(in_.(limits := Tightened(in_.limits, e)), v) <==>
              || Violates(in_, v)
              || (v == TradeCostLimit && in_.candidate.action == Buy && published.Some?
                  && published.value.maxTradeCost.Some?
                  && in_.candidate.limit > published.value.maxTradeCost.value)
              || (v == WindowSpendLimit && in_.candidate.action == Buy && published.Some?
                  && exists i :: 0 <= i < |published.value.windows| && OverWindow(in_, published.value.windows[i]))
  {
    var e := EffectivePolicy(live, in_.limits, published, readAt, now, maxAge);
    var tight := in_.(limits := Tightened(in_.limits, e));
    if v == WindowSpendLimit {
      WindowsAdd(in_, tight, if published.Some? then published.value.windows else []);
    } else if v == WorstCaseLossLimit {
      LossIsSame(in_, Tightened(in_.limits, e));
    }
  }

  /** Live actions need a fresh, enabled and unpaused published policy, and the first thing that fails is named. */
  lemma LiveNeeds(live: bool, local: Limits, published: Option<Published>, readAt: Option<int>, now: int, maxAge: int)
    ensures var reason := EffectivePolicy(live, local, published, readAt, now, maxAge).reason;
            var enabled := live && published.Some? && published.value.liveEnabled;
            var recent := readAt.Some? && now <= readAt.value + maxAge;
            && (reason == None <==> enabled && !published.value.paused && recent)
            && (reason == Some(LocalPaperMode) <==> !live)
            && (reason == Some(LiveDisabled) <==> live && published.Some? && !published.value.liveEnabled)
            && (reason == Some(Paused) <==> enabled && published.value.paused)
            && (reason == Some(PolicyStale) <==> (live && published.None?)
                                                 || (enabled && !published.value.paused && !recent))
  {
  }

  lemma WindowsAdd(in_: Input, tight: Input, more: seq<Window>)
    requires tight.limits.windows == in_.limits.windows + more && tight == in_.(limits := tight.limits)
    ensures Violates(tight, WindowSpendLimit) <==>
              || Violates(in_, WindowSpendLimit)
              || (in_.candidate.action == Buy && exists i :: 0 <= i < |more| && OverWindow(in_, more[i]))
  {
    var local, all := in_.limits.windows, tight.limits.windows;
    forall w ensures OverWindow(tight, w) <==> OverWindow(in_, w) {
    }
    forall i | 0 <= i < |all| ensures all[i] == if i < |local| then local[i] else more[i - |local|] {
    }
    forall i | 0 <= i < |more| ensures more[i] == all[|local| + i] {
    }
    forall i | 0 <= i < |local| ensures local[i] == all[i] {
    }
  }

  lemma LossIsSame(in_: Input, limits: Limits)
    requires limits.maxWorstCaseLoss == in_.limits.maxWorstCaseLoss
    ensures Violates(in_, WorstCaseLossLimit) <==> Violates(in_.(limits := limits), WorstCaseLossLimit)
  {
    var tight := in_.(limits := limits);
    forall state: set<nat> ensures LossIn(tight, state) == LossIn(in_, state) {
      LossIgnoresLimits(in_, limits, Mentioned(in_), state);
      assert Mentioned(tight) == Mentioned(in_);
    }
  }

  lemma {:induction false} LossIgnoresLimits(in_: Input, limits: Limits, claims: set<Claim>, state: set<nat>)
    ensures Payout(in_.(limits := limits), claims, state) == Payout(in_, claims, state)
    decreases |claims|
  {
    if claims != {} {
      var c :| c in claims;
      PayoutPeel(in_, claims, state, c);
      PayoutPeel(in_.(limits := limits), claims, state, c);
      LossIgnoresLimits(in_, limits, claims - {c}, state);
    }
  }
}
