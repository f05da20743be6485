/** The worst-case loss over runs of the protocol: exactly how each update of the journal moves it, the steps that
    keep a bound on it, and a run of the code in which the others break the limit that every plan respected. */
module LossRuns {
  import opened Wrappers
  import opened Scopes
  import opened Policy
  import opened Journal
  import opened Protocol
  import opened SpendSafety
  import opened ExecutionRuns

  // ---- The loss of a journal ----

  const NO_LIMITS: Limits := Limits({}, 0, 0, 0, 0, [], 0, 0, 0, 0, 0, 0, 0, false, false)

  /** A journal with nothing more to buy. */
  function Standing(entries: seq<Entry>, market: Market): Input {
    Input(NO_LIMITS, 0, market, 0, [], Views(entries), Candidate(Buy, market.name, Claim({}, {}), 0, 0, 0, 0, 0, 0))
  }

  /** What the journal loses in one outcome, unfinished buys counted as filled. */
  ghost function LossOf(entries: seq<Entry>, market: Market, state: set<nat>): int {
    LossIn(Standing(entries, market), state)
  }

  ghost predicate LossWithin(entries: seq<Entry>, market: Market, limit: int) {
    forall state: set<nat> :: state <= Range(market.events) ==> LossOf(entries, market, state) <= limit
  }

  ghost function NetOf(entries: seq<Entry>, market: Market, c: Claim): int {
    Sum(Views(entries), market.name, Net(c))
  }

  ghost function BasisOf(entries: seq<Entry>, market: Market): int {
    Sum(Views(entries), market.name, Basis)
  }

  /** What a position pays in one outcome. */
  function Pays(position: int, c: Claim, state: set<nat>): int {
    if position > 0 && PaysIn(c, state) then position else 0
  }

  lemma {:induction false} Unmentioned(journal: seq<PolicyEntry>, market: nat, c: Claim)
    requires forall e :: e in journal && e.market == market ==> e.claim != Some(c)
    ensures Sum(journal, market, Net(c)) == 0
  {
    if journal != [] {
      var n := |journal| - 1;
      assert journal[n] in journal && forall e :: e in journal[..n] ==> e in journal;
      Unmentioned(journal[..n], market, c);
    }
  }

  /** No further claim pays anything. */
  lemma FlatBeyond(in_: Input, c: Claim)
    requires c !in Mentioned(in_)
    ensures Position(in_, c) == 0
  {
    forall e | e in in_.journal && e.market == in_.market.name ensures e.claim != Some(c) {
    }
    Unmentioned(in_.journal, in_.market.name, c);
  }

  lemma {:induction false} SameGains(a: Input, b: Input, claims: set<Claim>, state: set<nat>)
    requires forall c :: c in claims ==> Position(a, c) == Position(b, c)
    ensures Payout(a, claims, state) == Payout(b, claims, state)
    decreases |claims|
  {
    if claims != {} {
      var c :| c in claims;
      PayoutPeel(a, claims, state, c);
      PayoutPeel(b, claims, state, c);
      SameGains(a, b, claims - {c}, state);
    }
  }

  lemma PayoutBeyond(in_: Input, more: set<Claim>, state: set<nat>)
    requires Mentioned(in_) <= more
    ensures Payout(in_, more, state) == Payout(in_, Mentioned(in_), state)
  {
    forall c | c in more - Mentioned(in_) ensures Position(in_, c) <= 0 {
      FlatBeyond(in_, c);
    }
    PayoutIgnoresFlat(in_, Mentioned(in_), more, state);
  }

  /** Inputs with the same positions pay the same, whatever claims they mention. */
  lemma SamePositionsPay(a: Input, b: Input, state: set<nat>)
    requires forall c :: Position(a, c) == Position(b, c)
    ensures Payout(a, Mentioned(a), state) == Payout(b, Mentioned(b), state)
  {
    var more := Mentioned(a) + Mentioned(b);
    PayoutBeyond(a, more, state);
    PayoutBeyond(b, more, state);
    SameGains(a, b, more, state);
  }

  lemma PositionIsNet(entries: seq<Entry>, market: Market, c: Claim)
    ensures Position(Standing(entries, market), c) == NetOf(entries, market, c)
  {
  }

  /** The same net quantities and no more cost: no more loss in any outcome. */
  lemma LossFollows(before: seq<Entry>, after: seq<Entry>, market: Market, state: set<nat>)
    requires forall c :: NetOf(after, market, c) == NetOf(before, market, c)
    requires BasisOf(after, market) <= BasisOf(before, market)
    ensures LossOf(after, market, state) <= LossOf(before, market, state)
  {
    forall c ensures Position(Standing(after, market), c) == Position(Standing(before, market), c) {
      PositionIsNet(after, market, c);
      PositionIsNet(before, market, c);
    }
    SamePositionsPay(Standing(after, market), Standing(before, market), state);
  }

  // ---- Exactly what an update moves ----

  lemma {:induction false} SumUpdate(journal: seq<PolicyEntry>, market: nat, what: Measure, k: nat, v: PolicyEntry)
    requires k < |journal|
    ensures Sum(journal[k := v], market, what)
         == Sum(journal, market, what) - Amount(journal[k], market, what) + Amount(v, market, what)
  {
    var last := |journal| - 1;
    if k == last {
      assert journal[k := v][..last] == journal[..last];
    } else {
      SumUpdate(journal[..last], market, what, k, v);
      assert journal[k := v][..last] == journal[..last][k := v];
    }
  }

  lemma UpdatedSum(entries: seq<Entry>, k: nat, e: Entry, market: Market, what: Measure)
    requires k < |entries|
    ensures Sum(Views(entries[k := e]), market.name, what)
         == Sum(Views(entries), market.name, what)
            - Amount(ViewOf(entries[k]), market.name, what) + Amount(ViewOf(e), market.name, what)
  {
    assert Views(entries[k := e]) == Views(entries)[k := ViewOf(e)];
    SumUpdate(Views(entries), market.name, what, k, ViewOf(e));
  }

  /** Two inputs that differ in the position of one claim differ in what that position pays. */
  lemma OneGain(a: Input, b: Input, c: Claim, state: set<nat>)
    requires c in Mentioned(a) && c in Mentioned(b) && forall d :: d != c ==> Position(a, d) == Position(b, d)
    ensures Payout(a, Mentioned(a), state) - Pays(Position(a, c), c, state)
         == Payout(b, Mentioned(b), state) - Pays(Position(b, c), c, state)
  {
    var more := Mentioned(a) + Mentioned(b);
    PayoutBeyond(a, more, state);
    PayoutBeyond(b, more, state);
    PayoutPeel(a, more, state, c);
    PayoutPeel(b, more, state, c);
    SameGains(a, b, more - {c}, state);
  }

  lemma MentionedAt(entries: seq<Entry>, market: Market, k: nat)
    requires k < |entries| && entries[k].market == market.name && entries[k].claim.Some?
    ensures entries[k].claim.value in Mentioned(Standing(entries, market))
  {
    assert Views(entries)[k] in Views(entries);
  }

  /** An update moves the loss by the change of cost, less the change of what the position of its claim pays. */
  lemma UpdateMovesLoss(entries: seq<Entry>, k: nat, e: Entry, market: Market, c: Claim, state: set<nat>)
    requires k < |entries| && entries[k].claim == e.claim == Some(c) && entries[k].market == e.market == market.name
    ensures LossOf(entries[k := e], market, state) - LossOf(entries, market, state)
         == Amount(ViewOf(e), market.name, Basis) - Amount(ViewOf(entries[k]), market.name, Basis)
            - (Pays(NetOf(entries[k := e], market, c), c, state) - Pays(NetOf(entries, market, c), c, state))
  {
    var after := entries[k := e];
    UpdatedSum(entries, k, e, market, Basis);
    forall d | d != c ensures Position(Standing(after, market), d) == Position(Standing(entries, market), d) {
      UpdatedSum(entries, k, e, market, Net(d));
    }
    MentionedAt(entries, market, k);
    MentionedAt(after, market, k);
    PositionIsNet(entries, market, c);
    PositionIsNet(after, market, c);
    OneGain(Standing(entries, market), Standing(after, market), c, state);
  }

  /** A release of an unfinished buy takes its limit back, and with it what its quantity would have paid. */
  lemma ReleaseMovesLoss(entries: seq<Entry>, k: nat, e: Entry, market: Market, c: Claim, state: set<nat>)
    requires k < |entries| && entries[k].claim == e.claim == Some(c) && entries[k].market == e.market == market.name
    requires entries[k].action == e.action == Buy && Unfinished(entries[k].status) && Released(e.status)
    ensures var net := NetOf(entries, market, c);
      LossOf(entries[k := e], market, state)
      == LossOf(entries, market, state) - entries[k].limit
         + Pays(net, c, state) - Pays(net - entries[k].quantity, c, state)
  {
    UpdateMovesLoss(entries, k, e, market, c, state);
    UpdatedSum(entries, k, e, market, Net(c));
  }

  // ---- The steps that keep a bound ----

  /** The updates that can raise a loss: an unfinished buy that is given up, or a sale or redemption that is
      confirmed. */
  predicate Loses(before: Entry, after: Entry, market: nat) {
    && before.market == market && before.claim.Some?
    && if before.action == Buy then Unfinished(before.status) && !Unfinished(after.status) && after.status != Confirmed
       else before.status != Confirmed && after.status == Confirmed
  }

  lemma KeptAmounts(before: Entry, after: Entry, market: nat, c: Claim)
    requires Advances(before, after) && !Loses(before, after, market)
    ensures Amount(ViewOf(after), market, Net(c)) == Amount(ViewOf(before), market, Net(c))
    ensures Amount(ViewOf(after), market, Basis) <= Amount(ViewOf(before), market, Basis)
  {
  }

  ghost predicate Quiet(before: seq<Entry>, after: seq<Entry>, market: nat) {
    && AllFollow(before, after)
    && forall k :: 0 <= k < |before| ==> !Loses(before[k], after[k], market)
  }

  lemma {:induction false} KeptSums(before: seq<Entry>, after: seq<Entry>, market: Market, c: Claim)
    requires |after| == |before| && Quiet(before, after, market.name)
    ensures NetOf(after, market, c) == NetOf(before, market, c) && BasisOf(after, market) <= BasisOf(before, market)
  {
    if before != [] {
      var n := |before| - 1;
      KeptSums(before[..n], after[..n], market, c);
      KeptAmounts(before[n], after[n], market.name, c);
      assert Views(before)[..n] == Views(before[..n]) && Views(after)[..n] == Views(after[..n]);
    }
  }

  lemma QuietKeepsLoss(before: seq<Entry>, after: seq<Entry>, market: Market, state: set<nat>)
    requires |after| == |before| && Quiet(before, after, market.name)
    ensures LossOf(after, market, state) <= LossOf(before, market, state)
  {
    forall c ensures NetOf(after, market, c) == NetOf(before, market, c) {
      KeptSums(before, after, market, c);
    }
    KeptSums(before, after, market, Claim({}, {}));
    LossFollows(before, after, market, state);
  }

  lemma AppendedSum(entries: seq<Entry>, e: Entry, market: Market, what: Measure)
    ensures Sum(Views(entries + [e]), market.name, what)
         == Sum(Views(entries), market.name, what) + Amount(ViewOf(e), market.name, what)
  {
    assert Views(entries + [e])[..|entries|] == Views(entries);
  }

  /** A plan of anything but a buy in the market costs and holds nothing there. */
  lemma OtherPlanKeepsLoss(entries: seq<Entry>, e: Entry, market: Market, state: set<nat>)
    requires e.status == Planned && !(e.action == Buy && e.market == market.name)
    ensures LossOf(entries + [e], market, state) <= LossOf(entries, market, state)
  {
    forall c ensures NetOf(entries + [e], market, c) == NetOf(entries, market, c) {
      AppendedSum(entries, e, market, Net(c));
    }
    AppendedSum(entries, e, market, Basis);
    LossFollows(entries, entries + [e], market, state);
  }

  /** The loss that a plan leaves is the loss of the journal it leaves. */
  lemma PlannedLoss(q: Quote, entries: seq<Entry>, o: Order, id: nat, owner: nat, market: Market, state: set<nat>)
    requires o.action == Buy && q.market.name == market.name
    ensures LossIn(PlannedInput(q, entries, o, id, owner), state)
         == LossOf(entries + [PlannedEntry(o, id, owner, q.now)], market, state)
  {
    var planned := PlannedInput(q, entries, o, id, owner);
    var standing := Standing(entries + [PlannedEntry(o, id, owner, q.now)], market);
    SamePositionsPay(planned, standing, state);
  }

  /** A buy is planned in the market under at most this limit and with the market's own outcomes. */
  predicate PlansWithin(step: Step, market: Market, limit: int) {
    step.Plan? && step.o.action == Buy && step.o.market == market.name ==>
      step.q.limits.maxWorstCaseLoss <= limit && step.q.market.events == market.events
  }

  lemma BuyKeepsLoss(q: Quote, entries: seq<Entry>, o: Order, id: nat, owner: nat, market: Market, limit: int)
    requires o.action == Buy && o.market == market.name && forall v :: !Refuses(q, entries, o, v)
    requires q.limits.maxWorstCaseLoss <= limit && q.market.events == market.events
    ensures LossWithin(entries + [PlannedEntry(o, id, owner, q.now)], market, limit)
  {
    assert !Refuses(q, entries, o, MarketNotAllowed);
    PassedMarket(InputOf(q, entries, o));
    forall state: set<nat> | state <= Range(market.events)
      ensures LossOf(entries + [PlannedEntry(o, id, owner, q.now)], market, state) <= limit
    {
      PlannedBuyBoundsLoss(q, entries, o, id, owner, state);
      PlannedLoss(q, entries, o, id, owner, market, state);
    }
  }

  lemma PlanKeepsLoss(q: Quote, entries: seq<Entry>, o: Order, id: nat, owner: nat, market: Market, limit: int)
    requires LossWithin(entries, market, limit) && PlansWithin(Step.Plan(q, o, id, owner), market, limit)
    requires forall v :: !Refuses(q, entries, o, v)
    ensures LossWithin(entries + [PlannedEntry(o, id, owner, q.now)], market, limit)
  {
    var e := PlannedEntry(o, id, owner, q.now);
    if o.action == Buy && o.market == market.name {
      BuyKeepsLoss(q, entries, o, id, owner, market, limit);
    } else {
      forall state: set<nat> | state <= Range(market.events) ensures LossOf(entries + [e], market, state) <= limit {
        OtherPlanKeepsLoss(entries, e, market, state);
      }
    }
  }

  lemma UpdatesKeepLoss(before: seq<Entry>, after: seq<Entry>, market: Market, limit: int)
    requires |after| == |before| && Quiet(before, after, market.name) && LossWithin(before, market, limit)
    ensures LossWithin(after, market, limit)
  {
    forall state: set<nat> | state <= Range(market.events) ensures LossOf(after, market, state) <= limit {
      QuietKeepsLoss(before, after, market, state);
    }
  }

  lemma OnlyPlansAppend(cfg: Config, w: World, step: Step, w': World)
    requires ChainOk(cfg, w) && Moves(cfg, w, step, w') && !step.Plan?
    ensures |w'.entries| == |w.entries|
  {
  }

  /** Every step keeps the bound, unless it gives up an unfinished buy of the market or confirms a sale there. */
  lemma NextKeepsLoss(cfg: Config, w: World, step: Step, w': World, market: Market, limit: int)
    requires Inv(cfg, w) && Next(cfg, w, step, w') && LossWithin(w.entries, market, limit)
    requires PlansWithin(step, market, limit)
    requires forall k :: 0 <= k < |w.entries| && k < |w'.entries| ==> !Loses(w.entries[k], w'.entries[k], market.name)
    ensures LossWithin(w'.entries, market, limit)
  {
    if step.Plan? {
      PlanKeepsLoss(step.q, w.entries, step.o, step.id, step.owner, market, limit);
    } else {
      NextFollows(cfg, w, step, w');
      OnlyPlansAppend(cfg, w, step, w');
      UpdatesKeepLoss(w.entries, w'.entries, market, limit);
    }
  }

  /** What a step of a run does to the market. */
  ghost predicate QuietAt(worlds: seq<World>, steps: seq<Step>, market: Market, limit: int, i: nat)
    requires |worlds| == |steps| + 1 && i < |steps|
  {
    && PlansWithin(steps[i], market, limit)
    && forall k :: 0 <= k < |worlds[i].entries| && k < |worlds[i + 1].entries| ==>
         !Loses(worlds[i].entries[k], worlds[i + 1].entries[k], market.name)
  }

  /** In every run in which no unfinished buy of the market is given up and no sale is confirmed there, the journal
      loses at most the limit in every outcome, at every moment. */
  lemma {:induction false} QuietRunBoundsLoss(cfg: Config, worlds: seq<World>, steps: seq<Step>, market: Market,
                                              limit: nat, i: nat)
    requires IsRun(cfg, worlds, steps) && i < |worlds|
    requires forall j: nat :: j < i ==> QuietAt(worlds, steps, market, limit, j)
    ensures LossWithin(worlds[i].entries, market, limit)
  {
    if i == 0 {
      forall state: set<nat> ensures LossOf([], market, state) == 0 {
        EmptyLoss(market, state);
      }
    } else {
      QuietRunBoundsLoss(cfg, worlds, steps, market, limit, i - 1);
      RunInv(cfg, worlds, steps, i - 1);
      assert StepAt(cfg, worlds, steps, i - 1) && QuietAt(worlds, steps, market, limit, i - 1);
      NextKeepsLoss(cfg, worlds[i - 1], steps[i - 1], worlds[i], market, limit);
    }
  }

  lemma EmptyLoss(market: Market, state: set<nat>)
    ensures LossOf([], market, state) == 0
  {
    var in_ := Standing([], market);
    assert Views([]) == [];
    PayoutIgnoresFlat(in_, {}, Mentioned(in_), state);
  }
}
