/** A run of the code in which every plan respects the loss limit and the journal then loses twice as much: a second buy
    covers the first one, a third relies on the second, and the second is reverted. */
module LossBreach {
  import opened Wrappers
  import opened Scopes
  import opened Policy
  import opened Recovery
  import opened Journal
  import opened Protocol
  import opened ExecutionRuns
  import opened LossRuns
  import opened OneBuy

  const LIMIT: int := 5

  function RevertedBuy(): Entry {
    SignedBuy(1, true).(status := Reverted, finalAt := Some(0))
  }

  function Failed(): Record {
    Record(SignedBuy(1, true).raw.value, false, 0, [], 0, 50)
  }

  lemma SumOne(a: PolicyEntry, market: nat, what: Measure)
    ensures Sum([a], market, what) == Amount(a, market, what)
  {
    assert [a][..0] == [];
  }

  lemma SumTwo(a: PolicyEntry, b: PolicyEntry, market: nat, what: Measure)
    ensures Sum([a, b], market, what) == Amount(a, market, what) + Amount(b, market, what)
  {
    SumOne(a, market, what);
    assert [a, b][..1] == [a];
  }

  lemma SumThree(a: PolicyEntry, b: PolicyEntry, c: PolicyEntry, market: nat, what: Measure)
    ensures Sum([a, b, c], market, what) == Amount(a, market, what) + Amount(b, market, what) + Amount(c, market, what)
  {
    SumTwo(a, b, market, what);
    assert [a, b, c][..2] == [a, b];
  }

  lemma TotalOne(a: PolicyEntry, t: Tally)
    ensures Total([a], t) == TallyOf(a, t)
  {
    assert [a][..0] == [];
  }

  lemma TotalTwo(a: PolicyEntry, b: PolicyEntry, t: Tally)
    ensures Total([a, b], t) == TallyOf(a, t) + TallyOf(b, t)
  {
    TotalOne(a, t);
    assert [a, b][..1] == [a];
  }

  /** Of the two claims exactly one pays, so ten of each pay ten in every outcome. */
  lemma EitherPays(in_: Input, state: set<nat>)
    requires forall yes :: ClaimOf(yes) in Mentioned(in_) && Position(in_, ClaimOf(yes)) >= 10
    ensures LossIn(in_, state) <= CostBasis(in_) - 10
  {
    var c := ClaimOf(0 in state);
    PaysWhen(0 in state, state);
    PaysAtLeast(in_, c, state);
    assert Position(in_, c) >= 10;
  }

  lemma CoverLoss(in_: Input, state: set<nat>)
    requires in_ == InputOf(QuoteOf(100, LIMIT), [ConfirmedBuy(0, false)], OrderOf(true))
    ensures LossIn(in_, state) <= LIMIT
  {
    var first := ViewOf(ConfirmedBuy(0, false));
    assert in_.journal == [first] && first in in_.journal;
    SumOne(first, 2, Basis);
    SumOne(first, 2, Net(ClaimOf(false)));
    SumOne(first, 2, Net(ClaimOf(true)));
    EitherPays(in_, state);
  }

  lemma CoverPasses()
    ensures forall v :: !Refuses(QuoteOf(100, LIMIT), [ConfirmedBuy(0, false)], OrderOf(true), v)
  {
    var entries, first := [ConfirmedBuy(0, false)], ViewOf(ConfirmedBuy(0, false));
    assert Views(entries) == [first];
    TotalOne(first, Spend);
    TotalOne(first, Pending);
    TotalOne(first, PendingOf(2, ClaimOf(true)));
    forall state: set<nat> ensures LossIn(InputOf(QuoteOf(100, LIMIT), entries, OrderOf(true)), state) <= LIMIT {
      CoverLoss(InputOf(QuoteOf(100, LIMIT), entries, OrderOf(true)), state);
    }
    PlanPasses(100, LIMIT, entries, true);
  }

  lemma AgainLoss(in_: Input, state: set<nat>)
    requires in_ == InputOf(QuoteOf(100, LIMIT), [ConfirmedBuy(0, false), SignedBuy(1, true)], OrderOf(false))
    ensures LossIn(in_, state) <= LIMIT
  {
    var first, second := ViewOf(ConfirmedBuy(0, false)), ViewOf(SignedBuy(1, true));
    assert in_.journal == [first, second] && first in in_.journal && second in in_.journal;
    SumTwo(first, second, 2, Basis);
    SumTwo(first, second, 2, Net(ClaimOf(false)));
    SumTwo(first, second, 2, Net(ClaimOf(true)));
    EitherPays(in_, state);
  }

  lemma AgainPasses()
    ensures forall v :: !Refuses(QuoteOf(100, LIMIT), [ConfirmedBuy(0, false), SignedBuy(1, true)], OrderOf(false), v)
  {
    var entries := [ConfirmedBuy(0, false), SignedBuy(1, true)];
    var first, second := ViewOf(ConfirmedBuy(0, false)), ViewOf(SignedBuy(1, true));
    assert Views(entries) == [first, second];
    TotalTwo(first, second, Spend);
    TotalTwo(first, second, Pending);
    TotalTwo(first, second, PendingOf(2, ClaimOf(false)));
    forall state: set<nat> ensures LossIn(InputOf(QuoteOf(100, LIMIT), entries, OrderOf(false)), state) <= LIMIT {
      AgainLoss(InputOf(QuoteOf(100, LIMIT), entries, OrderOf(false)), state);
    }
    PlanPasses(100, LIMIT, entries, false);
  }

  lemma CoverPlanned() returns (w: World)
    ensures Reachable(CONFIG, w) && ChainOk(CONFIG, w)
    ensures Stands(w, [ConfirmedBuy(0, false), PlannedBuy(1, true)], [MinedBuy(0, false)],
                   [Point(0, 0, 50), Point(1, 1, 50)])
  {
    var before := BuyConfirmed(100, LIMIT, false);
    CoverPasses();
    w := WithEntries(before, before.entries + [PlannedBuy(1, true)]);
    PlanStep(before, 100, LIMIT, 1, true, w);
  }

  /** The cover is planned and signed. */
  lemma Covered() returns (w: World)
    ensures Reachable(CONFIG, w) && ChainOk(CONFIG, w) && SignedBuy(1, true) in w.seen
    ensures Stands(w, [ConfirmedBuy(0, false), SignedBuy(1, true)], [MinedBuy(0, false)],
                   [Point(0, 0, 50), Point(1, 1, 50)])
  {
    var before := CoverPlanned();
    w := WithEntries(before, [ConfirmedBuy(0, false)] + [SignedBuy(1, true)]);
    SignStep(before, [ConfirmedBuy(0, false)], 1, true, w);
  }

  /** The first claim is planned again, and the journal loses at most the limit in every outcome. */
  lemma BoughtAgain() returns (w: World)
    ensures Reachable(CONFIG, w) && ChainOk(CONFIG, w) && SignedBuy(1, true) in w.seen
    ensures Stands(w, [ConfirmedBuy(0, false), SignedBuy(1, true), PlannedBuy(2, false)], [MinedBuy(0, false)],
                   [Point(0, 0, 50), Point(1, 1, 50)])
    ensures LossWithin(w.entries, MARKET, LIMIT)
  {
    var before := Covered();
    AgainPasses();
    w := WithEntries(before, before.entries + [PlannedBuy(2, false)]);
    PlanStep(before, 100, LIMIT, 2, false, w);
    BuyKeepsLoss(QuoteOf(100, LIMIT), before.entries, OrderOf(false), 2, 0, MARKET, LIMIT);
  }

  /** The cover fails on the chain. */
  lemma CoverMined(before: World) returns (w: World)
    requires Reachable(CONFIG, before) && ChainOk(CONFIG, before) && SignedBuy(1, true) in before.seen
    requires Stands(before, [ConfirmedBuy(0, false), SignedBuy(1, true), PlannedBuy(2, false)], [MinedBuy(0, false)],
                    [Point(0, 0, 50), Point(1, 1, 50)])
    ensures Reachable(CONFIG, w) && ChainOk(CONFIG, w) && SignedBuy(1, true) in w.seen
    ensures Stands(w, [ConfirmedBuy(0, false), SignedBuy(1, true), PlannedBuy(2, false)],
                   [MinedBuy(0, false), Failed()],
                   [Point(0, 0, 50), Point(1, 1, 50), Point(2, 2, 50)])
  {
    w := before.(records := [MinedBuy(0, false)] + [Failed()],
                 points := [Point(0, 0, 50), Point(1, 1, 50)] + [Point(2, 2, 50)]);
    BlockStep(before, Failed(), 2, w);
  }

  lemma FailedReads(r: Reads)
    requires r == Reads(2, 50, Some(Receipt(false, [], 0)), true, 2, None)
    ensures Verified(CONFIG, SignedBuy(1, true), r, Effect(Mismatch, None))
    ensures StepOf(SignedBuy(1, true), r) == Advice(Reverted, Release)
    ensures ReconciledEntry(SignedBuy(1, true), SignedBuy(1, true), r, Effect(Mismatch, None), 0, 0) == RevertedBuy()
  {
  }

  lemma CoverReverted(mined: World) returns (after: World)
    requires Reachable(CONFIG, mined) && ChainOk(CONFIG, mined) && SignedBuy(1, true) in mined.seen
    requires Stands(mined, [ConfirmedBuy(0, false), SignedBuy(1, true), PlannedBuy(2, false)],
                    [MinedBuy(0, false), Failed()], [Point(0, 0, 50), Point(1, 1, 50), Point(2, 2, 50)])
    ensures Reachable(CONFIG, after) && after.entries == [ConfirmedBuy(0, false), RevertedBuy(), PlannedBuy(2, false)]
  {
    var r := Reads(2, 50, Some(Receipt(false, [], 0)), true, 2, None);
    FailedReads(r);
    FindIs(mined.entries, 1, 1);
    after := WithEntries(mined, mined.entries[1 := RevertedBuy()]);
    ReconcileStep(mined, 1, r, Effect(Mismatch, None), RevertedBuy(), after);
  }

  /** In the outcome where event 0 happens, the two buys that remain paid ten for nothing. */
  lemma LossAfter(entries: seq<Entry>)
    requires entries == [ConfirmedBuy(0, false), RevertedBuy(), PlannedBuy(2, false)]
    ensures LossOf(entries, MARKET, {0}) == 2 * LIMIT
  {
    var a, b, c := ViewOf(ConfirmedBuy(0, false)), ViewOf(RevertedBuy()), ViewOf(PlannedBuy(2, false));
    assert Views(entries) == [a, b, c];
    SumThree(a, b, c, 2, Basis);
    var in_ := Standing(entries, MARKET);
    forall d ensures Gain(in_, d, {0}) == 0 {
      SumThree(a, b, c, 2, Net(d));
      PaysWhen(false, {0});
    }
    NothingPaid(in_, Mentioned(in_), {0});
  }

  lemma {:induction false} NothingPaid(in_: Input, claims: set<Claim>, state: set<nat>)
    requires forall c :: Gain(in_, c, state) == 0
    ensures Payout(in_, claims, state) == 0
  {
    if claims != {} {
      var c :| c in claims;
      PayoutPeel(in_, claims, state, c);
      NothingPaid(in_, claims - {c}, state);
    }
  }

  lemma OnlyReverted(before: seq<Entry>, after: seq<Entry>)
    requires before == [ConfirmedBuy(0, false), SignedBuy(1, true), PlannedBuy(2, false)]
    requires after == [ConfirmedBuy(0, false), RevertedBuy(), PlannedBuy(2, false)]
    ensures after == before[1 := before[1].(status := Reverted, finalAt := Some(0))]
    ensures {0} <= Range(MARKET.events)
  {
    assert 0 in Range(2);
  }

  /** A reachable world whose journal lost at most the limit when the last buy was planned, and in which the revert
      of an unfinished buy then makes it lose twice the limit. */
  lemma RevertBreaksLossLimit() returns (planned: World, after: World)
    ensures Reachable(CONFIG, planned) && LossWithin(planned.entries, MARKET, LIMIT)
    ensures Reachable(CONFIG, after) && {0} <= Range(MARKET.events) && LossOf(after.entries, MARKET, {0}) == 2 * LIMIT
    ensures |planned.entries| == 3 && planned.entries[1].status == Signed
    ensures after.entries == planned.entries[1 := planned.entries[1].(status := Reverted, finalAt := Some(0))]
  {
    planned := BoughtAgain();
    var mined := CoverMined(planned);
    after := CoverReverted(mined);
    LossAfter(after.entries);
    OnlyReverted(planned.entries, after.entries);
  }
}
