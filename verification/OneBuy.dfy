/** A run with one buy from plan to confirmation: ten of a claim for five. Other runs go on from here. */
module OneBuy {
  import opened Wrappers
  import opened Scopes
  import opened Policy
  import opened Recovery
  import opened Journal
  import opened Protocol
  import opened SpendSafety
  import opened ExecutionRuns

  const CONFIG: Config := Config(9, 100, [], 5)
  const MARKET: Market := Market(2, 2, 1000, true, false)

  function LimitsOf(maxPosition: int, maxLoss: int): Limits {
    Limits({2}, 100, 100, 100, 100, [], maxPosition, maxLoss, 100, 0, 100, 0, 5, true, true)
  }

  /** A quote that read no holdings. */
  function QuoteOf(maxPosition: int, maxLoss: int): Quote {
    Quote(LimitsOf(maxPosition, maxLoss), 0, MARKET, 100, [])
  }

  /** The claim that event 0 happens, or that it does not. */
  function ClaimOf(yes: bool): Claim {
    Claim({0}, if yes then {1} else {0})
  }

  lemma PaysWhen(yes: bool, state: set<nat>)
    ensures PaysIn(ClaimOf(yes), state) <==> (0 in state) == yes
  {
    assert Least({0}) == 0 && {0} - {0} == {};
    assert Project({}, state) == 0;
  }

  function OrderOf(yes: bool): Order {
    Order(Buy, 2, 5, ClaimOf(yes), 10, 5, 100, 10, 0, 1, 1, 1)
  }

  lemma OrderBuilds(yes: bool)
    ensures Builds(OrderOf(yes), MARKET)
  {
    assert |ClaimOf(yes).scope| == 1 && Pow2(1) == 2;
    assert 0 in Range(2) && 1 in Range(2);
    assert (if yes then 0 else 1) !in ClaimOf(yes).mask;
  }

  function PlannedBuy(id: nat, yes: bool): Entry {
    PlannedEntry(OrderOf(yes), id, 0, 0)
  }

  function SignedBuy(id: nat, yes: bool): Entry {
    PlannedBuy(id, yes).(status := Signed, nonce := Some(id), raw := Some(TxOf(PlannedBuy(id, yes), id)))
  }

  function ConfirmedBuy(id: nat, yes: bool): Entry {
    SignedBuy(id, yes).(status := Confirmed, finalAt := Some(0), cost := Some(5))
  }

  function MinedBuy(id: nat, yes: bool): Record {
    Record(SignedBuy(id, yes).raw.value, true, 5, [Log(5, Some(Traded(9, ClaimOf(yes), true, 10, 5)))], 0, 50)
  }

  predicate Stands(w: World, entries: seq<Entry>, records: seq<Record>, points: seq<Point>) {
    w.entries == entries && w.records == records && w.points == points
  }

  // ---- What a plan has to pass ----

  /** All that the checks of these plans depend on. */
  lemma PlanPasses(maxPosition: int, maxLoss: int, entries: seq<Entry>, yes: bool)
    requires Total(Views(entries), Spend) <= 95 && Total(Views(entries), Pending) < 5
    requires Total(Views(entries), PendingOf(2, ClaimOf(yes))) + 10 <= maxPosition
    requires forall state: set<nat> ::
             LossIn(InputOf(QuoteOf(maxPosition, maxLoss), entries, OrderOf(yes)), state) <= maxLoss
    ensures forall v :: !Refuses(QuoteOf(maxPosition, maxLoss), entries, OrderOf(yes), v)
  {
    forall v ensures !Violates(InputOf(QuoteOf(maxPosition, maxLoss), entries, OrderOf(yes)), v) {
    }
  }

  /** At least the claim's own position is paid. */
  lemma PaysAtLeast(in_: Input, c: Claim, state: set<nat>)
    requires c in Mentioned(in_)
    ensures Payout(in_, Mentioned(in_), state) >= Gain(in_, c, state) >= 0
  {
    PayoutPeel(in_, Mentioned(in_), state, c);
    PayoutNonnegative(in_, Mentioned(in_) - {c}, state);
  }

  lemma CostBounds(in_: Input, state: set<nat>)
    ensures LossIn(in_, state) <= CostBasis(in_)
  {
    PayoutNonnegative(in_, Mentioned(in_), state);
  }

  // ---- The steps ----

  lemma PlanStep(w: World, maxPosition: int, maxLoss: int, id: nat, yes: bool, w': World)
    requires Reachable(CONFIG, w) && ChainOk(CONFIG, w) && FreshId(w.entries, id)
    requires forall v :: !Refuses(QuoteOf(maxPosition, maxLoss), w.entries, OrderOf(yes), v)
    requires w' == WithEntries(w, w.entries + [PlannedBuy(id, yes)])
    ensures Reachable(CONFIG, w') && ChainOk(CONFIG, w')
  {
    OrderBuilds(yes);
    EntriesKeepChain(CONFIG, w, w.entries + [PlannedBuy(id, yes)]);
    Continues(CONFIG, w, Step.Plan(QuoteOf(maxPosition, maxLoss), OrderOf(yes), id, 0), w');
  }

  /** The last entry, planned with the next nonce as its id, is signed. */
  lemma SignStep(w: World, before: seq<Entry>, id: nat, yes: bool, w': World)
    requires Reachable(CONFIG, w) && ChainOk(CONFIG, w) && w.entries == before + [PlannedBuy(id, yes)]
    requires forall e :: e in before ==> e.id != id && !Unfinished(e.status)
    requires w' == WithEntries(w, before + [SignedBuy(id, yes)])
    ensures Reachable(CONFIG, w') && ChainOk(CONFIG, w') && SignedBuy(id, yes) in w'.seen
  {
    FindIs(w.entries, id, |before|);
    assert w.entries[|before| := SignedBuy(id, yes)] == before + [SignedBuy(id, yes)];
    assert IsHighest(w.entries, None);
    EntriesKeepChain(CONFIG, w, w'.entries);
    assert (before + [SignedBuy(id, yes)])[|before|] == SignedBuy(id, yes);
    Continues(CONFIG, w, Step.Sign(id, Gate(true, true, true), None, id, 0), w');
  }

  lemma BlockStep(w: World, r: Record, number: nat, w': World)
    requires Reachable(CONFIG, w) && ChainOk(CONFIG, w)
    requires r.tx.nonce == |w.records| && ByContract(CONFIG, r) && r.time == Head(w).time
    requires w' == w.(records := w.records + [r], points := w.points + [Point(|w.records| + 1, number, r.time)])
    ensures Reachable(CONFIG, w') && ChainOk(CONFIG, w')
  {
    LongerChain(w, r, number, w');
    Continues(CONFIG, w, Block([r], Point(|w.records| + 1, number, r.time)), w');
  }

  lemma LongerChain(w: World, r: Record, number: nat, w': World)
    requires ChainOk(CONFIG, w) && r.tx.nonce == |w.records| && ByContract(CONFIG, r) && r.time == Head(w).time
    requires w' == w.(records := w.records + [r], points := w.points + [Point(|w.records| + 1, number, r.time)])
    ensures ChainOk(CONFIG, w')
  {
    forall k, i | 0 <= k < |w'.points| && w'.points[k].count <= i < |w'.records|
      ensures w'.points[k].time <= w'.records[i].time
    {
      assert w'.points[k] == w.points[k];
    }
  }

  lemma MinedIsLegal(id: nat, yes: bool)
    ensures ByContract(CONFIG, MinedBuy(id, yes))
  {
    assert MinedBuy(id, yes).logs == [Log(5, Some(Traded(9, ClaimOf(yes), true, 10, 5)))];
  }

  /** The reconciliation of entry k, from a copy of it, on reads of the last moment. */
  lemma ReconcileStep(w: World, k: nat, r: Reads, effect: Effect, e: Entry, w': World)
    requires Reachable(CONFIG, w) && ChainOk(CONFIG, w) && Find(w.entries, k) == Some(k) && w.entries[k] in w.seen
    requires var last := |w.points| - 1;
      r == ReadsOf(w, w.entries[k].raw, ReadAt(last, last, last, last), false, None)
    requires StepOf(w.entries[k], r) != Advice(Replaced, Release) && Verified(CONFIG, w.entries[k], r, effect)
    requires w.entries[k].id == k && e == ReconciledEntry(w.entries[k], w.entries[k], r, effect, 0, 0)
    requires w' == WithEntries(w, w.entries[k := e])
    ensures Reachable(CONFIG, w') && ChainOk(CONFIG, w')
  {
    var last := |w.points| - 1;
    EntriesKeepChain(CONFIG, w, w'.entries);
    Continues(CONFIG, w, Step.Reconcile(w.entries[k], ReadAt(last, last, last, last), false, None, effect, 0, 0), w');
  }

  // ---- The run ----

  lemma NothingPlanned(maxPosition: int, maxLoss: int, yes: bool)
    requires maxPosition >= 10 && maxLoss >= 5
    ensures forall v :: !Refuses(QuoteOf(maxPosition, maxLoss), [], OrderOf(yes), v)
  {
    assert Views([]) == [];
    forall state: set<nat> ensures LossIn(InputOf(QuoteOf(maxPosition, maxLoss), [], OrderOf(yes)), state) <= maxLoss {
      CostBounds(InputOf(QuoteOf(maxPosition, maxLoss), [], OrderOf(yes)), state);
    }
    PlanPasses(maxPosition, maxLoss, [], yes);
  }

  lemma ShownEffect(id: nat, yes: bool, r: Reads)
    requires r == Reads(1, 50, Some(Receipt(true, MinedBuy(id, yes).logs, 0)), true, 1, None)
    ensures Verified(CONFIG, SignedBuy(id, yes), r, Effect(Confirmed, Some(5)))
    ensures StepOf(SignedBuy(id, yes), r).next == Verify
  {
    var in_ := IntentOf(SignedBuy(id, yes), 9);
    assert Shows(in_, MinedBuy(id, yes).logs[0]);
  }

  lemma BuyPlanned(maxPosition: int, maxLoss: int, yes: bool) returns (w: World)
    requires maxPosition >= 10 && maxLoss >= 5
    ensures Reachable(CONFIG, w) && ChainOk(CONFIG, w) && Stands(w, [PlannedBuy(0, yes)], [], [Point(0, 0, 50)])
  {
    var w0 := World([], [], [Point(0, 0, 50)], {}, {});
    Begins(CONFIG, w0);
    NothingPlanned(maxPosition, maxLoss, yes);
    w := WithEntries(w0, [] + [PlannedBuy(0, yes)]);
    PlanStep(w0, maxPosition, maxLoss, 0, yes, w);
  }

  lemma BuySigned(maxPosition: int, maxLoss: int, yes: bool) returns (w: World)
    requires maxPosition >= 10 && maxLoss >= 5
    ensures Reachable(CONFIG, w) && ChainOk(CONFIG, w) && SignedBuy(0, yes) in w.seen
    ensures Stands(w, [SignedBuy(0, yes)], [], [Point(0, 0, 50)])
  {
    var before := BuyPlanned(maxPosition, maxLoss, yes);
    w := WithEntries(before, [] + [SignedBuy(0, yes)]);
    SignStep(before, [], 0, yes, w);
  }

  lemma BuyMined(maxPosition: int, maxLoss: int, yes: bool) returns (w: World)
    requires maxPosition >= 10 && maxLoss >= 5
    ensures Reachable(CONFIG, w) && ChainOk(CONFIG, w) && SignedBuy(0, yes) in w.seen
    ensures Stands(w, [SignedBuy(0, yes)], [MinedBuy(0, yes)], [Point(0, 0, 50), Point(1, 1, 50)])
  {
    var before := BuySigned(maxPosition, maxLoss, yes);
    MinedIsLegal(0, yes);
    w := before.(records := [] + [MinedBuy(0, yes)], points := [Point(0, 0, 50)] + [Point(1, 1, 50)]);
    BlockStep(before, MinedBuy(0, yes), 1, w);
  }

  /** The buy is confirmed at its cost. */
  lemma BuyConfirmed(maxPosition: int, maxLoss: int, yes: bool) returns (w: World)
    requires maxPosition >= 10 && maxLoss >= 5
    ensures Reachable(CONFIG, w) && ChainOk(CONFIG, w)
    ensures Stands(w, [ConfirmedBuy(0, yes)], [MinedBuy(0, yes)], [Point(0, 0, 50), Point(1, 1, 50)])
  {
    var before := BuyMined(maxPosition, maxLoss, yes);
    var r := Reads(1, 50, Some(Receipt(true, MinedBuy(0, yes).logs, 0)), true, 1, None);
    FindIs(before.entries, 0, 0);
    ShownEffect(0, yes, r);
    w := WithEntries(before, before.entries[0 := ConfirmedBuy(0, yes)]);
    ReconcileStep(before, 0, r, Effect(Confirmed, Some(5)), ConfirmedBuy(0, yes), w);
  }
}
