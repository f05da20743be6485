/** The position limit over runs of the protocol. `plan` adds holdings read before the lock to buys pending under
    it, so a buy confirmed in between is in neither: the limit holds over every run whose plans read the holdings
    after the last confirmation of the claim, and there is a run whose plan did not and that passes it. */
module PositionRuns {
  import opened Wrappers
  import opened Policy
  import opened Journal
  import opened Protocol
  import opened SpendSafety
  import opened ExecutionRuns
  import OneBuy

  /** One claim of one market, which trades in one pool. */
  datatype Book = Book(market: nat, pool: nat, claim: Claim)

  predicate BuyOf(b: Book, e: Entry) {
    e.action == Buy && e.market == b.market && e.claim == Some(b.claim)
  }

  // ---- What the wallet holds, and what it may still come to hold ----

  /** How a mined transaction moves the wallet's holdings of the claim. */
  function Delta(b: Book, r: Record): int {
    if !r.ok || r.tx.pool != b.pool || r.tx.claim != Some(b.claim) then 0
    else
      match r.tx.action
      case Buy => r.tx.quantity
      case Sell => -r.tx.quantity
      case Redeem => -r.tx.quantity
      case Approve => 0
  }

  /** The holdings of the claim after the first transactions. */
  function HeldAt(b: Book, records: seq<Record>, count: nat): int
    requires count <= |records|
  {
    if count == 0 then 0 else HeldAt(b, records, count - 1) + Delta(b, records[count - 1])
  }

  /** What an unfinished buy may still add. */
  function OpenAmount(b: Book, e: Entry, records: seq<Record>): int {
    if BuyOf(b, e) && Unfinished(e.status) && !(e.raw.Some? && Executed(records, e.raw.value)) then e.quantity else 0
  }

  function Opens(b: Book, entries: seq<Entry>, records: seq<Record>): int {
    if entries == [] then 0
    else Opens(b, entries[..|entries| - 1], records) + OpenAmount(b, entries[|entries| - 1], records)
  }

  /** The most of the claim that the wallet holds or can still come to hold. */
  function Exposure(b: Book, w: World): int {
    HeldAt(b, w.records, |w.records|) + Opens(b, w.entries, w.records)
  }

  // ---- Every buy on the chain is an entry of the journal ----

  /** What an entry's transaction bought among the records from one nonce up to another. */
  function FilledIn(b: Book, e: Entry, records: seq<Record>, from: nat, to: nat): int {
    if BuyOf(b, e) && e.raw.Some? && from <= e.raw.value.nonce < to && Executed(records, e.raw.value)
    then e.quantity else 0
  }

  function Fills(b: Book, entries: seq<Entry>, records: seq<Record>, from: nat, to: nat): int {
    if entries == [] then 0
    else Fills(b, entries[..|entries| - 1], records, from, to) + FilledIn(b, entries[|entries| - 1], records, from, to)
  }

  ghost predicate Owned(b: Book, entries: seq<Entry>, r: Record) {
    r.ok && exists e :: e in entries && BuyOf(b, e) && e.raw == Some(r.tx)
  }

  /** Nothing but the journal buys the claim with the wallet's key, and amounts are unsigned. */
  ghost predicate OwnRecord(b: Book, entries: seq<Entry>, r: Record) {
    && r.tx.quantity >= 0
    && (r.ok && r.tx.action == Buy && r.tx.pool == b.pool && r.tx.claim == Some(b.claim) ==> Owned(b, entries, r))
  }

  ghost predicate OwnSince(b: Book, entries: seq<Entry>, records: seq<Record>, from: nat) {
    forall i :: from <= i < |records| ==> OwnRecord(b, entries, records[i])
  }

  ghost predicate Plausible(e: Entry) {
    BytesOk(e) && e.quantity >= 0
  }

  /** One more record adds at least what it bought to the fills. */
  lemma {:induction false} FillsStep(b: Book, entries: seq<Entry>, records: seq<Record>, from: nat, bound: nat)
    requires from <= bound < |records| && records[bound].tx.nonce == bound
    requires forall e :: e in entries ==> Plausible(e)
    ensures Fills(b, entries, records, from, bound + 1)
         >= Fills(b, entries, records, from, bound)
            + if Owned(b, entries, records[bound]) then records[bound].tx.quantity else 0
  {
    if entries != [] {
      var rest, last := entries[..|entries| - 1], entries[|entries| - 1];
      assert last in entries && forall e :: e in rest ==> e in entries;
      FillsStep(b, rest, records, from, bound);
      if Owned(b, entries, records[bound]) && !Owned(b, rest, records[bound]) {
        var e :| e in entries && BuyOf(b, e) && e.raw == Some(records[bound].tx);
        assert e == last;
      }
    }
  }

  lemma {:induction false} NoFills(b: Book, entries: seq<Entry>, records: seq<Record>, from: nat)
    ensures Fills(b, entries, records, from, from) == 0
  {
    if entries != [] {
      NoFills(b, entries[..|entries| - 1], records, from);
    }
  }

  /** What the holdings gained since a nonce is at most what the journal's entries bought since. */
  lemma {:induction false} GainIsFilled(b: Book, entries: seq<Entry>, records: seq<Record>, from: nat, to: nat)
    requires from <= to <= |records| && OwnSince(b, entries, records, from)
    requires forall i :: 0 <= i < |records| ==> records[i].tx.nonce == i
    requires forall e :: e in entries ==> Plausible(e)
    ensures HeldAt(b, records, to) - HeldAt(b, records, from) <= Fills(b, entries, records, from, to)
  {
    if to == from {
      NoFills(b, entries, records, from);
    } else {
      GainIsFilled(b, entries, records, from, to - 1);
      FillsStep(b, entries, records, from, to - 1);
      assert OwnRecord(b, entries, records[to - 1]);
    }
  }

  lemma AllPlausible(w: World)
    requires w.points != [] && EntriesOk(w)
    ensures forall e :: e in w.entries ==> Plausible(e)
  {
    forall e | e in w.entries ensures Plausible(e) {
      var k :| 0 <= k < |w.entries| && w.entries[k] == e;
      assert EntryOk(w, w.entries[k]);
    }
  }

  // ---- What the check of `plan` sees ----

  /** A confirmed buy that was mined after the holdings were read. */
  function MissedBy(b: Book, e: Entry, read: nat): int {
    if BuyOf(b, e) && e.status == Confirmed && e.raw.Some? && e.raw.value.nonce >= read then e.quantity else 0
  }

  function Missed(b: Book, entries: seq<Entry>, read: nat): int {
    if entries == [] then 0 else Missed(b, entries[..|entries| - 1], read) + MissedBy(b, entries[|entries| - 1], read)
  }

  /** The holdings were read after every confirmed buy of the claim had been mined. */
  ghost predicate Fresh(b: Book, entries: seq<Entry>, read: nat) {
    forall e :: e in entries && BuyOf(b, e) && e.status == Confirmed && e.raw.Some? ==> e.raw.value.nonce < read
  }

  lemma {:induction false} FreshMissesNothing(b: Book, entries: seq<Entry>, read: nat)
    requires Fresh(b, entries, read)
    ensures Missed(b, entries, read) == 0
  {
    if entries != [] {
      var rest, last := entries[..|entries| - 1], entries[|entries| - 1];
      assert last in entries && forall e :: e in rest ==> e in entries;
      FreshMissesNothing(b, rest, read);
    }
  }

  /** What one entry adds to the exposure beyond the holdings that were read is pending, or missed. */
  lemma EntryCovered(b: Book, w: World, e: Entry, read: nat)
    requires w.points != [] && EntryOk(w, e)
    ensures OpenAmount(b, e, w.records) + FilledIn(b, e, w.records, read, |w.records|)
         <= TallyOf(ViewOf(e), PendingOf(b.market, b.claim)) + MissedBy(b, e, read)
  {
  }

  lemma {:induction false} EntriesCovered(b: Book, w: World, entries: seq<Entry>, read: nat)
    requires w.points != [] && forall k :: 0 <= k < |entries| ==> EntryOk(w, entries[k])
    ensures Opens(b, entries, w.records) + Fills(b, entries, w.records, read, |w.records|)
         <= Total(Views(entries), PendingOf(b.market, b.claim)) + Missed(b, entries, read)
  {
    if entries != [] {
      var n := |entries| - 1;
      EntriesCovered(b, w, entries[..n], read);
      EntryCovered(b, w, entries[n], read);
      assert Views(entries)[..n] == Views(entries[..n]);
    }
  }

  /** The exposure is at most the holdings that were read, the pending buys, and the confirmed buys that both miss. */
  lemma ExposureCovered(cfg: Config, w: World, b: Book, read: nat)
    requires Inv(cfg, w) && read <= |w.records| && OwnSince(b, w.entries, w.records, read)
    ensures Exposure(b, w)
         <= HeldAt(b, w.records, read) + Total(Views(w.entries), PendingOf(b.market, b.claim))
            + Missed(b, w.entries, read)
  {
    AllPlausible(w);
    GainIsFilled(b, w.entries, w.records, read, |w.records|);
    EntriesCovered(b, w, w.entries, read);
  }

  /** The quote's holdings of the claim are those of the chain at some nonce since the start, after the last
      confirmation. */
  ghost predicate ReadFresh(b: Book, w: World, q: Quote, start: nat) {
    exists read: nat :: start <= read <= |w.records| && FreshAt(b, w, q, read)
  }

  ghost predicate FreshAt(b: Book, w: World, q: Quote, read: nat)
    requires read <= |w.records|
  {
    Held(q.holdings, b.claim) == HeldAt(b, w.records, read) && Fresh(b, w.entries, read)
  }

  /** A buy planned on fresh holdings leaves an exposure within the position limit. */
  lemma FreshPlanKeepsLimit(cfg: Config, w: World, b: Book, q: Quote, o: Order, id: nat, owner: nat, start: nat)
    requires Inv(cfg, w) && OwnSince(b, w.entries, w.records, start) && ReadFresh(b, w, q, start)
    requires o.action == Buy && o.market == b.market && o.claim == b.claim && !Refuses(q, w.entries, o, PositionLimit)
    ensures Exposure(b, WithEntries(w, w.entries + [PlannedEntry(o, id, owner, q.now)])) <= q.limits.maxPosition
  {
    var read: nat :| start <= read <= |w.records| && FreshAt(b, w, q, read);
    ExposureCovered(cfg, w, b, read);
    FreshMissesNothing(b, w.entries, read);
    OpensAppend(b, w.entries, PlannedEntry(o, id, owner, q.now), w.records);
  }

  lemma OpensAppend(b: Book, entries: seq<Entry>, e: Entry, records: seq<Record>)
    ensures Opens(b, entries + [e], records) == Opens(b, entries, records) + OpenAmount(b, e, records)
  {
    assert (entries + [e])[..|entries|] == entries;
  }

  // ---- No other step raises the exposure ----

  lemma OpenFalls(b: Book, before: Entry, after: Entry, records: seq<Record>)
    requires Advances(before, after) && before.quantity >= 0
    ensures OpenAmount(b, after, records) <= OpenAmount(b, before, records)
  {
  }

  lemma {:induction false} OpensFall(b: Book, before: seq<Entry>, after: seq<Entry>, records: seq<Record>)
    requires |after| == |before| && AllFollow(before, after)
    requires forall k :: 0 <= k < |before| ==> before[k].quantity >= 0
    ensures Opens(b, after, records) <= Opens(b, before, records)
  {
    if before != [] {
      var n := |before| - 1;
      OpensFall(b, before[..n], after[..n], records);
      OpenFalls(b, before[n], after[n], records);
    }
  }

  /** A block fills what it executes. */
  lemma EntryMined(b: Book, w: World, w': World, e: Entry)
    requires w.points != [] && w'.points != [] && w.records <= w'.records && EntryOk(w, e) && EntryOk(w', e)
    ensures OpenAmount(b, e, w'.records) + FilledIn(b, e, w'.records, |w.records|, |w'.records|)
            <= OpenAmount(b, e, w.records)
  {
    if e.raw.Some? && e.raw.value.nonce < |w.records| {
      assert w'.records[e.raw.value.nonce] == w.records[e.raw.value.nonce];
    }
  }

  lemma {:induction false} EntriesMined(b: Book, w: World, w': World, entries: seq<Entry>)
    requires w.points != [] && w'.points != [] && w.records <= w'.records
    requires forall k :: 0 <= k < |entries| ==> EntryOk(w, entries[k]) && EntryOk(w', entries[k])
    ensures Opens(b, entries, w'.records) + Fills(b, entries, w'.records, |w.records|, |w'.records|)
         <= Opens(b, entries, w.records)
  {
    if entries != [] {
      var n := |entries| - 1;
      EntriesMined(b, w, w', entries[..n]);
      EntryMined(b, w, w', entries[n]);
    }
  }

  lemma {:induction false} HeldBefore(b: Book, records: seq<Record>, longer: seq<Record>, count: nat)
    requires records <= longer && count <= |records|
    ensures HeldAt(b, longer, count) == HeldAt(b, records, count)
  {
    if count > 0 {
      HeldBefore(b, records, longer, count - 1);
      assert longer[count - 1] == records[count - 1];
    }
  }

  lemma BlockKeepsExposure(cfg: Config, w: World, w': World, b: Book)
    requires Inv(cfg, w) && Inv(cfg, w') && w'.entries == w.entries && w.records <= w'.records
    requires OwnSince(b, w.entries, w'.records, |w.records|)
    ensures Exposure(b, w') <= Exposure(b, w)
  {
    AllPlausible(w');
    GainIsFilled(b, w.entries, w'.records, |w.records|, |w'.records|);
    HeldBefore(b, w.records, w'.records, |w.records|);
    forall k | 0 <= k < |w.entries| ensures EntryOk(w, w.entries[k]) && EntryOk(w', w.entries[k]) {
      assert EntryOk(w', w'.entries[k]);
    }
    EntriesMined(b, w, w', w.entries);
  }

  lemma UpdateKeepsExposure(w: World, w': World, b: Book)
    requires w.points != [] && EntriesOk(w) && w'.records == w.records
    requires |w'.entries| == |w.entries| && AllFollow(w.entries, w'.entries)
    ensures Exposure(b, w') <= Exposure(b, w)
  {
    forall k | 0 <= k < |w.entries| ensures w.entries[k].quantity >= 0 {
      assert EntryOk(w, w.entries[k]);
    }
    OpensFall(b, w.entries, w'.entries, w.records);
  }

  /** The step plans a buy of the claim. */
  predicate Buys(b: Book, step: Step) {
    step.Plan? && step.o.action == Buy && step.o.market == b.market && step.o.claim == b.claim
  }

  /** What a step of the run is asked for: buys of the claim are planned on fresh holdings and under at most this
      limit, and whatever a block holds of the claim is the journal's. */
  ghost predicate Careful(b: Book, w: World, step: Step, start: nat, limit: int) {
    && (Buys(b, step) ==> ReadFresh(b, w, step.q, start) && step.q.limits.maxPosition <= limit)
    && (step.Block? ==> forall r :: r in step.mined ==> OwnRecord(b, w.entries, r))
  }

  /** A careful step leaves the exposure within the limit, or no higher than it was. */
  lemma NextKeepsExposure(cfg: Config, w: World, step: Step, w': World, b: Book, start: nat, limit: int)
    requires Inv(cfg, w) && Next(cfg, w, step, w') && Careful(b, w, step, start, limit)
    requires OwnSince(b, w.entries, w.records, start)
    ensures Exposure(b, w') <= if Exposure(b, w) > limit then Exposure(b, w) else limit
  {
    if step.Plan? {
      PlanKeepsExposure(cfg, w, step.q, step.o, step.id, step.owner, b, start, limit);
    } else if step.Block? {
      NextKeepsInv(cfg, w, step, w');
      forall i | |w.records| <= i < |w'.records| ensures OwnRecord(b, w.entries, w'.records[i]) {
        assert w'.records[i] == step.mined[i - |w.records|];
      }
      BlockKeepsExposure(cfg, w, w', b);
    } else {
      NextFollows(cfg, w, step, w');
      UpdateKeepsExposure(w, w', b);
    }
  }

  lemma PlanKeepsExposure(cfg: Config, w: World, q: Quote, o: Order, id: nat, owner: nat, b: Book, start: nat,
                          limit: int)
    requires Inv(cfg, w) && OwnSince(b, w.entries, w.records, start) && forall v :: !Refuses(q, w.entries, o, v)
    requires Careful(b, w, Step.Plan(q, o, id, owner), start, limit)
    ensures Exposure(b, WithEntries(w, w.entries + [PlannedEntry(o, id, owner, q.now)]))
         <= if Exposure(b, w) > limit then Exposure(b, w) else limit
  {
    if Buys(b, Step.Plan(q, o, id, owner)) {
      assert !Refuses(q, w.entries, o, PositionLimit);
      FreshPlanKeepsLimit(cfg, w, b, q, o, id, owner, start);
    } else {
      OpensAppend(b, w.entries, PlannedEntry(o, id, owner, q.now), w.records);
    }
  }

  // ---- Whole runs ----

  lemma StillOwned(b: Book, before: seq<Entry>, after: seq<Entry>, r: Record)
    requires AllFollow(before, after) && OwnRecord(b, before, r)
    ensures OwnRecord(b, after, r)
  {
    if Owned(b, before, r) {
      var e :| e in before && BuyOf(b, e) && e.raw == Some(r.tx);
      var k :| 0 <= k < |before| && before[k] == e;
      assert Advances(before[k], after[k]) && after[k] in after;
    }
  }

  lemma OwnedBefore(cfg: Config, w: World, step: Step, w': World, b: Book, start: nat, limit: int, i: nat)
    requires Inv(cfg, w) && Next(cfg, w, step, w') && Careful(b, w, step, start, limit)
    requires OwnSince(b, w.entries, w.records, start) && start <= i < |w'.records|
    ensures OwnRecord(b, w.entries, w'.records[i])
  {
    if i < |w.records| {
      assert w'.records[i] == w.records[i];
    } else {
      assert w'.records[i] == step.mined[i - |w.records|];
    }
  }

  lemma NextKeepsOwned(cfg: Config, w: World, step: Step, w': World, b: Book, start: nat, limit: int)
    requires Inv(cfg, w) && Next(cfg, w, step, w') && Careful(b, w, step, start, limit)
    requires OwnSince(b, w.entries, w.records, start)
    ensures OwnSince(b, w'.entries, w'.records, start)
  {
    NextFollows(cfg, w, step, w');
    forall i | start <= i < |w'.records| ensures OwnRecord(b, w'.entries, w'.records[i]) {
      OwnedBefore(cfg, w, step, w', b, start, limit, i);
      StillOwned(b, w.entries, w'.entries, w'.records[i]);
    }
  }

  ghost predicate CarefulAt(b: Book, worlds: seq<World>, steps: seq<Step>, limit: int, i: nat)
    requires |worlds| == |steps| + 1 && i < |steps|
  {
    Careful(b, worlds[i], steps[i], |worlds[0].records|, limit)
  }

  /** Within the limit, or within what was held at the start. */
  ghost predicate Kept(b: Book, w: World, first: World, limit: int) {
    && OwnSince(b, w.entries, w.records, |first.records|)
    && Exposure(b, w) <= if Exposure(b, first) > limit then Exposure(b, first) else limit
  }

  lemma CarefulStep(cfg: Config, w: World, step: Step, w': World, b: Book, first: World, limit: int)
    requires Inv(cfg, w) && Next(cfg, w, step, w') && Careful(b, w, step, |first.records|, limit)
             && Kept(b, w, first, limit)
    ensures Kept(b, w', first, limit)
  {
    NextKeepsExposure(cfg, w, step, w', b, |first.records|, limit);
    NextKeepsOwned(cfg, w, step, w', b, |first.records|, limit);
  }

  lemma CarefulStepAt(cfg: Config, worlds: seq<World>, steps: seq<Step>, b: Book, limit: int, i: nat)
    requires IsRun(cfg, worlds, steps) && i < |steps| && CarefulAt(b, worlds, steps, limit, i)
    requires Kept(b, worlds[i], worlds[0], limit)
    ensures Kept(b, worlds[i + 1], worlds[0], limit)
  {
    RunInv(cfg, worlds, steps, i);
    assert StepAt(cfg, worlds, steps, i);
    CarefulStep(cfg, worlds[i], steps[i], worlds[i + 1], b, worlds[0], limit);
  }

  /** In every run whose buys of the claim are planned on holdings read after its last confirmation, the wallet
      never holds more of it, nor can it ever come to hold more, than the limit, or than it held at the start. */
  lemma {:induction false} CarefulRunKeepsPosition(cfg: Config, worlds: seq<World>, steps: seq<Step>, b: Book,
                                                   limit: int, i: nat)
    requires IsRun(cfg, worlds, steps) && i < |worlds|
    requires forall j: nat :: j < i ==> CarefulAt(b, worlds, steps, limit, j)
    ensures Kept(b, worlds[i], worlds[0], limit)
  {
    if i > 0 {
      CarefulRunKeepsPosition(cfg, worlds, steps, b, limit, i - 1);
      CarefulStepAt(cfg, worlds, steps, b, limit, i - 1);
    }
  }

  // ---- A stale read passes the limit ----

  const LIMIT: int := 10
  const BOOK: Book := Book(2, 5, OneBuy.ClaimOf(false))

  lemma StalePasses()
    ensures forall v :: !Refuses(OneBuy.QuoteOf(LIMIT, 100), [OneBuy.ConfirmedBuy(0, false)], OneBuy.OrderOf(false), v)
  {
    var entries, first := [OneBuy.ConfirmedBuy(0, false)], ViewOf(OneBuy.ConfirmedBuy(0, false));
    var in_ := InputOf(OneBuy.QuoteOf(LIMIT, 100), entries, OneBuy.OrderOf(false));
    assert Views(entries) == [first] && [first][..0] == [];
    assert Sum([first], 2, Basis) == 5;
    forall state: set<nat> ensures LossIn(in_, state) <= 100 {
      OneBuy.CostBounds(in_, state);
    }
    OneBuy.PlanPasses(LIMIT, 100, entries, false);
  }

  /** Ten are held, ten more are planned, and the holdings before the first transaction were none. */
  lemma StaleExposure(entries: seq<Entry>, records: seq<Record>)
    requires entries == [OneBuy.ConfirmedBuy(0, false)] && records == [OneBuy.MinedBuy(0, false)]
    ensures HeldAt(BOOK, records, 1) == LIMIT && HeldAt(BOOK, records, 0) == 0
    ensures Opens(BOOK, entries, records) == 0
    ensures Opens(BOOK, entries + [OneBuy.PlannedBuy(1, false)], records) == LIMIT
    ensures !Fresh(BOOK, entries, 0) && OwnSince(BOOK, entries, records, 0)
  {
    var bought := OneBuy.ConfirmedBuy(0, false);
    assert bought in entries && BuyOf(BOOK, bought) && bought.raw == Some(records[0].tx);
    assert HeldAt(BOOK, records, 1) == HeldAt(BOOK, records, 0) + Delta(BOOK, records[0]);
    assert entries[..0] == [];
    OpensAppend(BOOK, entries, OneBuy.PlannedBuy(1, false), records);
  }

  lemma StaleStep(w: World, after: World)
    requires ChainOk(OneBuy.CONFIG, w) && w.entries == [OneBuy.ConfirmedBuy(0, false)]
    requires after == WithEntries(w, w.entries + [OneBuy.PlannedBuy(1, false)])
    ensures Next(OneBuy.CONFIG, w, Step.Plan(OneBuy.QuoteOf(LIMIT, 100), OneBuy.OrderOf(false), 1, 0), after)
  {
    StalePasses();
    OneBuy.OrderBuilds(false);
  }

  /** After a buy of the whole limit was confirmed, a plan on the empty holdings that were read before it passes
      every check, and the wallet comes to hold twice the limit. */
  lemma StaleReadBreaksLimit() returns (w: World, after: World)
    ensures Reachable(OneBuy.CONFIG, w) && ChainOk(OneBuy.CONFIG, w)
    ensures Next(OneBuy.CONFIG, w, Step.Plan(OneBuy.QuoteOf(LIMIT, 100), OneBuy.OrderOf(false), 1, 0), after)
    ensures HeldAt(BOOK, w.records, 0) == Held(OneBuy.QuoteOf(LIMIT, 100).holdings, BOOK.claim)
    ensures !Fresh(BOOK, w.entries, 0) && OwnSince(BOOK, w.entries, w.records, 0)
    ensures Exposure(BOOK, w) == LIMIT && Exposure(BOOK, after) == 2 * LIMIT
  {
    w := OneBuy.BuyConfirmed(LIMIT, 100, false);
    after := WithEntries(w, w.entries + [OneBuy.PlannedBuy(1, false)]);
    StaleStep(w, after);
    StaleExposure(w.entries, w.records);
  }
}
