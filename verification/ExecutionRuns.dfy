/** Whole runs of the live execution protocol. */
module ExecutionRuns {
  import opened Wrappers
  import opened Policy
  import opened Recovery
  import opened Journal
  import opened Protocol
  import opened SpendSafety

  /** A run: any interleaving of steps of any number of processes, from an empty journal. */
  ghost predicate IsRun(cfg: Config, worlds: seq<World>, steps: seq<Step>) {
    && |worlds| == |steps| + 1
    && Init(cfg, worlds[0])
    && forall i: nat :: i < |steps| ==> StepAt(cfg, worlds, steps, i)
  }

  ghost predicate StepAt(cfg: Config, worlds: seq<World>, steps: seq<Step>, i: nat)
    requires |worlds| == |steps| + 1 && i < |steps|
  {
    ChainOk(cfg, worlds[i]) && Next(cfg, worlds[i], steps[i], worlds[i + 1])
  }

  lemma InitInv(cfg: Config, w: World)
    requires Init(cfg, w)
    ensures Inv(cfg, w)
  {
    assert Views(w.entries) == [];
  }

  lemma {:induction false} RunInv(cfg: Config, worlds: seq<World>, steps: seq<Step>, i: nat)
    requires IsRun(cfg, worlds, steps) && i < |worlds|
    ensures Inv(cfg, worlds[i])
  {
    if i == 0 {
      InitInv(cfg, worlds[0]);
    } else {
      RunInv(cfg, worlds, steps, i - 1);
      assert StepAt(cfg, worlds, steps, i - 1);
      NextKeepsInv(cfg, worlds[i - 1], steps[i - 1], worlds[i]);
    }
  }

  /** Some run leads to the world. */
  ghost predicate Reachable(cfg: Config, w: World) {
    exists worlds, steps :: IsRun(cfg, worlds, steps) && worlds[|steps|] == w
  }

  lemma Begins(cfg: Config, w: World)
    requires Init(cfg, w)
    ensures Reachable(cfg, w)
  {
    assert IsRun(cfg, [w], []);
  }

  lemma Continues(cfg: Config, w: World, step: Step, w': World)
    requires Reachable(cfg, w) && ChainOk(cfg, w) && Next(cfg, w, step, w')
    ensures Reachable(cfg, w')
  {
    var worlds, steps :| IsRun(cfg, worlds, steps) && worlds[|steps|] == w;
    LongerRun(cfg, worlds, steps, step, w');
    assert (worlds + [w'])[|steps + [step]|] == w';
  }

  lemma LongerRun(cfg: Config, worlds: seq<World>, steps: seq<Step>, step: Step, w': World)
    requires IsRun(cfg, worlds, steps) && ChainOk(cfg, worlds[|steps|]) && Next(cfg, worlds[|steps|], step, w')
    ensures IsRun(cfg, worlds + [w'], steps + [step])
  {
    forall i: nat | i < |steps| + 1 ensures StepAt(cfg, worlds + [w'], steps + [step], i) {
      if i < |steps| {
        assert StepAt(cfg, worlds, steps, i);
      }
    }
  }

  // ---- Spend ----

  /** What one entry's transaction cost on the chain, among the records below a bound. */
  ghost function Charge(e: Entry, records: seq<Record>, bound: nat): int {
    if e.action == Buy && e.raw.Some? && e.raw.value.nonce < bound && Executed(records, e.raw.value)
    then records[e.raw.value.nonce].cost else 0
  }

  ghost function Charges(entries: seq<Entry>, records: seq<Record>, bound: nat): int {
    if entries == [] then 0
    else Charges(entries[..|entries| - 1], records, bound) + Charge(entries[|entries| - 1], records, bound)
  }

  /** The record is a successful buy that the journal signed. */
  ghost predicate OwnBuy(entries: seq<Entry>, r: Record) {
    r.ok && r.tx.action == Buy && exists e :: e in entries && e.raw == Some(r.tx)
  }

  /** The on-chain cost of the journal's executed buys among the first records. */
  ghost function ExecutedCost(entries: seq<Entry>, records: seq<Record>, bound: nat): int
    requires bound <= |records|
  {
    if bound == 0 then 0
    else
      ExecutedCost(entries, records, bound - 1)
      + if OwnBuy(entries, records[bound - 1]) then records[bound - 1].cost else 0
  }

  ghost predicate CostsNonnegative(records: seq<Record>) {
    forall i :: 0 <= i < |records| && records[i].ok && records[i].tx.action == Buy && records[i].tx.claim.Some? ==>
        records[i].cost >= 0
  }

  ghost predicate Sound(entries: seq<Entry>) {
    forall e :: e in entries ==> BytesOk(e) && (e.action == Buy ==> e.claim.Some?)
  }

  /** One more record raises the charges by at least its cost when some entry owns it. */
  lemma {:induction false} ChargesStep(entries: seq<Entry>, records: seq<Record>, bound: nat)
    requires bound < |records| && records[bound].tx.nonce == bound && CostsNonnegative(records) && Sound(entries)
    ensures Charges(entries, records, bound + 1)
         >= Charges(entries, records, bound) + if OwnBuy(entries, records[bound]) then records[bound].cost else 0
  {
    if entries != [] {
      var rest, last := entries[..|entries| - 1], entries[|entries| - 1];
      assert last in entries && forall e :: e in rest ==> e in entries;
      ChargesStep(rest, records, bound);
      if OwnBuy(entries, records[bound]) && !OwnBuy(rest, records[bound]) {
        var e :| e in entries && e.raw == Some(records[bound].tx);
        assert e == last;
      }
    }
  }

  lemma {:induction false} ExecutedIsCharged(entries: seq<Entry>, records: seq<Record>, bound: nat)
    requires bound <= |records| && CostsNonnegative(records) && Sound(entries)
    requires forall i :: 0 <= i < |records| ==> records[i].tx.nonce == i
    ensures ExecutedCost(entries, records, bound) <= Charges(entries, records, bound)
  {
    if bound == 0 {
      NoCharges(entries, records);
    } else {
      ExecutedIsCharged(entries, records, bound - 1);
      ChargesStep(entries, records, bound - 1);
    }
  }

  lemma {:induction false} NoCharges(entries: seq<Entry>, records: seq<Record>)
    ensures Charges(entries, records, 0) == 0
  {
    if entries != [] {
      NoCharges(entries[..|entries| - 1], records);
    }
  }

  /** What the chain charged for an entry is within what the journal counts for it. */
  lemma ChargeIsCounted(cfg: Config, w: World, e: Entry)
    requires ChainOk(cfg, w) && EntryOk(w, e)
    ensures Charge(e, w.records, |w.records|) <= SpendOfEntry(e)
  {
    SpendNonnegative(cfg, w, e);
    if e.action == Buy && e.raw.Some? && Executed(w.records, e.raw.value) {
      assert ByContract(cfg, w.records[e.raw.value.nonce]);
    }
  }

  lemma {:induction false} ChargesAreCounted(cfg: Config, w: World, entries: seq<Entry>)
    requires ChainOk(cfg, w) && forall k :: 0 <= k < |entries| ==> EntryOk(w, entries[k])
    ensures Charges(entries, w.records, |w.records|) <= Total(Views(entries), Spend)
  {
    if entries != [] {
      var last := |entries| - 1;
      ChargesAreCounted(cfg, w, entries[..last]);
      ChargeIsCounted(cfg, w, entries[last]);
      assert Views(entries)[..last] == Views(entries[..last]);
    }
  }

  /** In every reachable world the chain has charged at most what the journal counts, which is within the cap,
      and every configured window holds for every interval of its length. */
  lemma SpendIsSafe(cfg: Config, worlds: seq<World>, steps: seq<Step>, i: nat)
    requires IsRun(cfg, worlds, steps) && i < |worlds|
    ensures ExecutedCost(worlds[i].entries, worlds[i].records, |worlds[i].records|)
            <= Total(Views(worlds[i].entries), Spend)
    ensures Total(Views(worlds[i].entries), Spend) <= Cap(cfg.cap)
    ensures forall w, t: int :: w in cfg.windows ==> SpendIn(worlds[i].entries, t, w.seconds) <= Cap(w.atoms)
    ensures Total(Views(worlds[i].entries), Pending) <= cfg.maxPending
  {
    RunInv(cfg, worlds, steps, i);
    var w := worlds[i];
    assert Sound(w.entries) by {
      forall e | e in w.entries ensures BytesOk(e) && (e.action == Buy ==> e.claim.Some?) {
        var k :| 0 <= k < |w.entries| && w.entries[k] == e;
        assert EntryOk(w, w.entries[k]);
      }
    }
    forall j | 0 <= j < |w.records| && w.records[j].ok && w.records[j].tx.action == Buy && w.records[j].tx.claim.Some?
      ensures w.records[j].cost >= 0
    {
      assert ByContract(cfg, w.records[j]);
    }
    ExecutedIsCharged(w.entries, w.records, |w.records|);
    ChargesAreCounted(cfg, w, w.entries);
  }

  // ---- Signing discipline ----

  /** A later version of an entry that counts no more spend and is not opened again. */
  ghost predicate Advances(before: Entry, after: Entry) {
    && Follows(before, after)
    && SpendOfEntry(after) <= SpendOfEntry(before)
    && (Unfinished(after.status) ==> Unfinished(before.status))
  }

  /** Every entry is there afterwards, at most a step further. */
  ghost predicate AllFollow(before: seq<Entry>, after: seq<Entry>) {
    |before| <= |after| && forall k :: 0 <= k < |before| ==> Advances(before[k], after[k])
  }

  lemma AppendFollows(entries: seq<Entry>, e: Entry)
    ensures AllFollow(entries, entries + [e])
  {
  }

  lemma UpdateFollows(w: World, k: nat, e: Entry)
    requires w.points != [] && k < |w.entries| && LegalUpdate(w, k, e)
    ensures AllFollow(w.entries, w.entries[k := e])
  {
  }

  lemma SignFollows(cfg: Config, w: World, id: nat, gate: Gate, highest: Option<nat>, pending: nat, now: int)
    requires Inv(cfg, w) && IsHighest(w.entries, highest) && Find(w.entries, id).Some?
    ensures var e := SignedEntry(w.entries[Find(w.entries, id).value], gate, highest, pending, now);
      AllFollow(w.entries, Put(w.entries, id, e))
  {
    var k := Find(w.entries, id).value;
    SignIsLegal(cfg, w, k, gate, highest, pending, now);
    UpdateFollows(w, k, SignedEntry(w.entries[k], gate, highest, pending, now));
  }

  lemma MarkFollows(cfg: Config, w: World, id: nat)
    requires Inv(cfg, w) && Find(w.entries, id).Some?
    ensures AllFollow(w.entries, Put(w.entries, id, SeenEntry(w.entries[Find(w.entries, id).value])))
  {
    var k := Find(w.entries, id).value;
    MarkIsLegal(cfg, w, k);
    UpdateFollows(w, k, SeenEntry(w.entries[k]));
  }

  lemma ReconcileFollows(cfg: Config, w: World, copy: Entry, at: ReadAt, mempool: bool, r: Reads, effect: Effect,
                         pid: nat, now: int)
    requires Inv(cfg, w) && copy in w.seen && Ordered(w, at) && r == ReadsOf(w, copy.raw, at, mempool, r.allowance)
    requires Believable(copy, r, EarlyCount(w, at)) && Verified(cfg, copy, r, effect) && Find(w.entries, copy.id).Some?
    ensures var e := ReconciledEntry(w.entries[Find(w.entries, copy.id).value], copy, r, effect, pid, now);
      AllFollow(w.entries, Put(w.entries, copy.id, e))
  {
    var k := Find(w.entries, copy.id).value;
    ReconcileIsLegal(cfg, w, k, copy, at, mempool, r, effect, pid, now);
    UpdateFollows(w, k, ReconciledEntry(w.entries[k], copy, r, effect, pid, now));
  }

  /** Every step only appends entries or moves one forward. */
  lemma NextFollows(cfg: Config, w: World, step: Step, w': World)
    requires Inv(cfg, w) && Next(cfg, w, step, w')
    ensures AllFollow(w.entries, w'.entries)
  {
    match step
    case Plan(q, o, id, owner) =>
      AppendFollows(w.entries, PlannedEntry(o, id, owner, q.now));
    case Sign(id, gate, highest, pending, now) =>
      SignFollows(cfg, w, id, gate, highest, pending, now);
    case Send(copy) =>
    case MarkBroadcast(id) =>
      MarkFollows(cfg, w, id);
    case Reconcile(copy, at, mempool, allowance, effect, pid, now) =>
      ReconcileFollows(cfg, w, copy, at, mempool, ReadsOf(w, copy.raw, at, mempool, allowance), effect, pid, now);
    case Block(mined, point) =>
    case Crash =>
  }

  lemma RunStepFollows(cfg: Config, worlds: seq<World>, steps: seq<Step>, j: nat, k: nat)
    requires IsRun(cfg, worlds, steps) && j < |steps| && k < |worlds[j].entries|
    ensures k < |worlds[j + 1].entries| && Follows(worlds[j].entries[k], worlds[j + 1].entries[k])
  {
    RunInv(cfg, worlds, steps, j);
    assert StepAt(cfg, worlds, steps, j);
    NextFollows(cfg, worlds[j], steps[j], worlds[j + 1]);
  }

  lemma {:induction false} RunFollows(cfg: Config, worlds: seq<World>, steps: seq<Step>, i: nat, j: nat, k: nat)
    requires IsRun(cfg, worlds, steps) && i <= j < |worlds| && k < |worlds[i].entries|
    ensures k < |worlds[j].entries| && Follows(worlds[i].entries[k], worlds[j].entries[k])
    decreases j
  {
    if i < j {
      RunFollows(cfg, worlds, steps, i, j - 1, k);
      RunStepFollows(cfg, worlds, steps, j - 1, k);
      FollowsTrans(worlds[i].entries[k], worlds[j - 1].entries[k], worlds[j].entries[k]);
    }
  }

  /** A released entry stays as it is, and its transaction has not executed then or at any later moment. */
  lemma ReleasedNeverExecutes(cfg: Config, worlds: seq<World>, steps: seq<Step>, i: nat, j: nat, k: nat)
    requires IsRun(cfg, worlds, steps) && i <= j < |worlds| && k < |worlds[i].entries|
    requires Released(worlds[i].entries[k].status)
    ensures k < |worlds[j].entries| && worlds[j].entries[k] == worlds[i].entries[k]
    ensures worlds[i].entries[k].raw.Some? ==> !Executed(worlds[j].records, worlds[i].entries[k].raw.value)
  {
    RunFollows(cfg, worlds, steps, i, j, k);
    RunInv(cfg, worlds, steps, j);
    assert EntryOk(worlds[j], worlds[j].entries[k]);
  }

  /** An entry is signed at most once, whatever is sent for it at any time is those bytes, unfinished entries
      never share a nonce, and a final entry never changes. */
  lemma SigningDiscipline(cfg: Config, worlds: seq<World>, steps: seq<Step>, i: nat, j: nat, k: nat)
    requires IsRun(cfg, worlds, steps) && i <= j < |worlds| && k < |worlds[i].entries|
    ensures k < |worlds[j].entries| && worlds[j].entries[k].id == worlds[i].entries[k].id
    ensures worlds[i].entries[k].raw.Some? ==>
              worlds[j].entries[k].raw == worlds[i].entries[k].raw
              && worlds[j].entries[k].nonce == worlds[i].entries[k].nonce
    ensures !Unfinished(worlds[i].entries[k].status) ==> worlds[j].entries[k] == worlds[i].entries[k]
    ensures forall tx :: (worlds[i].entries[k].id, tx) in worlds[j].sent ==> worlds[j].entries[k].raw == Some(tx)
    ensures DistinctNonces(worlds[j].entries)
  {
    RunFollows(cfg, worlds, steps, i, j, k);
    RunInv(cfg, worlds, steps, j);
    var entries, id := worlds[j].entries, worlds[i].entries[k].id;
    forall tx | (id, tx) in worlds[j].sent ensures entries[k].raw == Some(tx) {
      var s := (id, tx);
      var l :| 0 <= l < |entries| && entries[l].id == s.0 && entries[l].raw == Some(s.1);
      SameEntry(entries, l, k);
    }
  }
}
