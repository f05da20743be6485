/** Nonces over runs of the protocol: when every signing reads a pending nonce with no gap below it, the transactions
    of the journal follow one another on the chain without a gap, so each can be mined once those before it are. */
module NonceRuns {
  import opened Wrappers
  import opened Policy
  import opened Recovery
  import opened Journal
  import opened Protocol
  import opened SpendSafety
  import opened ExecutionRuns

  /** Some entry of the journal was signed with the nonce. */
  ghost predicate IsSigned(entries: seq<Entry>, nonce: nat) {
    exists e :: e in entries && e.nonce == Some(nonce)
  }

  /** Every nonce from the mined ones up to this one was signed. */
  ghost predicate NoGapBelow(entries: seq<Entry>, mined: nat, nonce: nat) {
    forall n: nat :: mined <= n < nonce ==> IsSigned(entries, n)
  }

  /** No signed transaction waits for a nonce that was never signed. */
  ghost predicate NoGap(w: World) {
    forall e :: e in w.entries && e.nonce.Some? ==> NoGapBelow(w.entries, |w.records|, e.nonce.value)
  }

  /** A signed entry that is finished has its nonce on the chain, unless it expired. */
  ghost predicate FinalIsMined(w: World) {
    forall e :: e in w.entries && e.nonce.Some? && !Unfinished(e.status) && e.status != Expired ==>
      e.nonce.value < |w.records|
  }

  /** The node's pending nonce, read when a signing runs, has no gap below it. */
  ghost predicate GoodPending(w: World, step: Step) {
    step.Sign? ==> NoGapBelow(w.entries, |w.records|, step.pending)
  }

  // ---- What a step leaves signed ----

  lemma StillSigned(before: seq<Entry>, after: seq<Entry>, n: nat)
    requires AllFollow(before, after) && IsSigned(before, n) && forall e :: e in before ==> BytesOk(e)
    ensures IsSigned(after, n)
  {
    var e :| e in before && e.nonce == Some(n);
    var k :| 0 <= k < |before| && before[k] == e;
    assert Advances(before[k], after[k]) && after[k] in after;
  }

  lemma GapsStayClosed(before: seq<Entry>, after: seq<Entry>, mined: nat, later: nat, nonce: nat)
    requires AllFollow(before, after) && mined <= later && NoGapBelow(before, mined, nonce)
    requires forall e :: e in before ==> BytesOk(e)
    ensures NoGapBelow(after, later, nonce)
  {
    forall n: nat | later <= n < nonce ensures IsSigned(after, n) {
      StillSigned(before, after, n);
    }
  }

  lemma BytesOfAll(cfg: Config, w: World)
    requires Inv(cfg, w)
    ensures forall e :: e in w.entries ==> BytesOk(e)
  {
    EntriesHaveBytes(w);
  }

  lemma PutNonce(entries: seq<Entry>, id: nat, x: Entry, e: Entry)
    requires Find(entries, id).Some? && x.nonce == entries[Find(entries, id).value].nonce && e in Put(entries, id, x)
    ensures exists y :: y in entries && y.nonce == e.nonce
  {
    var k := Find(entries, id).value;
    assert entries[k] in entries;
  }

  lemma ReconciledNonce(x: Entry, copy: Entry, r: Reads, effect: Effect, pid: nat, now: int)
    ensures ReconciledEntry(x, copy, r, effect, pid, now).nonce == x.nonce
  {
  }

  lemma SameNoncesReconciled(cfg: Config, w: World, step: Step, w': World, e: Entry)
    requires ChainOk(cfg, w) && step.Reconcile? && Moves(cfg, w, step, w') && e in w'.entries
    ensures exists x :: x in w.entries && x.nonce == e.nonce
  {
    var copy := step.copy;
    var x := w.entries[Find(w.entries, copy.id).value];
    var r := ReadsOf(w, copy.raw, step.at, step.mempool, step.allowance);
    ReconciledNonce(x, copy, r, step.effect, step.pid, step.now);
    PutNonce(w.entries, copy.id, ReconciledEntry(x, copy, r, step.effect, step.pid, step.now), e);
  }

  /** No step but a signing gives an entry a nonce. */
  lemma SameNonces(cfg: Config, w: World, step: Step, w': World, e: Entry)
    requires ChainOk(cfg, w) && Moves(cfg, w, step, w') && !step.Sign? && e in w'.entries && e.nonce.Some?
    ensures exists x :: x in w.entries && x.nonce == e.nonce
  {
    match step
    case MarkBroadcast(id) =>
      var x := w.entries[Find(w.entries, id).value];
      PutNonce(w.entries, id, SeenEntry(x), e);
    case Reconcile(_, _, _, _, _, _, _) =>
      SameNoncesReconciled(cfg, w, step, w', e);
    case _ =>
  }

  /** A signing gives at most one entry a nonce: the least usable one. */
  lemma SignedNonce(cfg: Config, w: World, step: Step, w': World, e: Entry)
    requires Inv(cfg, w) && Next(cfg, w, step, w') && step.Sign? && e in w'.entries && e.nonce.Some?
    ensures (exists x :: x in w.entries && x.nonce == e.nonce) || e.nonce == Some(NextNonce(step.highest, step.pending))
  {
    var k :| 0 <= k < |w'.entries| && w'.entries[k] == e;
    assert w.entries[k] in w.entries;
  }

  /** Below the least usable nonce there is no gap. */
  lemma NextHasNoGap(w: World, highest: Option<nat>, pending: nat)
    requires IsHighest(w.entries, highest) && NoGap(w) && NoGapBelow(w.entries, |w.records|, pending)
    ensures NoGapBelow(w.entries, |w.records|, NextNonce(highest, pending))
  {
    NonceIsLeast(w.entries, highest, pending);
    var next := NextNonce(highest, pending);
    if next != pending {
      var e :| e in w.entries && OpenNonce(e) == Some(next - 1);
      assert NoGapBelow(w.entries, |w.records|, e.nonce.value);
    }
  }

  lemma NextKeepsNoGap(cfg: Config, w: World, step: Step, w': World)
    requires Inv(cfg, w) && Next(cfg, w, step, w') && NoGap(w) && GoodPending(w, step)
    ensures NoGap(w')
  {
    NextFollows(cfg, w, step, w');
    BytesOfAll(cfg, w);
    forall e | e in w'.entries && e.nonce.Some? ensures NoGapBelow(w'.entries, |w'.records|, e.nonce.value) {
      NoGapAt(cfg, w, step, w', e);
      GapsStayClosed(w.entries, w'.entries, |w.records|, |w'.records|, e.nonce.value);
    }
  }

  lemma NoGapAt(cfg: Config, w: World, step: Step, w': World, e: Entry)
    requires Inv(cfg, w) && Next(cfg, w, step, w') && NoGap(w) && GoodPending(w, step)
    requires e in w'.entries && e.nonce.Some?
    ensures NoGapBelow(w.entries, |w.records|, e.nonce.value)
  {
    if step.Sign? {
      SignedNonce(cfg, w, step, w', e);
      NextHasNoGap(w, step.highest, step.pending);
    } else {
      SameNonces(cfg, w, step, w', e);
    }
  }

  // ---- Finished entries ----

  /** What recovery finishes, other than by expiry, was mined or displaced. */
  lemma ReconciledIsMined(w: World, x: Entry, copy: Entry, at: ReadAt, mempool: bool, r: Reads, effect: Effect,
                          pid: nat, now: int)
    requires w.points != [] && Ordered(w, at) && (forall k :: 0 <= k < |w.points| ==> w.points[k].count <= |w.records|)
    requires r == ReadsOf(w, copy.raw, at, mempool, r.allowance) && BytesOk(x) && BytesOk(copy) && Follows(copy, x)
    requires Unfinished(x.status) && x.nonce.Some?
    ensures var e := ReconciledEntry(x, copy, r, effect, pid, now);
      Unfinished(e.status) || e.status == Expired || x.nonce.value < |w.records|
  {
  }

  /** Only a reconciliation finishes an entry that has a nonce. */
  lemma OthersFinishNothing(cfg: Config, w: World, step: Step, w': World, k: nat)
    requires Inv(cfg, w) && Next(cfg, w, step, w') && !step.Reconcile? && k < |w'.entries|
    ensures Unfinished(w'.entries[k].status) || w'.entries[k].nonce.None?
         || (k < |w.entries| && w'.entries[k] == w.entries[k])
  {
    if k < |w.entries| {
      assert EntryOk(w, w.entries[k]);
    }
  }

  lemma ReconciledAt(cfg: Config, w: World, copy: Entry, at: ReadAt, mempool: bool, r: Reads, effect: Effect, pid: nat,
                     now: int, k: nat)
    requires Inv(cfg, w) && copy in w.seen && Ordered(w, at) && r == ReadsOf(w, copy.raw, at, mempool, r.allowance)
    requires k < |w.entries| && w.entries[k].id == copy.id && FinalIsMined(w)
    ensures var e := ReconciledEntry(w.entries[k], copy, r, effect, pid, now);
      e.nonce.Some? ==> Unfinished(e.status) || e.status == Expired || e.nonce.value < |w.records|
  {
    var x := w.entries[k];
    assert x in w.entries && EntryOk(w, x);
    CopyIsEarlier(cfg, w, copy, k);
    if Unfinished(x.status) && x.nonce.Some? {
      ReconciledIsMined(w, x, copy, at, mempool, r, effect, pid, now);
    }
  }

  lemma FinishedAt(cfg: Config, w: World, step: Step, w': World, k: nat)
    requires Inv(cfg, w) && Next(cfg, w, step, w') && FinalIsMined(w) && k < |w'.entries|
    requires var e := w'.entries[k];
      e.nonce.Some? && !Unfinished(e.status) && e.status != Expired
    ensures w'.entries[k].nonce.value < |w'.records|
  {
    if !step.Reconcile? {
      OthersFinishNothing(cfg, w, step, w', k);
      assert w.entries[k] in w.entries;
    } else if Find(w.entries, step.copy.id) == Some(k) {
      ReconciledAt(cfg, w, step.copy, step.at, step.mempool,
                   ReadsOf(w, step.copy.raw, step.at, step.mempool, step.allowance), step.effect, step.pid, step.now,
                   k);
    } else {
      assert w'.entries[k] == w.entries[k] && w.entries[k] in w.entries;
    }
  }

  lemma NextKeepsMined(cfg: Config, w: World, step: Step, w': World)
    requires Inv(cfg, w) && Next(cfg, w, step, w') && FinalIsMined(w)
    ensures FinalIsMined(w')
  {
    forall e | e in w'.entries && e.nonce.Some? && !Unfinished(e.status) && e.status != Expired
      ensures e.nonce.value < |w'.records|
    {
      var k :| 0 <= k < |w'.entries| && w'.entries[k] == e;
      FinishedAt(cfg, w, step, w', k);
    }
  }

  // ---- Whole runs ----

  ghost predicate GoodPendingAt(worlds: seq<World>, steps: seq<Step>, i: nat)
    requires |worlds| == |steps| + 1 && i < |steps|
  {
    GoodPending(worlds[i], steps[i])
  }

  lemma {:induction false} RunHasNoGap(cfg: Config, worlds: seq<World>, steps: seq<Step>, i: nat)
    requires IsRun(cfg, worlds, steps) && i < |worlds|
    requires forall j: nat :: j < i ==> GoodPendingAt(worlds, steps, j)
    ensures NoGap(worlds[i]) && FinalIsMined(worlds[i])
  {
    if i > 0 {
      RunHasNoGap(cfg, worlds, steps, i - 1);
      StepHasNoGap(cfg, worlds, steps, i - 1);
    }
  }

  lemma StepHasNoGap(cfg: Config, worlds: seq<World>, steps: seq<Step>, i: nat)
    requires IsRun(cfg, worlds, steps) && i < |steps| && GoodPendingAt(worlds, steps, i)
    requires NoGap(worlds[i]) && FinalIsMined(worlds[i])
    ensures NoGap(worlds[i + 1]) && FinalIsMined(worlds[i + 1])
  {
    RunInv(cfg, worlds, steps, i);
    assert StepAt(cfg, worlds, steps, i);
    NextKeepsNoGap(cfg, worlds[i], steps[i], worlds[i + 1]);
    NextKeepsMined(cfg, worlds[i], steps[i], worlds[i + 1]);
  }

  /** When every signing reads a pending nonce with no gap below it, then at every moment each nonce between the mined
      ones and an open one is itself open, or belongs to an entry that expired unmined. */
  lemma OpenNoncesHaveNoGap(cfg: Config, worlds: seq<World>, steps: seq<Step>, i: nat, e: Entry, n: nat)
    requires IsRun(cfg, worlds, steps) && i < |worlds|
    requires forall j: nat :: j < i ==> GoodPendingAt(worlds, steps, j)
    requires e in worlds[i].entries && OpenNonce(e).Some? && |worlds[i].records| <= n < OpenNonce(e).value
    ensures exists x :: x in worlds[i].entries && x.nonce == Some(n) && (Unfinished(x.status) || x.status == Expired)
  {
    RunHasNoGap(cfg, worlds, steps, i);
    assert NoGapBelow(worlds[i].entries, |worlds[i].records|, e.nonce.value);
    assert IsSigned(worlds[i].entries, n);
  }
}
