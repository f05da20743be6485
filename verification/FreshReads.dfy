/** What the locked bodies do to one entry, and what a reconciliation decides when its reads were taken at the head of
    the chain: exactly what the chain knows about the transaction. */
module FreshReads {
  import opened Wrappers
  import opened Scopes
  import opened Policy
  import opened Recovery
  import opened Journal
  import opened Protocol
  import opened SpendSafety
  import opened ExecutionRuns
  import Executor

  // ---- Reads at the head ----

  function AtHead(w: World): ReadAt
    requires w.points != []
  {
    var last := |w.points| - 1;
    ReadAt(last, last, last, last)
  }

  /** The copy of a signed entry that is not finished. */
  predicate Waiting(copy: Entry, tx: Tx) {
    && (copy.status == Signed || copy.status == Broadcast)
    && copy.raw == Some(tx) && copy.nonce == Some(tx.nonce) && copy.deadline == tx.deadline
  }

  /** The deadline has passed before the transaction could be mined. */
  predicate Late(w: World, tx: Tx)
    requires w.points != []
  {
    tx.nonce >= |w.records| && tx.deadline.Some? && tx.deadline.value < Head(w).time
  }

  /** Another transaction took the nonce. */
  predicate Displaced(w: World, tx: Tx) {
    tx.nonce < |w.records| && !Mined(w.records, tx)
  }

  /** On reads at the head, with every mined transaction settled: success is verified, and exactly the transactions that
      can no longer succeed are given up, each under its own name; all others are sent again or waited for. */
  lemma FreshReadsDecide(cfg: Config, w: World, copy: Entry, tx: Tx, mempool: bool, allowance: Option<int>)
    requires ChainOk(cfg, w) && Waiting(copy, tx)
    requires Mined(w.records, tx) ==> w.records[tx.nonce].block < Head(w).number
    ensures var step := StepOf(copy, ReadsOf(w, copy.raw, AtHead(w), mempool, allowance));
            && (step.next == Verify <==> Executed(w.records, tx))
            && (step.next == Release <==> Dead(w, tx) && (mempool ==> Mined(w.records, tx)))
            && (step.next == Poll <==> mempool && !Mined(w.records, tx))
            && (step.next == Rebroadcast <==> !mempool && !Executed(w.records, tx) && !Dead(w, tx))
    ensures var step := StepOf(copy, ReadsOf(w, copy.raw, AtHead(w), mempool, allowance));
            && (step.status == Reverted <==> Mined(w.records, tx) && !Executed(w.records, tx))
            && (step.status == Replaced <==> !mempool && Displaced(w, tx))
            && (step.status == Expired <==> !mempool && Late(w, tx))
  {
  }

  /** On such reads the same bytes are sent again exactly when the transaction is not in the mempool and can still
      succeed; a plan, which has no bytes, is never sent. */
  lemma FreshResend(cfg: Config, w: World, copy: Entry, tx: Tx, mempool: bool, allowance: Option<int>, pid: nat,
                    now: int)
    requires ChainOk(cfg, w) && Waiting(copy, tx)
    requires Mined(w.records, tx) ==> w.records[tx.nonce].block < Head(w).number
    ensures Executor.Resends(copy, ReadsOf(w, copy.raw, AtHead(w), mempool, allowance), pid, now)
       <==> !mempool && !Executed(w.records, tx) && !Dead(w, tx)
    ensures forall plan: Entry, r: Reads :: plan.status == Planned ==> !Executor.Resends(plan, r, pid, now)
  {
    FreshReadsDecide(cfg, w, copy, tx, mempool, allowance);
  }

  /** A transaction in the newest block is waited for, whatever its receipt says. */
  lemma NewestBlockWaits(cfg: Config, w: World, copy: Entry, tx: Tx, mempool: bool, allowance: Option<int>)
    requires ChainOk(cfg, w) && Waiting(copy, tx)
    requires Mined(w.records, tx) && w.records[tx.nonce].block >= Head(w).number
    ensures StepOf(copy, ReadsOf(w, copy.raw, AtHead(w), mempool, allowance)) == Advice(Broadcast, Poll)
  {
  }

  // ---- One entry ----

  lemma PowIsSmall(n: nat)
    requires n <= 3
    ensures Pow2(n) <= 8
  {
    assert Pow2(0) == 1 && Pow2(1) == 2 && Pow2(2) == 4 && Pow2(3) == 8;
  }

  /** The outcome of a local state pays exactly when the mask holds it. */
  lemma LocalPays(c: Claim, local: nat)
    requires |c.scope| <= 3 && local < Pow2(|c.scope|)
    ensures PaysIn(c, Expand(c.scope, local)) <==> local in c.mask
  {
    PowIsSmall(|c.scope|);
    ProjectExpand(c.scope, local);
  }

  ghost predicate PaysSomewhere(c: Claim, events: nat) {
    exists state: set<nat> :: state <= Range(events) && PaysIn(c, state)
  }

  ghost predicate MissesSomewhere(c: Claim, events: nat) {
    exists state: set<nat> :: state <= Range(events) && !PaysIn(c, state)
  }

  lemma SomewhereMeans(c: Claim, events: nat)
    requires c.scope <= Range(events) && |c.scope| <= 3 && c.mask <= Range(Pow2(|c.scope|))
    ensures PaysSomewhere(c, events) <==> c.mask != {}
    ensures MissesSomewhere(c, events) <==> c.mask != Range(Pow2(|c.scope|))
  {
    var locals := Range(Pow2(|c.scope|));
    PowIsSmall(|c.scope|);
    if c.mask != {} {
      var local :| local in c.mask;
      LocalPays(c, local);
      assert Expand(c.scope, local) <= Range(events);
    }
    if c.mask != locals {
      var local :| local in locals && local !in c.mask;
      LocalPays(c, local);
      assert Expand(c.scope, local) <= Range(events);
    }
    if MissesSomewhere(c, events) {
      var state: set<nat> :| state <= Range(events) && !PaysIn(c, state);
      assert Project(c.scope, state) in locals;
    }
  }

  /** A claim on one to three events of a pool of two to four, naming no local state that does not exist, is valid when
      it pays in some outcome of the pool but not in all. */
  lemma ClaimValidMeans(c: Claim, events: nat)
    requires 2 <= events <= 4 && c.scope != {} && c.scope <= Range(events) && |c.scope| <= 3
    requires c.mask <= Range(Pow2(|c.scope|))
    ensures ClaimValid(c, events) <==> PaysSomewhere(c, events) && MissesSomewhere(c, events)
  {
    SomewhereMeans(c, events);
  }

  /** Outside these bounds nothing is valid. */
  lemma ClaimValidBounds(c: Claim, events: nat)
    requires ClaimValid(c, events)
    ensures 2 <= events <= 4 && 1 <= |c.scope| <= 3 && c.scope <= Range(events)
    ensures forall local :: local in c.mask ==> local < Pow2(|c.scope|)
  {
  }

  /** Which orders can be built, action by action. */
  lemma BuildsMeans(o: Order, market: Market)
    ensures Builds(o, market) <==>
              && (o.action == Approve ==> 1 <= o.limit <= 100000000)
              && (o.action != Approve ==> ClaimValid(o.claim, market.events) && 1 <= o.quantity <= 100000000)
              && (o.action == Buy ==> 1 <= o.limit <= 100000000 && o.deadline < market.closesAt)
              && (o.action == Sell ==> 0 <= o.limit <= 100000000 && o.deadline < market.closesAt)
  {
  }

  /** The transaction that is signed for an order carries the terms of the order, and no others. */
  lemma OrderIsSigned(o: Order, id: nat, owner: nat, gate: Gate, highest: Option<nat>, pending: nat, at: int, now: int)
    ensures var e := PlannedEntry(o, id, owner, at);
            var after := SignedEntry(e, gate, highest, pending, now);
            var nonce := NextNonce(highest, pending);
            var trade := o.action == Buy || o.action == Sell;
            && (after.status == Signed <==> gate.live && gate.valid && (o.action == Buy ==> gate.semantics))
            && (after.status == Abandoned <==> !gate.live || (o.action == Buy && !gate.semantics))
            && (after.status == Signed ==>
                  && after == e.(status := Signed, nonce := Some(nonce), raw := after.raw)
                  && after.raw == Some(Tx(nonce, o.action, o.pool,
                                          if o.action == Approve then None else Some(o.claim),
                                          if o.action == Approve then 0 else o.quantity,
                                          if o.action == Redeem then 0 else o.limit,
                                          if trade then Some(o.deadline) else None,
                                          o.gas, o.maxFee, o.priorityFee)))
            && (after.status == Abandoned ==> after == e.(status := Abandoned, finalAt := Some(now)))
            && (after.status != Signed && after.status != Abandoned ==> after == e)
  {
  }

  /** A plan that was never signed is given up by its own process at once, by the others after a minute. */
  lemma UnsignedPlanIsGivenUp(x: Entry, r: Reads, effect: Effect, pid: nat, now: int)
    requires x.status == Planned
    ensures ReconciledEntry(x, x, r, effect, pid, now)
         == if x.owner == pid || now >= x.plannedAt + 60 then x.(status := Abandoned, finalAt := Some(now)) else x
  {
  }

  /** What an entry that is waiting becomes: nothing while its bytes are sent again, broadcast once its hash is found,
      and finished, with the moment, when it is verified or given up. */
  lemma WaitingBecomes(x: Entry, tx: Tx, r: Reads, effect: Effect, pid: nat, now: int)
    requires Waiting(x, tx)
    ensures var after, step := ReconciledEntry(x, x, r, effect, pid, now), StepOf(x, r);
            && (step.next == Rebroadcast ==> after == x)
            && (step.next == Poll ==> after == x.(status := Broadcast))
            && (step.next == Release ==> after == x.(status := step.status, finalAt := Some(now)))
            && (step.next == Verify ==>
                  after == x.(status := effect.status, finalAt := Some(now),
                              cost := if effect.status == Confirmed then effect.collateral else None))
            && step.next != Keep
  {
  }

  /** A copy that was overtaken changes nothing. */
  lemma OvertakenChangesNothing(x: Entry, copy: Entry, r: Reads, effect: Effect, pid: nat, now: int)
    requires x.status != copy.status
    ensures ReconciledEntry(x, copy, r, effect, pid, now) == x
  {
  }

  /** Whatever limit a redemption names, the same checks refuse it. */
  lemma RedemptionHasNoLimit(q: Quote, entries: seq<Entry>, o: Order, limit: int, v: Violation)
    requires o.action == Redeem
    ensures Refuses(q, entries, o, v) <==> Refuses(q, entries, o.(limit := limit), v)
    ensures v == ServiceLimit ==> (Refuses(q, entries, o, v) <==> !(1 <= o.quantity <= 100000000))
  {
    assert InputOf(q, entries, o) == InputOf(q, entries, o.(limit := limit));
  }

  /** An approval is refused for nothing when its amount, market, gas and pending entries are within the limits. */
  lemma ApprovalPasses(q: Quote, entries: seq<Entry>, o: Order)
    requires o.action == Approve
    ensures (forall v :: !Refuses(q, entries, o, v)) <==>
              && 1 <= o.limit <= 100000000
              && o.market in q.limits.markets
              && o.gas * o.maxFee <= q.limits.maxFee && o.gas * o.maxFee + q.limits.reserve <= q.nativeBalance
              && Total(Views(entries), Pending) < q.limits.maxPending
  {
    if forall v :: !Refuses(q, entries, o, v) {
      assert !Refuses(q, entries, o, ServiceLimit) && !Refuses(q, entries, o, MarketNotAllowed);
      assert !Refuses(q, entries, o, GasFeeLimit) && !Refuses(q, entries, o, GasReserve);
      assert !Refuses(q, entries, o, PendingLimit);
    }
  }

  // ---- Over runs ----

  /** A finished entry, and no other, says when it was finished; a confirmed trade or redemption, and no other, says
      what it cost or paid. */
  predicate Stamped(e: Entry) {
    && (e.finalAt.Some? <==> !Unfinished(e.status))
    && (e.cost.Some? <==> e.status == Confirmed && e.action != Approve)
  }

  ghost predicate AllStamped(entries: seq<Entry>) {
    forall e :: e in entries ==> Stamped(e)
  }

  lemma ReconciledIsStamped(x: Entry, copy: Entry, r: Reads, effect: Effect, pid: nat, now: int, wallet: nat)
    requires Stamped(x) && Unfinished(copy.status) && copy.action == x.action
    requires StepOf(copy, r).next == Verify ==>
               Settled(r).Some?
               && EffectOf(IntentOf(copy, wallet), Settled(r).value.ok, Settled(r).value.logs, r.allowance, effect)
    ensures Stamped(ReconciledEntry(x, copy, r, effect, pid, now))
  {
  }

  lemma PutStamped(entries: seq<Entry>, id: nat, e: Entry)
    requires AllStamped(entries) && Stamped(e)
    ensures AllStamped(Put(entries, id, e))
  {
    var after := Put(entries, id, e);
    forall x | x in after ensures Stamped(x) {
      var k :| 0 <= k < |after| && after[k] == x;
      assert k < |entries| && (after[k] == entries[k] || after[k] == e);
    }
  }

  lemma SignKeepsStamps(w: World, k: nat, id: nat, gate: Gate, highest: Option<nat>, pending: nat, now: int)
    requires AllStamped(w.entries) && Find(w.entries, id) == Some(k)
    ensures AllStamped(Put(w.entries, id, SignedEntry(w.entries[k], gate, highest, pending, now)))
  {
    assert w.entries[k] in w.entries;
    PutStamped(w.entries, id, SignedEntry(w.entries[k], gate, highest, pending, now));
  }

  lemma MarkKeepsStamps(w: World, k: nat, id: nat)
    requires AllStamped(w.entries) && Find(w.entries, id) == Some(k)
    ensures AllStamped(Put(w.entries, id, SeenEntry(w.entries[k])))
  {
    assert w.entries[k] in w.entries;
    PutStamped(w.entries, id, SeenEntry(w.entries[k]));
  }

  lemma PlanKeepsStamps(w: World, o: Order, id: nat, owner: nat, now: int)
    requires AllStamped(w.entries)
    ensures AllStamped(w.entries + [PlannedEntry(o, id, owner, now)])
  {
  }

  lemma ReconcileKeepsStamps(cfg: Config, w: World, k: nat, copy: Entry, r: Reads, effect: Effect, pid: nat, now: int)
    requires Inv(cfg, w) && AllStamped(w.entries) && copy in w.seen && Find(w.entries, copy.id) == Some(k)
    requires Verified(cfg, copy, r, effect)
    requires StepOf(copy, r).next == Verify ==> Settled(r).Some?
    ensures AllStamped(Put(w.entries, copy.id, ReconciledEntry(w.entries[k], copy, r, effect, pid, now)))
  {
    assert w.entries[k] in w.entries;
    CopyIsEarlier(cfg, w, copy, k);
    if Unfinished(copy.status) {
      ReconciledIsStamped(w.entries[k], copy, r, effect, pid, now, cfg.wallet);
    }
    PutStamped(w.entries, copy.id, ReconciledEntry(w.entries[k], copy, r, effect, pid, now));
  }

  lemma ReconcileStepKeepsStamps(cfg: Config, w: World, step: Step, w': World)
    requires Inv(cfg, w) && step.Reconcile? && Moves(cfg, w, step, w') && AllStamped(w.entries)
    ensures AllStamped(w'.entries)
  {
    var copy := step.copy;
    var r := ReadsOf(w, copy.raw, step.at, step.mempool, step.allowance);
    ReconcileKeepsStamps(cfg, w, Find(w.entries, copy.id).value, copy, r, step.effect, step.pid, step.now);
  }

  lemma NextKeepsStamps(cfg: Config, w: World, step: Step, w': World)
    requires Inv(cfg, w) && Moves(cfg, w, step, w') && AllStamped(w.entries)
    ensures AllStamped(w'.entries)
  {
    match step
    case Plan(q, o, id, owner) =>
      PlanKeepsStamps(w, o, id, owner, q.now);
    case Sign(id, gate, highest, pending, now) =>
      SignKeepsStamps(w, Find(w.entries, id).value, id, gate, highest, pending, now);
    case MarkBroadcast(id) =>
      MarkKeepsStamps(w, Find(w.entries, id).value, id);
    case Reconcile(_, _, _, _, _, _, _) =>
      ReconcileStepKeepsStamps(cfg, w, step, w');
    case _ =>
  }

  lemma StepKeepsStamps(cfg: Config, worlds: seq<World>, steps: seq<Step>, i: nat)
    requires IsRun(cfg, worlds, steps) && i < |steps| && AllStamped(worlds[i].entries)
    ensures AllStamped(worlds[i + 1].entries)
  {
    RunInv(cfg, worlds, steps, i);
    assert StepAt(cfg, worlds, steps, i);
    NextKeepsStamps(cfg, worlds[i], steps[i], worlds[i + 1]);
  }

  lemma {:induction false} RunKeepsStamps(cfg: Config, worlds: seq<World>, steps: seq<Step>, i: nat)
    requires IsRun(cfg, worlds, steps) && i < |worlds|
    ensures AllStamped(worlds[i].entries)
  {
    if i > 0 {
      RunKeepsStamps(cfg, worlds, steps, i - 1);
      StepKeepsStamps(cfg, worlds, steps, i - 1);
    }
  }
}
