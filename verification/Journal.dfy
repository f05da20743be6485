/** The agent's journal of intents and the bodies that run on it under its lock
    (packages/sdk-cpp/src/executor.cpp). One locked body is one atomic step.
    Signed bytes are represented by the transaction they encode. */
module Journal {
  import opened Wrappers
  import opened Scopes
  import opened Policy
  import opened Recovery

  datatype Tx = Tx(
    nonce: nat, action: Action, pool: nat, claim: Option<Claim>, quantity: int, limit: int, deadline: Option<int>,
    gas: nat, maxFee: nat, priorityFee: nat)

  datatype Entry = Entry(
    id: nat, action: Action, market: nat, pool: nat, claim: Option<Claim>, quantity: int, limit: int,
    deadline: Option<int>, gas: nat, maxFee: nat, priorityFee: nat, plannedAt: int, owner: nat,
    status: Status, nonce: Option<nat>, raw: Option<Tx>, finalAt: Option<int>, cost: Option<int>)

  function ViewOf(e: Entry): PolicyEntry {
    PolicyEntry(e.action, e.market, e.status, e.claim, e.quantity, e.limit, e.cost, e.plannedAt)
  }

  /** `policy_entries`. */
  function Views(entries: seq<Entry>): (views: seq<PolicyEntry>)
    ensures |views| == |entries|
  {
    seq(|entries|, i requires 0 <= i < |entries| => ViewOf(entries[i]))
  }

  function TxOf(e: Entry, nonce: nat): Tx {
    Tx(nonce, e.action, e.pool, e.claim, e.quantity, e.limit, e.deadline, e.gas, e.maxFee, e.priorityFee)
  }

  // ---- What each locked body does, on values ----

  /** `find_entry`: the first entry with an id. */
  ghost predicate IsFirst(entries: seq<Entry>, id: nat, k: nat) {
    k < |entries| && entries[k].id == id && forall j :: 0 <= j < k ==> entries[j].id != id
  }

  function Find(entries: seq<Entry>, id: nat): (k: Option<nat>)
    ensures k.Some? ==> IsFirst(entries, id, k.value)
    ensures k.None? ==> forall e :: e in entries ==> e.id != id
  {
    if entries == [] then None
    else if entries[0].id == id then Some(0)
    else
      var rest := Find(entries[1..], id);
      if rest.Some? then Some(rest.value + 1) else None
  }

  /** The nonce of an unfinished entry. */
  function OpenNonce(e: Entry): Option<nat> {
    if Unfinished(e.status) then e.nonce else None
  }

  /** The highest nonce among unfinished entries. */
  ghost predicate IsHighest(entries: seq<Entry>, highest: Option<nat>) {
    && (highest.Some? ==> exists e :: e in entries && OpenNonce(e) == highest)
    && (forall e :: e in entries && OpenNonce(e).Some? ==> highest.Some? && OpenNonce(e).value <= highest.value)
  }

  /** What the gate at signing time answers: live permission, the semantic check, and the final transaction check. */
  datatype Gate = Gate(live: bool, semantics: bool, valid: bool)

  function NextNonce(highest: Option<nat>, pending: nat): nat {
    if highest.Some? && pending < highest.value + 1 then highest.value + 1 else pending
  }

  /** The nonce is usable: the node does not have it yet, and it is above every open one. */
  ghost predicate Usable(entries: seq<Entry>, pending: nat, nonce: nat) {
    pending <= nonce && forall e :: e in entries && OpenNonce(e).Some? ==> OpenNonce(e).value < nonce
  }

  /** The signed nonce is the least usable one: the node's, or the one right after some open nonce. */
  lemma NonceIsLeast(entries: seq<Entry>, highest: Option<nat>, pending: nat)
    requires IsHighest(entries, highest)
    ensures Usable(entries, pending, NextNonce(highest, pending))
    ensures forall nonce: nat :: Usable(entries, pending, nonce) ==> NextNonce(highest, pending) <= nonce
    ensures NextNonce(highest, pending) == pending
         || exists e :: e in entries && OpenNonce(e) == Some(NextNonce(highest, pending) - 1)
  {
    if highest.Some? {
      var e :| e in entries && OpenNonce(e) == highest;
    }
  }

  /** The entry after the signing body: abandoned, signed, or untouched. */
  function SignedEntry(e: Entry, gate: Gate, highest: Option<nat>, pending: nat, now: int): Entry {
    if e.status != Planned then e
    else if !gate.live || (e.action == Buy && !gate.semantics) then e.(status := Abandoned, finalAt := Some(now))
    else if !gate.valid then e
    else
      var nonce := NextNonce(highest, pending);
      e.(status := Signed, nonce := Some(nonce), raw := Some(TxOf(e, nonce)))
  }

  /** The entry once its broadcast is known. */
  function SeenEntry(e: Entry): Entry {
    if e.status == Signed then e.(status := Broadcast) else e
  }

  /** A receipt: execution status, logs and block. */
  datatype Receipt = Receipt(ok: bool, logs: seq<Log>, block: nat)

  /** What `reconcile_entry` read from the chain about its copy of an entry. */
  datatype Reads = Reads(headNumber: nat, headTime: int, receipt: Option<Receipt>, found: bool, nonceLatest: nat,
                         allowance: Option<int>)

  /** A receipt counts once one more block is built on it. */
  function Settled(r: Reads): Option<Receipt> {
    if r.receipt.Some? && r.headNumber > r.receipt.value.block then r.receipt else None
  }

  function ViewOfReads(r: Reads): View {
    View(r.receipt.Some? || r.found,
         if Settled(r).Some? then Some(Settled(r).value.ok) else None,
         r.nonceLatest)
  }

  function StepOf(copy: Entry, r: Reads): Advice {
    RecoveryStep(copy.status, copy.nonce, copy.deadline, ViewOfReads(r), r.headTime)
  }

  function IntentOf(e: Entry, wallet: nat): Intent {
    Intent(e.action, wallet, e.pool, e.claim, e.quantity, if e.action == Redeem then 0 else e.limit)
  }

  /** A fresh plan of another process is left to it: it checks again before signing. */
  predicate LeftAlone(copy: Entry, pid: nat, now: int) {
    copy.status == Planned && now - copy.plannedAt < 60 && copy.owner != pid
  }

  /** The entry after reconciliation, given the verified effect of a settled receipt. */
  function ReconciledEntry(x: Entry, copy: Entry, r: Reads, effect: Effect, pid: nat, now: int): Entry {
    var step := StepOf(copy, r);
    if LeftAlone(copy, pid, now) || x.status != copy.status then x
    else if step.next == Verify then
      x.(status := effect.status, finalAt := Some(now),
         cost := if effect.status == Confirmed then effect.collateral else None)
    else if step.next == Release then x.(status := step.status, finalAt := Some(now))
    else if step.next == Poll && copy.status == Signed then x.(status := Broadcast)
    else x
  }

  /** The journal with the first entry of an id replaced. */
  function Put(entries: seq<Entry>, id: nat, e: Entry): seq<Entry> {
    var k := Find(entries, id);
    if k.None? then entries else entries[k.value := e]
  }

  // ---- What `plan` evaluates and appends ----

  /** An intent with its quoted terms, gas and fees. */
  datatype Order = Order(
    action: Action, market: nat, pool: nat, claim: Claim, quantity: int, limit: int, deadline: int,
    slippageBps: int, quoteTime: int, gas: nat, maxFee: nat, priorityFee: nat)

  /** What `plan` read before it takes the lock. */
  datatype Quote = Quote(limits: Limits, now: int, market: Market, nativeBalance: int, holdings: seq<Holding>)

  /** `claim_valid` (core.cpp): one to three events of a small pool, paying in some but not in all local states. */
  predicate ClaimValid(c: Claim, events: nat) {
    && 2 <= events <= 4
    && c.scope != {} && c.scope <= Range(events) && |c.scope| <= 3
    && c.mask != {} && c.mask < Range(Pow2(|c.scope|))
  }

  /** What `build_transaction` (core.cpp) lets through. */
  predicate Builds(o: Order, market: Market) {
    if o.action == Approve then 1 <= o.limit <= SERVICE_MAX
    else
      && ClaimValid(o.claim, market.events)
      && 1 <= o.quantity <= SERVICE_MAX
      && (o.action == Buy || o.action == Sell ==>
            (if o.action == Buy then 1 else 0) <= o.limit <= SERVICE_MAX && o.deadline < market.closesAt)
  }

  function CandidateOf(o: Order): Candidate {
    Candidate(o.action, o.market, o.claim, o.quantity, if o.action == Redeem then 0 else o.limit,
              o.slippageBps, o.quoteTime, o.gas, o.maxFee)
  }

  function InputOf(q: Quote, entries: seq<Entry>, o: Order): Input {
    Input(q.limits, q.now, q.market, q.nativeBalance, q.holdings, Views(entries), CandidateOf(o))
  }

  /** The new entry: an approval names no claim and no quantity, a redemption no limit. */
  function PlannedEntry(o: Order, id: nat, owner: nat, now: int): Entry {
    Entry(id, o.action, o.market, o.pool,
          if o.action == Approve then None else Some(o.claim),
          if o.action == Approve then 0 else o.quantity,
          if o.action == Redeem then 0 else o.limit,
          if o.action == Approve || o.action == Redeem then None else Some(o.deadline),
          o.gas, o.maxFee, o.priorityFee, now, owner, Planned, None, None, None, None)
  }

  /** The checks of an approval. */
  function ApprovalViolations(q: Quote, entries: seq<Entry>, o: Order): set<Violation> {
    (if o.limit < 1 || o.limit > SERVICE_MAX then {ServiceLimit} else {})
    + (if o.market !in q.limits.markets then {MarketNotAllowed} else {})
    + (if o.gas * o.maxFee > q.limits.maxFee then {GasFeeLimit} else {})
    + (if q.nativeBalance - o.gas * o.maxFee < q.limits.reserve then {GasReserve} else {})
    + (if Total(Views(entries), Pending) >= q.limits.maxPending then {PendingLimit} else {})
  }

  /** The checks that stop a plan on a journal. */
  ghost predicate Refuses(q: Quote, entries: seq<Entry>, o: Order, v: Violation) {
    if o.action == Approve then v in ApprovalViolations(q, entries, o) else Violates(InputOf(q, entries, o), v)
  }

  /** The journal and the candidate once the buy is planned: nothing more to buy. */
  function PlannedInput(q: Quote, entries: seq<Entry>, o: Order, id: nat, owner: nat): Input {
    InputOf(q, entries + [PlannedEntry(o, id, owner, q.now)], o.(quantity := 0, limit := 0))
  }

  lemma PlannedIsFilled(q: Quote, entries: seq<Entry>, o: Order, id: nat, owner: nat)
    requires o.action == Buy && o.market == q.market.name
    ensures Filled(InputOf(q, entries, o), PlannedInput(q, entries, o, id, owner))
  {
    var e := PlannedEntry(o, id, owner, q.now);
    assert Views(entries + [e]) == Views(entries) + [ViewOf(e)];
  }

  lemma PassedMarket(in_: Input)
    requires !Violates(in_, MarketNotAllowed)
    ensures in_.candidate.market == in_.market.name
  {
  }

  lemma PassedLoss(in_: Input, state: set<nat>)
    requires in_.candidate.action == Buy && !Violates(in_, WorstCaseLossLimit) && state <= Range(in_.market.events)
    ensures LossIn(in_, state) <= in_.limits.maxWorstCaseLoss
  {
  }

  /** A buy that `plan` lets through leaves a journal that, with nothing more to buy, loses at most the configured
      amount in every outcome of its market. */
  lemma PlannedBuyBoundsLoss(q: Quote, entries: seq<Entry>, o: Order, id: nat, owner: nat, state: set<nat>)
    requires o.action == Buy && (forall v :: !Refuses(q, entries, o, v)) && state <= Range(q.market.events)
    ensures LossIn(PlannedInput(q, entries, o, id, owner), state) <= q.limits.maxWorstCaseLoss
  {
    var in_ := InputOf(q, entries, o);
    assert !Refuses(q, entries, o, WorstCaseLossLimit) && !Refuses(q, entries, o, MarketNotAllowed);
    PassedMarket(in_);
    PassedLoss(in_, state);
    PlannedIsFilled(q, entries, o, id, owner);
    FilledLoss(in_, PlannedInput(q, entries, o, id, owner), state);
  }

  // ---- The journal file and its locked bodies ----

  class FileJournal {
    var entries: seq<Entry>

    constructor ()
      ensures entries == []
    {
      entries := [];
    }

    /** `find_entry`. */
    method FindEntry(id: nat) returns (k: Option<nat>)
      ensures k == Find(entries, id)
    {
      var i := 0;
      while i < |entries|
        invariant 0 <= i <= |entries|
        invariant forall j :: 0 <= j < i ==> entries[j].id != id
      {
        if entries[i].id == id {
          FindIs(entries, id, i);
          return Some(i);
        }
        i := i + 1;
      }
      k := None;
    }

    /** The loop that looks for the highest nonce still in use. */
    method HighestNonce() returns (highest: Option<nat>)
      ensures IsHighest(entries, highest)
    {
      highest := None;
      for i := 0 to |entries|
        invariant IsHighest(entries[..i], highest)
      {
        assert entries[..i + 1] == entries[..i] + [entries[i]];
        var x := entries[i];
        if Unfinished(x.status) && x.nonce.Some? {
          highest := Some(if highest.Some? && highest.value > x.nonce.value then highest.value else x.nonce.value);
        }
        assert x in entries[..i + 1];
      }
      assert entries[..|entries|] == entries;
    }

    /** The shorter list of checks of an approval, in the order of the code. */
    method CheckApproval(q: Quote, o: Order) returns (violations: seq<Violation>)
      ensures forall v :: v in violations <==> v in ApprovalViolations(q, entries, o)
    {
      var fee := o.gas * o.maxFee;
      violations := [];
      if o.limit < 1 || o.limit > SERVICE_MAX {
        violations := violations + [ServiceLimit];
      }
      if o.market !in q.limits.markets {
        violations := violations + [MarketNotAllowed];
      }
      if fee > q.limits.maxFee {
        violations := violations + [GasFeeLimit];
      }
      if q.nativeBalance - fee < q.limits.reserve {
        violations := violations + [GasReserve];
      }
      var pending := SumTally(Views(entries), Pending);
      if pending >= q.limits.maxPending {
        violations := violations + [PendingLimit];
      }
    }

    /** The locked body of `plan`: evaluate on the locked journal, then append the entry that was evaluated. */
    method Plan(q: Quote, o: Order, id: nat, owner: nat) returns (violations: seq<Violation>)
      modifies this
      ensures forall v :: v in violations <==> Refuses(q, old(entries), o, v)
      ensures entries == if violations == [] then old(entries) + [PlannedEntry(o, id, owner, q.now)] else old(entries)
    {
      if o.action == Approve {
        violations := CheckApproval(q, o);
      } else {
        violations := EvaluatePolicy(InputOf(q, entries, o));
      }
      if violations != [] {
        return;
      }
      var approve, redeem := o.action == Approve, o.action == Redeem;
      var e := Entry(id, o.action, o.market, o.pool,
                     if approve then None else Some(o.claim),
                     if approve then 0 else o.quantity,
                     if redeem then 0 else o.limit,
                     if approve || redeem then None else Some(o.deadline),
                     o.gas, o.maxFee, o.priorityFee, q.now, owner, Planned, None, None, None, None);
      entries := entries + [e];
    }

    /** The locked body of `sign`. An invalid transaction throws, and nothing is written. */
    method Sign(id: nat, gate: Gate, pending: nat, now: int) returns (signed: Option<Entry>, ghost highest: Option<nat>)
      modifies this
      ensures IsHighest(old(entries), highest)
      ensures Find(old(entries), id).None? ==> entries == old(entries) && signed.None?
      ensures Find(old(entries), id).Some? ==>
                entries == Put(old(entries), id,
                               SignedEntry(old(entries)[Find(old(entries), id).value], gate, highest, pending, now))
      ensures signed.Some? <==>
                Find(old(entries), id).Some? && old(entries)[Find(old(entries), id).value].status == Planned
                && entries[Find(old(entries), id).value].status == Signed
      ensures signed.Some? ==> signed.value == entries[Find(old(entries), id).value] && signed.value.raw.Some?
    {
      var top := HighestNonce();
      highest := top;
      var k := FindEntry(id);
      if k.None? || entries[k.value].status != Planned {
        return None, highest;
      }
      var e := entries[k.value];
      if !gate.live {
        entries := entries[k.value := e.(status := Abandoned, finalAt := Some(now))];
        return None, highest;
      }
      if e.action == Buy && !gate.semantics {
        entries := entries[k.value := e.(status := Abandoned, finalAt := Some(now))];
        return None, highest;
      }
      if !gate.valid {
        return None, highest;
      }
      var nonce := if top.Some? then (if pending > top.value + 1 then pending else top.value + 1) else pending;
      e := e.(status := Signed, nonce := Some(nonce), raw := Some(TxOf(e, nonce)));
      entries := entries[k.value := e];
      assert entries[k.value] == e;
      signed := Some(e);
    }

    /** The locked body of `broadcast`, after the bytes were accepted. */
    method MarkBroadcast(id: nat)
      modifies this
      ensures Find(old(entries), id).None? ==> entries == old(entries)
      ensures Find(old(entries), id).Some? ==>
                entries == Put(old(entries), id, SeenEntry(old(entries)[Find(old(entries), id).value]))
    {
      var k := FindEntry(id);
      if k.Some? && entries[k.value].status == Signed {
        entries := entries[k.value := entries[k.value].(status := Broadcast)];
      }
    }

    /** `reconcile_entry` from its unlocked copy and chain reads to the guarded locked update. */
    method Reconcile(copy: Entry, r: Reads, wallet: nat, pid: nat, now: int) returns (ghost effect: Effect)
      modifies this
      ensures StepOf(copy, r).next == Verify && !LeftAlone(copy, pid, now) ==>
                Settled(r).Some? && EffectOf(IntentOf(copy, wallet), Settled(r).value.ok, Settled(r).value.logs,
                                             r.allowance, effect)
      ensures Find(old(entries), copy.id).None? ==> entries == old(entries)
      ensures Find(old(entries), copy.id).Some? ==>
                entries == Put(old(entries), copy.id,
                               ReconciledEntry(old(entries)[Find(old(entries), copy.id).value], copy, r, effect, pid,
                                               now))
    {
      effect := Effect(Mismatch, None);
      if !Unfinished(copy.status) || LeftAlone(copy, pid, now) {
        return;
      }
      var step := StepOf(copy, r);
      var verified := Effect(Mismatch, None);
      if step.next == Verify {
        var receipt := Settled(r).value;
        verified := VerifyEffect(IntentOf(copy, wallet), receipt.ok, receipt.logs, r.allowance);
        effect := verified;
      }
      var k := FindEntry(copy.id);
      if k.None? || entries[k.value].status != copy.status {
        return;
      }
      var x := entries[k.value];
      if step.next == Verify {
        x := x.(status := verified.status, finalAt := Some(now),
                cost := if verified.status == Confirmed then verified.collateral else None);
      } else if step.next == Release {
        x := x.(status := step.status, finalAt := Some(now));
      } else if step.next == Poll && copy.status == Signed {
        x := x.(status := Broadcast);
      }
      entries := entries[k.value := x];
    }
  }

  lemma {:induction false} FindIs(entries: seq<Entry>, id: nat, k: nat)
    requires IsFirst(entries, id, k)
    ensures Find(entries, id) == Some(k)
  {
    if k > 0 {
      assert entries[0].id != id;
      forall j | 0 <= j < k - 1 ensures entries[1..][j].id != id {
        assert entries[1..][j] == entries[j + 1];
      }
      FindIs(entries[1..], id, k - 1);
    }
  }
}
