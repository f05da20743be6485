/** The live execution protocol as a state machine: several processes run the journal's locked bodies,
    send bytes outside the lock, crash, and read an append-only chain that also moves on its own. */
module Protocol {
  import opened Wrappers
  import opened Policy
  import opened Recovery
  import opened Journal

  // ---- The chain ----

  /** A mined transaction of the wallet. */
  datatype Record = Record(tx: Tx, ok: bool, cost: int, logs: seq<Log>, block: nat, time: int)

  /** A moment of the chain: how many wallet transactions were mined, and the head block. */
  datatype Point = Point(count: nat, number: nat, time: int)

  datatype Config = Config(wallet: nat, cap: int, windows: seq<Window>, maxPending: nat)

  /** What the pool contract enforces (contracts/src/FactoredTrading.sol): no success after the deadline, and a
      buy costs at most its limit and emits exactly its Traded event. */
  ghost predicate ByContract(cfg: Config, r: Record) {
    r.ok ==>
      && (r.tx.deadline.Some? ==> r.time <= r.tx.deadline.value)
      && (r.tx.action == Buy && r.tx.claim.Some? ==>
            var shown := Log(r.tx.pool, Some(Traded(cfg.wallet, r.tx.claim.value, true, r.tx.quantity, r.cost)));
            && 0 <= r.cost <= r.tx.limit
            && shown in r.logs
            && forall log :: log in r.logs && log.address == r.tx.pool ==> log == shown)
  }

  /** Everything the processes and the chain share. `seen` holds every entry a process may have copied,
      `sent` every byte string handed to the network for an entry. */
  datatype World = World(entries: seq<Entry>, records: seq<Record>, points: seq<Point>, seen: set<Entry>,
                         sent: set<(nat, Tx)>)

  function Head(w: World): Point
    requires w.points != []
  {
    w.points[|w.points| - 1]
  }

  /** Record i is the wallet's transaction with nonce i; a moment splits the records by block and time. */
  ghost predicate ChainOk(cfg: Config, w: World) {
    && w.points != []
    && Head(w).count == |w.records|
    && (forall i :: 0 <= i < |w.records| ==> w.records[i].tx.nonce == i && ByContract(cfg, w.records[i]))
    && (forall k :: 0 <= k < |w.points| ==> w.points[k].count <= |w.records|)
    && (forall j, k :: 0 <= j <= k < |w.points| ==> w.points[j].count <= w.points[k].count)
    && (forall k, i :: 0 <= k < |w.points| && w.points[k].count <= i < |w.records| ==>
        w.points[k].time <= w.records[i].time)
    && (forall k :: 0 <= k < |w.points| ==> w.points[k].time <= Head(w).time)
  }

  predicate Mined(records: seq<Record>, tx: Tx) {
    tx.nonce < |records| && records[tx.nonce].tx == tx
  }

  predicate MinedBy(records: seq<Record>, tx: Tx, count: nat)
    requires count <= |records|
  {
    Mined(records, tx) && tx.nonce < count
  }

  /** The transaction executed and did what it asked for. */
  predicate Executed(records: seq<Record>, tx: Tx) {
    Mined(records, tx) && records[tx.nonce].ok
  }

  /** The transaction has not executed successfully and can never do so. */
  ghost predicate Dead(w: World, tx: Tx)
    requires w.points != []
  {
    if tx.nonce < |w.records| then !Executed(w.records, tx)
    else tx.deadline.Some? && Head(w).time > tx.deadline.value
  }

  // ---- Reads ----

  /** When the successive reads of one reconciliation happened, as moments of the chain. */
  datatype ReadAt = ReadAt(head: nat, receipt: nat, found: nat, nonce: nat)

  predicate Ordered(w: World, at: ReadAt) {
    at.head <= at.receipt <= at.found <= at.nonce < |w.points|
  }

  function ReadsOf(w: World, raw: Option<Tx>, at: ReadAt, mempool: bool, allowance: Option<int>): Reads
    requires Ordered(w, at) && forall k :: 0 <= k < |w.points| ==> w.points[k].count <= |w.records|
  {
    var receipt :=
      if raw.Some? && MinedBy(w.records, raw.value, w.points[at.receipt].count)
      then Some(Receipt(w.records[raw.value.nonce].ok, w.records[raw.value.nonce].logs,
                        w.records[raw.value.nonce].block))
      else None;
    var found := raw.Some? && (mempool || MinedBy(w.records, raw.value, w.points[at.found].count));
    Reads(w.points[at.head].number, w.points[at.head].time, receipt, found, w.points[at.nonce].count, allowance)
  }

  /** No transaction of the wallet was mined between looking the hash up and reading the nonce. */
  predicate Consistent(w: World, at: ReadAt)
    requires Ordered(w, at)
  {
    w.points[at.found].count == w.points[at.nonce].count
  }

  /** How many of the wallet's transactions were mined when the hash was looked up. */
  function EarlyCount(w: World, at: ReadAt): nat
    requires Ordered(w, at)
  {
    w.points[at.found].count
  }

  /** A replacement can be believed when the nonce was taken before the hash was looked up, or the deadline had
      passed before that. Every other step of recovery can always be believed. */
  predicate Believable(copy: Entry, r: Reads, early: nat) {
    StepOf(copy, r) == Advice(Replaced, Release) ==>
      || (copy.nonce.Some? && copy.nonce.value < early)
      || (copy.deadline.Some? && copy.deadline.value < r.headTime)
  }

  /** The effect that a reconciliation verified is the effect of the settled receipt. */
  ghost predicate Verified(cfg: Config, copy: Entry, r: Reads, effect: Effect) {
    StepOf(copy, r).next == Verify && Settled(r).Some? ==>
      EffectOf(IntentOf(copy, cfg.wallet), Settled(r).value.ok, Settled(r).value.logs, r.allowance, effect)
  }

  // ---- Steps ----

  datatype Step =
    | Plan(q: Quote, o: Order, id: nat, owner: nat)
    | Sign(id: nat, gate: Gate, highest: Option<nat>, pending: nat, now: int)
    | Send(copy: Entry)
    | MarkBroadcast(id: nat)
    | Reconcile(copy: Entry, at: ReadAt, mempool: bool, allowance: Option<int>, effect: Effect, pid: nat, now: int)
    | Block(mined: seq<Record>, point: Point)
    | Crash

  /** No entry has this id yet. */
  predicate FreshId(entries: seq<Entry>, id: nat) {
    forall x | x in entries :: x.id != id
  }

  /** The limits a plan runs under: the configured total, pending limit and local windows, perhaps with more windows. */
  ghost predicate UnderConfig(cfg: Config, limits: Limits) {
    && limits.total == cfg.cap && limits.maxPending == cfg.maxPending
    && forall w :: w in cfg.windows ==> w in limits.windows
  }

  function WithEntries(w: World, entries: seq<Entry>): World {
    w.(entries := entries, seen := w.seen + (set e | e in entries))
  }

  /** One atomic step of the code or of the chain, whatever the successive reads answered. A step that finds no
      entry, or is refused, leaves the world as it is. */
  ghost predicate Moves(cfg: Config, w: World, step: Step, w': World)
    requires ChainOk(cfg, w)
  {
    match step
    case Plan(q, o, id, owner) =>
      && UnderConfig(cfg, q.limits) && Builds(o, q.market) && FreshId(w.entries, id)
      && (forall v :: !Refuses(q, w.entries, o, v))
      && w' == WithEntries(w, w.entries + [PlannedEntry(o, id, owner, q.now)])
    case Sign(id, gate, highest, pending, now) =>
      && IsHighest(w.entries, highest)
      && Find(w.entries, id).Some?
      && w' == WithEntries(w, Put(w.entries, id,
                                  SignedEntry(w.entries[Find(w.entries, id).value], gate, highest, pending, now)))
    case Send(copy) =>
      && copy in w.seen && copy.raw.Some?
      && w' == w.(sent := w.sent + {(copy.id, copy.raw.value)})
    case MarkBroadcast(id) =>
      && Find(w.entries, id).Some?
      && w' == WithEntries(w, Put(w.entries, id, SeenEntry(w.entries[Find(w.entries, id).value])))
    case Reconcile(copy, at, mempool, allowance, effect, pid, now) =>
      && copy in w.seen && Ordered(w, at)
      && Find(w.entries, copy.id).Some?
      && var r := ReadsOf(w, copy.raw, at, mempool, allowance);
         && Verified(cfg, copy, r, effect)
         && w' == WithEntries(w, Put(w.entries, copy.id,
                    ReconciledEntry(w.entries[Find(w.entries, copy.id).value], copy, r, effect, pid, now)))
    case Block(mined, point) =>
      && w' == w.(records := w.records + mined, points := w.points + [point])
      && ChainOk(cfg, w')
    case Crash => w' == w
  }

  /** A step under the one hypothesis on the reads: a replacement that is acted on can be believed. */
  ghost predicate Next(cfg: Config, w: World, step: Step, w': World)
    requires ChainOk(cfg, w)
  {
    && Moves(cfg, w, step, w')
    && (step.Reconcile? ==>
          Believable(step.copy, ReadsOf(w, step.copy.raw, step.at, step.mempool, step.allowance),
                     EarlyCount(w, step.at)))
  }

  ghost predicate Init(cfg: Config, w: World) {
    w.entries == [] && w.seen == {} && w.sent == {} && ChainOk(cfg, w)
  }
}
