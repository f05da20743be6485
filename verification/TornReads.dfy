/** What the protocol's one hypothesis on its reads is for: exactly when a release is sound on what the process has
    read, which entries are exposed, and runs of the code that pass every cap without it. */
module TornReads {
  import opened Wrappers
  import opened Scopes
  import opened Policy
  import opened Recovery
  import opened Journal
  import opened Protocol
  import opened SpendSafety
  import opened ExecutionRuns

  // ---- When a release is sound ----

  /** The chain gave these answers to one reconciliation, and this nonce when the hash was looked up. */
  ghost predicate Answered(cfg: Config, w: World, tx: Tx, at: ReadAt, mempool: bool, r: Reads, early: nat) {
    && ChainOk(cfg, w) && Ordered(w, at)
    && ReadsOf(w, Some(tx), at, mempool, r.allowance) == r && EarlyCount(w, at) == early
  }

  /** The process holds the signed transaction and has not finished it. */
  predicate Holds(copy: Entry, tx: Tx) {
    && copy.raw == Some(tx) && copy.nonce == Some(tx.nonce) && copy.deadline == tx.deadline
    && (copy.status == Signed || copy.status == Broadcast)
  }

  /** No buy is built with a negative limit (core.cpp, `validate_transaction`). */
  predicate Built(tx: Tx) {
    tx.action == Buy ==> tx.limit >= 0
  }

  function SuccessAt(cfg: Config, tx: Tx, time: int): Record {
    Record(tx, true, tx.limit,
           if tx.claim.Some? then [Log(tx.pool, Some(Traded(cfg.wallet, tx.claim.value, true, tx.quantity, tx.limit)))]
           else [],
           0, time)
  }

  /** A history from one nonce up to another in which only this transaction succeeds. */
  function History(cfg: Config, tx: Tx, from: nat, to: nat, time: int): (records: seq<Record>)
    requires from <= to
    ensures |records| == to - from
  {
    seq(to - from, k requires 0 <= k < to - from =>
      if from + k == tx.nonce then SuccessAt(cfg, tx, time) else Record(tx.(nonce := from + k), false, 0, [], 0, time))
  }

  lemma SuccessIsLegal(cfg: Config, tx: Tx, time: int)
    requires Built(tx) && (tx.deadline.Some? ==> time <= tx.deadline.value)
    ensures ByContract(cfg, SuccessAt(cfg, tx, time))
  {
    var r := SuccessAt(cfg, tx, time);
    if tx.claim.Some? {
      assert r.logs == [Log(tx.pool, Some(Traded(cfg.wallet, tx.claim.value, true, tx.quantity, r.cost)))];
    }
  }

  lemma HistoryIsLegal(cfg: Config, tx: Tx, from: nat, to: nat, time: int, k: nat)
    requires Built(tx) && (tx.deadline.Some? ==> time <= tx.deadline.value) && from <= to && k < to - from
    ensures var r := History(cfg, tx, from, to, time)[k];
      ByContract(cfg, r) && r.time == time && r.tx.nonce == from + k && (from + k == tx.nonce ==> r.tx == tx && r.ok)
  {
    SuccessIsLegal(cfg, tx, time);
  }

  /** The chain on which the transaction is mined right after the hash lookup. */
  function Unlucky(cfg: Config, tx: Tx, r: Reads, early: nat): World
    requires early <= r.nonceLatest
  {
    World([], History(cfg, tx, 0, r.nonceLatest, r.headTime),
          [Point(early, r.headNumber, r.headTime), Point(r.nonceLatest, r.headNumber, r.headTime)], {}, {})
  }

  lemma UnluckyAnswers(cfg: Config, copy: Entry, tx: Tx, r: Reads, early: nat)
    requires Holds(copy, tx) && Built(tx) && early <= r.nonceLatest
    requires StepOf(copy, r) == Advice(Replaced, Release) && !Believable(copy, r, early)
    ensures Answered(cfg, Unlucky(cfg, tx, r, early), tx, ReadAt(0, 0, 0, 1), false, r, early)
    ensures !Dead(Unlucky(cfg, tx, r, early), tx)
  {
    var w := Unlucky(cfg, tx, r, early);
    forall i | 0 <= i < |w.records|
      ensures w.records[i].tx.nonce == i && ByContract(cfg, w.records[i]) && w.records[i].time == r.headTime
      ensures i == tx.nonce ==> w.records[i].tx == tx && w.records[i].ok
    {
      HistoryIsLegal(cfg, tx, 0, r.nonceLatest, r.headTime, i);
    }
    assert r.receipt.None? && !r.found && early <= tx.nonce < r.nonceLatest;
    assert Executed(w.records, tx);
  }

  /** On given reads, and the nonce at the hash lookup, the transaction is dead on every chain that answers so
      exactly when the release can be believed. */
  lemma ReleaseIsSoundIff(cfg: Config, copy: Entry, tx: Tx, r: Reads, early: nat)
    requires Holds(copy, tx) && Built(tx) && StepOf(copy, r).next == Release && early <= r.nonceLatest
    ensures (forall w, at, mempool :: Answered(cfg, w, tx, at, mempool, r, early) ==> Dead(w, tx))
            <==> Believable(copy, r, early)
  {
    if Believable(copy, r, early) {
      forall w, at, mempool | Answered(cfg, w, tx, at, mempool, r, early) ensures Dead(w, tx) {
        ReleasedIsDead(cfg, w, copy, tx, at, mempool, r.allowance);
      }
    } else {
      UnluckyAnswers(cfg, copy, tx, r, early);
    }
  }

  /** The code does not take the nonce before the hash: what it reads makes a release sound exactly when it is not
      a replacement, or the deadline had passed before the lookups. */
  lemma CodeReleaseIsSoundIff(cfg: Config, copy: Entry, tx: Tx, r: Reads)
    requires Holds(copy, tx) && Built(tx) && StepOf(copy, r).next == Release
    ensures (forall w, at, mempool, early :: Answered(cfg, w, tx, at, mempool, r, early) ==> Dead(w, tx))
       <==> (StepOf(copy, r).status == Replaced ==> tx.deadline.Some? && tx.deadline.value < r.headTime)
  {
    if StepOf(copy, r).status == Replaced ==> tx.deadline.Some? && tx.deadline.value < r.headTime {
      forall w, at, mempool, early | Answered(cfg, w, tx, at, mempool, r, early) ensures Dead(w, tx) {
        ReleasedIsDead(cfg, w, copy, tx, at, mempool, r.allowance);
      }
    } else {
      UnluckyAnswers(cfg, copy, tx, r, 0);
    }
  }

  // ---- Every open entry is exposed ----

  /** Whatever the run so far, the next block can make a signed entry that is neither mined nor late look replaced
      although it executes in that block. */
  lemma OpenEntryIsExposed(cfg: Config, w: World, copy: Entry) returns (step: Step, after: World, at: ReadAt)
    requires Inv(cfg, w) && copy in w.entries && copy.raw.Some? && Holds(copy, copy.raw.value)
    requires copy.raw.value.nonce >= |w.records| && (copy.deadline.Some? ==> Head(w).time <= copy.deadline.value)
    ensures step.Block? && Next(cfg, w, step, after) && Ordered(after, at)
    ensures StepOf(copy, ReadsOf(after, copy.raw, at, false, None)) == Advice(Replaced, Release)
    ensures Executed(after.records, copy.raw.value)
  {
    var tx, n, time := copy.raw.value, |w.records|, Head(w).time;
    var mined := History(cfg, tx, n, tx.nonce + 1, time);
    var point := Point(tx.nonce + 1, Head(w).number, time);
    var k :| 0 <= k < |w.entries| && w.entries[k] == copy;
    assert EntryOk(w, w.entries[k]);
    LongerChain(cfg, w, tx, mined, point);
    step := Block(mined, point);
    after := w.(records := w.records + mined, points := w.points + [point]);
    at := ReadAt(|w.points| - 1, |w.points| - 1, |w.points| - 1, |w.points|);
    LooksReplaced(copy, tx, w, after, at);
  }

  lemma LooksReplaced(copy: Entry, tx: Tx, w: World, after: World, at: ReadAt)
    requires Holds(copy, tx) && w.points != [] && tx.nonce >= |w.records| && |after.records| == tx.nonce + 1
    requires after.points == w.points + [Point(tx.nonce + 1, Head(w).number, Head(w).time)]
    requires forall k :: 0 <= k < |after.points| ==> after.points[k].count <= |after.records|
    requires Head(w).count <= |w.records| && at == ReadAt(|w.points| - 1, |w.points| - 1, |w.points| - 1, |w.points|)
    ensures Ordered(after, at)
    ensures StepOf(copy, ReadsOf(after, copy.raw, at, false, None)) == Advice(Replaced, Release)
  {
    assert after.points[at.head] == Head(w);
    assert ReadsOf(after, copy.raw, at, false, None)
           == Reads(Head(w).number, Head(w).time, None, false, tx.nonce + 1, None);
  }

  lemma LongerChain(cfg: Config, w: World, tx: Tx, mined: seq<Record>, point: Point)
    requires ChainOk(cfg, w) && Built(tx) && tx.nonce >= |w.records|
    requires tx.deadline.Some? ==> Head(w).time <= tx.deadline.value
    requires mined == History(cfg, tx, |w.records|, tx.nonce + 1, Head(w).time)
    requires point == Point(tx.nonce + 1, Head(w).number, Head(w).time)
    ensures ChainOk(cfg, w.(records := w.records + mined, points := w.points + [point]))
    ensures Executed(w.records + mined, tx)
  {
    var n := |w.records|;
    var w' := w.(records := w.records + mined, points := w.points + [point]);
    forall i | n <= i < |w'.records|
      ensures w'.records[i].tx.nonce == i && ByContract(cfg, w'.records[i]) && w'.records[i].time == Head(w).time
    {
      HistoryIsLegal(cfg, tx, n, tx.nonce + 1, Head(w).time, i - n);
    }
    HistoryIsLegal(cfg, tx, n, tx.nonce + 1, Head(w).time, tx.nonce - n);
    assert w'.records[tx.nonce] == mined[tx.nonce - n];
    forall k, i | 0 <= k < |w'.points| && w'.points[k].count <= i < |w'.records|
      ensures w'.points[k].time <= w'.records[i].time
    {
      assert k < |w.points|;
      assert w'.points[k] == w.points[k];
    }
  }

  // ---- Runs of the code that pass every cap ----

  /** A run of the code whose reads may be torn. */
  ghost predicate IsTornRun(cfg: Config, worlds: seq<World>, steps: seq<Step>) {
    && |worlds| == |steps| + 1
    && Init(cfg, worlds[0])
    && forall i: nat :: i < |steps| ==> MoveAt(cfg, worlds, steps, i)
  }

  ghost predicate MoveAt(cfg: Config, worlds: seq<World>, steps: seq<Step>, i: nat)
    requires |worlds| == |steps| + 1 && i < |steps|
  {
    ChainOk(cfg, worlds[i]) && Moves(cfg, worlds[i], steps[i], worlds[i + 1])
  }

  /** Some run of the code leads to the world. */
  ghost predicate Reached(cfg: Config, w: World) {
    exists worlds, steps :: IsTornRun(cfg, worlds, steps) && worlds[|steps|] == w
  }

  lemma Starts(cfg: Config, w: World)
    requires Init(cfg, w)
    ensures Reached(cfg, w)
  {
    assert IsTornRun(cfg, [w], []);
  }

  lemma Then(cfg: Config, w: World, step: Step, w': World)
    requires Reached(cfg, w) && ChainOk(cfg, w) && Moves(cfg, w, step, w')
    ensures Reached(cfg, w')
  {
    var worlds, steps :| IsTornRun(cfg, worlds, steps) && worlds[|steps|] == w;
    Longer(cfg, worlds, steps, step, w');
    assert (worlds + [w'])[|steps + [step]|] == w';
  }

  lemma Longer(cfg: Config, worlds: seq<World>, steps: seq<Step>, step: Step, w': World)
    requires IsTornRun(cfg, worlds, steps) && ChainOk(cfg, worlds[|steps|]) && Moves(cfg, worlds[|steps|], step, w')
    ensures IsTornRun(cfg, worlds + [w'], steps + [step])
  {
    forall i: nat | i < |steps| + 1 ensures MoveAt(cfg, worlds + [w'], steps + [step], i) {
      if i < |steps| {
        assert MoveAt(cfg, worlds, steps, i);
      }
    }
  }

  // The same buy, planned, signed, sent, mined and forgotten again and again, under a cap that allows it once.
  const CLAIM: Claim := Claim({0}, {1})
  const CONFIG: Config := Config(9, 8, [], 1)
  const LIMITS: Limits := Limits({2}, 100, 100, 100, 8, [], 100, 100, 100, 0, 100, 0, 1, true, true)
  const QUOTE: Quote := Quote(LIMITS, 0, Market(2, 2, 1000, true, false), 100, [])
  const ORDER: Order := Order(Buy, 2, 5, CLAIM, 10, 8, 100, 10, 0, 1, 1, 1)

  function PlannedAt(n: nat): Entry {
    PlannedEntry(ORDER, n, 0, 0)
  }

  function TxAt(n: nat): Tx {
    TxOf(PlannedAt(n), n)
  }

  function SignedAt(n: nat): Entry {
    PlannedAt(n).(status := Signed, nonce := Some(n), raw := Some(TxAt(n)))
  }

  function ForgottenAt(n: nat): Entry {
    SignedAt(n).(status := Replaced, finalAt := Some(0))
  }

  function Forgotten(n: nat): (entries: seq<Entry>)
    ensures |entries| == n
  {
    seq(n, k requires 0 <= k < n => ForgottenAt(k))
  }

  function Mining(n: nat): (records: seq<Record>)
    ensures |records| == n
  {
    seq(n, k requires 0 <= k < n => SuccessAt(CONFIG, TxAt(k), 50))
  }

  function Heads(n: nat): (points: seq<Point>)
    ensures |points| == n + 1
  {
    seq(n + 1, k requires 0 <= k < n + 1 => Point(k, k, 50))
  }

  /** The world after n rounds. */
  predicate AfterRounds(w: World, n: nat) {
    w.entries == Forgotten(n) && w.records == Mining(n) && w.points == Heads(n)
  }

  lemma RoundsAreLegal(w: World, n: nat)
    requires w.records == Mining(n) && w.points == Heads(n)
    ensures ChainOk(CONFIG, w)
  {
    forall i | 0 <= i < n ensures ByContract(CONFIG, w.records[i]) {
      assert w.records[i].logs == [Log(5, Some(Traded(9, CLAIM, true, 10, 8)))];
    }
  }

  lemma {:induction false} NothingCounts(n: nat, t: Tally)
    ensures Total(Views(Forgotten(n)), t) == 0
  {
    if n > 0 {
      NothingCounts(n - 1, t);
      assert Views(Forgotten(n))[..n - 1] == Views(Forgotten(n - 1));
    }
  }

  lemma {:induction false} NothingHeld(n: nat, market: nat, what: Measure)
    ensures Sum(Views(Forgotten(n)), market, what) == 0
  {
    if n > 0 {
      NothingHeld(n - 1, market, what);
      assert Views(Forgotten(n))[..n - 1] == Views(Forgotten(n - 1));
    }
  }

  /** The policy accepts the buy however often it was forgotten. */
  lemma PlanPasses(n: nat, v: Violation)
    ensures !Refuses(QUOTE, Forgotten(n), ORDER, v)
  {
    var in_ := InputOf(QUOTE, Forgotten(n), ORDER);
    NothingCounts(n, Spend);
    NothingCounts(n, Pending);
    NothingCounts(n, PendingOf(2, CLAIM));
    NothingHeld(n, 2, Basis);
    forall state: set<nat> ensures LossIn(in_, state) <= 8 {
      PayoutNonnegative(in_, Mentioned(in_), state);
    }
  }

  lemma FindLast(n: nat, e: Entry)
    requires e.id == n
    ensures Find(Forgotten(n) + [e], n) == Some(n)
  {
    FindIs(Forgotten(n) + [e], n, n);
  }

  lemma OrderBuilds()
    ensures Builds(ORDER, QUOTE.market)
  {
    assert |CLAIM.scope| == 1 && Pow2(1) == 2;
    assert 0 in Range(2) && 1 in Range(2) && 0 !in CLAIM.mask;
  }

  lemma PlanMoves(w: World, n: nat, w1: World)
    requires AfterRounds(w, n) && Reached(CONFIG, w) && w1 == WithEntries(w, Forgotten(n) + [PlannedAt(n)])
    ensures Reached(CONFIG, w1)
  {
    forall v ensures !Refuses(QUOTE, w.entries, ORDER, v) {
      PlanPasses(n, v);
    }
    RoundsAreLegal(w, n);
    OrderBuilds();
    Then(CONFIG, w, Step.Plan(QUOTE, ORDER, n, 0), w1);
  }

  lemma NoneOpen(n: nat)
    ensures IsHighest(Forgotten(n) + [PlannedAt(n)], None)
  {
  }

  lemma SignMoves(w: World, n: nat, w2: World)
    requires w.entries == Forgotten(n) + [PlannedAt(n)] && ChainOk(CONFIG, w) && Reached(CONFIG, w)
    requires w2 == WithEntries(w, Forgotten(n) + [SignedAt(n)])
    ensures Reached(CONFIG, w2)
  {
    FindLast(n, PlannedAt(n));
    NoneOpen(n);
    assert w.entries[n := SignedAt(n)] == Forgotten(n) + [SignedAt(n)];
    Then(CONFIG, w, Step.Sign(n, Gate(true, true, true), None, n, 0), w2);
  }

  lemma SendMoves(w: World, n: nat, w3: World)
    requires ChainOk(CONFIG, w) && SignedAt(n) in w.seen && Reached(CONFIG, w)
             && w3 == w.(sent := w.sent + {(n, TxAt(n))})
    ensures Reached(CONFIG, w3)
  {
    Then(CONFIG, w, Send(SignedAt(n)), w3);
  }

  lemma MiningSnoc(n: nat)
    ensures Mining(n) + [SuccessAt(CONFIG, TxAt(n), 50)] == Mining(n + 1)
    ensures Heads(n) + [Point(n + 1, n + 1, 50)] == Heads(n + 1)
  {
  }

  lemma BlockMoves(w: World, n: nat, w4: World)
    requires w.records == Mining(n) && w.points == Heads(n) && Reached(CONFIG, w)
    requires w4 == w.(records := Mining(n + 1), points := Heads(n + 1))
    ensures Reached(CONFIG, w4)
  {
    RoundsAreLegal(w, n);
    MiningSnoc(n);
    RoundsAreLegal(w4, n + 1);
    Then(CONFIG, w, Block([SuccessAt(CONFIG, TxAt(n), 50)], Point(n + 1, n + 1, 50)), w4);
  }

  /** The head, the receipt and the hash were read before the last block, the nonce after it. */
  lemma RoundReads(w: World, n: nat, r: Reads)
    requires w.records == Mining(n + 1) && w.points == Heads(n + 1)
    requires r == Reads(n, 50, None, false, n + 1, None)
    ensures Ordered(w, ReadAt(n, n, n, n + 1)) && forall k :: 0 <= k < |w.points| ==> w.points[k].count <= |w.records|
    ensures ReadsOf(w, Some(TxAt(n)), ReadAt(n, n, n, n + 1), false, None) == r
  {
  }

  /** On those reads the signed entry is released, and the journal forgets it. */
  lemma ReadsForget(n: nat, r: Reads)
    requires r == Reads(n, 50, None, false, n + 1, None)
    ensures var entries := Forgotten(n) + [SignedAt(n)];
      Find(entries, n) == Some(n)
      && Put(entries, n, ReconciledEntry(entries[n], SignedAt(n), r, Effect(Mismatch, None), 0, 0)) == Forgotten(n + 1)
    ensures Verified(CONFIG, SignedAt(n), r, Effect(Mismatch, None))
  {
    FindLast(n, SignedAt(n));
    assert ReconciledEntry(SignedAt(n), SignedAt(n), r, Effect(Mismatch, None), 0, 0) == ForgottenAt(n);
  }

  lemma ForgetMoves(w: World, n: nat, w5: World)
    requires w.entries == Forgotten(n) + [SignedAt(n)] && SignedAt(n) in w.seen && Reached(CONFIG, w)
    requires w.records == Mining(n + 1) && w.points == Heads(n + 1) && w5 == WithEntries(w, Forgotten(n + 1))
    ensures Reached(CONFIG, w5)
  {
    RoundsAreLegal(w, n + 1);
    RoundReads(w, n, Reads(n, 50, None, false, n + 1, None));
    ReadsForget(n, Reads(n, 50, None, false, n + 1, None));
    Then(CONFIG, w, Step.Reconcile(SignedAt(n), ReadAt(n, n, n, n + 1), false, None, Effect(Mismatch, None), 0, 0), w5);
  }

  /** One more round: plan, sign, send, mine, and a reconciliation whose hash lookup came before the block. */
  lemma Round(w: World, n: nat) returns (after: World)
    requires AfterRounds(w, n) && Reached(CONFIG, w)
    ensures AfterRounds(after, n + 1) && Reached(CONFIG, after)
  {
    var w1 := WithEntries(w, Forgotten(n) + [PlannedAt(n)]);
    PlanMoves(w, n, w1);
    var w2 := WithEntries(w1, Forgotten(n) + [SignedAt(n)]);
    RoundsAreLegal(w1, n);
    SignMoves(w1, n, w2);
    assert (Forgotten(n) + [SignedAt(n)])[n] == SignedAt(n);
    var w3 := w2.(sent := w2.sent + {(n, TxAt(n))});
    var w4 := w3.(records := Mining(n + 1), points := Heads(n + 1));
    RoundsAreLegal(w2, n);
    SendMoves(w2, n, w3);
    BlockMoves(w3, n, w4);
    after := WithEntries(w4, Forgotten(n + 1));
    ForgetMoves(w4, n, after);
  }

  lemma {:induction false} AllExecuted(n: nat, bound: nat)
    requires bound <= n
    ensures ExecutedCost(Forgotten(n), Mining(n), bound) == CONFIG.cap * bound
  {
    if bound > 0 {
      AllExecuted(n, bound - 1);
      assert Forgotten(n)[bound - 1].raw == Some(Mining(n)[bound - 1].tx);
    }
  }

  /** Without the hypothesis no cap holds: for every n a run of the code, from an empty journal, leads to a world
      whose executed buys cost n times the cap while the journal counts no spend at all. */
  lemma {:induction false} TornRunsPassEveryCap(n: nat) returns (w: World)
    ensures Reached(CONFIG, w) && AfterRounds(w, n)
    ensures ExecutedCost(w.entries, w.records, |w.records|) == CONFIG.cap * n
    ensures Total(Views(w.entries), Spend) == 0
  {
    if n == 0 {
      w := World([], [], [Point(0, 0, 50)], {}, {});
      RoundsAreLegal(w, 0);
      Starts(CONFIG, w);
    } else {
      var before := TornRunsPassEveryCap(n - 1);
      w := Round(before, n - 1);
    }
    RoundsCost(w, n);
  }

  lemma RoundsCost(w: World, n: nat)
    requires AfterRounds(w, n)
    ensures ExecutedCost(w.entries, w.records, |w.records|) == CONFIG.cap * n
    ensures Total(Views(w.entries), Spend) == 0
  {
    AllExecuted(n, n);
    NothingCounts(n, Spend);
  }
}
