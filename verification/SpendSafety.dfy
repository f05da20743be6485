/** What every run of the live execution protocol keeps: executed buys never cost more than the journal's spend,
    which never passes the cap or a window; a released entry never executes; signing is done once, with nonces
    that no two unfinished entries share. */
module SpendSafety {
  import opened Wrappers
  import opened Policy
  import opened Recovery
  import opened Journal
  import opened Protocol

  function SpendOfEntry(e: Entry): int {
    SpendOf(ViewOf(e))
  }

  predicate Released(s: Status) {
    s == Reverted || s == Replaced || s == Expired || s == Abandoned
  }

  // ---- The invariant of one entry ----

  /** The recorded bytes are the entry's own transaction; exactly the signed statuses carry them. */
  ghost predicate BytesOk(e: Entry) {
    && (e.raw.Some? <==> e.nonce.Some?)
    && (e.raw.Some? ==> e.raw.value == TxOf(e, e.nonce.value))
    && (e.raw.Some? <==> e.status != Planned && e.status != Abandoned)
  }

  /** A confirmed buy recorded what the chain charged; a released entry is dead. */
  ghost predicate ChainAgrees(w: World, e: Entry)
    requires w.points != [] && BytesOk(e)
  {
    && (e.action == Buy && e.status == Confirmed ==>
          Executed(w.records, e.raw.value) && e.cost == Some(w.records[e.raw.value.nonce].cost))
    && (Released(e.status) && e.raw.Some? ==> Dead(w, e.raw.value))
  }

  ghost predicate EntryOk(w: World, e: Entry)
    requires w.points != []
  {
    && BytesOk(e)
    && 0 <= e.quantity
    && (e.action == Buy ==> 1 <= e.limit && e.claim.Some? && e.status != Mismatch)
    && ChainAgrees(w, e)
  }

  /** A later version of an entry: same plan, same bytes once signed, and final means final. */
  ghost predicate Follows(old_: Entry, new_: Entry) {
    && new_.(status := old_.status, nonce := old_.nonce, raw := old_.raw, finalAt := old_.finalAt, cost := old_.cost)
        == old_
    && (old_.raw.Some? ==> new_.raw == old_.raw && new_.nonce == old_.nonce)
    && (!Unfinished(old_.status) ==> new_ == old_)
  }

  ghost predicate DistinctIds(entries: seq<Entry>) {
    forall i, j :: 0 <= i < j < |entries| ==> entries[i].id != entries[j].id
  }

  /** No two unfinished entries share a nonce. */
  ghost predicate DistinctNonces(entries: seq<Entry>) {
    forall i, j :: 0 <= i < j < |entries| && OpenNonce(entries[i]).Some? ==>
        OpenNonce(entries[i]) != OpenNonce(entries[j])
  }

  ghost predicate SeenOk(entries: seq<Entry>, seen: set<Entry>) {
    forall c :: c in seen ==> BytesOk(c) && exists k :: 0 <= k < |entries| && Follows(c, entries[k])
  }

  ghost predicate SentOk(entries: seq<Entry>, sent: set<(nat, Tx)>) {
    forall s :: s in sent ==> exists k :: 0 <= k < |entries| && entries[k].id == s.0 && entries[k].raw == Some(s.1)
  }

  /** The spend of the buys planned in any interval of the window's length stays within the window. */
  ghost predicate WindowKept(entries: seq<Entry>, w: Window) {
    forall t: int :: SpendIn(entries, t, w.seconds) <= Cap(w.atoms)
  }

  /** The spend of the buys planned from t to t + seconds. */
  function SpendIn(entries: seq<Entry>, t: int, seconds: int): int {
    Total(Views(entries), SpendBetween(t, t + seconds))
  }

  function Cap(atoms: int): int {
    if atoms < 0 then 0 else atoms
  }

  ghost predicate LimitsKept(cfg: Config, entries: seq<Entry>) {
    && Total(Views(entries), Spend) <= Cap(cfg.cap)
    && Total(Views(entries), Pending) <= cfg.maxPending
    && forall w :: w in cfg.windows ==> WindowKept(entries, w)
  }

  ghost predicate Inv(cfg: Config, w: World) {
    && ChainOk(cfg, w)
    && DistinctIds(w.entries)
    && EntriesOk(w)
    && DistinctNonces(w.entries)
    && SeenOk(w.entries, w.seen)
    && SentOk(w.entries, w.sent)
    && LimitsKept(cfg, w.entries)
  }

  // ---- Sums over the journal ----

  lemma TotalAppend(views: seq<PolicyEntry>, v: PolicyEntry, t: Tally)
    ensures Total(views + [v], t) == Total(views, t) + TallyOf(v, t)
  {
    assert (views + [v])[..|views|] == views;
  }

  lemma {:induction false} TotalUpdate(views: seq<PolicyEntry>, k: nat, v: PolicyEntry, t: Tally)
    requires k < |views|
    ensures Total(views[k := v], t) == Total(views, t) - TallyOf(views[k], t) + TallyOf(v, t)
  {
    var last := |views| - 1;
    if k == last {
      assert views[k := v][..last] == views[..last];
    } else {
      TotalUpdate(views[..last], k, v, t);
      assert views[k := v][..last] == views[..last][k := v];
    }
  }

  ghost predicate NonnegativeSpend(views: seq<PolicyEntry>) {
    forall k :: 0 <= k < |views| ==> SpendOf(views[k]) >= 0
  }

  /** Whatever was planned between t and t + seconds was planned since now - seconds, when now is in between. */
  lemma {:induction false} BetweenIsSince(views: seq<PolicyEntry>, t: int, seconds: int, since: int)
    requires NonnegativeSpend(views) && since <= t
    ensures Total(views, SpendBetween(t, t + seconds)) <= Total(views, SpendSince(since))
  {
    if views != [] {
      BetweenIsSince(views[..|views| - 1], t, seconds, since);
      assert SpendOf(views[|views| - 1]) >= 0;
    }
  }

  lemma SpendNonnegative(cfg: Config, w: World, e: Entry)
    requires ChainOk(cfg, w) && EntryOk(w, e)
    ensures SpendOfEntry(e) >= 0
  {
  }

  // ---- Planning keeps the limits ----

  /** The spend of the journal with a planned entry, in one interval of a window's length that starts at t. */
  lemma PlanKeepsInterval(entries: seq<Entry>, q: Quote, o: Order, e: Entry, window: Window, t: int)
    requires NonnegativeSpend(Views(entries)) && e.action == o.action && e.plannedAt == q.now && e.status == Planned
    requires o.action == Buy ==> e.limit == o.limit && !OverWindow(InputOf(q, entries, o), window)
    requires SpendIn(entries, t, window.seconds) <= Cap(window.atoms)
    ensures SpendIn(entries + [e], t, window.seconds) <= Cap(window.atoms)
  {
    var views := Views(entries);
    ViewsSnoc(entries, e);
    TotalAppend(views, ViewOf(e), SpendBetween(t, t + window.seconds));
    if t <= e.plannedAt <= t + window.seconds && e.action == Buy {
      BetweenIsSince(views, t, window.seconds, q.now - window.seconds);
    }
  }

  lemma ViewsSnoc(entries: seq<Entry>, e: Entry)
    ensures Views(entries + [e]) == Views(entries) + [ViewOf(e)]
  {
  }

  lemma PlanKeepsWindow(entries: seq<Entry>, q: Quote, o: Order, id: nat, owner: nat, window: Window)
    requires NonnegativeSpend(Views(entries)) && WindowKept(entries, window)
    requires o.action == Buy ==> !OverWindow(InputOf(q, entries, o), window)
    ensures WindowKept(entries + [PlannedEntry(o, id, owner, q.now)], window)
  {
    var e := PlannedEntry(o, id, owner, q.now);
    forall t: int ensures SpendIn(entries + [e], t, window.seconds) <= Cap(window.atoms) {
      assert SpendIn(entries, t, window.seconds) <= Cap(window.atoms);
      PlanKeepsInterval(entries, q, o, e, window, t);
    }
  }

  lemma NoWindowIsOver(in_: Input, window: Window)
    requires in_.candidate.action == Buy && !Violates(in_, WindowSpendLimit) && window in in_.limits.windows
    ensures !OverWindow(in_, window)
  {
    var i :| 0 <= i < |in_.limits.windows| && in_.limits.windows[i] == window;
    assert !OverWindow(in_, in_.limits.windows[i]);
  }

  lemma JournalSpendNonnegative(cfg: Config, w: World)
    requires Inv(cfg, w)
    ensures NonnegativeSpend(Views(w.entries))
  {
    forall k | 0 <= k < |w.entries| ensures SpendOf(Views(w.entries)[k]) >= 0 {
      assert EntryOk(w, w.entries[k]);
      SpendNonnegative(cfg, w, w.entries[k]);
    }
  }

  /** What the checks of a plan leave room for. */
  lemma PassedChecks(q: Quote, entries: seq<Entry>, o: Order)
    requires forall v :: !Refuses(q, entries, o, v)
    ensures Total(Views(entries), Pending) < q.limits.maxPending
    ensures o.action == Buy ==> Total(Views(entries), Spend) + o.limit <= q.limits.total
    ensures o.action == Buy ==> forall window :: window in q.limits.windows ==>
            !OverWindow(InputOf(q, entries, o), window)
  {
    assert !Refuses(q, entries, o, PendingLimit) && !Refuses(q, entries, o, TotalSpendLimit);
    assert !Refuses(q, entries, o, WindowSpendLimit);
    if o.action == Buy {
      forall window | window in q.limits.windows ensures !OverWindow(InputOf(q, entries, o), window) {
        NoWindowIsOver(InputOf(q, entries, o), window);
      }
    }
  }

  lemma PlanKeepsTotals(cfg: Config, entries: seq<Entry>, e: Entry)
    requires Total(Views(entries), Spend) <= Cap(cfg.cap) && Total(Views(entries), Pending) < cfg.maxPending
    requires e.status == Planned && (e.action == Buy ==> Total(Views(entries), Spend) + e.limit <= cfg.cap)
    ensures Total(Views(entries + [e]), Spend) <= Cap(cfg.cap)
    ensures Total(Views(entries + [e]), Pending) <= cfg.maxPending
  {
    ViewsSnoc(entries, e);
    TotalAppend(Views(entries), ViewOf(e), Spend);
    TotalAppend(Views(entries), ViewOf(e), Pending);
  }

  lemma PlanKeepsLimits(cfg: Config, w: World, q: Quote, o: Order, id: nat, owner: nat)
    requires Inv(cfg, w) && UnderConfig(cfg, q.limits) && forall v :: !Refuses(q, w.entries, o, v)
    ensures LimitsKept(cfg, w.entries + [PlannedEntry(o, id, owner, q.now)])
  {
    PassedChecks(q, w.entries, o);
    PlanKeepsTotals(cfg, w.entries, PlannedEntry(o, id, owner, q.now));
    JournalSpendNonnegative(cfg, w);
    forall window | window in cfg.windows ensures WindowKept(w.entries + [PlannedEntry(o, id, owner, q.now)], window) {
      PlanKeepsWindow(w.entries, q, o, id, owner, window);
    }
  }

  /** A new planned entry: unsigned, with its own id, and with the terms every buy has. */
  predicate NewEntry(entries: seq<Entry>, e: Entry) {
    && e.status == Planned && e.nonce.None? && e.raw.None? && FreshId(entries, e.id) && 0 <= e.quantity
    && (e.action == Buy ==> 1 <= e.limit && e.claim.Some?)
  }

  lemma AppendKeepsSeen(w: World, e: Entry)
    requires SeenOk(w.entries, w.seen) && BytesOk(e) && forall k :: 0 <= k < |w.entries| ==> BytesOk(w.entries[k])
    ensures SeenOk(w.entries + [e], WithEntries(w, w.entries + [e]).seen)
  {
    var after := w.entries + [e];
    forall c | c in WithEntries(w, after).seen
      ensures BytesOk(c) && exists k :: 0 <= k < |after| && Follows(c, after[k])
    {
      if c in w.seen {
        var k :| 0 <= k < |w.entries| && Follows(c, w.entries[k]);
        assert after[k] == w.entries[k];
      } else {
        var k :| 0 <= k < |after| && after[k] == c;
        assert Follows(c, after[k]);
      }
    }
  }

  lemma AppendKeepsSent(w: World, e: Entry)
    requires SentOk(w.entries, w.sent)
    ensures SentOk(w.entries + [e], w.sent)
  {
    var after := w.entries + [e];
    forall s | s in w.sent ensures exists k :: 0 <= k < |after| && after[k].id == s.0 && after[k].raw == Some(s.1) {
      var k :| 0 <= k < |w.entries| && w.entries[k].id == s.0 && w.entries[k].raw == Some(s.1);
      assert after[k] == w.entries[k];
    }
  }

  ghost predicate EntriesOk(w: World)
    requires w.points != []
  {
    forall k :: 0 <= k < |w.entries| ==> EntryOk(w, w.entries[k])
  }

  lemma EntriesHaveBytes(w: World)
    requires w.points != [] && EntriesOk(w)
    ensures forall k :: 0 <= k < |w.entries| ==> BytesOk(w.entries[k])
  {
    forall k | 0 <= k < |w.entries| ensures BytesOk(w.entries[k]) {
      assert EntryOk(w, w.entries[k]);
    }
  }

  lemma AppendKeepsEntries(w: World, e: Entry)
    requires w.points != [] && EntriesOk(w) && NewEntry(w.entries, e)
    ensures EntriesOk(WithEntries(w, w.entries + [e]))
    ensures DistinctNonces(w.entries) ==> DistinctNonces(w.entries + [e])
    ensures DistinctIds(w.entries) ==> DistinctIds(w.entries + [e])
  {
    var w' := WithEntries(w, w.entries + [e]);
    forall k | 0 <= k < |w'.entries| ensures EntryOk(w', w'.entries[k]) {
      if k < |w.entries| {
        assert EntryOk(w, w.entries[k]);
      }
    }
  }

  lemma EntriesKeepChain(cfg: Config, w: World, entries: seq<Entry>)
    requires ChainOk(cfg, w)
    ensures ChainOk(cfg, WithEntries(w, entries))
  {
  }

  lemma Assemble(cfg: Config, w: World)
    requires ChainOk(cfg, w) && LimitsKept(cfg, w.entries) && EntriesOk(w)
    requires DistinctIds(w.entries) && DistinctNonces(w.entries) && SeenOk(w.entries, w.seen)
             && SentOk(w.entries, w.sent)
    ensures Inv(cfg, w)
  {
  }

  /** Appending a new planned entry keeps everything else. */
  lemma AppendKeepsInv(cfg: Config, w: World, e: Entry)
    requires Inv(cfg, w) && NewEntry(w.entries, e) && LimitsKept(cfg, w.entries + [e])
    ensures Inv(cfg, WithEntries(w, w.entries + [e]))
  {
    EntriesHaveBytes(w);
    AppendKeepsSeen(w, e);
    AppendKeepsSent(w, e);
    AppendKeepsEntries(w, e);
    EntriesKeepChain(cfg, w, w.entries + [e]);
    Assemble(cfg, WithEntries(w, w.entries + [e]));
  }

  // ---- Updating one entry ----

  /** A legal new version of entry k. */
  ghost predicate LegalUpdate(w: World, k: nat, e: Entry)
    requires w.points != [] && k < |w.entries|
  {
    var x := w.entries[k];
    && EntryOk(w, e) && Follows(x, e)
    && SpendOfEntry(e) <= SpendOfEntry(x)
    && (Unfinished(e.status) ==> Unfinished(x.status))
    && (OpenNonce(e).Some? && OpenNonce(e) != OpenNonce(x) ==>
          forall j :: 0 <= j < |w.entries| && OpenNonce(w.entries[j]).Some? ==>
              OpenNonce(w.entries[j]).value < OpenNonce(e).value)
  }

  lemma UpdateKeepsLimits(cfg: Config, w: World, k: nat, e: Entry)
    requires Inv(cfg, w) && k < |w.entries| && LegalUpdate(w, k, e)
    ensures LimitsKept(cfg, w.entries[k := e])
  {
    var views := Views(w.entries);
    assert Views(w.entries[k := e]) == views[k := ViewOf(e)];
    TotalUpdate(views, k, ViewOf(e), Spend);
    TotalUpdate(views, k, ViewOf(e), Pending);
    forall window | window in cfg.windows ensures WindowKept(w.entries[k := e], window) {
      UpdateKeepsWindow(w, k, e, window);
    }
  }

  lemma UpdateKeepsWindow(w: World, k: nat, e: Entry, window: Window)
    requires w.points != [] && k < |w.entries| && LegalUpdate(w, k, e) && WindowKept(w.entries, window)
    ensures WindowKept(w.entries[k := e], window)
  {
    var views := Views(w.entries);
    var after := w.entries[k := e];
    assert Views(after) == views[k := ViewOf(e)];
    assert e.plannedAt == w.entries[k].plannedAt;
    forall t: int ensures SpendIn(after, t, window.seconds) <= Cap(window.atoms) {
      TotalUpdate(views, k, ViewOf(e), SpendBetween(t, t + window.seconds));
      assert SpendIn(w.entries, t, window.seconds) <= Cap(window.atoms);
    }
  }

  lemma FollowsTrans(a: Entry, b: Entry, c: Entry)
    requires Follows(a, b) && Follows(b, c)
    ensures Follows(a, c)
  {
  }

  lemma UpdateKeepsSeen(w: World, k: nat, e: Entry)
    requires k < |w.entries| && Follows(w.entries[k], e) && SeenOk(w.entries, w.seen)
    requires BytesOk(e) && forall j :: 0 <= j < |w.entries| ==> BytesOk(w.entries[j])
    ensures SeenOk(w.entries[k := e], WithEntries(w, w.entries[k := e]).seen)
  {
    var after := w.entries[k := e];
    var seen := WithEntries(w, after).seen;
    forall c | c in seen ensures BytesOk(c) && exists j :: 0 <= j < |after| && Follows(c, after[j]) {
      if c in w.seen {
        var j :| 0 <= j < |w.entries| && Follows(c, w.entries[j]);
        if j == k {
          FollowsTrans(c, w.entries[k], e);
        }
        assert Follows(c, after[j]);
      } else {
        var j :| 0 <= j < |after| && after[j] == c;
        assert Follows(c, after[j]);
      }
    }
  }

  lemma UpdateKeepsSent(w: World, k: nat, e: Entry)
    requires k < |w.entries| && Follows(w.entries[k], e) && SentOk(w.entries, w.sent)
    ensures SentOk(w.entries[k := e], w.sent)
  {
    var after := w.entries[k := e];
    forall s | s in w.sent ensures exists j :: 0 <= j < |after| && after[j].id == s.0 && after[j].raw == Some(s.1) {
      var j :| 0 <= j < |w.entries| && w.entries[j].id == s.0 && w.entries[j].raw == Some(s.1);
      assert after[j].id == s.0 && after[j].raw == Some(s.1);
    }
  }

  lemma UpdateKeepsNonces(w: World, k: nat, e: Entry)
    requires w.points != [] && k < |w.entries| && LegalUpdate(w, k, e) && DistinctNonces(w.entries)
    ensures DistinctNonces(w.entries[k := e])
  {
  }

  lemma UpdateKeepsInv(cfg: Config, w: World, k: nat, e: Entry)
    requires Inv(cfg, w) && k < |w.entries| && LegalUpdate(w, k, e)
    ensures Inv(cfg, WithEntries(w, w.entries[k := e]))
  {
    UpdateKeepsLimits(cfg, w, k, e);
    EntriesHaveBytes(w);
    UpdateKeepsSeen(w, k, e);
    UpdateKeepsSent(w, k, e);
    UpdateKeepsNonces(w, k, e);
    UpdateKeepsEntries(w, k, e);
  }

  lemma UpdateKeepsEntries(w: World, k: nat, e: Entry)
    requires w.points != [] && k < |w.entries| && EntriesOk(w) && LegalUpdate(w, k, e)
    ensures EntriesOk(WithEntries(w, w.entries[k := e]))
    ensures DistinctIds(w.entries) ==> DistinctIds(w.entries[k := e])
  {
    var w' := WithEntries(w, w.entries[k := e]);
    assert e.id == w.entries[k].id;
    forall j | 0 <= j < |w'.entries| ensures EntryOk(w', w'.entries[j]) {
      assert EntryOk(w, if j == k then e else w.entries[j]);
    }
  }

  // ---- Each step makes a legal update ----

  lemma SignIsLegal(cfg: Config, w: World, k: nat, gate: Gate, highest: Option<nat>, pending: nat, now: int)
    requires Inv(cfg, w) && k < |w.entries| && IsHighest(w.entries, highest)
    ensures LegalUpdate(w, k, SignedEntry(w.entries[k], gate, highest, pending, now))
  {
    var x := w.entries[k];
    var e := SignedEntry(x, gate, highest, pending, now);
    assert EntryOk(w, x);
    forall j | 0 <= j < |w.entries| && OpenNonce(w.entries[j]).Some? && e.status == Signed && x.status == Planned
      ensures OpenNonce(w.entries[j]).value < OpenNonce(e).value
    {
      assert w.entries[j] in w.entries;
    }
  }

  lemma MarkIsLegal(cfg: Config, w: World, k: nat)
    requires Inv(cfg, w) && k < |w.entries|
    ensures LegalUpdate(w, k, SeenEntry(w.entries[k]))
  {
    assert EntryOk(w, w.entries[k]);
  }

  /** A settled success of a buy is confirmed at exactly the cost the chain charged. */
  lemma BuyEffect(cfg: Config, w: World, e: Entry, effect: Effect)
    requires ChainOk(cfg, w) && EntryOk(w, e) && e.action == Buy && e.raw.Some? && Executed(w.records, e.raw.value)
    requires exists allowance :: EffectOf(IntentOf(e, cfg.wallet), true, w.records[e.raw.value.nonce].logs, allowance,
                                          effect)
    ensures effect == Effect(Confirmed, Some(w.records[e.raw.value.nonce].cost))
    ensures 0 <= w.records[e.raw.value.nonce].cost <= e.limit
  {
    var r := w.records[e.raw.value.nonce];
    assert ByContract(cfg, r);
    var shown := Log(r.tx.pool, Some(Traded(cfg.wallet, r.tx.claim.value, true, r.tx.quantity, r.cost)));
    var k :| 0 <= k < |r.logs| && r.logs[k] == shown;
    assert Shows(IntentOf(e, cfg.wallet), r.logs[k]);
    forall j | 0 <= j < |r.logs| && Shows(IntentOf(e, cfg.wallet), r.logs[j]) ensures r.logs[j] == shown {
      assert r.logs[j] in r.logs;
    }
  }

  /** A copy a process still holds is an earlier version of the entry that now has its id. */
  lemma CopyIsEarlier(cfg: Config, w: World, copy: Entry, k: nat)
    requires Inv(cfg, w) && copy in w.seen && k < |w.entries| && w.entries[k].id == copy.id
    ensures BytesOk(copy) && Follows(copy, w.entries[k])
  {
    var j :| 0 <= j < |w.entries| && Follows(copy, w.entries[j]);
    SameEntry(w.entries, j, k);
  }

  lemma SameEntry(entries: seq<Entry>, j: nat, k: nat)
    requires DistinctIds(entries) && j < |entries| && k < |entries| && entries[j].id == entries[k].id
    ensures j == k
  {
  }

  /** Consistent reads can always be believed. */
  lemma ConsistentIsBelievable(w: World, copy: Entry, at: ReadAt, mempool: bool, allowance: Option<int>)
    requires Ordered(w, at) && Consistent(w, at) && forall k :: 0 <= k < |w.points| ==> w.points[k].count <= |w.records|
    ensures Believable(copy, ReadsOf(w, copy.raw, at, mempool, allowance), EarlyCount(w, at))
  {
  }

  /** The chain facts behind a release: whatever `recovery_step` releases on reads that can be believed is dead. */
  lemma ReleasedIsDead(cfg: Config, w: World, copy: Entry, tx: Tx, at: ReadAt, mempool: bool, allowance: Option<int>)
    requires ChainOk(cfg, w) && Ordered(w, at)
    requires copy.raw == Some(tx) && copy.nonce == Some(tx.nonce) && copy.deadline == tx.deadline
    requires copy.status == Signed || copy.status == Broadcast
    requires StepOf(copy, ReadsOf(w, copy.raw, at, mempool, allowance)).next == Release
    requires Believable(copy, ReadsOf(w, copy.raw, at, mempool, allowance), EarlyCount(w, at))
    ensures Dead(w, tx)
  {
    var step := StepOf(copy, ReadsOf(w, copy.raw, at, mempool, allowance));
    if step.status == Replaced {
      assert tx.nonce < w.points[at.nonce].count;
      if w.points[at.found].count <= tx.nonce {
        LateIsNotExecuted(cfg, w, tx, at);
      }
    } else if step.status == Expired {
      LateIsNotExecuted(cfg, w, tx, at);
    }
  }

  /** Once the head is past the deadline and the hash is unknown, the transaction can only be mined as a failure. */
  lemma LateIsNotExecuted(cfg: Config, w: World, tx: Tx, at: ReadAt)
    requires ChainOk(cfg, w) && Ordered(w, at) && tx.deadline.Some? && w.points[at.head].time > tx.deadline.value
    requires !MinedBy(w.records, tx, w.points[at.found].count)
    ensures !Executed(w.records, tx)
  {
    if Mined(w.records, tx) {
      assert ByContract(cfg, w.records[tx.nonce]);
      assert w.points[at.head].count <= w.points[at.found].count <= tx.nonce;
      assert w.points[at.head].time <= w.records[tx.nonce].time;
    }
  }

  /** A settled success is confirmed, or shows a mismatch: either way the entry is legal. */
  lemma VerifiedIsLegal(cfg: Config, w: World, k: nat, effect: Effect, now: int)
    requires Inv(cfg, w) && k < |w.entries| && w.entries[k].raw.Some? && Unfinished(w.entries[k].status)
    requires Executed(w.records, w.entries[k].raw.value)
    requires exists allowance :: EffectOf(IntentOf(w.entries[k], cfg.wallet), true,
                                          w.records[w.entries[k].raw.value.nonce].logs, allowance, effect)
    ensures var x := w.entries[k];
      LegalUpdate(w, k, x.(status := effect.status, finalAt := Some(now),
                           cost := if effect.status == Confirmed then effect.collateral else None))
  {
    var x := w.entries[k];
    assert EntryOk(w, x);
    if x.action == Buy {
      BuyEffect(cfg, w, x, effect);
    }
  }

  lemma ReleaseIsLegal(cfg: Config, w: World, k: nat, status: Status, now: int)
    requires Inv(cfg, w) && k < |w.entries| && Unfinished(w.entries[k].status) && Released(status)
    requires w.entries[k].raw.Some? <==> status != Abandoned
    requires w.entries[k].raw.Some? ==> Dead(w, w.entries[k].raw.value)
    ensures LegalUpdate(w, k, w.entries[k].(status := status, finalAt := Some(now)))
  {
    var x := w.entries[k];
    assert EntryOk(w, x);
    SpendNonnegative(cfg, w, x);
  }

  lemma SameIsLegal(cfg: Config, w: World, k: nat)
    requires Inv(cfg, w) && k < |w.entries|
    ensures LegalUpdate(w, k, w.entries[k])
  {
    assert EntryOk(w, w.entries[k]);
  }

  lemma ReconcileIsLegal(cfg: Config, w: World, k: nat, copy: Entry, at: ReadAt, mempool: bool, r: Reads,
                         effect: Effect, pid: nat, now: int)
    requires Inv(cfg, w) && k < |w.entries| && w.entries[k].id == copy.id
    requires copy in w.seen && Ordered(w, at) && r == ReadsOf(w, copy.raw, at, mempool, r.allowance)
    requires Believable(copy, r, EarlyCount(w, at)) && Verified(cfg, copy, r, effect)
    ensures LegalUpdate(w, k, ReconciledEntry(w.entries[k], copy, r, effect, pid, now))
  {
    var x := w.entries[k];
    var step := StepOf(copy, r);
    assert EntryOk(w, x);
    CopyIsEarlier(cfg, w, copy, k);
    if LeftAlone(copy, pid, now) || x.status != copy.status {
      SameIsLegal(cfg, w, k);
    } else if step.next == Verify {
      assert IntentOf(copy, cfg.wallet) == IntentOf(x, cfg.wallet);
      VerifiedIsLegal(cfg, w, k, effect, now);
    } else if step.next == Release {
      if x.status != Planned {
        ReleasedIsDead(cfg, w, copy, x.raw.value, at, mempool, r.allowance);
      }
      ReleaseIsLegal(cfg, w, k, step.status, now);
    } else if step.next == Poll && copy.status == Signed {
      MarkIsLegal(cfg, w, k);
    } else {
      SameIsLegal(cfg, w, k);
    }
  }

  // ---- The chain moves on ----

  /** What was mined stays mined and what is dead stays dead. */
  lemma DeadStays(cfg: Config, w: World, w': World, tx: Tx)
    requires ChainOk(cfg, w) && ChainOk(cfg, w') && w.records <= w'.records && w'.points != [] && w.points <= w'.points
    requires Dead(w, tx)
    ensures Dead(w', tx)
  {
    var last := |w.points| - 1;
    assert w'.points[last] == Head(w);
    if tx.nonce >= |w.records| && tx.nonce < |w'.records| {
      assert ByContract(cfg, w'.records[tx.nonce]);
      assert w'.points[last].time <= w'.records[tx.nonce].time;
    }
  }

  lemma BlockKeepsInv(cfg: Config, w: World, w': World)
    requires Inv(cfg, w) && ChainOk(cfg, w') && w.records <= w'.records && w.points <= w'.points
    requires w'.entries == w.entries && w'.seen == w.seen && w'.sent == w.sent
    ensures Inv(cfg, w')
  {
    forall k | 0 <= k < |w'.entries| ensures EntryOk(w', w'.entries[k]) {
      var e := w.entries[k];
      assert EntryOk(w, e);
      if Released(e.status) && e.raw.Some? {
        DeadStays(cfg, w, w', e.raw.value);
      }
    }
  }

  lemma SendKeepsSent(w: World, copy: Entry)
    requires SeenOk(w.entries, w.seen) && SentOk(w.entries, w.sent) && copy in w.seen && copy.raw.Some?
    ensures SentOk(w.entries, w.sent + {(copy.id, copy.raw.value)})
  {
    forall s | s in w.sent + {(copy.id, copy.raw.value)}
      ensures exists k :: 0 <= k < |w.entries| && w.entries[k].id == s.0 && w.entries[k].raw == Some(s.1)
    {
      if s !in w.sent {
        var k :| 0 <= k < |w.entries| && Follows(copy, w.entries[k]);
        assert w.entries[k].id == s.0 && w.entries[k].raw == Some(s.1);
      }
    }
  }

  lemma SendKeepsEntries(w: World, sent: set<(nat, Tx)>)
    requires w.points != [] && EntriesOk(w)
    ensures EntriesOk(w.(sent := sent))
  {
    forall k | 0 <= k < |w.entries| ensures EntryOk(w.(sent := sent), w.entries[k]) {
      assert EntryOk(w, w.entries[k]);
    }
  }

  lemma SendKeepsInv(cfg: Config, w: World, copy: Entry)
    requires Inv(cfg, w) && copy in w.seen && copy.raw.Some?
    ensures Inv(cfg, w.(sent := w.sent + {(copy.id, copy.raw.value)}))
  {
    SendKeepsSent(w, copy);
    SendKeepsEntries(w, w.sent + {(copy.id, copy.raw.value)});
  }

  lemma PlanKeepsInv(cfg: Config, w: World, q: Quote, o: Order, id: nat, owner: nat, w': World)
    requires Inv(cfg, w) && Next(cfg, w, Step.Plan(q, o, id, owner), w')
    ensures Inv(cfg, w')
  {
    PlanKeepsLimits(cfg, w, q, o, id, owner);
    AppendKeepsInv(cfg, w, PlannedEntry(o, id, owner, q.now));
  }

  lemma SignKeepsInv(cfg: Config, w: World, id: nat, gate: Gate, highest: Option<nat>, pending: nat, now: int)
    requires Inv(cfg, w) && IsHighest(w.entries, highest) && Find(w.entries, id).Some?
    ensures var e := SignedEntry(w.entries[Find(w.entries, id).value], gate, highest, pending, now);
      Inv(cfg, WithEntries(w, Put(w.entries, id, e)))
  {
    var k := Find(w.entries, id).value;
    SignIsLegal(cfg, w, k, gate, highest, pending, now);
    UpdateKeepsInv(cfg, w, k, SignedEntry(w.entries[k], gate, highest, pending, now));
  }

  lemma MarkKeepsInv(cfg: Config, w: World, id: nat)
    requires Inv(cfg, w) && Find(w.entries, id).Some?
    ensures Inv(cfg, WithEntries(w, Put(w.entries, id, SeenEntry(w.entries[Find(w.entries, id).value]))))
  {
    var k := Find(w.entries, id).value;
    MarkIsLegal(cfg, w, k);
    UpdateKeepsInv(cfg, w, k, SeenEntry(w.entries[k]));
  }

  lemma ReconcileKeepsInv(cfg: Config, w: World, copy: Entry, at: ReadAt, mempool: bool, r: Reads, effect: Effect,
                          pid: nat, now: int)
    requires Inv(cfg, w) && copy in w.seen && Ordered(w, at) && r == ReadsOf(w, copy.raw, at, mempool, r.allowance)
    requires Believable(copy, r, EarlyCount(w, at)) && Verified(cfg, copy, r, effect) && Find(w.entries, copy.id).Some?
    ensures var e := ReconciledEntry(w.entries[Find(w.entries, copy.id).value], copy, r, effect, pid, now);
      Inv(cfg, WithEntries(w, Put(w.entries, copy.id, e)))
  {
    var k := Find(w.entries, copy.id).value;
    ReconcileIsLegal(cfg, w, k, copy, at, mempool, r, effect, pid, now);
    UpdateKeepsInv(cfg, w, k, ReconciledEntry(w.entries[k], copy, r, effect, pid, now));
  }

  /** Every step keeps the invariant. */
  lemma NextKeepsInv(cfg: Config, w: World, step: Step, w': World)
    requires Inv(cfg, w) && Next(cfg, w, step, w')
    ensures Inv(cfg, w')
  {
    match step
    case Plan(q, o, id, owner) =>
      PlanKeepsInv(cfg, w, q, o, id, owner, w');
    case Sign(id, gate, highest, pending, now) =>
      SignKeepsInv(cfg, w, id, gate, highest, pending, now);
    case Send(copy) =>
      SendKeepsInv(cfg, w, copy);
    case MarkBroadcast(id) =>
      MarkKeepsInv(cfg, w, id);
    case Reconcile(copy, at, mempool, allowance, effect, pid, now) =>
      ReconcileKeepsInv(cfg, w, copy, at, mempool, ReadsOf(w, copy.raw, at, mempool, allowance), effect, pid, now);
    case Block(mined, point) =>
      BlockKeepsInv(cfg, w, w');
    case Crash =>
  }
}
