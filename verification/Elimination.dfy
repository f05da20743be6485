/** Bucket elimination over local factor tables (factored.rs, `eliminate` and `induced_width`),
    against the aggregate over all joint states that it replaces. */
module Elimination {
  import opened Scopes
  import opened Semiring
  import opened Width

  datatype Table = Table(scope: set<nat>, values: seq<Num>)

  type Evidence = map<nat, bool>

  ghost predicate Shaped(tables: seq<Table>) {
    forall t :: t in tables ==> |t.values| == Pow2(|t.scope|)
  }

  ghost predicate Within(tables: seq<Table>, events: set<nat>) {
    forall t :: t in tables ==> t.scope <= events
  }

  // ---- Meaning: the combined factor value of one joint state, and its aggregate over all states ----

  function Lookup(t: Table, state: set<nat>): Num
    requires |t.values| == Pow2(|t.scope|)
  {
    t.values[Project(t.scope, state)]
  }

  /** The combined value of all factors in one joint state. */
  ghost function Joint(mode: Mode, tables: seq<Table>, state: set<nat>): Num
    requires Shaped(tables)
  {
    if tables == [] then One(mode)
    else Combine(mode, Lookup(tables[0], state), Joint(mode, tables[1..], state))
  }

  predicate Agrees(evidence: Evidence, state: set<nat>) {
    forall e | e in evidence :: evidence[e] == (e in state)
  }

  /** What one joint state contributes: nothing when it contradicts the evidence. */
  ghost function Term(mode: Mode, tables: seq<Table>, evidence: Evidence, state: set<nat>): Num
    requires Shaped(tables)
  {
    if Agrees(evidence, state) then Joint(mode, tables, state) else NegInf
  }

  /** The brute-force meaning: one term per listed state, aggregated in the order of the list. */
  ghost function Enumerated(mode: Mode, tables: seq<Table>, evidence: Evidence, states: seq<set<nat>>): Num
    requires Shaped(tables)
  {
    if states == [] then NegInf
    else Aggregate(mode, Term(mode, tables, evidence, states[0]), Enumerated(mode, tables, evidence, states[1..]))
  }

  // ---- The same aggregate, one event at a time ----

  /** Aggregates the terms over every assignment of the free events of a state. */
  ghost function Over(mode: Mode, tables: seq<Table>, evidence: Evidence, free: set<nat>, state: set<nat>): Num
    requires Shaped(tables)
    decreases |free|
  {
    if free == {} then Term(mode, tables, evidence, state)
    else
      var e := Least(free);
      Aggregate(mode,
                Over(mode, tables, evidence, free - {e}, With(state, e, false)),
                Over(mode, tables, evidence, free - {e}, With(state, e, true)))
  }

  /** Both values of one event, aggregated inside the remaining free events. */
  ghost function Inner(mode: Mode, tables: seq<Table>, evidence: Evidence, free: set<nat>, state: set<nat>, e: nat): Num
    requires Shaped(tables)
  {
    Aggregate(mode,
              Over(mode, tables, evidence, free, With(state, e, false)),
              Over(mode, tables, evidence, free, With(state, e, true)))
  }

  lemma WithCommutes(state: set<nat>, a: nat, va: bool, b: nat, vb: bool)
    requires a != b
    ensures With(With(state, a, va), b, vb) == With(With(state, b, vb), a, va)
  {
  }

  /** One nested aggregation over two events may be taken in either order. */
  lemma InnerStep(mode: Mode, tables: seq<Table>, evidence: Evidence, free: set<nat>, state: set<nat>, e: nat, l: nat)
    requires Shaped(tables) && free != {} && e !in free && l == Least(free)
    ensures Inner(mode, tables, evidence, free, state, e)
         == Aggregate(mode,
                      Inner(mode, tables, evidence, free - {l}, With(state, l, false), e),
                      Inner(mode, tables, evidence, free - {l}, With(state, l, true), e))
  {
    WithCommutes(state, e, false, l, false);
    WithCommutes(state, e, false, l, true);
    WithCommutes(state, e, true, l, false);
    WithCommutes(state, e, true, l, true);
    var rest := free - {l};
    AggregateExchange(mode,
                      Over(mode, tables, evidence, rest, With(With(state, e, false), l, false)),
                      Over(mode, tables, evidence, rest, With(With(state, e, false), l, true)),
                      Over(mode, tables, evidence, rest, With(With(state, e, true), l, false)),
                      Over(mode, tables, evidence, rest, With(With(state, e, true), l, true)));
  }

  /** Any free event can be taken first. */
  lemma {:induction false} Peel(mode: Mode, tables: seq<Table>, evidence: Evidence, free: set<nat>, state: set<nat>,
                                e: nat)
    requires Shaped(tables) && e in free
    ensures Over(mode, tables, evidence, free, state) == Inner(mode, tables, evidence, free - {e}, state, e)
    decreases |free|
  {
    var l := Least(free);
    if l != e {
      Peel(mode, tables, evidence, free - {l}, With(state, l, false), e);
      Peel(mode, tables, evidence, free - {l}, With(state, l, true), e);
      assert free - {l} - {e} == free - {e} - {l};
      LeastIs(free - {e}, l);
      InnerStep(mode, tables, evidence, free - {e}, state, e, l);
    }
  }

  /** The per-event aggregate is the aggregate over the enumerated joint states. */
  lemma {:induction false} OverIsEnumerated(mode: Mode, tables: seq<Table>, evidence: Evidence, n: nat, high: set<nat>)
    requires Shaped(tables) && high !! Range(n)
    ensures Over(mode, tables, evidence, Range(n), high) == Enumerated(mode, tables, evidence, States(n, high))
    decreases n
  {
    if n == 0 {
      EnumeratedOne(mode, tables, evidence, high);
    } else {
      OverIsEnumerated(mode, tables, evidence, n - 1, high);
      OverIsEnumerated(mode, tables, evidence, n - 1, high + {n - 1});
      OverTop(mode, tables, evidence, n, high);
      EnumeratedConcat(mode, tables, evidence, States(n - 1, high), States(n - 1, high + {n - 1}));
    }
  }

  lemma OverTop(mode: Mode, tables: seq<Table>, evidence: Evidence, n: nat, high: set<nat>)
    requires Shaped(tables) && n > 0 && high !! Range(n)
    ensures Over(mode, tables, evidence, Range(n), high)
         == Aggregate(mode, Over(mode, tables, evidence, Range(n - 1), high),
                      Over(mode, tables, evidence, Range(n - 1), high + {n - 1}))
  {
    Peel(mode, tables, evidence, Range(n), high, n - 1);
    assert Range(n) - {n - 1} == Range(n - 1);
    assert With(high, n - 1, false) == high;
    assert With(high, n - 1, true) == high + {n - 1};
  }

  lemma EnumeratedOne(mode: Mode, tables: seq<Table>, evidence: Evidence, state: set<nat>)
    requires Shaped(tables)
    ensures Enumerated(mode, tables, evidence, [state]) == Term(mode, tables, evidence, state)
  {
    assert [state][1..] == [];
    assert Enumerated(mode, tables, evidence, [state][1..]) == NegInf;
    AggregateAssociative(mode, Term(mode, tables, evidence, state), NegInf, NegInf);
  }

  lemma {:induction false} EnumeratedConcat(mode: Mode, tables: seq<Table>, evidence: Evidence, s: seq<set<nat>>,
                                            t: seq<set<nat>>)
    requires Shaped(tables)
    ensures Enumerated(mode, tables, evidence, s + t)
         == Aggregate(mode, Enumerated(mode, tables, evidence, s), Enumerated(mode, tables, evidence, t))
  {
    if s == [] {
      assert s + t == t;
    } else {
      EnumeratedConcat(mode, tables, evidence, s[1..], t);
      assert (s + t)[1..] == s[1..] + t;
      AggregateAssociative(mode, Term(mode, tables, evidence, s[0]),
                           Enumerated(mode, tables, evidence, s[1..]), Enumerated(mode, tables, evidence, t));
    }
  }

  // ---- One elimination step ----

  function Bucket(tables: seq<Table>, e: nat): (b: seq<Table>)
    ensures Shaped(tables) ==> Shaped(b)
  {
    if tables == [] then []
    else (if e in tables[0].scope then [tables[0]] else []) + Bucket(tables[1..], e)
  }

  function Rest(tables: seq<Table>, e: nat): (r: seq<Table>)
    ensures Shaped(tables) ==> Shaped(r)
  {
    if tables == [] then []
    else (if e !in tables[0].scope then [tables[0]] else []) + Rest(tables[1..], e)
  }

  function ScopesOf(tables: seq<Table>): (s: seq<set<nat>>) {
    seq(|tables|, i requires 0 <= i < |tables| => tables[i].scope)
  }

  lemma {:induction false} BucketAndRest(tables: seq<Table>, e: nat)
    ensures forall t :: t in Bucket(tables, e) <==> t in tables && e in t.scope
    ensures forall t :: t in Rest(tables, e) <==> t in tables && e !in t.scope
  {
    if tables != [] {
      BucketAndRest(tables[1..], e);
    }
  }

  lemma {:induction false} JoinedMembers(tables: seq<Table>, e: nat, x: nat)
    ensures x in Joined(ScopesOf(tables), e) <==> x == e || exists t :: t in tables && e in t.scope && x in t.scope
  {
    if tables != [] {
      JoinedMembers(tables[1..], e, x);
      assert ScopesOf(tables)[1..] == ScopesOf(tables[1..]);
    }
  }

  /** The evidence rules out this value of the event. */
  predicate Blocked(evidence: Evidence, e: nat, v: bool) {
    e in evidence && evidence[e] != v
  }

  /** One branch of the sum-out: the bucket's combined value, or nothing against the evidence. */
  ghost function Branch(mode: Mode, bucket: seq<Table>, evidence: Evidence, state: set<nat>, e: nat, v: bool): Num
    requires Shaped(bucket)
  {
    if Blocked(evidence, e, v) then NegInf else Joint(mode, bucket, With(state, e, v))
  }

  ghost predicate SummedOut(mode: Mode, bucket: seq<Table>, evidence: Evidence, e: nat, t: Table)
    requires Shaped(bucket)
  {
    && |t.values| == Pow2(|t.scope|)
    && forall state: set<nat> ::
         Lookup(t, state) == Aggregate(mode, Branch(mode, bucket, evidence, state, e, false),
                                       Branch(mode, bucket, evidence, state, e, true))
  }

  lemma {:induction false} JointSplits(mode: Mode, tables: seq<Table>, e: nat, state: set<nat>)
    requires Shaped(tables)
    ensures Joint(mode, tables, state)
         == Combine(mode, Joint(mode, Rest(tables, e), state), Joint(mode, Bucket(tables, e), state))
  {
    if tables == [] {
      CombineCommutative(mode, One(mode), One(mode));
    } else {
      JointSplits(mode, tables[1..], e, state);
      var x := Lookup(tables[0], state);
      var r := Joint(mode, Rest(tables[1..], e), state);
      var b := Joint(mode, Bucket(tables[1..], e), state);
      if e in tables[0].scope {
        assert Bucket(tables, e) == [tables[0]] + Bucket(tables[1..], e);
        assert Bucket(tables, e)[1..] == Bucket(tables[1..], e);
        assert Rest(tables, e) == Rest(tables[1..], e);
        CombineAssociative(mode, x, r, b);
        CombineCommutative(mode, x, r);
        CombineAssociative(mode, r, x, b);
      } else {
        assert Rest(tables, e) == [tables[0]] + Rest(tables[1..], e);
        assert Rest(tables, e)[1..] == Rest(tables[1..], e);
        assert Bucket(tables, e) == Bucket(tables[1..], e);
        CombineAssociative(mode, x, r, b);
      }
    }
  }

  lemma {:induction false} JointIgnores(mode: Mode, tables: seq<Table>, s: set<nat>, t: set<nat>, e: nat)
    requires Shaped(tables)
    requires forall x :: x in tables ==> e !in x.scope
    requires forall x: nat :: x != e ==> (x in s <==> x in t)
    ensures Joint(mode, tables, s) == Joint(mode, tables, t)
  {
    if tables != [] {
      ProjectSame(tables[0].scope, s, t);
      JointIgnores(mode, tables[1..], s, t, e);
    }
  }

  lemma {:induction false} JointAppend(mode: Mode, tables: seq<Table>, last: Table, state: set<nat>)
    requires Shaped(tables + [last])
    ensures Shaped(tables) && |last.values| == Pow2(|last.scope|)
    ensures Joint(mode, tables + [last], state) == Combine(mode, Joint(mode, tables, state), Lookup(last, state))
  {
    assert last in tables + [last];
    assert forall t :: t in tables ==> t in tables + [last];
    var x := Lookup(last, state);
    if tables == [] {
      assert tables + [last] == [last];
      assert [last][1..] == [];
      CombineCommutative(mode, One(mode), x);
    } else {
      assert (tables + [last])[1..] == tables[1..] + [last];
      JointAppend(mode, tables[1..], last, state);
      assert Joint(mode, tables + [last], state)
          == Combine(mode, Lookup(tables[0], state), Joint(mode, tables[1..] + [last], state));
      CombineAssociative(mode, Lookup(tables[0], state), Joint(mode, tables[1..], state), x);
    }
  }

  lemma AgreesSplits(evidence: Evidence, state: set<nat>, e: nat, v: bool)
    ensures Agrees(evidence, With(state, e, v))
        <==> Agrees(evidence - {e}, state) && (e in evidence ==> evidence[e] == v)
  {
    if Agrees(evidence, With(state, e, v)) {
      forall x | x in evidence - {e} ensures (evidence - {e})[x] == (x in state) {
        assert x in evidence;
      }
    }
  }

  /** Summing one event out of the bucket leaves every state's aggregate unchanged. */
  lemma StepTerm(mode: Mode, tables: seq<Table>, evidence: Evidence, e: nat, next: Table, state: set<nat>)
    requires Shaped(tables) && e !in next.scope
    requires Shaped(Bucket(tables, e)) && SummedOut(mode, Bucket(tables, e), evidence, e, next)
    ensures Shaped(Rest(tables, e) + [next])
    ensures Inner(mode, tables, evidence, {}, state, e)
         == Term(mode, Rest(tables, e) + [next], evidence - {e}, state)
  {
    var rest, bucket := Rest(tables, e), Bucket(tables, e);
    BucketAndRest(tables, e);
    AgreesSplits(evidence, state, e, false);
    AgreesSplits(evidence, state, e, true);
    var s0, s1 := With(state, e, false), With(state, e, true);
    JointSplits(mode, tables, e, s0);
    JointSplits(mode, tables, e, s1);
    JointIgnores(mode, rest, s0, state, e);
    JointIgnores(mode, rest, s1, state, e);
    JointAppend(mode, rest, next, state);
    var b0, b1 := Branch(mode, bucket, evidence, state, e, false), Branch(mode, bucket, evidence, state, e, true);
    Distributive(mode, Joint(mode, rest, state), b0, b1);
    assert Lookup(next, state) == Aggregate(mode, b0, b1);
  }

  lemma {:induction false} StepOver(mode: Mode, tables: seq<Table>, evidence: Evidence, e: nat, next: Table,
                                    free: set<nat>, state: set<nat>)
    requires Shaped(tables) && e !in next.scope && e !in free
    requires Shaped(Bucket(tables, e)) && SummedOut(mode, Bucket(tables, e), evidence, e, next)
    ensures Shaped(Rest(tables, e) + [next])
    ensures Inner(mode, tables, evidence, free, state, e)
         == Over(mode, Rest(tables, e) + [next], evidence - {e}, free, state)
    decreases |free|
  {
    StepTerm(mode, tables, evidence, e, next, state);
    if free != {} {
      var l := Least(free);
      InnerStep(mode, tables, evidence, free, state, e, l);
      StepOver(mode, tables, evidence, e, next, free - {l}, With(state, l, false));
      StepOver(mode, tables, evidence, e, next, free - {l}, With(state, l, true));
    }
  }

  // ---- The table that replaces a bucket ----

  /** Entry i aggregates the bucket over both values of the event, in the local state i of the rest. */
  ghost function SumOutTable(mode: Mode, bucket: seq<Table>, evidence: Evidence, remaining: set<nat>,
                             e: nat): (t: Table)
    requires Shaped(bucket)
    ensures t.scope == remaining && |t.values| == Pow2(|remaining|)
  {
    Table(remaining,
          seq(Pow2(|remaining|), i requires 0 <= i < Pow2(|remaining|) =>
            Aggregate(mode, Branch(mode, bucket, evidence, Expand(remaining, i), e, false),
                      Branch(mode, bucket, evidence, Expand(remaining, i), e, true))))
  }

  lemma {:induction false} JointSame(mode: Mode, tables: seq<Table>, scope: set<nat>, s: set<nat>, t: set<nat>)
    requires Shaped(tables) && Within(tables, scope)
    requires forall x: nat :: x in scope ==> (x in s <==> x in t)
    ensures Joint(mode, tables, s) == Joint(mode, tables, t)
  {
    if tables != [] {
      ProjectSame(tables[0].scope, s, t);
      JointSame(mode, tables[1..], scope, s, t);
    }
  }

  lemma SumOutTableIsSummedOut(mode: Mode, bucket: seq<Table>, evidence: Evidence, remaining: set<nat>, e: nat)
    requires Shaped(bucket) && Within(bucket, remaining + {e})
    ensures SummedOut(mode, bucket, evidence, e, SumOutTable(mode, bucket, evidence, remaining, e))
  {
    var t := SumOutTable(mode, bucket, evidence, remaining, e);
    forall state: set<nat>
      ensures Lookup(t, state) == Aggregate(mode, Branch(mode, bucket, evidence, state, e, false),
                                            Branch(mode, bucket, evidence, state, e, true))
    {
      var local := Expand(remaining, Project(remaining, state));
      ExpandProject(remaining, state);
      JointSame(mode, bucket, remaining + {e}, With(local, e, false), With(state, e, false));
      JointSame(mode, bucket, remaining + {e}, With(local, e, true), With(state, e, true));
    }
  }

  /** The local state of the joined scope that stands for entry i with the event set to v. */
  ghost function Slot(joined: set<nat>, e: nat, i: nat, v: bool): (local: nat)
    ensures local < Pow2(|joined|)
  {
    Project(joined, With(Expand(joined - {e}, i), e, v))
  }

  lemma SlotIsState(joined: set<nat>, e: nat, local: nat, i: nat, v: bool)
    requires e in joined && local < Pow2(|joined|) && Slot(joined, e, i, v) == local
    ensures With(Expand(joined - {e}, i), e, v) == Expand(joined, local)
  {
    var state, a := With(Expand(joined - {e}, i), e, v), Expand(joined, local);
    ProjectExpand(joined, local);
    ProjectInjective(joined, state, a);
    assert joined * state == state && joined * a == a;
  }

  /** The slot of an entry and a value of the event is the joint entry they come from. */
  lemma SlotGives(joined: set<nat>, e: nat, local: nat, i: nat, v: bool, a: set<nat>)
    requires e in joined && local < Pow2(|joined|) && i < Pow2(|joined - {e}|) && a == Expand(joined, local)
    requires Slot(joined, e, i, v) == local
    ensures i == Project(joined - {e}, a) && v == (e in a) && With(Expand(joined - {e}, i), e, v) == a
  {
    SlotIsState(joined, e, local, i, v);
    ProjectExpand(joined - {e}, i);
    ProjectSame(joined - {e}, Expand(joined - {e}, i), a);
  }

  lemma SlotHits(joined: set<nat>, e: nat, local: nat, i: nat, v: bool, a: set<nat>)
    requires e in joined && local < Pow2(|joined|) && a == Expand(joined, local)
    requires i == Project(joined - {e}, a) && v == (e in a)
    ensures Slot(joined, e, i, v) == local
  {
    ProjectExpand(joined, local);
    ExpandProject(joined - {e}, a);
    assert With(Expand(joined - {e}, i), e, v) == a;
  }

  lemma SlotMatches(joined: set<nat>, e: nat, local: nat, i: nat, v: bool)
    requires e in joined && local < Pow2(|joined|) && i < Pow2(|joined - {e}|)
    ensures Slot(joined, e, i, v) == local
       <==> (i == Project(joined - {e}, Expand(joined, local)) && v == (e in Expand(joined, local)))
    ensures Slot(joined, e, i, v) == local ==> With(Expand(joined - {e}, i), e, v) == Expand(joined, local)
  {
    var a := Expand(joined, local);
    if Slot(joined, e, i, v) == local {
      SlotGives(joined, e, local, i, v, a);
    } else if i == Project(joined - {e}, a) && v == (e in a) {
      SlotHits(joined, e, local, i, v, a);
    }
  }

  /** What entry i holds of one branch once the local states below a bound were visited. */
  ghost function Part(mode: Mode, bucket: seq<Table>, evidence: Evidence, joined: set<nat>, e: nat, i: nat, v: bool,
                      bound: nat): Num
    requires Shaped(bucket)
  {
    if Slot(joined, e, i, v) < bound then Branch(mode, bucket, evidence, Expand(joined - {e}, i), e, v) else NegInf
  }

  ghost function Filled(mode: Mode, bucket: seq<Table>, evidence: Evidence, joined: set<nat>, e: nat, i: nat,
                        bound: nat): Num
    requires Shaped(bucket)
  {
    Aggregate(mode, Part(mode, bucket, evidence, joined, e, i, false, bound),
              Part(mode, bucket, evidence, joined, e, i, true, bound))
  }

  lemma FilledStep(mode: Mode, bucket: seq<Table>, evidence: Evidence, joined: set<nat>, e: nat, i: nat, local: nat,
                   a: set<nat>)
    requires Shaped(bucket) && e in joined && local < Pow2(|joined|) && i < Pow2(|joined - {e}|)
    requires a == Expand(joined, local)
    ensures i != Project(joined - {e}, a) || Blocked(evidence, e, e in a) ==>
              Filled(mode, bucket, evidence, joined, e, i, local + 1)
              == Filled(mode, bucket, evidence, joined, e, i, local)
    ensures i == Project(joined - {e}, a) && !Blocked(evidence, e, e in a) ==>
              Filled(mode, bucket, evidence, joined, e, i, local + 1)
              == Aggregate(mode, Filled(mode, bucket, evidence, joined, e, i, local), Joint(mode, bucket, a))
  {
    SlotMatches(joined, e, local, i, false);
    SlotMatches(joined, e, local, i, true);
    var p0 := Part(mode, bucket, evidence, joined, e, i, false, local);
    var p1 := Part(mode, bucket, evidence, joined, e, i, true, local);
    var value := Joint(mode, bucket, a);
    AggregateAssociative(mode, p0, p1, value);
    AggregateAssociative(mode, p1, value, NegInf);
    AggregateAssociative(mode, p0, value, p1);
  }

  ghost predicate FilledTo(mode: Mode, bucket: seq<Table>, evidence: Evidence, joined: set<nat>, e: nat,
                           values: seq<Num>, bound: nat)
    requires Shaped(bucket)
  {
    && |values| == Pow2(|joined - {e}|)
    && forall i: nat :: i < |values| ==> values[i] == Filled(mode, bucket, evidence, joined, e, i, bound)
  }

  lemma FilledAdvance(mode: Mode, bucket: seq<Table>, evidence: Evidence, joined: set<nat>, e: nat,
                      values: seq<Num>, local: nat, a: set<nat>, next: seq<Num>)
    requires Shaped(bucket) && e in joined && local < Pow2(|joined|) && a == Expand(joined, local)
    requires FilledTo(mode, bucket, evidence, joined, e, values, local)
    requires var index := Project(joined - {e}, a);
      next == if Blocked(evidence, e, e in a) then values
              else values[index := Aggregate(mode, values[index], Joint(mode, bucket, a))]
    ensures FilledTo(mode, bucket, evidence, joined, e, next, local + 1)
  {
    forall i: nat | i < |next| ensures next[i] == Filled(mode, bucket, evidence, joined, e, i, local + 1) {
      FilledStep(mode, bucket, evidence, joined, e, i, local, a);
    }
  }

  lemma FilledStart(mode: Mode, bucket: seq<Table>, evidence: Evidence, joined: set<nat>, e: nat, values: seq<Num>)
    requires Shaped(bucket) && values == seq(Pow2(|joined - {e}|), _ => NegInf)
    ensures FilledTo(mode, bucket, evidence, joined, e, values, 0)
  {
  }

  lemma FilledDone(mode: Mode, bucket: seq<Table>, evidence: Evidence, joined: set<nat>, e: nat, values: seq<Num>)
    requires Shaped(bucket)
    requires FilledTo(mode, bucket, evidence, joined, e, values, Pow2(|joined|))
    ensures Table(joined - {e}, values) == SumOutTable(mode, bucket, evidence, joined - {e}, e)
  {
  }

  /** The sum of the bucket's entries in one assignment. */
  method BucketValue(mode: Mode, bucket: seq<Table>, assignment: set<nat>) returns (value: Num)
    requires Shaped(bucket)
    ensures value == Joint(mode, bucket, assignment)
  {
    value := One(mode);
    var k := 0;
    CombineCommutative(mode, Joint(mode, bucket, assignment), value);
    while k < |bucket|
      invariant 0 <= k <= |bucket|
      invariant Combine(mode, value, Joint(mode, bucket[k..], assignment)) == Joint(mode, bucket, assignment)
    {
      assert bucket[k] in bucket;
      var local := ProjectLoop(bucket[k].scope, assignment);
      assert bucket[k..][1..] == bucket[k + 1..];
      CombineAssociative(mode, value, bucket[k].values[local], Joint(mode, bucket[k + 1..], assignment));
      value := Combine(mode, value, bucket[k].values[local]);
      k := k + 1;
    }
    assert bucket[k..] == [];
    CombineCommutative(mode, value, One(mode));
  }

  /** One joint entry, added to the entry of the remaining events unless the evidence blocks it. */
  method AddEntry(mode: Mode, bucket: seq<Table>, evidence: Evidence, joined: set<nat>, e: nat, values: seq<Num>,
                  local: nat, assignment: set<nat>)
    returns (next: seq<Num>)
    requires Shaped(bucket) && e in joined && local < Pow2(|joined|) && assignment == Expand(joined, local)
    requires FilledTo(mode, bucket, evidence, joined, e, values, local)
    ensures FilledTo(mode, bucket, evidence, joined, e, next, local + 1)
  {
    next := values;
    if !Blocked(evidence, e, e in assignment) {
      var value := BucketValue(mode, bucket, assignment);
      var index := ProjectLoop(joined - {e}, assignment);
      next := values[index := Aggregate(mode, values[index], value)];
    }
    FilledAdvance(mode, bucket, evidence, joined, e, values, local, assignment, next);
  }

  /** The inner loop of `eliminate`: joins a bucket and sums one event out of it. */
  method SumOut(mode: Mode, bucket: seq<Table>, evidence: Evidence, joined: set<nat>, e: nat) returns (t: Table)
    requires Shaped(bucket) && e in joined
    ensures t == SumOutTable(mode, bucket, evidence, joined - {e}, e)
  {
    var remaining := joined - {e};
    var values := seq(Pow2(|remaining|), _ => NegInf);
    FilledStart(mode, bucket, evidence, joined, e, values);
    var local: nat := 0;
    while local < Pow2(|joined|)
      invariant local <= Pow2(|joined|)
      invariant FilledTo(mode, bucket, evidence, joined, e, values, local)
    {
      var assignment := ExpandLoop(joined, local);
      values := AddEntry(mode, bucket, evidence, joined, e, values, local, assignment);
      local := local + 1;
    }
    FilledDone(mode, bucket, evidence, joined, e, values);
    t := Table(remaining, values);
  }

  // ---- The whole run ----

  /** Partition, join, sum out, and append the new table. */
  ghost function EngineStep(mode: Mode, tables: seq<Table>, evidence: Evidence, e: nat): (r: seq<Table>)
    requires Shaped(tables)
    ensures Shaped(r)
  {
    Rest(tables, e) + [SumOutTable(mode, Bucket(tables, e), evidence, Joined(ScopesOf(tables), e) - {e}, e)]
  }

  /** The tables left after the first k events of the order. */
  ghost function TablesAt(mode: Mode, tables: seq<Table>, evidence: Evidence, order: seq<nat>, k: nat): (r: seq<Table>)
    requires Shaped(tables) && k <= |order|
    ensures Shaped(r)
    decreases k
  {
    if k == 0 then tables else TablesAt(mode, EngineStep(mode, tables, evidence, order[0]), evidence, order[1..], k - 1)
  }

  /** The tables left after the whole order. */
  ghost function EngineRun(mode: Mode, tables: seq<Table>, evidence: Evidence, order: seq<nat>): (r: seq<Table>)
    requires Shaped(tables)
    ensures Shaped(r)
    decreases |order|
  {
    if order == [] then tables else EngineRun(mode, EngineStep(mode, tables, evidence, order[0]), evidence, order[1..])
  }

  lemma {:induction false} RestScopes(tables: seq<Table>, e: nat)
    ensures ScopesOf(Rest(tables, e)) == Keep(ScopesOf(tables), e)
  {
    if tables != [] {
      RestScopes(tables[1..], e);
      assert ScopesOf(tables)[1..] == ScopesOf(tables[1..]);
      if e !in tables[0].scope {
        assert ScopesOf([tables[0]] + Rest(tables[1..], e)) == [tables[0].scope] + ScopesOf(Rest(tables[1..], e));
      }
    }
  }

  lemma StepScopes(mode: Mode, tables: seq<Table>, evidence: Evidence, e: nat)
    requires Shaped(tables)
    ensures ScopesOf(EngineStep(mode, tables, evidence, e)) == ScopeStep(ScopesOf(tables), e)
  {
    RestScopes(tables, e);
    var joined := Joined(ScopesOf(tables), e);
    var t := SumOutTable(mode, Bucket(tables, e), evidence, joined - {e}, e);
    assert ScopesOf(Rest(tables, e) + [t]) == ScopesOf(Rest(tables, e)) + [t.scope];
  }

  /** The width check replays the engine: at every step its scope list is the engine's table scopes. */
  lemma {:induction false} WidthReplaysEngine(mode: Mode, tables: seq<Table>, evidence: Evidence, order: seq<nat>,
                                              k: nat)
    requires Shaped(tables) && k <= |order|
    ensures ScopesOf(TablesAt(mode, tables, evidence, order, k)) == ScopesAt(ScopesOf(tables), order, k)
    decreases k
  {
    if k > 0 {
      StepScopes(mode, tables, evidence, order[0]);
      WidthReplaysEngine(mode, EngineStep(mode, tables, evidence, order[0]), evidence, order[1..], k - 1);
    }
  }

  /** How many entries the table has that the engine joins at one step. */
  ghost function JoinedEntries(mode: Mode, tables: seq<Table>, evidence: Evidence, order: seq<nat>, k: nat): nat
    requires Shaped(tables) && k < |order|
  {
    Pow2(|Joined(ScopesOf(TablesAt(mode, tables, evidence, order, k)), order[k])|)
  }

  /** The replayed sizes are the engine's own. */
  lemma SizesAreJoined(mode: Mode, tables: seq<Table>, evidence: Evidence, order: seq<nat>, k: nat)
    requires Shaped(tables) && k < |order|
    ensures JoinedEntries(mode, tables, evidence, order, k) == Pow2(JoinedSizes(ScopesOf(tables), order)[k])
  {
    WidthReplaysEngine(mode, tables, evidence, order, k);
    JoinedSizeAt(ScopesOf(tables), order, k);
  }

  /** The largest number of entries that any table joined by the engine has. */
  ghost predicate IsPeak(mode: Mode, tables: seq<Table>, evidence: Evidence, order: seq<nat>, peak: nat)
    requires Shaped(tables)
  {
    && (forall k: nat :: k < |order| ==> JoinedEntries(mode, tables, evidence, order, k) <= peak)
    && (exists k: nat :: k < |order| && JoinedEntries(mode, tables, evidence, order, k) == peak)
  }

  lemma Pow2Monotone(a: nat, b: nat)
    requires a <= b
    ensures Pow2(a) <= Pow2(b)
  {
    if a < b {
      Pow2Monotone(a, b - 1);
    }
  }

  lemma PeakOfSizes(sizes: seq<nat>, width: nat, k: nat)
    requires IsWidth(sizes, width) && k < |sizes|
    ensures Pow2(sizes[k]) <= Pow2(width + 1)
  {
    assert sizes[k] in sizes;
    Pow2Monotone(sizes[k], width + 1);
  }

  lemma AtMostEight(size: nat)
    requires size <= 3
    ensures Pow2(size) <= 8
  {
    Pow2Monotone(size, 3);
    assert Pow2(1) == 2 && Pow2(2) == 4 && Pow2(3) == 8;
  }

  lemma PeakOfRun(mode: Mode, tables: seq<Table>, evidence: Evidence, order: seq<nat>, width: nat)
    requires Shaped(tables) && order != [] && Bounded(ScopesOf(tables), order)
    requires IsWidth(JoinedSizes(ScopesOf(tables), order), width)
    ensures IsPeak(mode, tables, evidence, order, Pow2(width + 1)) && Pow2(width + 1) <= 8
  {
    var sizes := JoinedSizes(ScopesOf(tables), order);
    forall k: nat | k < |order| ensures JoinedEntries(mode, tables, evidence, order, k) <= Pow2(width + 1) {
      SizesAreJoined(mode, tables, evidence, order, k);
      PeakOfSizes(sizes, width, k);
    }
    var k: nat :| k < |sizes| && sizes[k] == width + 1;
    SizesAreJoined(mode, tables, evidence, order, k);
    AtMostEight(width + 1);
  }

  // ---- The engine ----

  /** The order is a permutation of the events 0, ..., n-1. */
  predicate IsOrder(order: seq<nat>, n: nat) {
    && |order| == n
    && (forall e | e in order :: e < n)
    && (forall i, j | 0 <= i < j < |order| :: order[i] != order[j])
  }

  lemma {:induction false} DistinctCount(s: seq<nat>)
    requires forall i, j | 0 <= i < j < |s| :: s[i] != s[j]
    ensures |Elements(s)| == |s|
  {
    if s != [] {
      DistinctCount(s[1..]);
      assert Elements(s) == {s[0]} + Elements(s[1..]);
      assert s[0] !in Elements(s[1..]);
    }
  }

  lemma SubsetOfSameSize(s: set<nat>, t: set<nat>)
    requires s <= t && |s| == |t|
    ensures s == t
  {
    if s != t {
      var x :| x in t && x !in s;
      assert s <= t - {x};
      SubsetSize(s, t - {x});
    }
  }

  lemma SubsetSize(s: set<nat>, t: set<nat>)
    requires s <= t
    ensures |s| <= |t|
  {
    assert t == s + (t - s);
  }

  lemma OrderCovers(order: seq<nat>, n: nat)
    requires IsOrder(order, n)
    ensures Elements(order) == Range(n)
  {
    DistinctCount(order);
    SubsetOfSameSize(Elements(order), Range(n));
  }

  /** One step of the engine keeps the aggregate over the events that remain. */
  lemma StepKeepsTotal(mode: Mode, tables: seq<Table>, evidence: Evidence, e: nat, free: set<nat>)
    requires Shaped(tables) && Within(tables, free + {e}) && e !in free
    ensures var next := EngineStep(mode, tables, evidence, e);
      && Within(next, free)
      && Over(mode, next, evidence - {e}, free, {}) == Over(mode, tables, evidence, free + {e}, {})
  {
    var bucket := Bucket(tables, e);
    var joined := Joined(ScopesOf(tables), e);
    BucketAndRest(tables, e);
    forall b, x | b in bucket && x in b.scope ensures x in joined {
      JoinedMembers(tables, e, x);
    }
    assert joined - {e} + {e} == joined;
    forall x | x in joined - {e} ensures x in free {
      JoinedMembers(tables, e, x);
    }
    var t := SumOutTable(mode, bucket, evidence, joined - {e}, e);
    SumOutTableIsSummedOut(mode, bucket, evidence, joined - {e}, e);
    Peel(mode, tables, evidence, free + {e}, {}, e);
    assert free + {e} - {e} == free;
    StepOver(mode, tables, evidence, e, t, free, {});
  }

  lemma SumOutSame(mode: Mode, bucket: seq<Table>, ev: Evidence, ev': Evidence, remaining: set<nat>, e: nat)
    requires Shaped(bucket) && Blocked(ev, e, true) == Blocked(ev', e, true)
             && Blocked(ev, e, false) == Blocked(ev', e, false)
    ensures SumOutTable(mode, bucket, ev, remaining, e) == SumOutTable(mode, bucket, ev', remaining, e)
  {
  }

  /** Evidence about events that are no longer in the order does not matter. */
  lemma {:induction false} EvidenceIrrelevant(mode: Mode, tables: seq<Table>, ev: Evidence, ev': Evidence,
                                              order: seq<nat>)
    requires Shaped(tables)
    requires forall e, v :: e in order ==> Blocked(ev, e, v) == Blocked(ev', e, v)
    ensures EngineRun(mode, tables, ev, order) == EngineRun(mode, tables, ev', order)
    decreases |order|
  {
    if order != [] {
      var e := order[0];
      SumOutSame(mode, Bucket(tables, e), ev, ev', Joined(ScopesOf(tables), e) - {e}, e);
      EvidenceIrrelevant(mode, EngineStep(mode, tables, ev, e), ev, ev', order[1..]);
    }
  }

  predicate Distinct(order: seq<nat>) {
    forall i, j | 0 <= i < j < |order| :: order[i] != order[j]
  }

  lemma OverNothing(mode: Mode, tables: seq<Table>, evidence: Evidence)
    requires Shaped(tables) && evidence.Keys == {}
    ensures Over(mode, tables, evidence, {}, {}) == Joint(mode, tables, {})
  {
  }

  lemma OrderSplits(order: seq<nat>, e: nat, rest: seq<nat>)
    requires order != [] && e == order[0] && rest == order[1..] && Distinct(order)
    ensures Elements(order) == Elements(rest) + {e} && e !in Elements(rest) && Distinct(rest)
  {
    assert order == [e] + rest;
  }

  /** When the run ends every remaining scope is empty, and what is left combines to the aggregate
      over every assignment of the order's events. */
  lemma {:induction false} RunTotal(mode: Mode, tables: seq<Table>, evidence: Evidence, order: seq<nat>)
    requires Shaped(tables) && Within(tables, Elements(order)) && Distinct(order) && evidence.Keys <= Elements(order)
    ensures Within(EngineRun(mode, tables, evidence, order), {})
    ensures Joint(mode, EngineRun(mode, tables, evidence, order), {})
            == Over(mode, tables, evidence, Elements(order), {})
    decreases |order|
  {
    if order == [] {
      assert Elements(order) == {};
      OverNothing(mode, tables, evidence);
    } else {
      var e, rest := order[0], order[1..];
      OrderSplits(order, e, rest);
      StepKeepsTotal(mode, tables, evidence, e, Elements(rest));
      var next := EngineStep(mode, tables, evidence, e);
      RunTotal(mode, next, evidence - {e}, rest);
      EvidenceIrrelevant(mode, next, evidence - {e}, evidence, rest);
    }
  }

  /** `tables.iter().map(|f| f.values[0]).sum()` once every scope is empty. */
  method Collect(mode: Mode, tables: seq<Table>) returns (total: Num)
    requires Shaped(tables) && Within(tables, {})
    ensures total == Joint(mode, tables, {})
  {
    total := One(mode);
    var k := 0;
    CombineCommutative(mode, Joint(mode, tables, {}), total);
    while k < |tables|
      invariant 0 <= k <= |tables|
      invariant Combine(mode, total, Joint(mode, tables[k..], {})) == Joint(mode, tables, {})
    {
      assert tables[k] in tables;
      assert tables[k].scope == {};
      assert tables[k..][1..] == tables[k + 1..];
      CombineAssociative(mode, total, tables[k].values[0], Joint(mode, tables[k + 1..], {}));
      total := Combine(mode, total, tables[k].values[0]);
      k := k + 1;
    }
    assert tables[k..] == [];
    CombineCommutative(mode, total, One(mode));
  }

  lemma BoundedStep(mode: Mode, tables: seq<Table>, evidence: Evidence, order: seq<nat>)
    requires Shaped(tables) && order != [] && Bounded(ScopesOf(tables), order)
    ensures |Joined(ScopesOf(tables), order[0])| <= 3
    ensures Bounded(ScopesOf(EngineStep(mode, tables, evidence, order[0])), order[1..])
  {
    StepScopes(mode, tables, evidence, order[0]);
    var sizes := JoinedSizes(ScopesOf(tables), order);
    assert sizes[0] in sizes;
    assert sizes[1..] == JoinedSizes(ScopeStep(ScopesOf(tables), order[0]), order[1..]);
    assert forall size :: size in sizes[1..] ==> size in sizes;
  }

  /** One event of the order: its bucket joined and summed out, the width guard keeping the join small. */
  method EliminateOne(mode: Mode, tables: seq<Table>, order: seq<nat>, evidence: Evidence) returns (next: seq<Table>)
    requires Shaped(tables) && order != [] && Bounded(ScopesOf(tables), order)
    ensures Shaped(next) && Bounded(ScopesOf(next), order[1..])
    ensures EngineRun(mode, next, evidence, order[1..]) == EngineRun(mode, tables, evidence, order)
  {
    var e := order[0];
    var joined := JoinScopes(ScopesOf(tables), e);
    BoundedStep(mode, tables, evidence, order);
    assert |joined| <= 3;
    var t := SumOut(mode, Bucket(tables, e), evidence, joined, e);
    next := Rest(tables, e) + [t];
  }

  lemma RunIsEnumerated(mode: Mode, start: seq<Table>, n: nat, order: seq<nat>, evidence: Evidence)
    requires Shaped(start) && Within(start, Range(n)) && IsOrder(order, n) && evidence.Keys <= Range(n)
    ensures Within(EngineRun(mode, start, evidence, order), {})
    ensures Joint(mode, EngineRun(mode, start, evidence, order), {}) == Enumerated(mode, start, evidence, States(n, {}))
  {
    OrderCovers(order, n);
    RunTotal(mode, start, evidence, order);
    OverIsEnumerated(mode, start, evidence, n, {});
  }

  /** Bucket elimination returns the aggregate over all 2^n joint states that agree with the evidence,
      for every permutation order, and never joins more than three events of a bounded model. */
  method Eliminate(mode: Mode, start: seq<Table>, n: nat, order: seq<nat>, evidence: Evidence) returns (r: Num)
    requires Shaped(start) && Within(start, Range(n)) && IsOrder(order, n)
    requires evidence.Keys <= Range(n)
    requires Bounded(ScopesOf(start), order)
    ensures r == Enumerated(mode, start, evidence, States(n, {}))
  {
    var tables := start;
    var k := 0;
    assert order[0..] == order;
    while k < |order|
      invariant 0 <= k <= |order| && Shaped(tables)
      invariant EngineRun(mode, tables, evidence, order[k..]) == EngineRun(mode, start, evidence, order)
      invariant Bounded(ScopesOf(tables), order[k..])
    {
      assert order[k..][1..] == order[k + 1..];
      tables := EliminateOne(mode, tables, order[k..], evidence);
      k := k + 1;
    }
    RunIsEnumerated(mode, start, n, order, evidence);
    r := Collect(mode, tables);
  }
}
