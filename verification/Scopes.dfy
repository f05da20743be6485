/** Scopes and joint states.
    A bit mask is the set of its bit positions: a scope is the set of the events it mentions and a
    joint state is the set of the events that happen. A local index stays a number. */
module Scopes {

  function Pow2(n: nat): (p: nat)
    ensures p >= 1
  {
    if n == 0 then 1 else 2 * Pow2(n - 1)
  }

  /** The events 0, ..., n-1. */
  function Range(n: nat): (s: set<nat>)
    ensures forall e: nat :: e in s <==> e < n
    ensures |s| == n
  {
    if n == 0 then {} else Range(n - 1) + {n - 1}
  }

  predicate IsLeast(s: set<nat>, m: nat) {
    m in s && forall e | e in s :: m <= e
  }

  lemma LeastExists(s: set<nat>)
    requires s != {}
    ensures exists m :: IsLeast(s, m)
  {
    var x :| x in s;
    if !IsLeast(s, x) {
      var below := set e | e in s && e < x;
      var y: nat :| y in s && y < x;
      assert y in below && x !in below;
      LeastExists(below);
      var m :| IsLeast(below, m);
      assert m in below;
      forall e | e in s ensures m <= e {
        if e < x {
          assert e in below;
        }
      }
      assert IsLeast(s, m);
    }
  }

  /** The lowest set bit of a nonzero mask. */
  function Least(s: set<nat>): (m: nat)
    requires s != {}
    ensures IsLeast(s, m)
  {
    LeastExists(s);
    var m :| m in s && IsLeast(s, m);
    m
  }

  /** The local index of a joint state in a scope: local bit i is the i-th event of the scope. */
  function Project(scope: set<nat>, state: set<nat>): (local: nat)
    ensures local < Pow2(|scope|)
    decreases |scope|
  {
    if scope == {} then 0
    else
      var e := Least(scope);
      (if e in state then 1 else 0) + 2 * Project(scope - {e}, state)
  }

  /** The events of a scope that a local index switches on. */
  function Expand(scope: set<nat>, local: nat): (state: set<nat>)
    ensures state <= scope
    decreases |scope|
  {
    if scope == {} then {}
    else
      var e := Least(scope);
      (if local % 2 == 1 then {e} else {}) + Expand(scope - {e}, local / 2)
  }

  lemma LeastIs(s: set<nat>, l: nat)
    requires l in s && forall x :: x in s ==> l <= x
    ensures Least(s) == l
  {
  }

  /** A joint state with one event forced to a value. */
  function With(state: set<nat>, e: nat, v: bool): (r: set<nat>)
    ensures forall x :: x in r <==> if x == e then v else x in state
  {
    if v then state + {e} else state - {e}
  }

  lemma {:induction false} ProjectSame(scope: set<nat>, s: set<nat>, t: set<nat>)
    requires forall e :: e in scope ==> (e in s <==> e in t)
    ensures Project(scope, s) == Project(scope, t)
    decreases |scope|
  {
    if scope != {} {
      ProjectSame(scope - {Least(scope)}, s, t);
    }
  }

  lemma {:induction false} ProjectExpand(scope: set<nat>, local: nat)
    requires local < Pow2(|scope|)
    ensures Project(scope, Expand(scope, local)) == local
    decreases |scope|
  {
    if scope != {} {
      var e := Least(scope);
      ProjectExpand(scope - {e}, local / 2);
      ProjectSame(scope - {e}, Expand(scope, local), Expand(scope - {e}, local / 2));
    }
  }

  lemma {:induction false} ExpandProject(scope: set<nat>, state: set<nat>)
    ensures Expand(scope, Project(scope, state)) == scope * state
    decreases |scope|
  {
    if scope != {} {
      var e := Least(scope);
      ExpandProject(scope - {e}, state);
    }
  }

  /** `local & (1 << bit) != 0` */
  predicate Bit(local: nat, bit: nat) {
    if bit == 0 then local % 2 == 1 else Bit(local / 2, bit - 1)
  }

  /** How many events of the scope come before e. */
  function Place(scope: set<nat>, e: nat): nat {
    |set x | x in scope && x < e|
  }

  /** Without its least event, every other event of a scope stands one place lower. */
  lemma PlaceDrops(scope: set<nat>, e: nat)
    requires scope != {} && e in scope
    ensures if e == Least(scope) then Place(scope, e) == 0 else Place(scope, e) == Place(scope - {Least(scope)}, e) + 1
  {
    var least := Least(scope);
    var before := set x | x in scope && x < e;
    if e == least {
      assert before == {};
    } else {
      assert before == (set x | x in scope - {least} && x < e) + {least};
    }
  }

  /** Bit i of a local index stands for the i-th event of the scope, counted from the lowest. */
  lemma {:induction false} ExpandBits(scope: set<nat>, local: nat, e: nat)
    requires e in scope
    ensures e in Expand(scope, local) <==> Bit(local, Place(scope, e))
    decreases |scope|
  {
    var least := Least(scope);
    PlaceDrops(scope, e);
    if e != least {
      ExpandBits(scope - {least}, local / 2, e);
    }
  }

  /** The local index of a state is the one number below 2^|scope| whose bits are the scope's events of the state. */
  lemma ProjectBits(scope: set<nat>, state: set<nat>, local: nat)
    requires local < Pow2(|scope|)
    ensures local == Project(scope, state) <==> forall e :: e in scope ==> (Bit(local, Place(scope, e)) <==> e in state)
  {
    var events := Expand(scope, local);
    forall e | e in scope ensures e in events <==> Bit(local, Place(scope, e)) {
      ExpandBits(scope, local, e);
    }
    ProjectExpand(scope, local);
    ExpandProject(scope, state);
    if forall e :: e in scope ==> (Bit(local, Place(scope, e)) <==> e in state) {
      ProjectSame(scope, events, state);
    }
  }

  /** A local index and the events it stands for determine each other. */
  lemma ProjectInjective(scope: set<nat>, s: set<nat>, t: set<nat>)
    requires Project(scope, s) == Project(scope, t)
    ensures scope * s == scope * t
  {
    ExpandProject(scope, s);
    ExpandProject(scope, t);
  }

  lemma Peel(weight: nat, bit: nat, tail: nat)
    requires bit <= 1
    ensures weight * (bit + 2 * tail) == (if bit == 1 then weight else 0) + 2 * weight * tail
  {
  }

  /** The bit loop that packs the scope's events of a state into a local index. */
  method ProjectLoop(scope: set<nat>, state: set<nat>) returns (local: nat)
    ensures local == Project(scope, state)
  {
    var rest := scope;
    var weight: nat := 1;
    local := 0;
    while rest != {}
      invariant local + weight * Project(rest, state) == Project(scope, state)
      decreases |rest|
    {
      var e := Least(rest);
      Peel(weight, if e in state then 1 else 0, Project(rest - {e}, state));
      if e in state {
        local := local + weight;
      }
      rest := rest - {e};
      weight := 2 * weight;
    }
  }

  /** The bit loop that unpacks a local index into the events it switches on. */
  method ExpandLoop(scope: set<nat>, local: nat) returns (state: set<nat>)
    ensures state == Expand(scope, local)
  {
    var rest := scope;
    var bits := local;
    state := {};
    while rest != {}
      invariant state + Expand(rest, bits) == Expand(scope, local)
      decreases |rest|
    {
      var e := Least(rest);
      ghost var tail := Expand(rest - {e}, bits / 2);
      assert Expand(rest, bits) == (if bits % 2 == 1 then {e} else {}) + tail;
      if bits % 2 == 1 {
        state := state + {e};
      }
      rest := rest - {e};
      bits := bits / 2;
    }
  }

  /** The joint states over the first n events in numeric order, each with the events in high added. */
  function States(n: nat, high: set<nat>): (s: seq<set<nat>>)
    ensures |s| == Pow2(n)
  {
    if n == 0 then [high] else States(n - 1, high) + States(n - 1, high + {n - 1})
  }

  lemma StateAt(n: nat, high: set<nat>, k: nat)
    requires n > 0 && k < Pow2(n)
    ensures States(n, high)[k]
         == if k < Pow2(n - 1) then States(n - 1, high)[k] else States(n - 1, high + {n - 1})[k - Pow2(n - 1)]
  {
  }

  /** The bit mask of a joint state as a number: event e contributes 2^e. */
  function Number(n: nat, state: set<nat>): (k: nat)
    ensures k < Pow2(n)
  {
    if n == 0 then 0 else Number(n - 1, state) + if n - 1 in state then Pow2(n - 1) else 0
  }

  /** A number below 2^n is cut into its lower bits and bit n. */
  lemma {:induction false} BitAbove(low: nat, n: nat, e: nat)
    requires low < Pow2(n) && e <= n
    ensures Bit(low + Pow2(n), e) <==> e == n || Bit(low, e)
    ensures e == n ==> !Bit(low, e)
  {
    if e > 0 {
      assert (low + Pow2(n)) / 2 == low / 2 + Pow2(n - 1);
      BitAbove(low / 2, n - 1, e - 1);
    }
  }

  /** The bits of a joint state's number are its events. */
  lemma {:induction false} NumberBits(n: nat, state: set<nat>, e: nat)
    requires e < n
    ensures Bit(Number(n, state), e) <==> e in state
  {
    BitAbove(Number(n - 1, state), n - 1, e);
    if e < n - 1 {
      NumberBits(n - 1, state, e);
    }
  }

  lemma {:induction false} NumberOfState(n: nat, high: set<nat>, k: nat)
    requires k < Pow2(n)
    requires forall e: nat :: e < n ==> e !in high
    ensures Number(n, States(n, high)[k]) == k
    ensures forall e: nat :: e >= n ==> (e in States(n, high)[k] <==> e in high)
    decreases n
  {
    if n > 0 {
      StateAt(n, high, k);
      if k < Pow2(n - 1) {
        NumberOfState(n - 1, high, k);
      } else {
        NumberOfState(n - 1, high + {n - 1}, k - Pow2(n - 1));
      }
    }
  }

  lemma {:induction false} StateOfNumber(n: nat, high: set<nat>, state: set<nat>)
    requires forall e: nat :: e >= n ==> (e in state <==> e in high)
    requires forall e: nat :: e < n ==> e !in high
    ensures States(n, high)[Number(n, state)] == state
    decreases n
  {
    if n == 0 {
      assert state == high;
    } else {
      StateAt(n, high, Number(n, state));
      if n - 1 in state {
        StateOfNumber(n - 1, high + {n - 1}, state);
      } else {
        StateOfNumber(n - 1, high, state);
      }
    }
  }

  /** The enumeration lists every joint state exactly once, in numeric order. */
  lemma StatesAreNumbered(n: nat)
    ensures forall k: nat :: k < Pow2(n) ==> Number(n, States(n, {})[k]) == k
    ensures forall state: set<nat> :: state <= Range(n) ==> States(n, {})[Number(n, state)] == state
  {
    forall k: nat | k < Pow2(n) ensures Number(n, States(n, {})[k]) == k {
      NumberOfState(n, {}, k);
    }
    forall state: set<nat> | state <= Range(n) ensures States(n, {})[Number(n, state)] == state {
      StateOfNumber(n, {}, state);
    }
  }
}
