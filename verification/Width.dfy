/** The width guard (factored.rs, `induced_width`): what an elimination order would join,
    computed on scopes alone. */
module Width {

  function Elements(order: seq<nat>): set<nat> {
    set e | e in order
  }

  /** The union of the scopes that mention the event, with the event itself. */
  function Joined(scopes: seq<set<nat>>, e: nat): (joined: set<nat>)
    ensures e in joined
  {
    if scopes == [] then {e}
    else (if e in scopes[0] then scopes[0] else {}) + Joined(scopes[1..], e)
  }

  function Keep(scopes: seq<set<nat>>, e: nat): (r: seq<set<nat>>) {
    if scopes == [] then []
    else (if e !in scopes[0] then [scopes[0]] else []) + Keep(scopes[1..], e)
  }

  function ScopeStep(scopes: seq<set<nat>>, e: nat): seq<set<nat>> {
    Keep(scopes, e) + [Joined(scopes, e) - {e}]
  }

  /** The scope list after the first k events of the order. */
  function ScopesAt(scopes: seq<set<nat>>, order: seq<nat>, k: nat): seq<set<nat>>
    requires k <= |order|
    decreases k
  {
    if k == 0 then scopes else ScopesAt(ScopeStep(scopes, order[0]), order[1..], k - 1)
  }

  /** How many events the table joined at each step mentions. */
  function JoinedSizes(scopes: seq<set<nat>>, order: seq<nat>): (sizes: seq<nat>)
    ensures |sizes| == |order|
    decreases |order|
  {
    if order == [] then []
    else [|Joined(scopes, order[0])|] + JoinedSizes(ScopeStep(scopes, order[0]), order[1..])
  }

  lemma {:induction false} JoinedSizeAt(scopes: seq<set<nat>>, order: seq<nat>, k: nat)
    requires k < |order|
    ensures JoinedSizes(scopes, order)[k] == |Joined(ScopesAt(scopes, order, k), order[k])|
    decreases k
  {
    if k > 0 {
      JoinedSizeAt(ScopeStep(scopes, order[0]), order[1..], k - 1);
    }
  }

  /** No step of the order joins more than three events. */
  ghost predicate Bounded(scopes: seq<set<nat>>, order: seq<nat>) {
    forall size :: size in JoinedSizes(scopes, order) ==> size <= 3
  }

  /** The width is the largest joined scope less one (0 for no scope). */
  ghost predicate IsWidth(sizes: seq<nat>, width: nat) {
    && (forall size :: size in sizes ==> size <= width + 1)
    && (sizes == [] ==> width == 0)
    && (sizes != [] ==> width + 1 in sizes)
  }

  datatype WidthCheck = Width(width: nat) | TooWide

  /** The loop of `induced_width` from a scope list, a remaining order and the width so far. */
  function WidthFrom(scopes: seq<set<nat>>, order: seq<nat>, width: nat): WidthCheck
    decreases |order|
  {
    if order == [] then Width(width)
    else
      var size := |Joined(scopes, order[0])|;
      var next := if width + 1 < size then size - 1 else width;
      if next > 2 then TooWide else WidthFrom(ScopeStep(scopes, order[0]), order[1..], next)
  }

  /** The same loop over the list of joined sizes alone. */
  function WidthOfSizes(sizes: seq<nat>, width: nat): WidthCheck {
    if sizes == [] then Width(width)
    else
      var next := if width + 1 < sizes[0] then sizes[0] - 1 else width;
      if next > 2 then TooWide else WidthOfSizes(sizes[1..], next)
  }

  lemma {:induction false} WidthFromSizes(scopes: seq<set<nat>>, order: seq<nat>, width: nat)
    ensures WidthFrom(scopes, order, width) == WidthOfSizes(JoinedSizes(scopes, order), width)
    decreases |order|
  {
    if order != [] {
      var rest := JoinedSizes(ScopeStep(scopes, order[0]), order[1..]);
      assert JoinedSizes(scopes, order)[1..] == rest;
      var size := |Joined(scopes, order[0])|;
      WidthFromSizes(ScopeStep(scopes, order[0]), order[1..], if width + 1 < size then size - 1 else width);
    }
  }

  lemma {:induction false} WidthOfSizesIs(sizes: seq<nat>, width: nat)
    requires width <= 2
    ensures WidthOfSizes(sizes, width).Width? <==> forall size :: size in sizes ==> size <= 3
    ensures WidthOfSizes(sizes, width).Width? ==>
              var w := WidthOfSizes(sizes, width).width;
              && width <= w
              && (forall size :: size in sizes ==> size <= w + 1)
              && (w == width || w + 1 in sizes)
  {
    if sizes != [] {
      assert sizes == [sizes[0]] + sizes[1..];
      var next := if width + 1 < sizes[0] then sizes[0] - 1 else width;
      assert sizes[0] in sizes;
      if next <= 2 {
        WidthOfSizesIs(sizes[1..], next);
        assert WidthOfSizes(sizes, width) == WidthOfSizes(sizes[1..], next);
        assert forall size :: size in sizes ==> size == sizes[0] || size in sizes[1..];
        assert forall size :: size in sizes[1..] ==> size in sizes;
      } else {
        assert sizes[0] in sizes && sizes[0] > 3;
      }
    }
  }

  lemma {:induction false} SizesPositive(scopes: seq<set<nat>>, order: seq<nat>)
    ensures forall size :: size in JoinedSizes(scopes, order) ==> size >= 1
    decreases |order|
  {
    if order != [] {
      assert order[0] in Joined(scopes, order[0]);
      SizesPositive(ScopeStep(scopes, order[0]), order[1..]);
    }
  }

  /** `induced_width` accepts exactly the scope lists whose every step joins at most three events,
      and returns the largest number joined, less one. */
  lemma WidthMeaning(scopes: seq<set<nat>>, order: seq<nat>)
    ensures WidthFrom(scopes, order, 0).Width? <==> Bounded(scopes, order)
    ensures WidthFrom(scopes, order, 0).Width? ==>
            IsWidth(JoinedSizes(scopes, order), WidthFrom(scopes, order, 0).width)
  {
    WidthFromSizes(scopes, order, 0);
    SizesPositive(scopes, order);
    WidthOfSizesFromZero(JoinedSizes(scopes, order));
  }

  lemma WidthOfSizesFromZero(sizes: seq<nat>)
    requires forall size :: size in sizes ==> size >= 1
    ensures WidthOfSizes(sizes, 0).Width? <==> forall size :: size in sizes ==> size <= 3
    ensures WidthOfSizes(sizes, 0).Width? ==> IsWidth(sizes, WidthOfSizes(sizes, 0).width)
  {
    WidthOfSizesIs(sizes, 0);
    if sizes != [] {
      assert sizes[0] in sizes;
    }
  }

  method InducedWidth(scopes: seq<set<nat>>, order: seq<nat>) returns (r: WidthCheck)
    ensures r == WidthFrom(scopes, order, 0)
  {
    var current := scopes;
    var width: nat := 0;
    var k := 0;
    assert order[0..] == order;
    while k < |order|
      invariant 0 <= k <= |order|
      invariant WidthFrom(current, order[k..], width) == WidthFrom(scopes, order, 0)
    {
      var e := order[k];
      var joined := JoinScopes(current, e);
      assert order[k..][1..] == order[k + 1..];
      if width < |joined| - 1 {
        width := |joined| - 1;
      }
      if width > 2 {
        return TooWide;
      }
      current := Keep(current, e) + [joined - {e}];
      k := k + 1;
    }
    r := Width(width);
  }

  /** The fold that joins every scope mentioning the event. */
  method JoinScopes(scopes: seq<set<nat>>, e: nat) returns (joined: set<nat>)
    ensures joined == Joined(scopes, e)
  {
    joined := {e};
    var k := 0;
    while k < |scopes|
      invariant 0 <= k <= |scopes|
      invariant joined + Joined(scopes[k..], e) == Joined(scopes, e)
      invariant e in joined
    {
      assert scopes[k..][1..] == scopes[k + 1..];
      if e in scopes[k] {
        joined := joined + scopes[k];
      }
      k := k + 1;
    }
    assert scopes[k..] == [];
  }
}
