/** The two readings of a factor table entry.
    MaxSum entries are log weights: they are combined by + and aggregated by max.
    SumProduct entries are the weights themselves, so that the code's log_add is + on weights and
    its + on logs is a product. In both readings NegInf is the code's negative infinity (weight 0). */
module Semiring {

  datatype Mode = MaxSum | SumProduct

  datatype Num = NegInf | Fin(value: real)

  function One(mode: Mode): Num {
    match mode
    case MaxSum => Fin(0.0)
    case SumProduct => Fin(1.0)
  }

  function Combine(mode: Mode, a: Num, b: Num): Num {
    if a.NegInf? || b.NegInf? then NegInf
    else
      match mode
      case MaxSum => Fin(a.value + b.value)
      case SumProduct => Fin(a.value * b.value)
  }

  /** values[index].max(value) or log_add(values[index], value), with the branches of log_add. */
  function Aggregate(mode: Mode, a: Num, b: Num): Num {
    if a.NegInf? then b
    else if b.NegInf? then a
    else
      match mode
      case MaxSum => if a.value >= b.value then a else b
      case SumProduct => Fin(a.value + b.value)
  }

  lemma CombineAssociative(mode: Mode, a: Num, b: Num, c: Num)
    ensures Combine(mode, Combine(mode, a, b), c) == Combine(mode, a, Combine(mode, b, c))
  {
    if mode == SumProduct && a.Fin? && b.Fin? && c.Fin? {
      assert (a.value * b.value) * c.value == a.value * (b.value * c.value);
    }
  }

  lemma CombineCommutative(mode: Mode, a: Num, b: Num)
    ensures Combine(mode, a, b) == Combine(mode, b, a)
    ensures Combine(mode, One(mode), a) == a
  {
  }

  /** (a + b) + (c + d) == (a + c) + (b + d): two nested aggregations may be exchanged. */
  lemma AggregateExchange(mode: Mode, a: Num, b: Num, c: Num, d: Num)
    ensures Aggregate(mode, Aggregate(mode, a, b), Aggregate(mode, c, d))
         == Aggregate(mode, Aggregate(mode, a, c), Aggregate(mode, b, d))
  {
  }

  lemma AggregateAssociative(mode: Mode, a: Num, b: Num, c: Num)
    ensures Aggregate(mode, Aggregate(mode, a, b), c) == Aggregate(mode, a, Aggregate(mode, b, c))
    ensures Aggregate(mode, a, b) == Aggregate(mode, b, a)
  {
  }

  lemma Distributive(mode: Mode, x: Num, a: Num, b: Num)
    ensures Combine(mode, x, Aggregate(mode, a, b))
         == Aggregate(mode, Combine(mode, x, a), Combine(mode, x, b))
  {
    if mode == SumProduct && x.Fin? && a.Fin? && b.Fin? {
      assert x.value * (a.value + b.value) == x.value * a.value + x.value * b.value;
    }
  }
}
