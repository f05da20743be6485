/** Products and quotients of reals, one fact each. */
module RealFacts {

  function Abs(x: real): real {
    if x < 0.0 then -x else x
  }

  lemma PositiveProduct(x: real, y: real)
    requires x > 0.0 && y > 0.0
    ensures x * y > 0.0
  {
  }

  lemma NonnegativeProduct(x: real, y: real)
    requires x >= 0.0 && y >= 0.0
    ensures x * y >= 0.0
  {
  }

  lemma OrderedProduct(k: real, x: real, y: real)
    requires k >= 0.0 && x <= y
    ensures k * x <= k * y
  {
    NonnegativeProduct(k, y - x);
    Distribute(k, y, -x);
  }

  lemma StrictProduct(k: real, x: real, y: real)
    requires k > 0.0 && x < y
    ensures k * x < k * y
  {
    PositiveProduct(k, y - x);
    Distribute(k, y, -x);
  }

  lemma DistributeSum(k: real, x: real, y: real, sum: real)
    requires sum == x + y
    ensures k * sum == k * x + k * y
  {
    Distribute(k, x, y);
  }

  lemma Distribute(k: real, x: real, y: real)
    ensures k * (x + y) == k * x + k * y
    ensures k * (x - y) == k * x - k * y
  {
  }

  lemma Cancel(x: real, y: real)
    requires y != 0.0
    ensures y * (x / y) == x && x / y * y == x
  {
  }

  lemma Regroup(x: real, y: real, z: real)
    ensures x * y * z == x * z * y && x * (y * z) == x * y * z
  {
  }

  lemma AddQuotients(x: real, y: real, z: real)
    requires z != 0.0
    ensures (x + y) / z == x / z + y / z && (x - y) / z == x / z - y / z
  {
  }

  /** x / z <= y / z and back. */
  lemma OrderedQuotient(x: real, y: real, z: real)
    requires z > 0.0
    ensures x <= y <==> x / z <= y / z
    ensures x < y <==> x / z < y / z
  {
    Cancel(x, z);
    Cancel(y, z);
    OrderedFactor(x / z, y / z, z, x, y);
  }

  lemma OrderedFactor(u: real, v: real, z: real, x: real, y: real)
    requires z > 0.0 && x == z * u && y == z * v
    ensures x <= y <==> u <= v
    ensures x < y <==> u < v
  {
    if u < v {
      StrictProduct(z, u, v);
    } else if v < u {
      StrictProduct(z, v, u);
    }
  }
}
