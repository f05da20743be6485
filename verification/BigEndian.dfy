/** Numbers as big-endian bytes, shared by the transaction codec and the 256-bit words. */
module BigEndian {

  type Byte = b: int | 0 <= b < 256

  type Bytes = seq<Byte>

  /** The number that big-endian bytes stand for. */
  function Number(s: Bytes): nat {
    if s == [] then 0 else 256 * Number(s[..|s| - 1]) + s[|s| - 1]
  }

  /** The bytes of a number without leading zeros. */
  function Minimal(v: nat): (s: Bytes) {
    if v == 0 then [] else Minimal(v / 256) + [v % 256]
  }

  function Pow256(n: nat): (p: nat)
    ensures p >= 1
  {
    if n == 0 then 1 else 256 * Pow256(n - 1)
  }

  lemma {:induction false} Pow256Grows(n: nat, k: nat)
    requires n <= k
    ensures Pow256(n) <= Pow256(k)
  {
    if n < k {
      Pow256Grows(n, k - 1);
    }
  }

  lemma {:induction false} MinimalValue(v: nat)
    ensures Number(Minimal(v)) == v
  {
    if v > 0 {
      MinimalValue(v / 256);
      assert Minimal(v)[..|Minimal(v)| - 1] == Minimal(v / 256);
    }
  }

  lemma {:induction false} MinimalLength(v: nat, n: nat)
    requires v < Pow256(n)
    ensures |Minimal(v)| <= n
  {
    if v > 0 {
      MinimalLength(v / 256, n - 1);
    }
  }

  /** No leading zero. */
  predicate IsMinimal(s: Bytes) {
    s != [] ==> s[0] != 0
  }

  lemma {:induction false} MinimalIsMinimal(v: nat)
    ensures IsMinimal(Minimal(v)) && (v > 0 ==> Minimal(v) != [])
  {
    if v > 0 {
      MinimalIsMinimal(v / 256);
    }
  }

  /** Bytes without a leading zero are the minimal bytes of their number. */
  lemma {:induction false} MinimalOfNumber(s: Bytes)
    requires IsMinimal(s)
    ensures Minimal(Number(s)) == s
  {
    if s != [] {
      var n := |s| - 1;
      MinimalOfNumber(s[..n]);
      if n > 0 {
        NumberBounds(s[..n]);
        assert s[..n][0] != 0;
      }
      assert s == s[..n] + [s[n]];
    }
  }

  lemma {:induction false} NumberBounds(s: Bytes)
    ensures Number(s) < Pow256(|s|)
    ensures Number(s) == 0 <==> forall k :: 0 <= k < |s| ==> s[k] == 0
  {
    if s != [] {
      var n := |s| - 1;
      NumberBounds(s[..n]);
      assert forall k :: 0 <= k < n ==> s[k] == s[..n][k];
    }
  }

  lemma Times256(x: int, p: int)
    ensures 256 * (x * p) == x * (256 * p)
  {
  }

  lemma {:induction false} NumberCons(x: Byte, s: Bytes, power: nat)
    requires power == Pow256(|s|)
    ensures Number([x] + s) == x * power + Number(s)
    decreases |s|
  {
    var t := [x] + s;
    if s == [] {
      assert t[..0] == [];
    } else {
      var n := |s| - 1;
      assert t[..n + 1] == [x] + s[..n];
      NumberCons(x, s[..n], Pow256(n));
      Times256(x, Pow256(n));
    }
  }

  /** Byte strings of one length and their numbers determine each other. */
  lemma {:induction false} NumberInjective(s: Bytes, t: Bytes)
    requires |s| == |t| && Number(s) == Number(t)
    ensures s == t
  {
    if s != [] {
      var n := |s| - 1;
      NumberInjective(s[..n], t[..n]);
      assert s == s[..n] + [s[n]] && t == t[..n] + [t[n]];
    }
  }
}
