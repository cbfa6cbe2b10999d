/** The XOR metric on 160-bit node identifiers. */
module Xor {
  function Pow2(n: nat): (r: nat)
    ensures r > 0
  {
    if n == 0 then 1 else 2 * Pow2(n - 1)
  }

  const ID_BITS := 160

  /** A node identifier: a 160-bit number. */
  type NodeID = x: nat | x < Pow2(ID_BITS) witness 0

  /** Bitwise exclusive or. */
  function Distance(a: nat, b: nat): nat
    decreases a + b
  {
    if a == 0 && b == 0 then 0
    else 2 * Distance(a / 2, b / 2) + if a % 2 == b % 2 then 0 else 1
  }

  function BitLength(d: nat): nat {
    if d == 0 then 0 else 1 + BitLength(d / 2)
  }

  lemma {:induction false} DistanceZero(a: nat, b: nat)
    ensures Distance(a, b) == 0 <==> a == b
    decreases a + b
  {
    if a != 0 || b != 0 { DistanceZero(a / 2, b / 2); }
  }

  /** From any target, different identifiers lie at different distances. */
  lemma {:induction false} DistanceInjective(a: nat, b: nat, t: nat)
    ensures Distance(a, t) == Distance(b, t) <==> a == b
    decreases a + b + t
  {
    if a != 0 || b != 0 || t != 0 {
      DistanceInjective(a / 2, b / 2, t / 2);
      Halve(a, t);
      Halve(b, t);
    }
  }

  lemma Halve(a: nat, t: nat)
    ensures Distance(a, t) == 2 * Distance(a / 2, t / 2) + if a % 2 == t % 2 then 0 else 1
  {
  }

  lemma {:induction false} DistanceBound(a: nat, b: nat, n: nat)
    requires a < Pow2(n) && b < Pow2(n)
    ensures Distance(a, b) < Pow2(n)
    decreases n
  {
    if n > 0 && (a != 0 || b != 0) { DistanceBound(a / 2, b / 2, n - 1); }
  }

  /** The bit length counts the powers of two at or below d. */
  lemma {:induction false} BitLengthBounds(d: nat)
    requires d > 0
    ensures BitLength(d) > 0 && Pow2(BitLength(d) - 1) <= d < Pow2(BitLength(d))
    decreases d
  {
    if d > 1 { BitLengthBounds(d / 2); }
  }

  lemma {:induction false} Pow2Grows(m: nat, n: nat)
    requires m <= n
    ensures Pow2(m) <= Pow2(n)
    decreases n
  {
    if m < n { Pow2Grows(m, n - 1); }
  }

  /** A distance lies in one bucket's range only. */
  lemma RangesApart(d: nat, i: nat, j: nat)
    requires Pow2(i) <= d < Pow2(i + 1) && Pow2(j) <= d < Pow2(j + 1)
    ensures i == j
  {
    if i < j { Pow2Grows(i + 1, j); }
    if j < i { Pow2Grows(j + 1, i); }
  }
}
