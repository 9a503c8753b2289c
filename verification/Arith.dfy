/** Facts of integer arithmetic that several models need. */
module Arith {

  /** A division is known by its quotient and its remainder. */
  lemma Quotient(x: int, w: nat, q: int, r: nat)
    requires w > 0 && x == w * q + r && r < w
    ensures x / w == q && x % w == r
  {
    var p := x / w;
    assert x == w * p + x % w;
    assert p < q ==> w * (p + 1) <= w * q;
    assert p > q ==> w * (q + 1) <= w * p;
  }

  lemma Commute(x: int, y: int)
    ensures x * y == y * x
  {
  }

  lemma MulAssoc(x: int, y: int, z: int)
    ensures x * (y * z) == x * y * z
  {
  }

  lemma Interchange(a: int, b: int, x: int, y: int)
    ensures a * b * (x * y) == (a * x) * (b * y)
  {
    MulAssoc(a * b, x, y);
    assert a * b * x == a * x * b by { MulAssoc(a, b, x); MulAssoc(a, x, b); }
    MulAssoc(a * x, b, y);
  }

  lemma Scale(p: nat, x: int, y: int)
    requires x <= y
    ensures x * p <= y * p && p * x <= p * y
  {
  }

  /** The wrap-around of an index into a ring. */
  lemma RingIndex(head: nat, i: nat, cap: nat)
    requires head < cap && i < cap
    ensures (head + i) % cap == if head + i < cap then head + i else head + i - cap
  {
    if head + i >= cap { Quotient(head + i, cap, 1, head + i - cap); } else { Quotient(head + i, cap, 0, head + i); }
  }
}
