/** lua-crypt.c: the Diffie-Hellman exchange over 64-bit words. */
module DiffieHellman {
  import opened Arith
  import opened BigWords

  const WORD64 := 0x1_0000_0000_0000_0000
  const P := 0xffff_ffff_ffff_ffc5
  const G := 5

  /** 5 * G_INVERSE == 2 * P + 1: all that the exchange needs of P being a prime. */
  const G_INVERSE := 0x6666_6666_6666_664f

  type U64 = i: int | 0 <= i < 0x1_0000_0000_0000_0000

  /** The result of an operation as the 64-bit register keeps it. */
  function Wrap(x: int): U64 { x % WORD64 }

  lemma ModShift(x: int, k: int)
    ensures (x + k * P) % P == x % P
  {
  }

  /** Equal remainders differ by a multiple. */
  lemma Multiple(x: int, u: int) returns (k: int)
    requires x % P == u % P
    ensures x == u + k * P
  {
    k := x / P - u / P;
  }

  lemma ModMul(x: int, u: int, y: int)
    requires x % P == u % P
    ensures x * y % P == u * y % P
  {
    var k := Multiple(x, u);
    MulOut(u, k, y);
    ModShift(u * y, k * y);
  }

  lemma MulOut(u: int, k: int, y: int)
    ensures (u + k * P) * y == u * y + k * y * P
  {
  }

  lemma ModMul2(x: int, u: int, y: int, v: int)
    requires x % P == u % P && y % P == v % P
    ensures x * y % P == u * v % P
  {
    ModMul(x, u, y);
    ModMul(y, v, u);
    Commute(y, u);
    Commute(v, u);
  }

  /** What is in m and what is still to be added. */
  ghost predicate Remains(m: int, a: int, b: nat, target: int) { (m + a * b) % P == target }

  /** One turn of the loop: a bit of b moves a multiple of a into m, and a is doubled. */
  lemma MulStep(m: int, a: int, b: nat, target: int, m': int, a': int)
    requires Remains(m, a, b, target)
    requires if b % 2 == 1 then m' == m + a || m' == m + a - P else m' == m
    requires a' == 2 * a || a' == 2 * a - P
    ensures Remains(m', a', b / 2, target)
  {
    var c := b / 2;
    var e := if b % 2 == 1 && m' == m + a - P then 1 else 0;
    var f := if a' == 2 * a then 0 else 1;
    assert b == 2 * c + b % 2;
    MulStepInts(m, a, c, b % 2, e, f);
    ModShift(m' + a' * c, e + f * c);
  }

  lemma MulStepInts(m: int, a: int, c: int, odd: int, e: int, f: int)
    ensures (m + odd * a - e * P) + (2 * a - f * P) * c + (e + f * c) * P == m + a * (2 * c + odd)
  {
  }

  /** m + a, less P if that is not below P: no sum or difference leaves 64 bits. */
  method AddModP(m: U64, a: U64) returns (r: U64)
    requires m < P && a <= P
    ensures r < P && (r == m + a || r == m + a - P)
  {
    var t := Wrap(P - a);
    r := if m >= t then Wrap(m - t) else Wrap(m + a);
  }

  method DoubleModP(a: U64) returns (r: U64)
    requires a <= P
    ensures r <= P && (r == 2 * a || r == 2 * a - P)
  {
    r := if a >= Wrap(P - a) then Wrap(Wrap(a * 2) - P) else Wrap(a * 2);
  }

  // The field operations that the methods are meant to compute

  function Residue(x: int): (r: nat)
    ensures r < P
  {
    x % P
  }

  function Product(x: int, y: int): nat { Residue(x * y) }
  function Power(x: nat, n: nat): nat { Residue(Exp(x, n)) }

  /** a * b mod P, though the doubling of a wraps. */
  method MulModP(a0: U64, b0: U64) returns (m: U64)
    requires a0 <= P
    ensures m == Product(a0, b0)
  {
    var a, b := a0, b0;
    ghost var target := Product(a0, b0);
    m := 0;
    assert Remains(m, a, b, target);
    hide Remains;
    while b > 0
      invariant 0 <= m < P && 0 <= a <= P && Remains(m, a, b, target)
    {
      ghost var m1, a1 := m, a;
      if b % 2 == 1 { m := AddModP(m, a); }
      a := DoubleModP(a);
      MulStep(m1, a1, b, target, m, a);
      b := b / 2;
    }
    NothingRemains(m, a, target);
  }

  lemma NothingRemains(m: nat, a: int, target: int)
    requires Remains(m, a, 0, target) && m < P
    ensures m == target
  {
  }

  lemma PowHalf(a: nat, b: nat)
    ensures Exp(a, b) == Exp(a, b / 2) * Exp(a, b / 2) * (if b % 2 == 1 then a else 1)
  {
    ExpAdd(a, b / 2, b / 2);
    if b % 2 == 1 {
      ExpAdd(a, b / 2 + b / 2, 1);
      assert Exp(a, 1) == a * Exp(a, 0);
    }
  }

  /** a^b mod P for b >= 1; with b == 0 the recursion of the program does not end. */
  method PowModP(a: U64, b: U64) returns (r: U64)
    requires a <= P && b >= 1
    ensures Residue(r) == Power(a, b) && (if b == 1 then r == a else r < P)
    decreases b
  {
    hide *;
    if b == 1 {
      PowerOne(a);
      return a;
    }
    var t := PowModP(a, b / 2);
    PowSteps(a, b, t);
    t := MulModP(t, t);
    if b % 2 == 1 { t := MulModP(t, a); }
    r := t;
  }

  lemma PowerOne(a: nat)
    ensures Residue(a) == Power(a, 1)
  {
    assert Exp(a, 1) == a * Exp(a, 0);
  }

  lemma PowSteps(a: nat, b: nat, t: nat)
    requires Residue(t) == Power(a, b / 2)
    ensures var s := Product(t, t);
            && Residue(s) == s
            && (b % 2 == 0 ==> s == Power(a, b))
            && (b % 2 == 1 ==> Product(s, a) == Power(a, b) && Residue(Product(s, a)) == Product(s, a))
  {
    var h := Exp(a, b / 2);
    PowHalf(a, b);
    hide Exp;
    ModMul2(t, h, t, h);
    ModMul(t * t % P, h * h, a);
  }

  /** Exact but in one case: a == P itself is not reduced, and its first power is P. */
  method PowMod(a0: U64, b: U64) returns (r: U64)
    requires b >= 1
    ensures Residue(r) == Power(a0, b)
    ensures r == Power(a0, b) <==> !(a0 == P && b == 1)
  {
    var a := if a0 > P then a0 % P else a0;
    ModPow(a0, a, b);
    hide Exp;
    r := PowModP(a, b);
  }

  lemma {:induction false} ModPow(x: nat, u: nat, n: nat)
    requires x % P == u % P
    ensures Power(x, n) == Power(u, n)
  {
    if n > 0 {
      ModPow(x, u, n - 1);
      ModMul2(x, u, Exp(x, n - 1), Exp(u, n - 1));
    }
  }

  datatype Result = Value(r: U64) | CannotBeZero

  /** ldhexchange: what a party with private key x sends. */
  method Exchange(x: U64) returns (r: Result)
    ensures x == 0 ==> r == CannotBeZero
    ensures x != 0 ==> r == Value(Power(G, x)) && r.r != 0
  {
    if x == 0 { return CannotBeZero; }
    NeverZero(x);
    hide Power;
    var v := PowMod(G, x);
    return Value(v);
  }

  /** ldhsecret: what a party with private key y makes of what it received. */
  method Secret(x: U64, y: U64) returns (r: Result)
    ensures x == 0 || y == 0 ==> r == CannotBeZero
    ensures x != 0 && y != 0 ==> r.Value? && Residue(r.r) == Power(x, y) && (x != P ==> r.r == Power(x, y))
  {
    hide Power;
    if x == 0 || y == 0 { return CannotBeZero; }
    var v := PowMod(x, y);
    return Value(v);
  }

  /** The two parties, each from its own key and what the other sent, agree. */
  lemma Agreement(x: nat, y: nat)
    ensures Power(Power(G, x), y) == Power(Power(G, y), x) == Power(G, x * y)
  {
    PowerTwice(x, y);
    PowerTwice(y, x);
    Commute(x, y);
    hide Power;
  }

  lemma PowerTwice(x: nat, y: nat)
    ensures Power(Power(G, x), y) == Power(G, x * y)
  {
    ModPow(Power(G, x), Exp(G, x), y);
    ExpMul(G, x, y);
    hide Exp;
  }

  /** A whole exchange: both parties get the same secret, whatever their keys. */
  method Handshake(x: U64, y: U64) returns (mine: Result, theirs: Result)
    ensures x != 0 && y != 0 ==> mine == theirs && mine == Value(Power(G, x * y))
    ensures x == 0 || y == 0 ==> mine == theirs == CannotBeZero
  {
    Agreement(x, y);
    hide *;
    var sentX := Exchange(x);
    var sentY := Exchange(y);
    if sentX.CannotBeZero? || sentY.CannotBeZero? { return CannotBeZero, CannotBeZero; }
    BelowP(G, x);
    BelowP(G, y);
    mine := Secret(sentY.r, x);
    theirs := Secret(sentX.r, y);
  }

  lemma BelowP(a: nat, n: nat)
    ensures Power(a, n) < P
  {
  }

  /** Powers of 5 never vanish, because 5 has an inverse. */
  lemma {:induction false} NeverZero(n: nat)
    ensures Power(G, n) != 0
  {
    if n > 0 {
      NeverZero(n - 1);
      var p := Exp(G, n - 1);
      if G * p % P == 0 {
        ModMul(G * p, 0, G_INVERSE);
        assert G * p * G_INVERSE == p + 2 * p * P;
        ModShift(p, 2 * p);
        assert false;
      }
    }
  }
}
