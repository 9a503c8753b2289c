/** dtoa.c: powers of five, and the exact digits of a quotient of Bigints. */
module Decimal {
  import opened Arith
  import opened BigWords

  type Digit = i: int | 0 <= i <= 9

  /** The number that the digits stand for, the first one most significant. */
  function Num(s: seq<Digit>): nat {
    if s == [] then 0 else 10 * Num(s[..|s| - 1]) + s[|s| - 1]
  }

  function Abs(x: int): nat { if x < 0 then -x else x }

  /** `r` is the integer nearest to n / d, the even one of two. */
  predicate IsNearest(n: int, d: int, r: int) {
    && 2 * Abs(n - r * d) <= d
    && (2 * Abs(n - r * d) == d ==> r % 2 == 0)
  }

  lemma NearestExact(n: int, d: int, r: int)
    requires d > 0 && n == r * d
    ensures IsNearest(n, d, r)
  {
  }

  lemma NearestRounded(n: int, d: int, q: int, rem: int)
    requires d > 0 && n == q * d + rem && 0 <= rem < d
    ensures IsNearest(n, d, if 2 * rem > d || (2 * rem == d && q % 2 == 1) then q + 1 else q)
  {
    assert (q + 1) * d == q * d + d;
  }

  /** There is only one such integer. */
  lemma NearestUnique(n: int, d: int, r: int, t: int)
    requires d > 0 && IsNearest(n, d, r) && IsNearest(n, d, t)
    ensures r == t
  {
    if r < t { Closest(n, d, r, t); } else if t < r { Closest(n, d, t, r); }
  }

  lemma Closest(n: int, d: int, r: int, t: int)
    requires d > 0 && r < t && 2 * Abs(n - r * d) <= d && 2 * Abs(n - t * d) <= d
    ensures t == r + 1 && 2 * Abs(n - r * d) == d && 2 * Abs(n - t * d) == d
  {
    var j := t - r;
    assert t * d == r * d + j * d;
    if j >= 2 { Scale(d, 2, j); } else { assert j * d == d; }
  }

  lemma NearestScaled(n: int, d: int, r: int, c: int)
    requires c > 0
    ensures IsNearest(n * c, d * c, r) <==> IsNearest(n, d, r)
  {
    var e := Abs(n - r * d);
    assert r * (d * c) == r * d * c by { MulAssoc(r, d, c); }
    assert n * c - r * (d * c) == (n - r * d) * c;
    assert Abs((n - r * d) * c) == e * c;
    if 2 * e < d { Strictly(2 * e, d, c); }
    if 2 * e > d { Strictly(d, 2 * e, c); }
    MulAssoc(2, e, c);
  }

  lemma Strictly(x: int, y: int, c: int)
    requires x < y && c > 0
    ensures x * c < y * c
  {
  }

  lemma NumSnoc(s: seq<Digit>, g: Digit)
    ensures Num(s + [g]) == 10 * Num(s) + g
  {
    assert (s + [g])[..|s|] == s;
  }

  lemma {:induction false} NumZeros(s: seq<Digit>, n: nat)
    requires n <= |s| && forall i :: n <= i < |s| ==> s[i] == 0
    ensures Num(s) == Num(s[..n]) * Exp(10, |s| - n)
  {
    if n == |s| {
      assert s[..n] == s;
    } else {
      var f := s[..|s| - 1];
      NumZeros(f, n);
      assert f[..n] == s[..n] && Exp(10, |s| - n) == 10 * Exp(10, |f| - n);
      MulAssoc(Num(s[..n]), 10, Exp(10, |f| - n));
      Shuffle(Num(s[..n]), Exp(10, |f| - n));
    }
  }

  lemma Shuffle(a: int, p: int)
    ensures 10 * (a * p) == a * (10 * p)
  {
  }

  /** One more than a run of nines carries into the digit before it. */
  lemma {:induction false} NumNines(s: seq<Digit>, n: nat)
    requires n <= |s| && forall i :: n <= i < |s| ==> s[i] == 9
    ensures Num(s) + 1 == (Num(s[..n]) + 1) * Exp(10, |s| - n)
  {
    if n == |s| {
      assert s[..n] == s;
    } else {
      var f := s[..|s| - 1];
      NumNines(f, n);
      assert f[..n] == s[..n] && Exp(10, |s| - n) == 10 * Exp(10, |f| - n);
      Shuffle(Num(s[..n]) + 1, Exp(10, |f| - n));
    }
  }

  lemma NumParity(s: seq<Digit>)
    requires s != []
    ensures Num(s) % 2 == s[|s| - 1] % 2
  {
  }

  /** `t`, read as digits before and after an implied point, is the result of rounding n / d
      to `ilim` digits; `up` if rounding gave one digit more. */
  ghost predicate Rounds(t: seq<Digit>, up: bool, ilim: nat, n: nat, d: nat) {
    && 0 < |t| <= ilim && t[0] != 0 && t[|t| - 1] != 0 && (up ==> t == [1])
    && IsNearest(n * Exp(10, ilim - 1), d, Num(t) * Exp(10, ilim + (if up then 1 else 0) - |t|))
  }

  /** Scaling numerator and denominator changes nothing. */
  lemma RoundsScaled(t: seq<Digit>, up: bool, ilim: nat, n: nat, d: nat, c: nat)
    requires c > 0 && ilim > 0
    ensures Rounds(t, up, ilim, n * c, d * c) <==> Rounds(t, up, ilim, n, d)
  {
    if 0 < |t| <= ilim {
      var p := Exp(10, ilim - 1);
      NearestScaled(n * p, d, Num(t) * Exp(10, ilim + (if up then 1 else 0) - |t|), c);
      assert n * p * c == n * c * p by { MulAssoc(n, p, c); MulAssoc(n, c, p); }
    }
  }

  /** `s` are the digits found so far, `rem` is left of the numerator. */
  ghost predicate Digits(s: seq<Digit>, n: nat, d: nat, rem: nat) {
    && s != [] && s[0] != 0 && rem < d
    && n * Exp(10, |s| - 1) == Num(s) * d + rem
  }

  lemma FirstDigit(n: nat, d: nat, q: Digit, rem: nat)
    requires d > 0 && d <= n && q == n / d && rem == n % d
    ensures Digits([q], n, d, rem) && (rem == 0 ==> q > 0)
  {
    NumSnoc([], q);
    assert [] + [q] == [q] && Exp(10, 0) == 1;
    assert n == d * q + rem;
  }

  lemma NextDigit(s: seq<Digit>, n: nat, d: nat, rem: nat, q: Digit, rem': nat)
    requires Digits(s, n, d, rem) && rem > 0 && q == 10 * rem / d && rem' == 10 * rem % d
    ensures Digits(s + [q], n, d, rem') && (rem' == 0 ==> q > 0)
  {
    NumSnoc(s, q);
    var p, m := Exp(10, |s| - 1), Num(s);
    assert Exp(10, |s|) == 10 * p;
    assert (s + [q])[0] == s[0];
    hide Exp;
    hide Num;
    Divides(10 * rem, d, q, rem');
    NextInts(n, p, m, d, rem, q, rem');
  }

  lemma Divides(x: nat, d: nat, q: nat, r: nat)
    requires d > 0 && q == x / d && r == x % d
    ensures x == d * q + r && r < d && (x > 0 && r == 0 ==> q > 0)
  {
  }

  lemma NextInts(n: int, p: int, m: int, d: int, rem: int, q: int, rem': int)
    requires n * p == m * d + rem && 10 * rem == d * q + rem'
    ensures n * (10 * p) == (10 * m + q) * d + rem'
  {
    Shuffle(n, p);
    assert (10 * m + q) * d == 10 * (m * d) + d * q;
  }

  lemma ExactRounds(s: seq<Digit>, ilim: nat, n: nat, d: nat)
    requires Digits(s, n, d, 0) && |s| <= ilim && s[|s| - 1] != 0
    ensures Rounds(s, false, ilim, n, d)
  {
    var e := ilim - |s|;
    ExpAdd(10, |s| - 1, e);
    var p, f, m := Exp(10, |s| - 1), Exp(10, e), Num(s);
    assert |s| - 1 + e == ilim - 1;
    MulAssoc(n, p, f);
    assert m * d * f == m * f * d by { MulAssoc(m, d, f); MulAssoc(m, f, d); }
    NearestExact(n * Exp(10, ilim - 1), d, m * f);
  }

  /** Rounding down: trailing zeros are left out. */
  lemma DownRounds(s: seq<Digit>, k: nat, n: nat, d: nat, rem: nat)
    requires Digits(s, n, d, rem) && (2 * rem < d || (2 * rem == d && s[|s| - 1] % 2 == 0))
    requires 0 < k <= |s| && s[k - 1] != 0 && forall i :: k <= i < |s| ==> s[i] == 0
    ensures Rounds(s[..k], false, |s|, n, d)
  {
    NumZeros(s, k);
    NumParity(s);
    NearestRounded(n * Exp(10, |s| - 1), d, Num(s), rem);
  }

  lemma NearestUp(s: seq<Digit>, n: nat, d: nat, rem: nat)
    requires Digits(s, n, d, rem) && (2 * rem > d || (2 * rem == d && s[|s| - 1] % 2 == 1))
    ensures IsNearest(n * Exp(10, |s| - 1), d, Num(s) + 1)
  {
    NumParity(s);
    NearestRounded(n * Exp(10, |s| - 1), d, Num(s), rem);
  }

  /** Rounding up: trailing nines are left out, the digit before them grows. */
  lemma UpRounds(s: seq<Digit>, k: nat, n: nat, d: nat, rem: nat, g: Digit)
    requires Digits(s, n, d, rem) && (2 * rem > d || (2 * rem == d && s[|s| - 1] % 2 == 1))
    requires k < |s| && g == s[k] as int + 1 && forall i :: k < i < |s| ==> s[i] == 9
    ensures Rounds(s[..k] + [g], false, |s|, n, d)
  {
    hide IsNearest;
    hide Exp;
    hide Num;
    NearestUp(s, n, d, rem);
    NumNines(s, k + 1);
    NumSnoc(s[..k], g);
    assert s[..k + 1] == s[..k] + [s[k]];
    NumSnoc(s[..k], s[k]);
    var t := s[..k] + [g];
    assert t[0] != 0;
    assert |s| - (k + 1) == |s| + 0 - |t|;
  }

  /** Rounding up a number of nines only. */
  lemma NinesRound(s: seq<Digit>, n: nat, d: nat, rem: nat)
    requires Digits(s, n, d, rem) && (2 * rem > d || (2 * rem == d && s[|s| - 1] % 2 == 1))
    requires forall i :: 0 <= i < |s| ==> s[i] == 9
    ensures Rounds([1], true, |s|, n, d)
  {
    NumNines(s, 0);
    assert s[..0] == [] && [] + [1] == [1];
    NumSnoc([], 1);
    assert Num([]) == 0;
    hide IsNearest;
    NearestUp(s, n, d, rem);
  }
}

/** The conversion proper. */
module Dtoa {
  import opened Arith
  import opened BigWords
  import opened Bigints
  import opened BigDivide
  import opened Quorem
  import opened Decimal

  /** The numbers that the list of powers p5s holds: 625, 625^2, 625^4, ... */
  function Power(i: nat): nat { if i == 0 then 625 else Power(i - 1) * Power(i - 1) }

  lemma {:induction false} PowerIs(i: nat)
    ensures Power(i) == Exp(5, 4 * Exp(2, i)) > 0
  {
    if i == 0 {
      assert Exp(5, 4) == 625;
    } else {
      PowerIs(i - 1);
      ExpAdd(5, 4 * Exp(2, i - 1), 4 * Exp(2, i - 1));
      Scale(Power(i - 1), 1, Power(i - 1));
    }
  }

  lemma {:induction false} ExpSquare(p: nat, k: nat)
    ensures Exp(p, k) == (if k % 2 == 1 then p else 1) * Exp(p * p, k / 2)
  {
    if k >= 2 {
      ExpSquare(p, k - 2);
      var e, f := Exp(p * p, k / 2 - 1), if k % 2 == 1 then p else 1;
      assert Exp(p, k) == p * (p * Exp(p, k - 2));
      assert Exp(p * p, k / 2) == p * p * e;
      SquareInts(p, f, e);
    } else {
      assert Exp(p, 1) == p * Exp(p, 0);
    }
  }

  lemma SquareInts(p: int, f: int, e: int)
    ensures p * (p * (f * e)) == f * (p * p * e)
  {
    MulAssoc(p, p, f * e);
    MulAssoc(p * p, f, e);
    MulAssoc(f, p * p, e);
    Commute(f, p * p);
  }

  /** p05 */
  function P05(i: nat): (m: nat)
    ensures 0 < m <= 125
  {
    if i == 1 then 5 else if i == 2 then 25 else 125
  }

  /** The list p5s, which grows as it is needed and is never freed. */
  class PowersOfFive {
    var list: seq<Bigint>

    ghost predicate Valid()
      reads this, list, set b | b in list :: b.x
    {
      forall i :: 0 <= i < |list| ==> list[i].Valid() && list[i].Value() == Power(i)
    }

    /** `b` shares no memory with the list. */
    ghost predicate Apart(b: Bigint)
      reads this, list
    {
      forall i :: 0 <= i < |list| ==> list[i] != b && list[i].x != b.x
    }

    constructor ()
      ensures Valid() && list == []
    {
      list := [];
    }

    lemma Node(j: nat)
      requires Valid() && j < |list|
      ensures list[j].Valid() && list[j].Value() == Power(j) && list[j].wds > 0
    {
      PowerIs(j);
      PositiveWords(list[j].x[..list[j].wds]);
    }

    /** p5->next, made on demand. */
    method Next(j: nat, ghost b: Bigint)
      requires Valid() && Apart(b) && j <= |list|
      modifies this
      ensures Valid() && Apart(b) && j < |list| && old(list) <= list
    {
      if j == |list| {
        var p: Bigint;
        if j == 0 {
          p := I2B(625);
        } else {
          Node(j - 1);
          p := Mult(list[j - 1], list[j - 1]);
        }
        hide Val;
        hide Exp;
        assert p.Valid() && p.Value() == Power(j);
        list := list + [p];
      }
    }

    method TimesSmall(b0: Bigint, m: nat) returns (b: Bigint)
      requires Valid() && Apart(b0) && b0.Valid() && 0 < m <= 125
      modifies b0, b0.x
      ensures Valid() && Apart(b) && b.Valid() && (b == b0 || (fresh(b) && fresh(b.x)))
      ensures b.Value() == m * old(b0.Value())
    {
      hide Val;
      hide Exp;
      b := MultAdd(b0, m, 0);
    }

    method TimesNode(b0: Bigint, j: nat) returns (b: Bigint)
      requires Valid() && Apart(b0) && b0.Valid() && j < |list|
      ensures Valid() && Apart(b) && b.Valid() && fresh(b) && fresh(b.x)
      ensures b.Value() == b0.Value() * Power(j)
    {
      hide Val;
      hide Exp;
      Node(j);
      b := Mult(b0, list[j]);
    }

    /** b * 5^k0, whatever the list holds. */
    method Pow5Mult(b0: Bigint, k0: nat) returns (b: Bigint)
      requires Valid() && Apart(b0) && b0.Valid()
      modifies this, b0, b0.x
      ensures Valid() && Apart(b) && b.Valid() && (b == b0 || (fresh(b) && fresh(b.x)))
      ensures b.Value() == old(b0.Value()) * Exp(5, k0)
    {
      FirstPowers(b0.Value(), k0);
      hide *;
      var i, k := k0 % 4, k0 / 4;
      b := b0;
      if i > 0 { b := TimesSmall(b, P05(i)); }
      if k > 0 { b := TimesPowers(b, k, old(b0.Value()) * Exp(5, k0)); }
    }

    method TimesBit(b0: Bigint, j: nat, k: nat, ghost target: nat) returns (b: Bigint)
      requires Valid() && Apart(b0) && b0.Valid() && j < |list| && k > 0 && Remaining(b0.Value(), j, k, target)
      ensures Apart(b) && b.Valid() && (b == b0 || (fresh(b) && fresh(b.x)))
      ensures if k / 2 == 0 then b.Value() == target else Remaining(b.Value(), j + 1, k / 2, target)
    {
      assert b0.Shape();
      hide *;
      RemainingHalf(b0.Value(), j, k, target);
      b := b0;
      if k % 2 == 1 { b := TimesNode(b, j); }
    }

    lemma Shaped(b: Bigint)
      requires b.Valid()
      ensures b.Shape()
    {
    }

    /** The loop of pow5mult over the bits of k0. */
    method TimesPowers(b0: Bigint, k0: nat, ghost target: nat) returns (b: Bigint)
      requires Valid() && Apart(b0) && b0.Valid() && k0 > 0 && Remaining(b0.Value(), 0, k0, target)
      modifies this
      ensures Valid() && Apart(b) && b.Valid() && (b == b0 || (fresh(b) && fresh(b.x)))
      ensures b.Value() == target
    {
      hide *;
      Shaped(b0);
      var j, k := 0, k0;
      b := b0;
      Next(0, b);
      while true
        invariant k > 0 && j < |list| && Valid() && Apart(b)
        invariant b.Shape() && b.Valid() && Remaining(b.Value(), j, k, target)
        invariant b == b0 || (fresh(b) && fresh(b.x))
        decreases k
      {
        b := TimesBit(b, j, k, target);
        Shaped(b);
        k := k / 2;
        if k == 0 { break; }
        Next(j + 1, b);
        j := j + 1;
      }
    }
  }

  /** What is still to be multiplied: k times the power of node j. */
  ghost predicate Remaining(v: nat, j: nat, k: nat, target: nat) { v * Exp(Power(j), k) == target }

  lemma RemainingHalf(v: nat, j: nat, k: nat, target: nat)
    requires Remaining(v, j, k, target) && k > 0
    ensures var w := if k % 2 == 1 then v * Power(j) else v;
            if k / 2 == 0 then w == target else Remaining(w, j + 1, k / 2, target)
  {
    var p := Power(j);
    ExpSquare(p, k);
    MulAssoc(v, if k % 2 == 1 then p else 1, Exp(p * p, k / 2));
    assert Power(j + 1) == p * p;
    assert Exp(p * p, 0) == 1;
  }

  lemma FirstPowers(v: nat, k0: nat)
    ensures var i := k0 % 4;
            var w := if i > 0 then P05(i) * v else v;
            if k0 / 4 == 0 then w == v * Exp(5, k0) else Remaining(w, 0, k0 / 4, v * Exp(5, k0))
  {
    var i, k := k0 % 4, k0 / 4;
    ExpAdd(5, i, 4 * k);
    ExpMul(5, 4, k);
    assert Exp(5, 0) == 1 && Exp(5, 1) == 5 && Exp(5, 2) == 25 && Exp(5, 3) == 125 && Exp(5, 4) == 625;
    MulAssoc(v, Exp(5, i), Exp(5, 4 * k));
    Commute(v, Exp(5, i));
    assert Exp(625, 0) == 1;
  }

  lemma PositiveWords(s: seq<Word>)
    ensures Val(s) > 0 ==> |s| > 0
  {
  }

  // The digits

  /** roundoff: one more in the last place. */
  method RoundOff(s: seq<Digit>, ghost n: nat, ghost d: nat, ghost rem: nat) returns (t: seq<Digit>, up: bool)
    requires Digits(s, n, d, rem) && (2 * rem > d || (2 * rem == d && s[|s| - 1] % 2 == 1))
    ensures Rounds(t, up, |s|, n, d)
  {
    hide Digits;
    hide Rounds;
    DigitsStart(s, n, d, rem);
    var i := |s| - 1;
    while s[i] == 9
      invariant 0 <= i < |s| && forall j :: i < j < |s| ==> s[j] == 9
      decreases i
    {
      if i == 0 {
        NinesRound(s, n, d, rem);
        return [1], true;
      }
      i := i - 1;
    }
    UpRounds(s, i, n, d, rem, s[i] + 1);
    return s[..i] + [s[i] + 1], false;
  }

  lemma DigitsStart(s: seq<Digit>, n: nat, d: nat, rem: nat)
    requires Digits(s, n, d, rem)
    ensures s != [] && s[0] != 0 && rem < d
  {
  }

  /** trimzeros */
  method TrimZeros(s: seq<Digit>, ghost n: nat, ghost d: nat, ghost rem: nat) returns (t: seq<Digit>)
    requires Digits(s, n, d, rem) && (2 * rem < d || (2 * rem == d && s[|s| - 1] % 2 == 0))
    ensures Rounds(t, false, |s|, n, d)
  {
    hide Digits;
    hide Rounds;
    DigitsStart(s, n, d, rem);
    var i := |s| - 1;
    while s[i] == 0
      invariant 0 <= i < |s| && forall j :: i < j < |s| ==> s[j] == 0
      decreases i
    {
      i := i - 1;
    }
    DownRounds(s, i + 1, n, d, rem);
    return s[..i + 1];
  }

  /** b != 0 */
  method NotZero(b: Bigint) returns (yes: bool)
    requires b.Valid()
    ensures yes <==> b.Value() > 0
    ensures yes ==> b.wds > 0
  {
    yes := b.x[0] != 0 || b.wds > 1;
    hide Exp;
    hide Val;
    ghost var s := b.x[..b.wds];
    ValStart();
    if |s| == 1 {
      assert s == [] + [s[0]];
      ValSnoc([], s[0]);
    } else if |s| > 1 {
      if b.Value() == 0 { ValIsZero(s); }
    }
  }

  /** The digit loop without shortest-form tests, and the rounding of the last digit. */
  method ExactDigits(b0: Bigint, S: Bigint, ilim: nat) returns (t: seq<Digit>, up: bool)
    requires b0.Valid() && S.Valid() && b0 != S && b0.x != S.x && ilim > 0
    requires Aligned(S.x[..S.wds]) && S.Value() <= b0.Value() < 10 * S.Value()
    modifies b0, b0.x
    ensures Rounds(t, up, ilim, old(b0.Value()), S.Value())
  {
    assert Ready([], b0.Value(), S.Value(), b0.Value());
    hide *;
    ghost var n, d := b0.Value(), S.Value();
    var b, s: seq<Digit>, i := b0, [], 1;
    while true
      invariant b.Valid() && S.Valid() && b.Shape() && S.Shape() && b != S && b.x != S.x
      invariant 1 <= i <= ilim && |s| == i - 1
      invariant b == b0 || (fresh(b) && fresh(b.x))
      invariant Aligned(S.x[..S.wds]) && S.Value() == d
      invariant Ready(s, n, d, b.Value())
      decreases ilim - i
    {
      var more;
      s, more := NextDigitOf(b, S, s, n);
      if !more {
        ExactRounds(s, ilim, n, d);
        return s, false;
      }
      if i >= ilim { break; }
      ReadyNext(s, n, d, b.Value());
      b := MultAdd(b, 10, 0);
      i := i + 1;
    }
    t, up := RoundLast(b, S, s, n);
  }

  /** One turn of the digit loop; `more` if something is left. */
  method NextDigitOf(b: Bigint, S: Bigint, s: seq<Digit>, ghost n: nat) returns (t: seq<Digit>, more: bool)
    requires b.Valid() && S.Valid() && b != S && b.x != S.x && Aligned(S.x[..S.wds])
    requires Ready(s, n, S.Value(), b.Value())
    modifies b, b.x
    ensures b.Valid() && |t| == |s| + 1 && Digits(t, n, S.Value(), b.Value())
    ensures more <==> b.Value() > 0
    ensures if more then b.wds > 0 else t[|t| - 1] != 0
  {
    hide Val;
    hide Exp;
    hide Digits;
    hide Aligned;
    ghost var v, d := b.Value(), S.Value();
    ReadyBounds(s, n, d, v);
    hide Ready;
    var dig := QuoRem(b, S);
    DigitStep(s, n, d, v, dig, b.Value());
    t := s + [dig];
    more := NotZero(b);
  }

  /** `v` is what the next digit of n / d is taken from, after the digits `s`. */
  ghost predicate Ready(s: seq<Digit>, n: nat, d: nat, v: nat) {
    && 0 < v < 10 * d
    && if s == [] then v == n >= d else exists rem :: Pending(s, n, d, rem, v)
  }

  lemma ReadyBounds(s: seq<Digit>, n: nat, d: nat, v: nat)
    requires Ready(s, n, d, v)
    ensures 0 < v < 10 * d
  {
  }

  lemma ReadyNext(s: seq<Digit>, n: nat, d: nat, rem: nat)
    requires Digits(s, n, d, rem) && rem > 0
    ensures Ready(s, n, d, 10 * rem)
  {
    assert Pending(s, n, d, rem, 10 * rem);
  }

  /** "Round off last digit": what is left in b against half of S. */
  method RoundLast(b0: Bigint, S: Bigint, s: seq<Digit>, ghost n: nat) returns (t: seq<Digit>, up: bool)
    requires b0.Valid() && S.Valid() && b0.Value() > 0 && Digits(s, n, S.Value(), b0.Value())
    ensures Rounds(t, up, |s|, n, S.Value())
  {
    hide Val;
    hide Exp;
    hide Rounds;
    ghost var rem, d := b0.Value(), S.Value();
    DigitsStart(s, n, d, rem);
    PositiveWords(b0.x[..b0.wds]);
    hide Digits;
    var b := LShift(b0, 1);
    Doubled(rem);
    var j := Cmp(b, S);
    if j > 0 || (j == 0 && s[|s| - 1] % 2 == 1) {
      t, up := RoundOff(s, n, d, rem);
    } else {
      t := TrimZeros(s, n, d, rem);
      up := false;
    }
  }

  /** `v` is ten times the remainder that belongs to the digits `s`. */
  ghost predicate Pending(s: seq<Digit>, n: nat, d: nat, rem: nat, v: nat) {
    Digits(s, n, d, rem) && v == 10 * rem
  }

  lemma DigitStep(s: seq<Digit>, n: nat, d: nat, v: nat, dig: nat, rem': nat)
    requires Ready(s, n, d, v) && dig == v / d && rem' == v % d
    ensures dig <= 9 && Digits(s + [dig], n, d, rem') && (rem' == 0 ==> dig > 0)
  {
    SmallQuotient(v, d);
    if s == [] {
      FirstDigit(n, d, dig, rem');
    } else {
      var rem :| Pending(s, n, d, rem, v);
      NextDigit(s, n, d, rem, dig, rem');
    }
  }

  lemma SmallQuotient(v: nat, d: nat)
    requires v < 10 * d
    ensures v / d <= 9
  {
    var q := v / d;
    assert v == d * q + v % d;
    if q >= 10 { Scale(d, 10, q); }
  }

  lemma Doubled(v: nat)
    ensures v * Exp(2, 1) == 2 * v
  {
  }

  // The whole conversion to a fixed number of digits

  /** bv / sv and n / d are the same fraction. */
  ghost predicate SameRatio(bv: nat, sv: nat, n: nat, d: nat) {
    exists x: nat, y: nat :: Proportional(bv, sv, n, d, x, y)
  }

  ghost predicate Proportional(bv: nat, sv: nat, n: nat, d: nat, x: nat, y: nat) {
    x > 0 && y > 0 && bv * x == n * y && sv * x == d * y
  }

  lemma RatioRounds(bv: nat, sv: nat, n: nat, d: nat, e: nat, t: seq<Digit>, up: bool, ilim: nat)
    requires SameRatio(bv, sv, n, d) && ilim > 0
    ensures Rounds(t, up, ilim, bv * e, sv) <==> Rounds(t, up, ilim, n * e, d)
  {
    var x: nat, y: nat :| Proportional(bv, sv, n, d, x, y);
    RoundsScaled(t, up, ilim, bv * e, sv, x);
    RoundsScaled(t, up, ilim, n * e, d, y);
    hide Rounds;
    RatioInts(bv, n, e, x, y);
  }

  lemma RatioInts(bv: nat, n: nat, e: nat, x: nat, y: nat)
    requires bv * x == n * y
    ensures bv * e * x == n * e * y
  {
    MulAssoc(bv, e, x); MulAssoc(bv, x, e); Commute(e, x);
    MulAssoc(n, e, y); MulAssoc(n, y, e); Commute(e, y);
  }

  lemma RatioOrder(bv: nat, sv: nat, n: nat, d: nat)
    requires SameRatio(bv, sv, n, d)
    ensures bv < sv <==> n < d
    ensures bv < 10 * sv <==> n < 10 * d
    ensures 10 * bv < sv <==> 10 * n < d
    ensures bv > 0 <==> n > 0
  {
    var x: nat, y: nat :| Proportional(bv, sv, n, d, x, y);
    OrderInts(bv, sv, n, d, x, y);
    MulAssoc(10, sv, x); MulAssoc(10, d, y); MulAssoc(10, bv, x); MulAssoc(10, n, y);
    OrderInts(bv, 10 * sv, n, 10 * d, x, y);
    OrderInts(10 * bv, sv, 10 * n, d, x, y);
    OrderInts(0, bv, 0, n, x, y);
  }

  lemma OrderInts(a: nat, b: nat, c: nat, d: nat, x: nat, y: nat)
    requires x > 0 && y > 0 && a * x == c * y && b * x == d * y
    ensures a < b <==> c < d
  {
    if a < b {
      Strictly(a, b, x);
      if c >= d { Scale(y, d, c); }
    } else {
      Scale(x, b, a);
      if c < d { Strictly(c, d, y); }
    }
  }

  /** The two numbers that are divided: n = b * 2^b2 * 5^b5 and d = 2^s2 * 5^s5. */
  function Numerator(b: nat, b2: nat, b5: nat): nat { b * Exp(5, b5) * Exp(2, b2) }

  /** Taking `m` common factors 2 away and putting `i` back keeps the ratio. */
  lemma Reshift(b: nat, b5: nat, b2: nat, s5: nat, s2: nat, m: nat, i: nat)
    requires m <= b2 && m <= s2
    ensures SameRatio(b * Exp(5, b5) * Exp(2, b2 - m + i), 1 * Exp(5, s5) * Exp(2, s2 - m + i),
                      Numerator(b, b2, b5), Numerator(1, s2, s5))
  {
    ExpPos(2, m);
    ExpPos(2, i);
    ReshiftInts(b * Exp(5, b5), b2, m, i);
    ReshiftInts(1 * Exp(5, s5), s2, m, i);
    assert Proportional(b * Exp(5, b5) * Exp(2, b2 - m + i), 1 * Exp(5, s5) * Exp(2, s2 - m + i),
                        Numerator(b, b2, b5), Numerator(1, s2, s5), Exp(2, m), Exp(2, i));
  }

  lemma ReshiftInts(v: nat, b2: nat, m: nat, i: nat)
    requires m <= b2
    ensures v * Exp(2, b2 - m + i) * Exp(2, m) == v * Exp(2, b2) * Exp(2, i)
  {
    ExpAdd(2, b2 - m + i, m);
    ExpAdd(2, b2, i);
    assert b2 - m + i + m == b2 + i;
    MulAssoc(v, Exp(2, b2 - m + i), Exp(2, m));
    MulAssoc(v, Exp(2, b2), Exp(2, i));
  }

  method Pow5If(b0: Bigint, k: nat, p: PowersOfFive) returns (b: Bigint)
    requires p.Valid() && p.Apart(b0) && b0.Valid()
    modifies p, b0, b0.x
    ensures p.Valid() && b.Valid() && (b == b0 || (fresh(b) && fresh(b.x)))
    ensures b.Value() == old(b0.Value()) * Exp(5, k)
  {
    hide Val;
    assert Exp(5, 0) == 1;
    hide Exp;
    b := b0;
    if k > 0 { b := p.Pow5Mult(b, k); }
  }

  method LShiftIf(b0: Bigint, k: nat) returns (b: Bigint)
    requires b0.Valid() && b0.Value() > 0
    ensures b.Valid() && b.Value() == b0.Value() * Exp(2, k) && (b == b0 || (fresh(b) && fresh(b.x)))
  {
    PositiveWords(b0.x[..b0.wds]);
    hide Val;
    assert Exp(2, 0) == 1;
    hide Exp;
    b := b0;
    if k > 0 { b := LShift(b, k); }
  }

  method MultipliedOut(b0: Bigint, b5: nat, s5: nat, p: PowersOfFive) returns (b: Bigint, S: Bigint)
    requires p.Valid() && p.Apart(b0) && b0.Valid() && b0.Value() > 0
    modifies p, b0, b0.x
    ensures b.Valid() && S.Valid() && b != S && b.x != S.x && b.Value() > 0 && S.Value() > 0
    ensures b == b0 || (fresh(b) && fresh(b.x))
    ensures b.Value() == old(b0.Value()) * Exp(5, b5) && S.Value() == 1 * Exp(5, s5)
  {
    hide Val;
    hide Exp;
    ExpPos(5, b5);
    ExpPos(5, s5);
    Positive(b0.Value(), Exp(5, b5));
    Positive(1, Exp(5, s5));
    b := Pow5If(b0, b5, p);
    S := I2B(1);
    S := Pow5If(S, s5, p);
  }

  /** Multiplies the powers of 2 and 5 out and aligns the divisor. */
  method Scaled(b0: Bigint, b2: nat, b5: nat, s2: nat, s5: nat, p: PowersOfFive) returns (b: Bigint, S: Bigint)
    requires p.Valid() && p.Apart(b0) && b0.Valid() && b0.Value() > 0
    modifies p, b0, b0.x
    ensures b.Valid() && S.Valid() && b != S && b.x != S.x && Aligned(S.x[..S.wds])
    ensures b == b0 || (fresh(b) && fresh(b.x))
    ensures SameRatio(b.Value(), S.Value(), Numerator(old(b0.Value()), b2, b5), Numerator(1, s2, s5))
  {
    hide Val;
    hide Exp;
    hide Aligned;
    hide SameRatio;
    hide Numerator;
    var m := if b2 > 0 && s2 > 0 then (if b2 < s2 then b2 else s2) else 0;
    var c2, d2 := b2 - m, s2 - m;
    ghost var v := b0.Value();
    b, S := MultipliedOut(b0, b5, s5, p);
    var i := DShift(S, d2);
    Reshift(v, b5, b2, s5, s2, m, i);
    c2, d2 := c2 + i, d2 + i;
    b, S := ShiftBoth(b, S, c2, d2);
  }

  method ShiftBoth(b0: Bigint, S0: Bigint, b2: nat, s2: nat) returns (b: Bigint, S: Bigint)
    requires b0.Valid() && S0.Valid() && b0.Value() > 0 && S0.Value() > 0 && b0 != S0 && b0.x != S0.x
    requires Aligns(S0.x[..S0.wds], s2)
    ensures b.Valid() && S.Valid() && b != S && b.x != S.x && Aligned(S.x[..S.wds])
    ensures b == b0 || (fresh(b) && fresh(b.x))
    ensures b.Value() == b0.Value() * Exp(2, b2) && S.Value() == S0.Value() * Exp(2, s2)
  {
    hide Val;
    hide Exp;
    hide Aligned;
    b := LShiftIf(b0, b2);
    S := LShiftIf(S0, s2);
    assert Normal(S.x[..S.wds]) && Val(S.x[..S.wds]) == Val(S0.x[..S0.wds]) * Exp(2, s2);
  }

  lemma Positive(x: nat, y: nat)
    ensures x > 0 && y > 0 ==> x * y > 0
  {
  }

  /** dtoa in mode 2, past its fast paths, for the number n / d * 10^k and `ilim` > 0 digits: `k` may be one too large
      if `kCheck`. */
  method FixedDigits(b0: Bigint, b2: nat, b5: nat, s2: nat, s5: nat, k: int, kCheck: bool, ilim: nat, p: PowersOfFive)
    returns (t: seq<Digit>, up: bool, kOut: int)
    requires p.Valid() && p.Apart(b0) && b0.Valid() && ilim > 0
    requires var n, d := Numerator(b0.Value(), b2, b5), Numerator(1, s2, s5);
             0 < n < 10 * d && d <= (if kCheck then 10 * n else n)
    modifies p, b0, b0.x
    ensures var n, d := Numerator(old(b0.Value()), b2, b5), Numerator(1, s2, s5);
            var short := if n < d then 1 else 0;
            && Rounds(t, up, ilim, n * Exp(10, short), d)
            && kOut == k - short + (if up then 1 else 0)
  {
    ghost var n, d := Numerator(b0.Value(), b2, b5), Numerator(1, s2, s5);
    assert b0.Value() > 0;
    assert Exp(10, 0) == 1 && Exp(10, 1) == 10;
    hide Val;
    hide Exp;
    hide Aligned;
    hide Rounds;
    hide SameRatio;
    hide Numerator;
    var b, S := Scaled(b0, b2, b5, s2, s5, p);
    ghost var bv, sv := b.Value(), S.Value();
    RatioOrder(bv, sv, n, d);
    PositiveWords(b.x[..b.wds]);
    kOut := k;
    ghost var e := 1;
    if kCheck {
      var c := Cmp(b, S);
      if c < 0 {
        kOut := kOut - 1;
        b := MultAdd(b, 10, 0);
        e := 10;
      }
    }
    assert b.Value() == bv * e;
    t, up := ExactDigits(b, S, ilim);
    RatioRounds(bv, sv, n, d, e, t, up, ilim);
    if up { kOut := kOut + 1; }
  }
}
