/** dtoa.c: the arithmetic on Bigint, in its configuration with 32-bit words and 64-bit products. */
module Bigints {
  import opened Arith
  import opened BigWords

  const WIDE := 0x1_0000_0000_0000_0000   // ULLong

  class Bigint {
    const k: nat
    const x: array<Word>   // maxwds == x.Length
    var sign: bool
    var wds: nat

    /** `wds` words of `x` are in use. The do-while loops touch x[0] even when there are none. */
    ghost predicate Shape()
      reads this, x
    {
      x.Length > 0 && x.Length == Exp(2, k) && wds <= x.Length && (wds == 0 ==> x[0] == 0)
    }

    ghost predicate Valid()
      reads this, x
    {
      Shape() && Normal(x[..wds])
    }

    ghost function Value(): nat
      reads this, x
      requires Shape()
    {
      Val(x[..wds])
    }

    /** Balloc */
    constructor (k: nat)
      ensures this.k == k && x.Length == Exp(2, k) && x.Length > 0 && wds == 0 && !sign && fresh(x)
    {
      this.k := k;
      ExpPos(2, k);
      x := new Word[Exp(2, k)];
      wds := 0;
      sign := false;
    }
  }

  method I2B(i: Word) returns (b: Bigint)
    ensures fresh(b) && fresh(b.x) && b.Valid() && b.Value() == i && b.wds == 1
  {
    assert Exp(2, 1) == 2;
    b := new Bigint(1);
    b.x[0] := i;
    b.wds := 1;
    assert b.x[..1] == [i];
    ValSnoc([], i);
  }

  lemma ExpNext(n: nat)
    ensures Exp(BASE, n + 1) == BASE * Exp(BASE, n) && Exp(2, n + 1) == 2 * Exp(2, n)
  {
  }

  lemma ValNext(s: seq<Word>, i: nat)
    requires i < |s|
    ensures Val(s[..i + 1]) == Val(s[..i]) + s[i] * Exp(BASE, i)
  {
    assert s[..i + 1] == s[..i] + [s[i]];
    ValSnoc(s[..i], s[i]);
  }

  lemma ValStart()
    ensures Val([]) == 0 && Exp(BASE, 0) == 1
  {
  }

  /** A wide result splits into the word that is stored and the carry. */
  lemma SplitWide(y: nat, p: nat)
    ensures y % BASE * p + y / BASE * (BASE * p) == y * p
  {
    var hi, lo := y / BASE, y % BASE;
    MulAssoc(hi, BASE, p);
    assert (lo + hi * BASE) * p == lo * p + hi * BASE * p;
  }

  /** The words below `n`, and a carry into word `n`. */
  ghost function Carried(c: seq<Word>, n: nat, carry: nat): nat
    requires n <= |c|
  {
    Val(c[..n]) + carry * Exp(BASE, n)
  }

  lemma CarriedNone(c: seq<Word>, n: nat)
    requires n <= |c|
    ensures Carried(c, n, 0) == Val(c[..n])
  {
  }

  lemma CarriedLast(c: seq<Word>, n: nat, carry: Word)
    requires n < |c|
    ensures Val(c[n := carry][..n + 1]) == Carried(c, n, carry)
  {
    ValNext(c[n := carry], n);
    assert c[n := carry][..n] == c[..n];
  }

  /** A wide result `y` at word `n`. */
  lemma CarriedNext(c: seq<Word>, n: nat, y: nat)
    requires n < |c| && y / BASE < BASE
    ensures Carried(c[n := y % BASE], n + 1, y / BASE) == Carried(c, n, y)
  {
    var c', p := c[n := y % BASE], Exp(BASE, n);
    hide Exp;
    hide Val;
    ValNext(c', n);
    ExpNext(n);
    SplitWide(y, p);
    assert c'[..n] == c[..n];
  }

  lemma CarriedMore(c: seq<Word>, n: nat, a: nat, b: nat)
    requires n <= |c|
    ensures Carried(c, n, a + b) == Carried(c, n, a) + b * Exp(BASE, n)
  {
    var p := Exp(BASE, n);
    hide Exp;
    hide Val;
    assert (a + b) * p == a * p + b * p;
  }

  // multadd

  /** The words below `i` are done: `x` shows how far the work on `u` has got. */
  ghost predicate Adding(x: seq<Word>, u: seq<Word>, i: nat, carry: nat, m: nat, a: nat) {
    && |x| == |u| && i <= |x| && carry < BASE && x[i..] == u[i..]
    && Carried(x, i, carry) == m * Val(u[..i]) + a
  }

  lemma AddingStart(u: seq<Word>, m: nat, a: nat)
    requires a < BASE
    ensures Adding(u, u, 0, a, m, a)
  {
    ValStart();
  }

  lemma AddingNext(x: seq<Word>, u: seq<Word>, i: nat, carry: nat, m: nat, a: nat)
    requires Adding(x, u, i, carry, m, a) && i < |x| && m < 0x8000_0000
    ensures var y := x[i] * m + carry;
            && x[i] == u[i] && 0 <= y < WIDE && 0 <= y / BASE < BASE
            && Adding(x[i := y % BASE], u, i + 1, y / BASE, m, a)
            && (m > 0 && u[i] > 0 && y / BASE == 0 ==> y % BASE > 0)
  {
    hide Carried;
    assert x[i] == x[i..][0] == u[i..][0] == u[i];
    MultAddBound(u[i], m, carry);
    var y := x[i] * m + carry;
    var x' := x[i := y % BASE];
    assert x'[i + 1..] == x[i..][1..] == u[i..][1..] == u[i + 1..];
    CarriedNext(x, i, y);
    CarriedMore(x, i, carry, x[i] * m);
    AddingSum(u, i, m);
  }

  lemma AddingSum(u: seq<Word>, i: nat, m: nat)
    requires i < |u|
    ensures m * Val(u[..i + 1]) == m * Val(u[..i]) + u[i] * m * Exp(BASE, i)
  {
    var p, v, w := Exp(BASE, i), Val(u[..i]), u[i];
    ValNext(u, i);
    hide Val;
    hide Exp;
    assert m * (v + w * p) == m * v + m * (w * p);
    MulAssoc(m, w, p);
    Commute(m, w);
  }

  lemma MultAddBound(w: Word, m: nat, carry: nat)
    requires m < 0x8000_0000 && carry < BASE
    ensures var y := w * m + carry;
            0 <= y < WIDE && 0 <= y / BASE < BASE && (m > 0 && w > 0 && y / BASE == 0 ==> y % BASE > 0)
  {
    var wn: nat, top: nat := w, BASE - 1;
    Scale(m, wn, top);
    Scale(top, m, 0x8000_0000);
    assert wn * m <= 0xffff_ffff * 0x8000_0000;
    if m > 0 { Scale(wn, 1, m); }
  }

  lemma AddingDone(x: seq<Word>, u: seq<Word>, wds: nat, carry: nat, m: nat, a: nat)
    requires Adding(x, u, if wds == 0 then 1 else wds, carry, m, a) && |u| > 0 && (wds == 0 ==> u[0] == 0 && a == 0)
    ensures Val(x[..wds]) + carry * Exp(BASE, wds) == m * Val(u[..wds]) + a
    ensures wds == 0 ==> carry == 0 && x[0] == 0
  {
    ValStart();
    ValNext(u, 0);
    ValNext(x, 0);
    ExpNext(0);
  }

  /** Multiplies by m and adds a. */
  method MultAdd(b: Bigint, m: nat, a: nat) returns (r: Bigint)
    requires b.Valid() && 0 < m < 0x8000_0000 && a < 0x8000_0000 && (b.wds > 0 || a == 0)
    modifies b, b.x
    ensures r == b || (fresh(r) && fresh(r.x))
    ensures r.Valid() && r.Value() == m * old(b.Value()) + a
  {
    hide Val;
    hide Exp;
    hide Adding;
    ghost var u := b.x[..];
    var wds, x, i: nat, carry: nat := b.wds, b.x, 0, a;
    AddingStart(u, m, a);
    while i == 0 || i < wds
      invariant i <= wds || (wds == 0 && i == 1)
      invariant b.wds == wds && carry < BASE && Adding(x[..], u, i, carry, m, a)
      invariant i > 1 && u[i - 1] != 0 && carry == 0 ==> x[i - 1] != 0
      decreases wds + 1 - i
    {
      AddingNext(x[..], u, i, carry, m, a);
      var y := x[i] * m + carry;
      ghost var next := x[..][i := y % BASE];
      x[i] := y % BASE;
      carry := y / BASE;
      assert x[..] == next;
      i := i + 1;
    }
    AddingDone(x[..], u, wds, carry, m, a);
    assert carry == 0 ==> Val(x[..wds]) == m * Val(u[..wds]) + a;
    assert u[..wds] == old(b.x[..b.wds]);
    assert x[..][..wds] == x[..wds];
    r := b;
    if carry != 0 { r := Append(b, carry); }
  }

  /** Stores the last carry in one more word, in a larger copy if there is no room. */
  method Append(b: Bigint, carry: Word) returns (r: Bigint)
    requires b.Shape() && carry > 0
    modifies b, b.x
    ensures r == b || (fresh(r) && fresh(r.x))
    ensures r.Valid() && r.Value() == old(b.Value()) + carry * Exp(BASE, old(b.wds))
  {
    hide Val;
    hide Exp;
    r := b;
    var wds := b.wds;
    if wds >= b.x.Length {
      r := new Bigint(b.k + 1);
      ExpNext(b.k);
      r.sign := b.sign;
      forall j | 0 <= j < wds { r.x[j] := b.x[j]; }
    }
    ghost var low := b.x[..wds];
    assert low == r.x[..wds] == old(b.x[..b.wds]);
    r.x[wds] := carry;
    r.wds := wds + 1;
    assert r.x[..wds + 1] == low + [carry];
    ValSnoc(low, carry);
  }

  // mult

  ghost function RowSum(o: seq<Word>, u: seq<Word>, j: nat, y: nat, i: nat): nat
    requires j + i <= |o| && i <= |u|
  {
    Val(o[..j + i]) + y * Exp(BASE, j) * Val(u[..i])
  }

  /** The words of `c` from `j` to `j + i` are done: they hold `o` plus the row y * u. */
  ghost predicate Rowing(c: seq<Word>, o: seq<Word>, u: seq<Word>, j: nat, y: nat, i: nat, carry: nat) {
    && |c| == |o| && j + i <= |c| && i <= |u| && carry < BASE && c[j + i..] == o[j + i..]
    && Carried(c, j + i, carry) == RowSum(o, u, j, y, i)
  }

  lemma RowingStart(o: seq<Word>, u: seq<Word>, j: nat, y: nat)
    requires j <= |o|
    ensures Rowing(o, o, u, j, y, 0, 0)
  {
    ValStart();
  }

  lemma RowingNext(c: seq<Word>, o: seq<Word>, u: seq<Word>, j: nat, y: Word, i: nat, carry: nat)
    requires Rowing(c, o, u, j, y, i, carry) && j + i < |c| && i < |u|
    ensures var z := u[i] * y + c[j + i] + carry;
            && 0 <= z < WIDE && 0 <= z / BASE < BASE
            && Rowing(c[j + i := z % BASE], o, u, j, y, i + 1, z / BASE)
  {
    hide Carried;
    hide RowSum;
    var z := u[i] * y + c[j + i] + carry;
    MultBound(u[i], y, c[j + i], carry);
    var c' := c[j + i := z % BASE];
    assert c[j + i] == c[j + i..][0] == o[j + i..][0] == o[j + i];
    assert c'[j + (i + 1)..] == c[j + i..][1..] == o[j + i..][1..] == o[j + (i + 1)..] && j + i + 1 == j + (i + 1);
    CarriedNext(c, j + i, z);
    CarriedMore(c, j + i, carry, u[i] * y + c[j + i]);
    RowSumNext(o, u, j, y, i);
  }

  lemma RowSumNext(o: seq<Word>, u: seq<Word>, j: nat, y: Word, i: nat)
    requires j + i < |o| && i < |u|
    ensures RowSum(o, u, j, y, i + 1) == RowSum(o, u, j, y, i) + (u[i] * y + o[j + i]) * Exp(BASE, j + i)
  {
    ValNext(o, j + i);
    ValNext(u, i);
    ExpAdd(BASE, j, i);
    assert o[..j + (i + 1)] == o[..j + i + 1];
    var e, f, v, w, t, yn: nat := Exp(BASE, j), Exp(BASE, i), Val(u[..i]), u[i], o[j + i], y;
    hide Val;
    hide Exp;
    RowSumInts(e, f, v, w, yn, t);
  }

  lemma RowSumInts(e: nat, f: nat, v: nat, w: nat, y: nat, t: nat)
    ensures t * (e * f) + y * e * (v + w * f) == y * e * v + (w * y + t) * (e * f)
  {
    Interchange(y, w, e, f);
    assert y * e * (v + w * f) == y * e * v + y * e * (w * f);
    assert (w * y + t) * (e * f) == w * y * (e * f) + t * (e * f);
    Commute(w, y);
  }

  lemma MultBound(w: Word, y: Word, t: Word, carry: Word)
    ensures 0 <= w * y + t + carry < WIDE && 0 <= (w * y + t + carry) / BASE < BASE
  {
    var top: nat, wn: nat, yn: nat := BASE - 1, w, y;
    Scale(yn, wn, top);
    Scale(top, yn, top);
    assert 0 <= wn * yn <= 0xffff_fffe_0000_0001;
  }

  /** The last carry goes to the word above. */
  lemma RowingDone(c: seq<Word>, o: seq<Word>, u: seq<Word>, j: nat, y: Word, carry: Word)
    requires Rowing(c, o, u, j, y, |u|, carry) && j + |u| < |c|
    ensures RowAdded(c[j + |u| := carry], o, u, j, y)
  {
    hide Val;
    hide Exp;
    hide RowSum;
    var c' := c[j + |u| := carry];
    CarriedLast(c, j + |u|, carry);
    hide Carried;
    assert c'[j + |u| + 1..] == c[j + |u|..][1..];
    assert o[j + |u| + 1..] == o[j + |u|..][1..];
  }

  /** `c` is `o` plus the whole row y * u from word `j` on. */
  ghost predicate RowAdded(c: seq<Word>, o: seq<Word>, u: seq<Word>, j: nat, y: nat) {
    && |c| == |o| && j + |u| < |c| && c[j + |u| + 1..] == o[j + |u| + 1..]
    && Val(c[..j + |u| + 1]) == RowSum(o, u, j, y, |u|)
  }

  /** One word `y` of the multiplier: adds y * a to `c` from word `j` on. */
  method AddRow(c: array<Word>, j: nat, a: Bigint, y: Word)
    requires a.Shape() && a.wds > 0 && c != a.x && j + a.wds < c.Length
    modifies c
    ensures RowAdded(c[..], old(c[..]), a.x[..a.wds], j, y)
  {
    hide Val;
    hide Exp;
    hide Rowing;
    hide RowAdded;
    ghost var o, u := c[..], a.x[..a.wds];
    var i, carry: Word := 0, 0;
    RowingStart(o, u, j, y);
    while i == 0 || i < a.wds
      invariant i <= a.wds && |u| == a.wds && Rowing(c[..], o, u, j, y, i, carry)
      decreases a.wds - i
    {
      RowingNext(c[..], o, u, j, y, i, carry);
      var z := a.x[i] * y + c[j + i] + carry;
      ghost var next := c[..][j + i := z % BASE];
      c[j + i] := z % BASE;
      carry := z / BASE;
      assert c[..] == next;
      i := i + 1;
    }
    RowingDone(c[..], o, u, j, y, carry);
    ghost var next := c[..][j + i := carry];
    c[j + i] := carry;
    assert c[..] == next;
  }

  /** The rows for the first `j` words of the multiplier `u` are in `c`. */
  ghost predicate Rows(c: seq<Word>, a: seq<Word>, u: seq<Word>, j: nat) {
    && j <= |u| && |a| + |u| <= |c|
    && Val(c[..|a| + j]) == Val(a) * Val(u[..j])
    && forall i :: |a| + j <= i < |a| + |u| ==> c[i] == 0
  }

  lemma RowsStart(c: seq<Word>, a: seq<Word>, u: seq<Word>)
    requires |a| + |u| <= |c| && forall i :: 0 <= i < |a| + |u| ==> c[i] == 0
    ensures Rows(c, a, u, 0)
  {
    ValStart();
    ValZeros(|a|, c[..|a|]);
  }

  lemma RowsNext(c: seq<Word>, c': seq<Word>, a: seq<Word>, u: seq<Word>, j: nat)
    requires Rows(c, a, u, j) && j < |u| && RowAdded(c', c, a, j, u[j])
    ensures Rows(c', a, u, j + 1)
  {
    ValNext(u, j);
    assert a[..|a|] == a && c[..j + |a|] == c[..|a| + j] && c'[..|a| + (j + 1)] == c'[..j + |a| + 1];
    hide Val;
    hide Exp;
    MultRow(Val(a), Val(u[..j]), u[j], Exp(BASE, j));
    forall i | |a| + (j + 1) <= i < |a| + |u| ensures c'[i] == 0 {
      assert c'[i] == c'[j + |a| + 1..][i - (j + |a| + 1)] == c[j + |a| + 1..][i - (j + |a| + 1)];
    }
  }

  lemma MultRow(a: nat, v: nat, y: nat, e: nat)
    ensures a * v + y * e * a == a * (v + y * e)
  {
  }

  lemma RowsSkip(c: seq<Word>, a: seq<Word>, u: seq<Word>, j: nat)
    requires Rows(c, a, u, j) && j < |u| && u[j] == 0
    ensures Rows(c, a, u, j + 1)
  {
    ValNext(c, |a| + j);
    ValNext(u, j);
    assert c[..|a| + (j + 1)] == c[..|a| + j + 1];
  }

  lemma RowsDone(c: seq<Word>, a: seq<Word>, u: seq<Word>)
    requires Rows(c, a, u, |u|)
    ensures Val(c[..|a| + |u|]) == Val(a) * Val(u)
  {
    assert u[..|u|] == u;
  }

  /** Leaves out the zero words on top. */
  method Trim(c: Bigint, n: nat)
    requires 0 < n <= c.x.Length == Exp(2, c.k)
    modifies c`wds
    ensures c.Valid() && c.Value() == Val(c.x[..n])
  {
    hide Val;
    var wc := n;
    while wc > 0 && c.x[wc - 1] == 0
      invariant wc <= n && Val(c.x[..wc]) == Val(c.x[..n]) && (wc < n ==> c.x[wc] == 0)
    {
      ValTrim(c.x[..wc]);
      assert c.x[..wc][..wc - 1] == c.x[..wc - 1];
      wc := wc - 1;
    }
    c.wds := wc;
  }

  method Mult(a: Bigint, b: Bigint) returns (c: Bigint)
    requires a.Valid() && b.Valid() && (a.wds > 0 || b.wds > 0)
    ensures fresh(c) && fresh(c.x) && c.Valid()
    ensures c.Value() == a.Value() * b.Value()
  {
    hide Val;
    hide Exp;
    Commute(a.Value(), b.Value());
    if a.wds < b.wds { c := MultRows(b, a); } else { c := MultRows(a, b); }
  }

  /** Multiplication by the number with fewer words. */
  method MultRows(a: Bigint, b: Bigint) returns (c: Bigint)
    requires a.Valid() && b.Valid() && a.wds >= b.wds && a.wds > 0
    ensures fresh(c) && fresh(c.x) && c.Valid()
    ensures c.Value() == a.Value() * b.Value()
  {
    hide Val;
    hide Exp;
    hide Rows;
    hide RowAdded;
    var k, wa, wb := a.k, a.wds, b.wds;
    var wc := wa + wb;
    if wc > a.x.Length { k := k + 1; }
    ExpNext(a.k);
    c := new Bigint(k);
    forall i | 0 <= i < wc { c.x[i] := 0; }
    var j := 0;
    ghost var u, v := b.x[..wb], a.x[..wa];
    RowsStart(c.x[..], v, u);
    while j < wb
      invariant j <= wb && b.x[..wb] == u && a.x[..wa] == v
      invariant Rows(c.x[..], v, u, j)
    {
      var y := b.x[j];
      ghost var was := c.x[..];
      assert y == u[j];
      if y != 0 {
        AddRow(c.x, j, a, y);
        RowsNext(was, c.x[..], v, u, j);
      } else {
        RowsSkip(was, v, u, j);
      }
      j := j + 1;
    }
    RowsDone(c.x[..], v, u);
    assert c.x[..][..wc] == c.x[..wc];
    Trim(c, wc);
  }

  // cmp

  method Cmp(a: Bigint, b: Bigint) returns (r: int)
    requires a.Valid() && b.Valid() && (a.wds > 0 || b.wds > 0)
    ensures a.Value() > 0 || b.Value() > 0 || a.wds == b.wds ==>
              (r < 0 <==> a.Value() < b.Value()) && (r > 0 <==> a.Value() > b.Value())
  {
    hide Val;
    hide Exp;
    ghost var s, t := a.x[..a.wds], b.x[..b.wds];
    if a.wds != b.wds {
      if a.wds > b.wds { MoreWords(s, t); } else { MoreWords(t, s); }
      return a.wds - b.wds;
    }
    var j := a.wds;
    while j > 0
      invariant 0 <= j <= a.wds
      invariant forall i :: j <= i < a.wds ==> s[i] == t[i]
    {
      j := j - 1;
      if a.x[j] != b.x[j] {
        assert a.x[j] == s[j] && b.x[j] == t[j];
        if s[j] < t[j] { CompareAt(s, t, j); } else { CompareAt(t, s, j); }
        return if a.x[j] < b.x[j] then -1 else 1;
      }
    }
    assert s == t;
    return 0;
  }

  lemma MoreWords(s: seq<Word>, t: seq<Word>)
    requires Normal(s) && Normal(t) && |s| > |t|
    ensures Val(s) > Val(t) || (Val(s) == 0 && Val(t) == 0)
  {
    ValBound(t);
    if |s| == 1 {
      ValStart();
      assert t == [];
    } else {
      ValTop(s);
      ExpMono(BASE, |t|, |s| - 1);
      Scale(Exp(BASE, |s| - 1), 1, s[|s| - 1]);
    }
  }

  // lshift

  /** Words of `u` shifted left by 32 n + r bits: `i` are done, `z` are the bits left over. */
  ghost predicate Shifting(x: seq<Word>, u: seq<Word>, n: nat, r: nat, i: nat, z: nat) {
    && i <= |u| && n + i <= |x| && z < Exp(2, r)
    && Carried(x, n + i, z) == Val(u[..i]) * (Exp(BASE, n) * Exp(2, r))
  }

  lemma ShiftingStart(x: seq<Word>, u: seq<Word>, n: nat, r: nat)
    requires n <= |x| && forall j :: 0 <= j < n ==> x[j] == 0
    ensures Shifting(x, u, n, r, 0, 0)
  {
    ValStart();
    ValZeros(n, x[..n]);
    ExpPos(2, r);
  }

  /** The two parts of a shifted word do not overlap, so that `or` is addition. */
  lemma ShiftWord(w: Word, r: nat, z: nat)
    requires r < 32 && z < Exp(2, r)
    ensures var y := w * Exp(2, r) + z;
            && Exp(2, 32 - r) > 0 && w * Exp(2, r) % BASE + z == y % BASE
            && w / Exp(2, 32 - r) == y / BASE < Exp(2, r) <= BASE
  {
    var p, q := Exp(2, r), Exp(2, 32 - r);
    ExpAdd(2, r, 32 - r);
    BaseIsBits(1);
    assert Exp(BASE, 1) == BASE;
    ExpPos(2, r);
    ExpPos(2, 32 - r);
    hide Exp;
    ShiftInts(w, p, q, z);
  }

  lemma ShiftInts(w: nat, p: nat, q: nat, z: nat)
    requires p > 0 && q > 0 && p * q == BASE && w < BASE && z < p
    ensures w * p % BASE + z == (w * p + z) % BASE
    ensures w / q == (w * p + z) / BASE < p <= BASE
  {
    var hi, m := w / q, w % q;
    SplitProduct(w, hi, m, p, q);
    BelowProduct(m, p, q);
    Quotient(w * p, BASE, hi, m * p);
    Quotient(w * p + z, BASE, hi, m * p + z);
    QuotientBound(w, p, q);
    Scale(p, 1, q);
  }

  lemma SplitProduct(w: nat, hi: nat, m: nat, p: nat, q: nat)
    requires w == q * hi + m
    ensures w * p == p * q * hi + m * p
  {
    assert (q * hi + m) * p == q * hi * p + m * p;
    MulAssoc(p, q, hi);
    Commute(p, q * hi);
  }

  lemma BelowProduct(m: nat, p: nat, q: nat)
    requires m < q
    ensures 0 <= m * p <= p * q - p
  {
    Scale(p, m + 1, q);
    assert (m + 1) * p == m * p + p;
    Commute(p, q);
  }

  lemma QuotientBound(w: nat, p: nat, q: nat)
    requires q > 0 && w < p * q
    ensures w / q < p
  {
    var hi := w / q;
    assert w >= q * hi;
    if hi >= p { Scale(q, p, hi); }
  }

  lemma ShiftingNext(x: seq<Word>, u: seq<Word>, n: nat, r: nat, i: nat, z: nat)
    requires Shifting(x, u, n, r, i, z) && i < |u| && n + i < |x| && r < 32
    ensures Exp(2, 32 - r) > 0
    ensures var w := u[i] * Exp(2, r) % BASE + z;
            0 <= w < BASE && Shifting(x[n + i := w], u, n, r, i + 1, u[i] / Exp(2, 32 - r))
  {
    hide Val;
    hide Exp;
    hide Carried;
    hide Shifting;
    ShiftingIs(x, u, n, r, i, z);
    ShiftWord(u[i], r, z);
    ShiftingCarried(x, u, n, r, i, z, u[i] * Exp(2, r));
    assert n + i + 1 == n + (i + 1);
    var w := (u[i] * Exp(2, r) + z) % BASE;
    ShiftingIs(x[n + i := w], u, n, r, i + 1, u[i] / Exp(2, 32 - r));
  }

  lemma ShiftingIs(x: seq<Word>, u: seq<Word>, n: nat, r: nat, i: nat, z: nat)
    ensures Shifting(x, u, n, r, i, z) <==>
              && i <= |u| && n + i <= |x| && z < Exp(2, r)
              && Carried(x, n + i, z) == Val(u[..i]) * (Exp(BASE, n) * Exp(2, r))
  {
  }

  lemma ShiftingCarried(x: seq<Word>, u: seq<Word>, n: nat, r: nat, i: nat, z: nat, a: nat)
    requires i < |u| && n + i < |x| && Carried(x, n + i, z) == Val(u[..i]) * (Exp(BASE, n) * Exp(2, r))
    requires a == u[i] * Exp(2, r) && (a + z) / BASE < BASE
    ensures Carried(x[n + i := (a + z) % BASE], n + i + 1, (a + z) / BASE) ==
              Val(u[..i + 1]) * (Exp(BASE, n) * Exp(2, r))
  {
    hide *;
    CarriedNext(x, n + i, a + z);
    CarriedMore(x, n + i, z, a);
    ShiftedSum(u, i, n, Exp(2, r));
  }

  lemma ShiftedSum(u: seq<Word>, i: nat, n: nat, g: nat)
    requires i < |u|
    ensures Val(u[..i + 1]) * (Exp(BASE, n) * g) == Val(u[..i]) * (Exp(BASE, n) * g) + u[i] * g * Exp(BASE, n + i)
  {
    ValNext(u, i);
    ExpAdd(BASE, n, i);
    var v, w, e, f := Val(u[..i]), u[i], Exp(BASE, n), Exp(BASE, i);
    hide Val;
    hide Exp;
    ShiftRow(v, w, e, f, g);
  }

  lemma ShiftRow(v: nat, w: nat, e: nat, f: nat, g: nat)
    ensures v * (e * g) + w * g * (e * f) == (v + w * f) * (e * g)
  {
    Interchange(w, f, g, e);
    Commute(f, e);
    Commute(g, e);
    assert (v + w * f) * (e * g) == v * (e * g) + w * f * (e * g);
  }

  lemma ShiftingDone(x: seq<Word>, u: seq<Word>, n: nat, r: nat, z: Word)
    requires Shifting(x, u, n, r, |u|, z) && n + |u| < |x|
    ensures var k := 32 * n + r;
            && Val(x[n + |u| := z][..n + |u| + 1]) == Val(u) * Exp(2, k)
            && (z == 0 ==> Val(x[n + |u| := z][..n + |u|]) == Val(u) * Exp(2, k))
  {
    hide Val;
    hide Exp;
    CarriedLast(x, n + |u|, z);
    CarriedNone(x, n + |u|);
    hide Carried;
    assert u[..|u|] == u && x[n + |u| := z][..n + |u|] == x[..n + |u|];
    BaseIsBits(n);
    ExpAdd(2, 32 * n, r);
  }

  /** Shifting a normal number keeps its top word from becoming zero. */
  lemma ShiftedNormal(s: seq<Word>, u: seq<Word>, k: nat)
    requires u != [] && u[|u| - 1] != 0 && s != []
    requires Val(s) == Val(u) * Exp(2, k) && |s| == k / 32 + |u|
    ensures s[|s| - 1] != 0
  {
    ValTop(u);
    ValTop(s);
    var p, n := Exp(BASE, |u| - 1), k / 32;
    Scale(p, 1, u[|u| - 1]);
    ExpMono(2, 32 * n, k);
    BaseIsBits(n);
    ExpAdd(BASE, |u| - 1, n);
    ExpPos(2, k);
    Scale(Exp(2, k), p, Val(u));
    Scale(p, Exp(BASE, n), Exp(2, k));
    assert |s| - 1 == |u| - 1 + n;
  }

  /** Shifts left by k bits. A zero stays zero, but may get leading zero words. */
  method LShift(b: Bigint, k: nat) returns (b1: Bigint)
    requires b.Valid() && b.wds > 0
    ensures fresh(b1) && fresh(b1.x) && b1.Shape() && b1.wds > 0
    ensures b1.Value() == b.Value() * Exp(2, k)
    ensures b.Value() > 0 ==> b1.Valid()
  {
    hide Val;
    hide Exp;
    hide Shifting;
    var n, wds, r, k1 := k / 32, b.wds, k % 32, b.k;
    var n1 := n + wds + 1;
    var size := b.x.Length;
    while n1 > size
      invariant size == Exp(2, k1) && size > 0
      decreases n1 - size
    {
      ExpNext(k1);
      size := size * 2;
      k1 := k1 + 1;
    }
    b1 := new Bigint(k1);
    forall j | 0 <= j < n { b1.x[j] := 0; }
    if r > 0 {
      var z := ShiftWords(b, b1.x, n, r);
      if z != 0 { n1 := n1 + 1; }
    } else {
      CopyWords(b, b1.x, n);
    }
    b1.wds := n1 - 1;
    ghost var s, u := b1.x[..n1 - 1], b.x[..wds];
    assert Val(s) == Val(u) * Exp(2, k) && 32 * n + r == k;
    if s[|s| - 1] == 0 && |s| > 1 { ShiftedTopIsZero(s, u, k); }
  }

  /** The loop of lshift for r > 0: the last z is left over for the word above. */
  method ShiftWords(b: Bigint, x1: array<Word>, n: nat, r: nat) returns (z: Word)
    requires b.Shape() && b.wds > 0 && b.x != x1 && n + b.wds < x1.Length && 0 < r < 32
    requires forall j :: 0 <= j < n ==> x1[j] == 0
    modifies x1
    ensures var k, w := 32 * n + r, n + b.wds;
            && Val(x1[..w + 1]) == b.Value() * Exp(2, k) && x1[w] == z
            && (z == 0 ==> Val(x1[..w]) == b.Value() * Exp(2, k))
  {
    hide Val;
    hide Exp;
    hide Shifting;
    ghost var u := b.x[..b.wds];
    ShiftingStart(x1[..], u, n, r);
    var i := 0;
    z := 0;
    while i == 0 || i < b.wds
      invariant i <= b.wds && b.x[..b.wds] == u && Shifting(x1[..], u, n, r, i, z)
      decreases b.wds - i
    {
      ShiftingNext(x1[..], u, n, r, i, z);
      assert b.x[i] == u[i];
      ghost var next := x1[..][n + i := b.x[i] * Exp(2, r) % BASE + z];
      x1[n + i] := b.x[i] * Exp(2, r) % BASE + z;
      assert x1[..] == next;
      z := b.x[i] / Exp(2, 32 - r);
      i := i + 1;
    }
    ShiftingDone(x1[..], u, n, r, z);
    ghost var next := x1[..][n + i := z];
    x1[n + i] := z;
    assert x1[..] == next;
    assert x1[..][..n + i + 1] == x1[..n + i + 1] && x1[..][..n + i] == x1[..n + i];
  }

  /** The loop of lshift for whole words. */
  method CopyWords(b: Bigint, x1: array<Word>, n: nat)
    requires b.Shape() && b.wds > 0 && b.x != x1 && n + b.wds < x1.Length
    requires forall j :: 0 <= j < n ==> x1[j] == 0
    modifies x1
    ensures Val(x1[..n + b.wds]) == b.Value() * Exp(2, 32 * n)
  {
    hide Val;
    hide Exp;
    hide Shifting;
    ghost var u := b.x[..b.wds];
    ShiftingStart(x1[..], u, n, 0);
    var i := 0;
    while i == 0 || i < b.wds
      invariant i <= b.wds && b.x[..b.wds] == u && Shifting(x1[..], u, n, 0, i, 0)
      decreases b.wds - i
    {
      ShiftingNext(x1[..], u, n, 0, i, 0);
      WordUnshifted(u[i]);
      ghost var next := x1[..][n + i := b.x[i]];
      x1[n + i] := b.x[i];
      assert x1[..] == next;
      i := i + 1;
    }
    ShiftingDone(x1[..], u, n, 0, 0);
    assert x1[..][n + i := 0][..n + i] == x1[..n + i];
  }

  lemma WordUnshifted(w: Word)
    ensures Exp(2, 0) == 1 && Exp(2, 32) == BASE && w * Exp(2, 0) % BASE == w && w / Exp(2, 32) == 0
  {
    BaseIsBits(1);
    assert Exp(BASE, 1) == BASE;
  }

  lemma ShiftedTopIsZero(s: seq<Word>, u: seq<Word>, k: nat)
    requires u != [] && Normal(u) && |s| > 1 && s[|s| - 1] == 0 && |s| == k / 32 + |u|
    requires Val(s) == Val(u) * Exp(2, k)
    ensures Val(u) == 0
  {
    if u[|u| - 1] != 0 {
      ShiftedNormal(s, u, k);
    } else {
      assert u == [0];
      ValStart();
      ValSnoc([], 0);
    }
  }
}
