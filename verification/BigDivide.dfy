/** dtoa.c: differences of Bigints, and the quotient digit that decimal conversion needs. */
module BigDivide {
  import opened Arith
  import opened BigWords
  import opened Bigints

  /** The words below `n`, less a debt into word `n`. */
  ghost function Owed(c: seq<Word>, n: nat, debt: nat): int
    requires n <= |c|
  {
    Val(c[..n]) - debt * Exp(BASE, n)
  }

  lemma OwedNext(c: seq<Word>, n: nat, word: Word, debt: nat, debt': nat)
    requires n < |c|
    ensures Owed(c[n := word], n + 1, debt') == Owed(c, n, debt) + (word - debt' * BASE + debt) * Exp(BASE, n)
  {
    var c', p := c[n := word], Exp(BASE, n);
    ValNext(c', n);
    ExpNext(n);
    assert c'[..n] == c[..n];
    hide Val;
    hide Exp;
    DebtInts(word, debt, debt', p);
  }

  lemma DebtInts(word: int, debt: int, debt': int, p: int)
    ensures word * p - debt' * (BASE * p) == (word - debt' * BASE + debt) * p - debt * p
  {
    MulAssoc(debt', BASE, p);
    assert (word - debt' * BASE + debt) * p == word * p - debt' * BASE * p + debt * p;
  }

  /** The 64-bit wrap-around of a negative difference leaves the borrow in bit 32. */
  lemma BorrowBit(d: int)
    requires -BASE <= d < BASE
    ensures var y := d % WIDE;
            0 <= y % BASE < BASE && y % BASE - y / BASE % 2 * BASE == d && y / BASE % 2 <= 1
  {
  }

  /** The last debt is none when the true result is not negative. */
  lemma OwedDone(c: seq<Word>, n: nat, debt: nat)
    requires n <= |c| && 0 <= Owed(c, n, debt)
    ensures debt == 0 && Owed(c, n, debt) == Val(c[..n])
  {
    ValBound(c[..n]);
    var p := Exp(BASE, n);
    hide Val;
    hide Exp;
    if debt > 0 { Scale(p, 1, debt); }
  }

  // diff

  /** `i` words of the difference s - t are in `c`. */
  ghost predicate Differing(c: seq<Word>, s: seq<Word>, t: seq<Word>, i: nat, borrow: nat) {
    && i <= |s| && |s| <= |c| && borrow <= 1
    && Owed(c, i, borrow) == Val(s[..i]) - Val(if i < |t| then t[..i] else t)
  }

  lemma DifferingStart(c: seq<Word>, s: seq<Word>, t: seq<Word>)
    requires |s| <= |c|
    ensures Differing(c, s, t, 0, 0)
  {
    ValStart();
  }

  lemma DifferingNext(c: seq<Word>, s: seq<Word>, t: seq<Word>, i: nat, borrow: nat)
    requires Differing(c, s, t, i, borrow) && i < |s|
    ensures var y := (s[i] - (if i < |t| then t[i] else 0) - borrow) % WIDE;
            0 <= y % BASE < BASE && y / BASE >= 0 && Differing(c[i := y % BASE], s, t, i + 1, y / BASE % 2)
  {
    hide Val;
    hide Exp;
    hide Owed;
    var w := if i < |t| then t[i] else 0;
    var y := (s[i] - w - borrow) % WIDE;
    BorrowBit(s[i] - w - borrow);
    OwedNext(c, i, y % BASE, borrow, y / BASE % 2);
    ValNext(s, i);
    if i < |t| {
      ValNext(t, i);
      assert i + 1 == |t| ==> t[..i + 1] == t;
    }
    Apart(s[i], w, Exp(BASE, i));
  }

  lemma Apart(v: int, w: int, p: int)
    ensures (v - w) * p == v * p - w * p
  {
  }

  /** The absolute difference; the sign says whether a < b. */
  method Diff(a0: Bigint, b0: Bigint) returns (c: Bigint)
    requires a0.Valid() && b0.Valid() && a0.wds > 0 && b0.wds > 0
    ensures fresh(c) && fresh(c.x) && c.Valid()
    ensures c.sign <==> a0.Value() < b0.Value()
    ensures c.Value() == if c.sign then b0.Value() - a0.Value() else a0.Value() - b0.Value()
  {
    hide Val;
    hide Exp;
    var a, b := a0, b0;
    var i := Cmp(a, b);
    ZeroWords(a0.x[..a0.wds]);
    ZeroWords(b0.x[..b0.wds]);
    if i == 0 {
      ExpZero();
      c := new Bigint(0);
      c.wds := 1;
      c.x[0] := 0;
      ValZeros(1, c.x[..1]);
      return;
    }
    if i < 0 { a, b := b, a; }
    c := Subtract(a, b, i < 0);
  }

  lemma ExpZero()
    ensures Exp(2, 0) == 1
  {
  }

  lemma ZeroWords(s: seq<Word>)
    requires Normal(s) && |s| > 0
    ensures Val(s) == 0 ==> |s| == 1
  {
    if Val(s) == 0 { ValIsZero(s); }
  }

  /** The loops of diff, for a > b. */
  method Subtract(a: Bigint, b: Bigint, sign: bool) returns (c: Bigint)
    requires a.Valid() && b.Valid() && a.wds > 0 && b.wds > 0 && a.Value() > b.Value()
    ensures fresh(c) && fresh(c.x) && c.Valid() && c.sign == sign
    ensures c.Value() == a.Value() - b.Value()
  {
    hide Val;
    hide Exp;
    hide Differing;
    ghost var s, t := a.x[..a.wds], b.x[..b.wds];
    ghost var value := a.Value() - b.Value();
    FewerWords(s, t);
    c := new Bigint(a.k);
    c.sign := sign;
    var wa, wb, i: nat, borrow: nat := a.wds, b.wds, 0, 0;
    DifferingStart(c.x[..], s, t);
    while i == 0 || i < wb
      invariant i <= wb && a.x[..wa] == s && b.x[..wb] == t && Differing(c.x[..], s, t, i, borrow) && c.sign == sign
      modifies c.x
      decreases wb - i
    {
      DifferingNext(c.x[..], s, t, i, borrow);
      var y := (a.x[i] - b.x[i] - borrow) % WIDE;
      assert a.x[i] == s[i] && b.x[i] == t[i];
      ghost var next := c.x[..][i := y % BASE];
      borrow := y / BASE % 2;
      c.x[i] := y % BASE;
      assert c.x[..] == next;
      i := i + 1;
    }
    while i < wa
      invariant wb <= i <= wa && a.x[..wa] == s && Differing(c.x[..], s, t, i, borrow) && c.sign == sign
      modifies c.x
    {
      DifferingNext(c.x[..], s, t, i, borrow);
      var y := (a.x[i] - borrow) % WIDE;
      assert a.x[i] == s[i];
      ghost var next := c.x[..][i := y % BASE];
      borrow := y / BASE % 2;
      c.x[i] := y % BASE;
      assert c.x[..] == next;
      i := i + 1;
    }
    DifferingDone(c.x[..], s, t, borrow);
    assert c.x[..][..wa] == c.x[..wa];
    while c.x[wa - 1] == 0
      invariant 0 < wa <= c.x.Length && Val(c.x[..wa]) == value && c.sign == sign
      decreases wa
    {
      ValTrim(c.x[..wa]);
      assert c.x[..wa][..wa - 1] == c.x[..wa - 1];
      wa := wa - 1;
      NotEmpty(c.x[..wa]);
    }
    c.wds := wa;

  }

  lemma NotEmpty(s: seq<Word>)
    requires Val(s) > 0
    ensures |s| > 0
  {
  }

  lemma FewerWords(s: seq<Word>, t: seq<Word>)
    requires Normal(s) && Normal(t) && Val(s) > Val(t)
    ensures |s| >= |t|
  {
    if |s| < |t| { MoreWords(t, s); }
  }

  lemma DifferingDone(c: seq<Word>, s: seq<Word>, t: seq<Word>, borrow: nat)
    requires Differing(c, s, t, |s|, borrow) && |t| <= |s| && Val(s) >= Val(t)
    ensures Val(c[..|s|]) == Val(s) - Val(t)
  {
    assert s[..|s|] == s && t[..|t|] == t;
    OwedDone(c, |s|, borrow);
  }

  // quorem

  /** `i` words of b - q * S are in `c`. */
  ghost predicate Reducing(c: seq<Word>, b: seq<Word>, s: seq<Word>, q: nat, i: nat, debt: nat) {
    && i <= |s| && |s| <= |b| == |c| && c[i..] == b[i..]
    && Owed(c, i, debt) == Val(b[..i]) - q * Val(s[..i])
  }

  lemma ReducingStart(b: seq<Word>, s: seq<Word>, q: nat)
    requires |s| <= |b|
    ensures Reducing(b, b, s, q, 0, 0)
  {
    ValStart();
  }

  lemma ReducingNext(c: seq<Word>, b: seq<Word>, s: seq<Word>, q: nat, i: nat, carry: nat, borrow: nat)
    requires Reducing(c, b, s, q, i, carry + borrow) && i < |s| && q < BASE && carry < BASE && borrow <= 1
    ensures var ys := s[i] * q + carry;
            0 <= ys < WIDE && 0 <= ys / BASE < BASE &&
            var y := (c[i] - ys % BASE - borrow) % WIDE;
            0 <= y % BASE < BASE && 0 <= y / BASE % 2 <= 1
            && Reducing(c[i := y % BASE], b, s, q, i + 1, ys / BASE + y / BASE % 2)
  {
    hide Val;
    hide Exp;
    hide Owed;
    RowBound(s[i], q, carry);
    var ys := s[i] * q + carry;
    var d := c[i] - ys % BASE - borrow;
    var y := d % WIDE;
    BorrowBit(d);
    var c' := c[i := y % BASE];
    assert c[i] == c[i..][0] == b[i..][0] == b[i];
    assert c'[i + 1..] == c[i..][1..] == b[i..][1..] == b[i + 1..];
    OwedNext(c, i, y % BASE, carry + borrow, ys / BASE + y / BASE % 2);
    ValNext(b, i);
    ReducingSum(s, i, q);
    Apart(b[i], s[i] * q, Exp(BASE, i));
  }

  lemma RowBound(w: Word, q: nat, carry: nat)
    requires q < BASE && carry < BASE
    ensures 0 <= w * q + carry < WIDE && 0 <= (w * q + carry) / BASE < BASE
  {
    var qw: Word, cw: Word := q, carry;
    MultBound(w, qw, 0, cw);
  }

  lemma ReducingSum(s: seq<Word>, i: nat, q: nat)
    requires i < |s|
    ensures q * Val(s[..i + 1]) == q * Val(s[..i]) + s[i] * q * Exp(BASE, i)
  {
    AddingSum(s, i, q);
  }

  lemma ReducingDone(c: seq<Word>, b: seq<Word>, s: seq<Word>, q: nat, debt: nat)
    requires Reducing(c, b, s, q, |s|, debt) && q * Val(s) <= Val(b[..|s|])
    ensures Val(c[..|s|]) == Val(b[..|s|]) - q * Val(s)
  {
    assert s[..|s|] == s;
    OwedDone(c, |s|, debt);
  }

  /** Both loops of quorem: b := b - q * S, for q * S <= b. */
  method Reduce(b: Bigint, S: Bigint, q: nat)
    requires b.Shape() && S.Valid() && b != S && b.x != S.x && b.wds == S.wds > 0
    requires q < BASE && q * S.Value() <= b.Value()
    modifies b.x
    ensures b.Shape() && b.Value() == old(b.Value()) - q * S.Value()
  {
    hide Val;
    hide Exp;
    hide Reducing;
    ghost var u, s := b.x[..], S.x[..S.wds];
    var i, carry, borrow := 0, 0, 0;
    ReducingStart(u, s, q);
    while i == 0 || i < S.wds
      invariant i <= S.wds == |s| && S.x[..S.wds] == s && 0 <= carry < BASE && 0 <= borrow <= 1
      invariant Reducing(b.x[..], u, s, q, i, carry + borrow)
      decreases S.wds - i
    {
      ReducingNext(b.x[..], u, s, q, i, carry, borrow);
      assert S.x[i] == s[i];
      var ys := S.x[i] * q + carry;
      carry := ys / BASE;
      var y := (b.x[i] - ys % BASE - borrow) % WIDE;
      borrow := y / BASE % 2;
      ghost var next := b.x[..][i := y % BASE];
      b.x[i] := y % BASE;
      assert b.x[..] == next;
      i := i + 1;
    }
    assert u[..|s|] == old(b.x[..b.wds]);
    ReducingDone(b.x[..], u, s, q, carry + borrow);
    assert b.x[..][..|s|] == b.x[..b.wds];
  }
}
