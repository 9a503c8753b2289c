/** dtoa.c: hi0bits, dshift and quorem: one quotient digit from the top words alone. */
module Quorem {
  import opened Arith
  import opened BigWords
  import opened Bigints
  import opened BigDivide

  /** The divisor is aligned: four leading zero bits in its top word. */
  ghost predicate Aligned(s: seq<Word>) { s != [] && 0x800_0000 <= s[|s| - 1] < 0x1000_0000 }

  /** A word with `k` leading zero bits. */
  ghost predicate Leading(w: Word, k: nat) { k <= 31 && Exp(2, 31 - k) <= w < Exp(2, 32 - k) }

  lemma LeadingIs(w: Word, k: nat)
    requires k <= 31 && 0x8000_0000 <= w * Exp(2, k) < BASE
    ensures Leading(w, k)
  {
    BaseIsBits(1);
    assert Exp(BASE, 1) == BASE && Exp(2, 32) == 2 * Exp(2, 31);
    ExpAdd(2, 31 - k, k);
    ExpAdd(2, 32 - k, k);
    ExpPos(2, k);
    var p, wn: nat := Exp(2, k), w;
    if wn < Exp(2, 31 - k) { Scale(p, wn + 1, Exp(2, 31 - k)); Distribute(wn, p); }
    if wn >= Exp(2, 32 - k) { Scale(p, Exp(2, 32 - k), wn); }
  }

  lemma Distribute(w: int, p: int)
    ensures (w + 1) * p == w * p + p
  {
  }

  /** `x` is the word shifted left by `k` bits, none of them lost. */
  ghost predicate Shifted(x: nat, w: Word, k: nat) { x == w * Exp(2, k) }

  lemma ShiftMore(x: nat, w: Word, k: nat, j: nat)
    requires Shifted(x, w, k)
    ensures Shifted(x * Exp(2, j), w, k + j)
  {
    ExpAdd(2, k, j);
    MulAssoc(w, Exp(2, k), Exp(2, j));
  }

  lemma ShiftSizes()
    ensures Exp(2, 0) == 1 && Exp(2, 1) == 2 && Exp(2, 2) == 4 && Exp(2, 4) == 0x10
    ensures Exp(2, 8) == 0x100 && Exp(2, 16) == 0x1_0000
  {
    assert Exp(2, 4) == 16;
    ExpAdd(2, 4, 4);
    ExpAdd(2, 8, 8);
  }

  lemma TopBit(x: nat, w: Word, k: nat)
    requires Shifted(x, w, k) && k <= 31 && 0x8000_0000 <= x < BASE
    ensures w != 0 && Leading(w, k)
  {
    LeadingIs(w, k);
  }

  lemma FullShift(x: nat, w: Word)
    requires Shifted(x, w, 31) && x < 0x8000_0000
    ensures w == 0
  {
    BaseIsBits(1);
    assert Exp(BASE, 1) == BASE && Exp(2, 32) == 2 * Exp(2, 31);
    if w > 0 { Scale(Exp(2, 31), 1, w); }
  }

  /** The number of leading zero bits of a word. */
  method Hi0Bits(w: Word) returns (k: nat)
    ensures if w == 0 then k == 32 else Leading(w, k)
  {
    ShiftSizes();
    assert Shifted(w, w, 0);
    hide Leading;
    hide Exp;
    hide Shifted;
    var x: nat := w;
    k := 0;
    if x < 0x1_0000 { ShiftMore(x, w, k, 16); k := 16; x := x * 0x1_0000; }
    if x < 0x100_0000 { ShiftMore(x, w, k, 8); k := k + 8; x := x * 0x100; }
    if x < 0x1000_0000 { ShiftMore(x, w, k, 4); k := k + 4; x := x * 0x10; }
    if x < 0x4000_0000 { ShiftMore(x, w, k, 2); k := k + 2; x := x * 4; }
    if x < 0x8000_0000 {
      ShiftMore(x, w, k, 1);
      k := k + 1;
      if x < 0x4000_0000 {
        FullShift(x * 2, w);
        return 32;
      }
      x := x * 2;
    }
    TopBit(x, w, k);
  }

  /** The left shift that, after a shift by p2 bits, aligns b. */
  method DShift(b: Bigint, p2: nat) returns (r: nat)
    requires b.Valid() && b.Value() > 0
    ensures r < 32 && Aligns(b.x[..b.wds], p2 + r)
  {
    hide Val;
    hide Exp;
    TopIsPositive(b.x[..b.wds]);
    var h := Hi0Bits(b.x[b.wds - 1]);
    var rv: int := h as int - 4;
    if p2 > 0 { rv := rv - p2; }
    r := rv % 32;
    ShiftAligns(b.x[..b.wds], h, p2 + r);
  }

  /** Shifted left by k bits, the number is aligned. */
  ghost predicate Aligns(s: seq<Word>, k: nat) {
    forall t: seq<Word> :: Normal(t) && Val(t) == Val(s) * Exp(2, k) ==> Aligned(t)
  }

  lemma TopIsPositive(s: seq<Word>)
    requires Normal(s) && Val(s) > 0
    ensures s != [] && s[|s| - 1] > 0
  {
    if |s| == 1 { assert s == [] + [s[0]]; ValSnoc([], s[0]); ValStart(); }
    if s == [] { ValStart(); }
  }

  lemma ShiftAligns(s: seq<Word>, h: nat, k: nat)
    requires s != [] && Leading(s[|s| - 1], h) && (k + 4 - h) % 32 == 0
    ensures Aligns(s, k)
  {
    var n := |s| - 1 + (k + 4 - h) / 32;
    forall t: seq<Word> | Normal(t) && Val(t) == Val(s) * Exp(2, k) ensures Aligned(t) {
      SizeAfterShift(s, h, k, n);
      TopFromValue(t, n);
    }
  }

  lemma SizeAfterShift(s: seq<Word>, h: nat, k: nat, n: nat)
    requires s != [] && Leading(s[|s| - 1], h) && k + 4 - h == 32 * (n - (|s| - 1))
    ensures Exp(2, 32 * n + 27) <= Val(s) * Exp(2, k) < Exp(2, 32 * n + 28)
  {
    var m, t: nat := |s| - 1, s[|s| - 1];
    var p, e := Exp(BASE, m), Exp(2, k);
    ValTop(s);
    BaseIsBits(m);
    ExpPos(2, k);
    // t * p <= Val(s) < (t + 1) * p with 2^(31-h) <= t and t + 1 <= 2^(32-h)
    Scale(p, Exp(2, 31 - h), t);
    Scale(p, t + 1, Exp(2, 32 - h));
    ExpAdd(2, 31 - h, 32 * m);
    ExpAdd(2, 32 - h, 32 * m);
    assert Exp(2, 31 - h + 32 * m) <= Val(s) < Exp(2, 32 - h + 32 * m);
    Scale(e, Exp(2, 31 - h + 32 * m), Val(s));
    Scale(e, Val(s) + 1, Exp(2, 32 - h + 32 * m));
    Distribute(Val(s), e);
    ExpAdd(2, 31 - h + 32 * m, k);
    ExpAdd(2, 32 - h + 32 * m, k);
    assert 31 - h + 32 * m + k == 32 * n + 27;
  }

  lemma TopFromValue(t: seq<Word>, n: nat)
    requires Normal(t) && Exp(2, 32 * n + 27) <= Val(t) < Exp(2, 32 * n + 28)
    ensures Aligned(t)
  {
    var p := Exp(BASE, n);
    BaseIsBits(n);
    ExpAdd(2, 32 * n, 27);
    ExpAdd(2, 32 * n, 28);
    PowersOfTwo();
    ExpNext(n);
    ExpPos(BASE, n);
    hide Val;
    hide Exp;
    Scale(p, 1, 0x800_0000);
    Scale(p, 0x1000_0000, BASE);
    ManyWords(t, n);
    FewWords(t, n + 1);
    ValTop(t);
    var top: nat := t[n];
    if top < 0x800_0000 { Scale(p, top + 1, 0x800_0000); }
    if top >= 0x1000_0000 { Scale(p, 0x1000_0000, top); }
  }

  lemma PowersOfTwo()
    ensures Exp(2, 27) == 0x800_0000 && Exp(2, 28) == 0x1000_0000
  {
    assert Exp(2, 7) == 128;
    assert Exp(2, 10) == 1024;
    ExpAdd(2, 10, 10);
    ExpAdd(2, 7, 20);
    assert Exp(2, 28) == 2 * Exp(2, 27);
  }

  /** The estimate from the top words is the quotient or one less. */
  lemma Estimate(b: nat, s: nat, bt: nat, st: nat, p: nat)
    requires p > 0 && bt * p <= b < (bt + 1) * p && st * p <= s < (st + 1) * p
    requires st >= 16 && b < 16 * s
    ensures var q := bt / (st + 1); q <= 15 && q * s <= b < (q + 2) * s
  {
    var q := bt / (st + 1);
    assert q * (st + 1) <= bt < (q + 1) * (st + 1) by { Division(bt, st + 1); }
    // q * s <= q * (st + 1) * p <= bt * p <= b
    Scale(q, s, (st + 1) * p);
    MulAssoc(q, st + 1, p);
    Scale(p, q * (st + 1), bt);
    Commute(s, q);
    assert q * s <= b;
    if q >= 16 { Scale(s, 16, q); assert false; }
    // b < (bt + 1) * p <= (q + 2) * st * p <= (q + 2) * s
    assert (q + 1) * (st + 1) <= (q + 2) * st by { assert (q + 1) * (st + 1) == (q + 2) * st + (q + 1) - st; }
    Scale(p, bt + 1, (q + 2) * st);
    MulAssoc(q + 2, st, p);
    Scale(q + 2, st * p, s);
  }

  lemma Division(x: nat, d: nat)
    requires d > 0
    ensures x / d * d <= x < (x / d + 1) * d
  {
    assert x == d * (x / d) + x % d;
    Commute(d, x / d);
  }

  /** The remainder after q or q + 1 times the divisor was taken away. */
  lemma QuotientIs(b: nat, s: nat, q: nat, r: nat)
    requires s > 0 && b == q * s + r && r < s
    ensures q == b / s && r == b % s
  {
    Commute(q, s);
    Quotient(b, s, q, r);
  }

  /** The words below `n` that are zero on top are left out, when word `n` is zero as well.
      A zero number keeps one word, or none if it had only one. */
  method TrimTop(b: Bigint)
    requires b.Shape() && b.wds > 0
    modifies b`wds
    ensures b.Valid() && b.Value() == old(b.Value())
  {
    hide Val;
    hide Exp;
    var n := b.wds - 1;
    ghost var v := b.Value();
    if b.x[n] == 0 {
      ValTrim(b.x[..n + 1]);
      assert b.x[..n + 1][..n] == b.x[..n];
      var bxe := n - 1;
      while bxe > 0 && b.x[bxe] == 0
        invariant bxe == n - 1 && n < b.wds && Val(b.x[..n]) == v && (n == 0 ==> b.x[0] == 0)
      {
        ValTrim(b.x[..n]);
        assert b.x[..n][..n - 1] == b.x[..n - 1];
        n := n - 1;
        bxe := bxe - 1;
      }
      b.wds := n;
    }
  }

  /** `q` is the quotient v / d or one less. */
  ghost predicate Estimates(q: nat, v: nat, d: nat) { q <= 15 && q * d <= v < (q + 2) * d }

  /** What is left of v after q times d: a correction by one may be due. */
  ghost predicate OneShort(q: nat, v: nat, d: nat, r: nat) {
    && d > 0 && r < 2 * d
    && (r < d ==> q == v / d && r == v % d)
    && (r >= d ==> q + 1 == v / d && r - d == v % d)
  }

  lemma EstimateRest(q: nat, v: nat, d: nat)
    requires Estimates(q, v, d) && d > 0
    ensures q <= 15 && q * d <= v && OneShort(q, v, d, v - q * d)
  {
    assert (q + 2) * d == q * d + 2 * d && (q + 1) * d == q * d + d;
    if v - q * d < d { QuotientIs(v, d, q, v - q * d); } else { QuotientIs(v, d, q + 1, v - q * d - d); }
  }

  /** One quotient digit: b := b mod S. */
  method QuoRem(b: Bigint, S: Bigint) returns (q: nat)
    requires b.Valid() && S.Valid() && b != S && b.x != S.x
    requires Aligned(S.x[..S.wds]) && b.Value() < 16 * S.Value()
    modifies b, b.x
    ensures b.Valid() && S.Value() > 0
    ensures q == old(b.Value()) / S.Value() && b.Value() == old(b.Value()) % S.Value()
  {
    hide Val;
    hide Exp;
    hide EstimatedWell;
    ghost var v, d := b.Value(), S.Value();
    Sizes(b.x[..b.wds], S.x[..S.wds]);
    if b.wds < S.wds {
      QuotientIs(v, d, 0, v);
      return 0;
    }
    EstimateWords(b.x[..b.wds], S.x[..S.wds]);
    hide Aligned;
    q := EstimatedStep(b, S);
    ghost var r := b.Value();
    var c := Cmp(b, S);
    if c >= 0 {
      SameWords(b.x[..b.wds], S.x[..S.wds], d);
      Reduce(b, S, 1);
      TrimTop(b);
      q := q + 1;
    }
  }

  /** The first half of quorem: takes the estimated multiple of S away. */
  method EstimatedStep(b: Bigint, S: Bigint) returns (q: nat)
    requires b.Valid() && S.Valid() && b != S && b.x != S.x && b.wds == S.wds > 0
    requires S.Value() > 0 && EstimatedWell(b.x[..b.wds], S.x[..S.wds])
    modifies b, b.x
    ensures b.Valid() && q <= 15 && OneShort(q, old(b.Value()), S.Value(), b.Value())
  {
    hide Val;
    hide Exp;
    var n := S.wds - 1;
    q := b.x[n] / (S.x[n] as int + 1);
    EstimateRest(q, b.Value(), S.Value());
    if q > 0 {
      Reduce(b, S, q);
      TrimTop(b);
    }
  }

  ghost predicate EstimatedWell(b: seq<Word>, s: seq<Word>)
    requires |b| == |s| > 0
  {
    Estimates(b[|s| - 1] / (s[|s| - 1] as int + 1), Val(b), Val(s))
  }

  lemma Sizes(b: seq<Word>, s: seq<Word>)
    requires Normal(b) && Normal(s) && Aligned(s) && Val(b) < 16 * Val(s)
    ensures |b| <= |s| && Val(s) > 0
    ensures |b| < |s| ==> Val(b) < Val(s)
  {
    var n := |s| - 1;
    var p := Exp(BASE, n);
    ValTop(s);
    ExpPos(BASE, n);
    ExpNext(n);
    if |b| < |s| { MoreWords(s, b); }
    hide Val;
    hide Exp;
    var st: nat := s[n];
    Scale(p, 1, st);
    Scale(p, 16 * (st + 1), BASE);
    MulAssoc(16, st + 1, p);
    FewWords(b, |s|);
  }

  lemma EstimateWords(b: seq<Word>, s: seq<Word>)
    requires |b| == |s| && Aligned(s) && Val(b) < 16 * Val(s)
    ensures EstimatedWell(b, s)
  {
    hide Val;
    hide Exp;
    var n := |s| - 1;
    ValTop(s);
    ValTop(b);
    ExpPos(BASE, n);
    var st: nat, bt: nat := s[n], b[n];
    Estimate(Val(b), Val(s), bt, st, Exp(BASE, n));
  }

  lemma SameWords(b: seq<Word>, s: seq<Word>, d: nat)
    requires Normal(b) && Normal(s) && Aligned(s) && d == Val(s) && d <= Val(b) < 2 * d
    ensures |b| == |s|
  {
    Sizes(b, s);
  }
}
