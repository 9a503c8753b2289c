/** Numbers as little-endian words of 32 bits, and the powers that their laws need. */
module BigWords {
  import opened Arith

  const BASE := 0x1_0000_0000

  type Word = i: int | 0 <= i < 0x1_0000_0000

  function Exp(b: nat, n: nat): nat { if n == 0 then 1 else b * Exp(b, n - 1) }

  /** The number that the words stand for. */
  function Val(s: seq<Word>): nat {
    if s == [] then 0 else Val(s[..|s| - 1]) + s[|s| - 1] * Exp(BASE, |s| - 1)
  }

  /** No leading zero word. */
  predicate Normal(s: seq<Word>) { |s| <= 1 || s[|s| - 1] != 0 }

  lemma {:induction false} ExpPos(b: nat, n: nat)
    requires b > 0
    ensures Exp(b, n) > 0
  {
    if n > 0 { ExpPos(b, n - 1); }
  }

  lemma {:induction false} ExpAdd(b: nat, m: nat, n: nat)
    ensures Exp(b, m + n) == Exp(b, m) * Exp(b, n)
  {
    if m > 0 {
      ExpAdd(b, m - 1, n);
      MulAssoc(b, Exp(b, m - 1), Exp(b, n));
    }
  }

  lemma {:induction false} ExpMul(b: nat, m: nat, n: nat)
    ensures Exp(Exp(b, m), n) == Exp(b, m * n)
  {
    if n > 0 {
      ExpMul(b, m, n - 1);
      ExpAdd(b, m, m * (n - 1));
      assert m + m * (n - 1) == m * n;
    }
  }

  lemma {:induction false} ExpOfProduct(b: nat, c: nat, n: nat)
    ensures Exp(b * c, n) == Exp(b, n) * Exp(c, n)
  {
    if n > 0 {
      ExpOfProduct(b, c, n - 1);
      var x, y := Exp(b, n - 1), Exp(c, n - 1);
      Interchange(b, c, x, y);
    }
  }

  lemma {:induction false} ExpMono(b: nat, m: nat, n: nat)
    requires b > 1 && m <= n
    ensures Exp(b, m) <= Exp(b, n)
  {
    if m < n {
      ExpMono(b, m, n - 1);
      ExpPos(b, n - 1);
      Scale(Exp(b, n - 1), 1, b);
    }
  }

  lemma {:induction false} BaseIsBits(n: nat)
    ensures Exp(BASE, n) == Exp(2, 32 * n)
  {
    ExpMul(2, 32, n);
    assert Exp(2, 32) == BASE by {
      assert Exp(2, 8) == 0x100;
      ExpAdd(2, 8, 8);
      ExpAdd(2, 16, 16);
    }
  }

  lemma ValSnoc(s: seq<Word>, w: Word)
    ensures Val(s + [w]) == Val(s) + w * Exp(BASE, |s|)
  {
    assert (s + [w])[..|s|] == s;
  }

  lemma {:induction false} ValBound(s: seq<Word>)
    ensures Val(s) < Exp(BASE, |s|)
  {
    if s != [] {
      ValBound(s[..|s| - 1]);
      var p: nat, w: int := Exp(BASE, |s| - 1), s[|s| - 1];
      Scale(p, w + 1, BASE);
      assert (w + 1) * p == w * p + p;
    }
  }

  /** The top word decides the size of a number. */
  lemma ValTop(s: seq<Word>)
    requires s != []
    ensures var t: int, p: int := s[|s| - 1], Exp(BASE, |s| - 1); t * p <= Val(s) < (t + 1) * p
  {
    ValBound(s[..|s| - 1]);
    var t: int, p: int := s[|s| - 1], Exp(BASE, |s| - 1);
    assert (t + 1) * p == t * p + p;
  }

  lemma {:induction false} ValZeros(n: nat, s: seq<Word>)
    requires |s| == n && forall i :: 0 <= i < n ==> s[i] == 0
    ensures Val(s) == 0
  {
    if n > 0 { ValZeros(n - 1, s[..n - 1]); }
  }

  /** A number below BASE^m has no more than m words. */
  lemma FewWords(s: seq<Word>, m: nat)
    requires Normal(s) && Val(s) < Exp(BASE, m) && m > 0
    ensures |s| <= m
  {
    if |s| > m {
      ValTop(s);
      ExpMono(BASE, m, |s| - 1);
      Scale(Exp(BASE, |s| - 1), 1, s[|s| - 1]);
    }
  }

  lemma ManyWords(s: seq<Word>, m: nat)
    requires Val(s) >= Exp(BASE, m)
    ensures |s| > m
  {
    ValBound(s);
    if |s| <= m { ExpMono(BASE, |s|, m); }
  }

  /** Two numbers with the same words from `i` up compare as their words below `i + 1` do. */
  lemma {:induction false} CompareAt(s: seq<Word>, t: seq<Word>, i: nat)
    requires |s| == |t| && i < |s| && s[i] < t[i]
    requires forall j :: i < j < |s| ==> s[j] == t[j]
    ensures Val(s) < Val(t)
  {
    var n := |s| - 1;
    if i < n {
      CompareAt(s[..n], t[..n], i);
    } else {
      ValTop(s);
      ValTop(t);
      Scale(Exp(BASE, n), s[n] + 1, t[n]);
    }
  }

  /** A zero word on top adds nothing. */
  lemma ValTrim(s: seq<Word>)
    requires s != [] && s[|s| - 1] == 0
    ensures Val(s[..|s| - 1]) == Val(s)
  {
  }

  lemma {:induction false} ValIsZero(s: seq<Word>)
    requires Normal(s) && Val(s) == 0
    ensures |s| == 0 || s == [0]
  {
    if s != [] {
      ValTop(s);
      ExpPos(BASE, |s| - 1);
      if s[|s| - 1] > 0 { Scale(Exp(BASE, |s| - 1), 1, s[|s| - 1]); }
    }
  }
}
