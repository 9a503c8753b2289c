/** Grammars: what verifygrammar of lptree.c accepts, and why matching then ends. */
module PegGrammar {
  import opened PegTree
  import opened PegAnalysis

  /** verifyrule gives up when calls nest too deep without a character between them. */
  datatype Check = TooDeep | Passed(nb: bool)

  /** verifyrule, where `d` more rules fit into `passed`. */
  function VerifyRule(gr: Grammar, t: Tree, d: nat, nb: bool): Check
    decreases d, t
  {
    match t
    case TChar(_) => Passed(nb)
    case TSet(_) => Passed(nb)
    case TAny => Passed(nb)
    case TFalse => Passed(nb)
    case TTrue => Passed(true)
    case TBehind(_, _) => Passed(true)
    case TNot(p) => VerifyRule(gr, p, d, true)
    case TAnd(p) => VerifyRule(gr, p, d, true)
    case TRep(p) => VerifyRule(gr, p, d, true)
    case TSeq(p1, p2) =>
      var c := VerifyRule(gr, p1, d, false);
      if c.TooDeep? then TooDeep
      else if !c.nb then Passed(nb)
      else VerifyRule(gr, p2, d, nb)
    case TChoice(p1, p2) =>
      var c := VerifyRule(gr, p1, d, nb);
      if c.TooDeep? then TooDeep else VerifyRule(gr, p2, d, c.nb)
    case TCall(r) => if d == 0 || r >= |gr| then TooDeep else VerifyRule(gr, gr[r], d - 1, nb)
  }

  predicate RulesValid(gr: Grammar) { forall r :: 0 <= r < |gr| ==> Valid(gr, gr[r]) }

  /** What newgrammar and verifygrammar accept. */
  predicate Accepted(gr: Grammar) {
    && 0 < |gr| <= MAXRULES && RulesValid(gr)
    && forall r :: 0 <= r < |gr| ==> VerifyRule(gr, gr[r], MAXRULES, false).Passed?
  }

  /** The calls that `t` can make before it consumes a character nest at most d deep. */
  predicate LeftOk(gr: Grammar, t: Tree, d: nat)
    decreases d, t
  {
    match t
    case TNot(p) => LeftOk(gr, p, d)
    case TAnd(p) => LeftOk(gr, p, d)
    case TRep(p) => LeftOk(gr, p, d)
    case TSeq(p1, p2) => LeftOk(gr, p1, d) && (CheckAux(gr, p1, PEnullable, d) ==> LeftOk(gr, p2, d))
    case TChoice(p1, p2) => LeftOk(gr, p1, d) && LeftOk(gr, p2, d)
    case TCall(r) => d > 0 && r < |gr| && LeftOk(gr, gr[r], d - 1)
    case _ => true
  }

  /** verifyrule finds out just that, and whether `t` is nullable. */
  lemma {:induction false} VerifyRuleIs(gr: Grammar, t: Tree, d: nat, nb: bool)
    ensures var c := VerifyRule(gr, t, d, nb);
            && (c.Passed? <==> LeftOk(gr, t, d))
            && (c.Passed? ==> c.nb == (nb || CheckAux(gr, t, PEnullable, d)))
    decreases d, t
  {
    match t
    case TNot(p) => VerifyRuleIs(gr, p, d, true);
    case TAnd(p) => VerifyRuleIs(gr, p, d, true);
    case TRep(p) => VerifyRuleIs(gr, p, d, true);
    case TSeq(p1, p2) =>
      VerifyRuleIs(gr, p1, d, false);
      VerifyRuleIs(gr, p2, d, nb);
    case TChoice(p1, p2) =>
      VerifyRuleIs(gr, p1, d, nb);
      VerifyRuleIs(gr, p2, d, nb || CheckAux(gr, p1, PEnullable, d));
    case TCall(r) => if d > 0 && r < |gr| { VerifyRuleIs(gr, gr[r], d - 1, nb); }
    case _ =>
  }

  /** Where calls do not nest too deep, more depth changes nothing. */
  lemma {:induction false} LeftMore(gr: Grammar, t: Tree, d: nat, d1: nat)
    requires LeftOk(gr, t, d) && d <= d1
    ensures LeftOk(gr, t, d1) && CheckAux(gr, t, PEnullable, d1) == CheckAux(gr, t, PEnullable, d)
    decreases d, t
  {
    match t
    case TNot(p) => LeftMore(gr, p, d, d1);
    case TAnd(p) => LeftMore(gr, p, d, d1);
    case TRep(p) => LeftMore(gr, p, d, d1);
    case TSeq(p1, p2) =>
      LeftMore(gr, p1, d, d1);
      if CheckAux(gr, p1, PEnullable, d) { LeftMore(gr, p2, d, d1); }
    case TChoice(p1, p2) =>
      LeftMore(gr, p1, d, d1);
      LeftMore(gr, p2, d, d1);
    case TCall(r) => LeftMore(gr, gr[r], d - 1, d1 - 1);
    case _ =>
  }

  /** In an accepted grammar every part of a rule is a start that does not nest too deep. */
  lemma {:induction false} LeftEverywhere(gr: Grammar, t: Tree)
    requires Accepted(gr) && Valid(gr, t)
    ensures LeftOk(gr, t, DEPTH)
  {
    match t
    case TNot(p) => LeftEverywhere(gr, p);
    case TAnd(p) => LeftEverywhere(gr, p);
    case TRep(p) => LeftEverywhere(gr, p);
    case TSeq(p1, p2) => LeftEverywhere(gr, p1); LeftEverywhere(gr, p2);
    case TChoice(p1, p2) => LeftEverywhere(gr, p1); LeftEverywhere(gr, p2);
    case TCall(r) => VerifyRuleIs(gr, gr[r], MAXRULES, false);
    case _ =>
  }

  /** Where calls do not nest too deep, the analyses do not depend on how many they follow. */
  lemma {:induction false} NofailMore(gr: Grammar, t: Tree, d: nat, d1: nat)
    requires LeftOk(gr, t, d) && d <= d1
    ensures CheckAux(gr, t, PEnofail, d1) == CheckAux(gr, t, PEnofail, d)
    decreases d, t
  {
    match t
    case TAnd(p) => NofailMore(gr, p, d, d1);
    case TSeq(p1, p2) =>
      NofailMore(gr, p1, d, d1);
      if CheckAux(gr, p1, PEnofail, d) {
        NofailFirst(gr, p1, d, d);
        NofailMore(gr, p2, d, d1);
      }
    case TChoice(p1, p2) =>
      NofailMore(gr, p1, d, d1);
      NofailMore(gr, p2, d, d1);
    case TCall(r) => NofailMore(gr, gr[r], d - 1, d1 - 1);
    case _ =>
  }

  lemma {:induction false} FirstMore(gr: Grammar, t: Tree, follow: Charset, d: nat, d1: nat)
    requires LeftOk(gr, t, d) && d <= d1 && d <= DEPTH
    ensures FirstTo(gr, t, follow, d1) == FirstTo(gr, t, follow, d)
    decreases d, t
  {
    match t
    case TAnd(p) => FirstMore(gr, p, follow, d, d1);
    case TRep(p) => FirstMore(gr, p, follow, d, d1);
    case TSeq(p1, p2) =>
      LeftMore(gr, p1, d, DEPTH);
      FirstMore(gr, p1, FULLSET, d, d1);
      if Nullable(gr, p1) {
        FirstMore(gr, p2, follow, d, d1);
        FirstMore(gr, p1, FirstTo(gr, p2, follow, d).cs, d, d1);
      }
    case TChoice(p1, p2) =>
      FirstMore(gr, p1, follow, d, d1);
      FirstMore(gr, p2, follow, d, d1);
    case TCall(r) => FirstMore(gr, gr[r], follow, d - 1, d1 - 1);
    case _ =>
  }

  lemma {:induction false} HeadfailMore(gr: Grammar, t: Tree, d: nat, d1: nat)
    requires LeftOk(gr, t, d) && d <= d1
    ensures HeadfailTo(gr, t, d1) == HeadfailTo(gr, t, d)
    decreases d, t
  {
    match t
    case TAnd(p) => HeadfailMore(gr, p, d, d1);
    case TSeq(p1, _) => HeadfailMore(gr, p1, d, d1);
    case TChoice(p1, p2) =>
      HeadfailMore(gr, p1, d, d1);
      HeadfailMore(gr, p2, d, d1);
    case TCall(r) => HeadfailMore(gr, gr[r], d - 1, d1 - 1);
    case _ =>
  }

  /** In an accepted grammar the analyses give what they would give without a limit. */
  lemma DeepEnough(gr: Grammar, t: Tree, follow: Charset, d: nat)
    requires Accepted(gr) && Valid(gr, t) && d >= DEPTH
    ensures CheckAux(gr, t, PEnullable, d) == Nullable(gr, t) && CheckAux(gr, t, PEnofail, d) == Nofail(gr, t)
    ensures FirstTo(gr, t, follow, d) == GetFirst(gr, t, follow) && HeadfailTo(gr, t, d) == Headfail(gr, t)
  {
    LeftEverywhere(gr, t);
    LeftMore(gr, t, DEPTH, d);
    NofailMore(gr, t, DEPTH, d);
    FirstMore(gr, t, follow, DEPTH, d);
    HeadfailMore(gr, t, DEPTH, d);
  }

  function Below(n: nat): (r: set<nat>)
    ensures |r| == n && forall k: nat :: k in r <==> k < n
  {
    if n == 0 then {} else Below(n - 1) + {n - 1}
  }

  /** fixedlen as callrecursive runs it: a call that is being visited gives the default. Marks are
      kept by rule here, the program keeps them in the calls. */
  function FixedLenMarked(gr: Grammar, t: Tree, marks: set<nat>): int
    decreases Below(|gr|) - marks, t
  {
    match t
    case TChar(_) => 1
    case TSet(_) => 1
    case TAny => 1
    case TRep(_) => -1
    case TSeq(p1, p2) =>
      var n1, n2 := FixedLenMarked(gr, p1, marks), FixedLenMarked(gr, p2, marks);
      if n1 < 0 || n2 < 0 then -1 else n1 + n2
    case TChoice(p1, p2) =>
      var n1, n2 := FixedLenMarked(gr, p1, marks), FixedLenMarked(gr, p2, marks);
      if n1 != n2 || n1 < 0 then -1 else n1
    case TCall(r) =>
      if r in marks || r >= |gr| then -1
      else
        assert r in Below(|gr|) - marks;
        FixedLenMarked(gr, gr[r], marks + {r})
    case _ => 0
  }

  lemma {:induction false} FixedLenMore(gr: Grammar, t: Tree, d: nat, d1: nat)
    requires FixedLenTo(gr, t, d) >= 0 && d <= d1
    ensures FixedLenTo(gr, t, d1) == FixedLenTo(gr, t, d)
    decreases d, t
  {
    match t
    case TSeq(p1, p2) =>
      FixedLenMore(gr, p1, d, d1);
      FixedLenMore(gr, p2, d, d1);
    case TChoice(p1, p2) =>
      FixedLenMore(gr, p1, d, d1);
      FixedLenMore(gr, p2, d, d1);
    case TCall(r) => FixedLenMore(gr, gr[r], d - 1, d1 - 1);
    case _ =>
  }

  /** A length found with marks is found by following as many calls as there are other rules. */
  lemma {:induction false} MarkedFound(gr: Grammar, t: Tree, marks: set<nat>, d: nat)
    requires FixedLenMarked(gr, t, marks) >= 0 && |Below(|gr|) - marks| <= d
    ensures FixedLenTo(gr, t, d) == FixedLenMarked(gr, t, marks)
    decreases d, t
  {
    match t
    case TSeq(p1, p2) =>
      MarkedFound(gr, p1, marks, d);
      MarkedFound(gr, p2, marks, d);
    case TChoice(p1, p2) =>
      MarkedFound(gr, p1, marks, d);
      MarkedFound(gr, p2, marks, d);
    case TCall(r) =>
      var left := Below(|gr|) - marks;
      assert r in left && left - {r} == Below(|gr|) - (marks + {r});
      MarkedFound(gr, gr[r], marks + {r}, d - 1);
    case _ =>
  }

  /** The least depth that gives a length. */
  lemma {:induction false} LeastDepth(gr: Grammar, t: Tree, d: nat) returns (e: nat)
    requires FixedLenTo(gr, t, d) >= 0
    ensures e <= d && FixedLenTo(gr, t, e) >= 0 && (e > 0 ==> FixedLenTo(gr, t, e - 1) < 0)
    decreases d
  {
    e := d;
    if d > 0 && FixedLenTo(gr, t, d - 1) >= 0 { e := LeastDepth(gr, t, d - 1); }
  }

  lemma FoundSame(gr: Grammar, t: Tree, marks: set<nat>, d: nat)
    requires FixedLenTo(gr, t, d) >= 0 && FixedLenMarked(gr, t, marks) >= 0
    ensures FixedLenTo(gr, t, d) == FixedLenMarked(gr, t, marks)
  {
    var n := d + |Below(|gr|) - marks|;
    MarkedFound(gr, t, marks, n);
    FixedLenMore(gr, t, d, n);
  }

  /** A length found by following calls is found with marks on rules that give none so soon. */
  lemma {:induction false} FoundMarked(gr: Grammar, t: Tree, marks: set<nat>, d: nat)
    requires FixedLenTo(gr, t, d) >= 0
    requires d > 0 ==> forall r :: r in marks && r < |gr| ==> FixedLenTo(gr, gr[r], d - 1) < 0
    ensures FixedLenMarked(gr, t, marks) >= 0
    decreases d, t
  {
    match t
    case TSeq(p1, p2) =>
      FoundMarked(gr, p1, marks, d);
      FoundMarked(gr, p2, marks, d);
    case TChoice(p1, p2) =>
      FoundMarked(gr, p1, marks, d);
      FoundMarked(gr, p2, marks, d);
      FoundSame(gr, p1, marks, d);
      FoundSame(gr, p2, marks, d);
    case TCall(r) =>
      var e := LeastDepth(gr, gr[r], d - 1);
      if e > 0 {
        forall q | q in marks + {r} && q < |gr| ensures FixedLenTo(gr, gr[q], e - 1) < 0 {
          if FixedLenTo(gr, gr[q], e - 1) >= 0 { FixedLenMore(gr, gr[q], e - 1, d - 1); }
        }
      }
      FoundMarked(gr, gr[r], marks + {r}, e);
    case _ =>
  }

  /** The marks of the program and the depth of the model find the same lengths. */
  lemma FixedLenIs(gr: Grammar, t: Tree)
    requires |gr| <= MAXRULES
    ensures FixedLenMarked(gr, t, {}) >= 0 <==> FixedLen(gr, t) >= 0
    ensures FixedLen(gr, t) >= 0 ==> FixedLenMarked(gr, t, {}) == FixedLen(gr, t)
  {
    var rules := Below(|gr|);
    assert rules - {} == rules;
    if FixedLenMarked(gr, t, {}) >= 0 { MarkedFound(gr, t, {}, MAXRULES); }
    if FixedLen(gr, t) >= 0 {
      FoundMarked(gr, t, {}, MAXRULES);
      FoundSame(gr, t, {}, MAXRULES);
    }
  }

  lemma {:induction false} CalllessEnds(gr: Grammar, t: Tree, s: Subject, i: nat, f: nat)
    requires i <= |s| && Callless(t)
    ensures !Match(gr, t, s, i, f).Out?
    decreases t, |s| - i
  {
    match t
    case TRep(p) =>
      CalllessEnds(gr, p, s, i, f);
      var m := Match(gr, p, s, i, f);
      if m.Upto? && m.pos > i { CalllessEnds(gr, t, s, m.pos, f); }
    case TSeq(p1, p2) =>
      CalllessEnds(gr, p1, s, i, f);
      var m := Match(gr, p1, s, i, f);
      if m.Upto? { CalllessEnds(gr, p2, s, m.pos, f); }
    case TChoice(p1, p2) =>
      CalllessEnds(gr, p1, s, i, f);
      CalllessEnds(gr, p2, s, i, f);
    case TNot(p) => CalllessEnds(gr, p, s, i, f);
    case TAnd(p) => CalllessEnds(gr, p, s, i, f);
    case TBehind(n, p) => if n <= i { CalllessEnds(gr, p, s, i - n, f); }
    case _ =>
  }

  /** How deep calls can nest: so many without a character between them, for each character. */
  function Nesting(left: nat, d: nat): nat { left * (DEPTH + 1) + d }

  lemma NestingFalls(left: nat, left': nat, d: nat)
    requires left' < left
    ensures Nesting(left', DEPTH) < Nesting(left, d)
  {
    assert left * (DEPTH + 1) >= (left' + 1) * (DEPTH + 1);
  }

  /** Matching with an accepted grammar ends, with that much nesting of calls. */
  lemma {:induction false} MatchEnds(gr: Grammar, t: Tree, s: Subject, i: nat, d: nat, f: nat)
    requires i <= |s| && Accepted(gr) && Valid(gr, t) && LeftOk(gr, t, d) && f >= Nesting(|s| - i, d)
    ensures !Match(gr, t, s, i, f).Out?
    decreases f, t, |s| - i
  {
    match t
    case TRep(p) =>
      MatchEnds(gr, p, s, i, d, f);
      var m := Match(gr, p, s, i, f);
      if m.Upto? && m.pos > i { EndsLater(gr, t, s, i, m.pos, d, f); MatchEnds(gr, t, s, m.pos, DEPTH, f); }
    case TSeq(p1, p2) =>
      MatchEnds(gr, p1, s, i, d, f);
      var m := Match(gr, p1, s, i, f);
      if m.Upto? && m.pos > i {
        EndsLater(gr, p2, s, i, m.pos, d, f);
        MatchEnds(gr, p2, s, m.pos, DEPTH, f);
      } else if m.Upto? {
        NullableSound(gr, p1, s, i, f, d);
        MatchEnds(gr, p2, s, i, d, f);
      }
    case TChoice(p1, p2) =>
      MatchEnds(gr, p1, s, i, d, f);
      MatchEnds(gr, p2, s, i, d, f);
    case TNot(p) => MatchEnds(gr, p, s, i, d, f);
    case TAnd(p) => MatchEnds(gr, p, s, i, d, f);
    case TBehind(n, p) => if n <= i { CalllessEnds(gr, p, s, i - n, f); }
    case TCall(r) => MatchEnds(gr, gr[r], s, i, d - 1, f - 1);
    case _ =>
  }

  lemma EndsLater(gr: Grammar, t: Tree, s: Subject, i: nat, j: nat, d: nat, f: nat)
    requires i < j <= |s| && Accepted(gr) && Valid(gr, t) && f >= Nesting(|s| - i, d)
    ensures LeftOk(gr, t, DEPTH) && f >= Nesting(|s| - j, DEPTH)
  {
    LeftEverywhere(gr, t);
    NestingFalls(|s| - i, |s| - j, d);
  }

  /** A result does not change when calls may nest deeper. */
  lemma {:induction false} MoreFuel(gr: Grammar, t: Tree, s: Subject, i: nat, f: nat, f1: nat)
    requires i <= |s| && f <= f1 && !Match(gr, t, s, i, f).Out?
    ensures Match(gr, t, s, i, f1) == Match(gr, t, s, i, f)
    decreases f, t, |s| - i
  {
    match t
    case TRep(p) =>
      MoreFuel(gr, p, s, i, f, f1);
      var m := Match(gr, p, s, i, f);
      if m.Upto? && m.pos > i { MoreFuel(gr, t, s, m.pos, f, f1); }
    case TSeq(p1, p2) =>
      MoreFuel(gr, p1, s, i, f, f1);
      var m := Match(gr, p1, s, i, f);
      if m.Upto? { MoreFuel(gr, p2, s, m.pos, f, f1); }
    case TChoice(p1, p2) =>
      MoreFuel(gr, p1, s, i, f, f1);
      if Match(gr, p1, s, i, f).Fail? { MoreFuel(gr, p2, s, i, f, f1); }
    case TNot(p) => MoreFuel(gr, p, s, i, f, f1);
    case TAnd(p) => MoreFuel(gr, p, s, i, f, f1);
    case TBehind(n, p) => if n <= i { MoreFuel(gr, p, s, i - n, f, f1); }
    case TCall(r) => if r < |gr| { MoreFuel(gr, gr[r], s, i, f - 1, f1 - 1); }
    case _ =>
  }

  /** What a grammar means: what its first rule matches. */
  function Meaning(gr: Grammar, s: Subject, i: nat): (r: Outcome)
    requires i <= |s| && |gr| > 0
  {
    Match(gr, gr[0], s, i, Nesting(|s| - i, MAXRULES))
  }

  /** For an accepted grammar that is a result, and the only one. */
  lemma MeaningIs(gr: Grammar, s: Subject, i: nat, f: nat)
    requires i <= |s| && Accepted(gr)
    ensures !Meaning(gr, s, i).Out?
    ensures var r := Match(gr, gr[0], s, i, f); !r.Out? ==> r == Meaning(gr, s, i)
  {
    VerifyRuleIs(gr, gr[0], MAXRULES, false);
    var n := Nesting(|s| - i, MAXRULES);
    MatchEnds(gr, gr[0], s, i, MAXRULES, n);
    if !Match(gr, gr[0], s, i, f).Out? { MoreFuel(gr, gr[0], s, i, if f <= n then f else n, if f <= n then n else f); }
  }

  /** verifyrule does not look into a look-behind, where the program expects no calls. Here the
      only rule calls itself in a predicate of a look-behind of length 0: everything else is
      checked, and matching never ends. */
  lemma {:induction false} CallBehind(gr: Grammar, s: Subject, i: nat, f: nat)
    requires i <= |s| && gr == [TBehind(0, TAnd(TCall(0)))]
    ensures !Callless(TAnd(TCall(0))) && FixedLen(gr, TAnd(TCall(0))) == 0
    ensures VerifyRule(gr, gr[0], MAXRULES, false).Passed?
    ensures Match(gr, gr[0], s, i, f).Out?
  {
    var a := TAnd(TCall(0));
    if f > 0 {
      CallBehind(gr, s, i, f - 1);
      assert Match(gr, a.sib1, s, i, f).Out?;
    }
    assert Match(gr, a, s, i, f).Out?;
  }
}
