/** What the checks of lptree.c and the analyses of lpcode.c decide, said without them: which
    grammars verifygrammar refuses, which patterns are nullable, and which have a fixed length. */
module PegExact {
  import opened PegTree
  import opened PegAnalysis
  import opened PegGrammar

  /** The rule is called somewhere in `t`, reached or not. */
  predicate Calls(t: Tree, q: nat) {
    match t
    case TCall(r) => r == q
    case TRep(p) => Calls(p, q)
    case TNot(p) => Calls(p, q)
    case TAnd(p) => Calls(p, q)
    case TBehind(_, p) => Calls(p, q)
    case TSeq(p1, p2) => Calls(p1, q) || Calls(p2, q)
    case TChoice(p1, p2) => Calls(p1, q) || Calls(p2, q)
    case _ => false
  }

  /** newgrammar refuses a call of a rule that is not there. */
  ghost predicate Defined(gr: Grammar, t: Tree) { forall q: nat :: Calls(t, q) ==> q < |gr| }

  ghost predicate AllDefined(gr: Grammar) { forall r {:trigger gr[r]} :: 0 <= r < |gr| ==> Defined(gr, gr[r]) }

  /** The pattern may succeed without consuming a character; predicates and look-behinds never consume one. */
  least predicate Empties(gr: Grammar, t: Tree) {
    match t
    case TTrue => true
    case TRep(_) => true
    case TNot(_) => true
    case TAnd(_) => true
    case TBehind(_, _) => true
    case TSeq(p1, p2) => Empties(gr, p1) && Empties(gr, p2)
    case TChoice(p1, p2) => Empties(gr, p1) || Empties(gr, p2)
    case TCall(r) => r < |gr| && Empties(gr, gr[r])
    case _ => false
  }

  /** A call of the rule, outside look-behinds, that only such patterns precede. */
  ghost predicate LeftCalls(gr: Grammar, t: Tree, q: nat) {
    match t
    case TCall(r) => r == q
    case TRep(p) => LeftCalls(gr, p, q)
    case TNot(p) => LeftCalls(gr, p, q)
    case TAnd(p) => LeftCalls(gr, p, q)
    case TSeq(p1, p2) => LeftCalls(gr, p1, q) || (Empties(gr, p1) && LeftCalls(gr, p2, q))
    case TChoice(p1, p2) => LeftCalls(gr, p1, q) || LeftCalls(gr, p2, q)
    case _ => false
  }

  /** Rules that call one another like that. */
  ghost predicate LeftPath(gr: Grammar, path: seq<nat>) {
    forall i {:trigger path[i]} :: 0 <= i < |path| - 1 ==> path[i] < |gr| && LeftCalls(gr, gr[path[i]], path[i + 1])
  }

  /** The rule reaches itself. */
  ghost predicate LeftRecursive(gr: Grammar, r: nat) {
    exists path: seq<nat> :: |path| > 1 && path[0] == r && path[|path| - 1] == r && LeftPath(gr, path)
  }

  /** Rules that `t` leads to. */
  ghost predicate Chain(gr: Grammar, t: Tree, path: seq<nat>) {
    path != [] ==> LeftCalls(gr, t, path[0]) && LeftPath(gr, path)
  }

  /** Where calls do not nest too deep, nullable says whether the empty string may match. */
  lemma {:induction false} NullableIs(gr: Grammar, t: Tree, d: nat)
    requires LeftOk(gr, t, d)
    ensures CheckAux(gr, t, PEnullable, d) <==> Empties(gr, t)
    decreases d, t
  {
    match t
    case TSeq(p1, p2) =>
      NullableIs(gr, p1, d);
      if CheckAux(gr, p1, PEnullable, d) { NullableIs(gr, p2, d); }
    case TChoice(p1, p2) =>
      NullableIs(gr, p1, d);
      NullableIs(gr, p2, d);
    case TCall(r) => NullableIs(gr, gr[r], d - 1);
    case _ =>
  }

  lemma PathTail(gr: Grammar, path: seq<nat>)
    requires LeftPath(gr, path) && |path| > 1
    ensures path[0] < |gr| && Chain(gr, gr[path[0]], path[1..])
  {
    var rest := path[1..];
    forall i {:trigger rest[i]} | 0 <= i < |rest| - 1
      ensures rest[i] < |gr| && LeftCalls(gr, gr[rest[i]], rest[i + 1])
    {
      assert rest[i] == path[i + 1];
    }
    assert path[0] < |gr|;
  }

  lemma PathCons(gr: Grammar, r: nat, path: seq<nat>)
    requires r < |gr| && Chain(gr, gr[r], path)
    ensures LeftPath(gr, [r] + path)
  {
    var whole := [r] + path;
    forall i {:trigger whole[i]} | 0 <= i < |whole| - 1
      ensures whole[i] < |gr| && LeftCalls(gr, gr[whole[i]], whole[i + 1])
    {
      if i > 0 { assert whole[i] == path[i - 1]; }
    }
  }

  /** No chain of calls is longer than verifyrule found out. */
  lemma {:induction false} ChainsShort(gr: Grammar, t: Tree, d: nat, path: seq<nat>)
    requires LeftOk(gr, t, d) && Chain(gr, t, path)
    ensures |path| <= d
    decreases d, t
  {
    if path != [] {
      match t
      case TRep(p) => ChainsShort(gr, p, d, path);
      case TNot(p) => ChainsShort(gr, p, d, path);
      case TAnd(p) => ChainsShort(gr, p, d, path);
      case TSeq(p1, p2) =>
        NullableIs(gr, p1, d);
        if LeftCalls(gr, p1, path[0]) { ChainsShort(gr, p1, d, path); } else { ChainsShort(gr, p2, d, path); }
      case TChoice(p1, p2) =>
        if LeftCalls(gr, p1, path[0]) { ChainsShort(gr, p1, d, path); } else { ChainsShort(gr, p2, d, path); }
      case TCall(r) =>
        if |path| > 1 {
          PathTail(gr, path);
          ChainsShort(gr, gr[r], d - 1, path[1..]);
        }
    }
  }

  /** Where it gives up, there is a longer one. */
  lemma {:induction false} LongChain(gr: Grammar, t: Tree, d: nat) returns (path: seq<nat>)
    requires !LeftOk(gr, t, d) && Defined(gr, t) && AllDefined(gr)
    ensures Chain(gr, t, path) && |path| == d + 1
    decreases d, t
  {
    match t
    case TRep(p) => DefinedParts(gr, t, p); path := LongChain(gr, p, d);
    case TNot(p) => DefinedParts(gr, t, p); path := LongChain(gr, p, d);
    case TAnd(p) => DefinedParts(gr, t, p); path := LongChain(gr, p, d);
    case TSeq(p1, p2) =>
      DefinedParts(gr, t, p1);
      DefinedParts(gr, t, p2);
      if !LeftOk(gr, p1, d) {
        path := LongChain(gr, p1, d);
      } else {
        NullableIs(gr, p1, d);
        path := LongChain(gr, p2, d);
      }
    case TChoice(p1, p2) =>
      DefinedParts(gr, t, p1);
      DefinedParts(gr, t, p2);
      if !LeftOk(gr, p1, d) { path := LongChain(gr, p1, d); } else { path := LongChain(gr, p2, d); }
    case TCall(r) =>
      assert Calls(t, r);
      path := [];
      if d > 0 { path := LongChain(gr, gr[r], d - 1); }
      PathCons(gr, r, path);
      path := [r] + path;
  }

  lemma DefinedParts(gr: Grammar, t: Tree, p: Tree)
    requires Defined(gr, t)
    requires t.TRep? || t.TNot? || t.TAnd? || t.TSeq? || t.TChoice?
    requires p == t.sib1 || ((t.TSeq? || t.TChoice?) && p == t.sib2)
    ensures Defined(gr, p)
  {
    forall q: nat | Calls(p, q) ensures q < |gr| { assert Calls(t, q); }
  }

  /** verifyrule passes exactly when no chain of left calls is longer than the room in `passed`,
      and then it says whether the pattern may match the empty string. */
  lemma PassedIs(gr: Grammar, t: Tree, d: nat, nb: bool)
    requires Defined(gr, t) && AllDefined(gr)
    ensures VerifyRule(gr, t, d, nb).Passed? <==>
              forall path {:trigger Chain(gr, t, path)} :: Chain(gr, t, path) ==> |path| <= d
    ensures var c := VerifyRule(gr, t, d, nb); c.Passed? ==> c.nb == (nb || Empties(gr, t))
  {
    VerifyRuleIs(gr, t, d, nb);
    if LeftOk(gr, t, d) {
      NullableIs(gr, t, d);
      forall path {:trigger Chain(gr, t, path)} | Chain(gr, t, path) ensures |path| <= d {
        ChainsShort(gr, t, d, path);
      }
    } else {
      var path := LongChain(gr, t, d);
    }
  }

  /** Among more rules than there are, one comes twice. */
  lemma {:induction false} Twice(path: seq<nat>, n: nat) returns (i: nat, j: nat)
    requires |path| > n && forall k {:trigger path[k]} :: 0 <= k < |path| ==> path[k] < n
    ensures i < j < |path| && path[i] == path[j]
    decreases n
  {
    var last := path[|path| - 1];
    if k: nat :| k < |path| - 1 && path[k] == last {
      i, j := k, |path| - 1;
    } else {
      // n - 1 takes the place of the last rule, which does not come again
      var rest := seq(|path| - 1, k requires 0 <= k < |path| - 1 => if path[k] == n - 1 then last else path[k]);
      forall k {:trigger rest[k]} | 0 <= k < |rest| ensures rest[k] < n - 1 {
        assert path[k] != last;
        assert path[k] < n && last < n;
      }
      i, j := Twice(rest, n - 1);
      assert path[i] != last && path[j] != last;
    }
  }

  lemma PathPart(gr: Grammar, path: seq<nat>, i: nat, j: nat)
    requires LeftPath(gr, path) && i < j < |path|
    ensures LeftPath(gr, path[i..j + 1])
  {
    var part := path[i..j + 1];
    forall k {:trigger part[k]} | 0 <= k < |part| - 1
      ensures part[k] < |gr| && LeftCalls(gr, gr[part[k]], part[k + 1])
    {
      assert part[k] == path[i + k];
    }
  }

  /** A chain with more rules than the grammar has goes through a rule that reaches itself. */
  lemma LongRecursive(gr: Grammar, r: nat, path: seq<nat>)
    requires r < |gr| && AllDefined(gr) && Chain(gr, gr[r], path) && |path| > |gr|
    ensures exists q: nat :: q < |gr| && LeftRecursive(gr, q)
  {
    hide LeftCalls;
    hide Calls;
    PathCons(gr, r, path);
    var whole := [r] + path;
    forall k {:trigger path[k]} | 0 <= k < |path| ensures path[k] < |gr| {
      assert whole[k + 1] == path[k];
      assert whole[k] < |gr|;
      LeftIsCall(gr, gr[whole[k]], path[k]);
    }
    var i, j := Twice(path, |gr|);
    PathPart(gr, path, i, j);
    assert LeftRecursive(gr, path[i]);
  }

  lemma LeftIsCall(gr: Grammar, t: Tree, q: nat)
    requires LeftCalls(gr, t, q)
    ensures Calls(t, q)
  {
  }

  /** Going round and round from a rule that reaches itself. */
  lemma {:induction false} Round(gr: Grammar, r: nat, cycle: seq<nat>, n: nat) returns (path: seq<nat>)
    requires |cycle| > 1 && cycle[0] == r && cycle[|cycle| - 1] == r && LeftPath(gr, cycle)
    ensures |path| > n && path[0] == r && path[|path| - 1] == r && LeftPath(gr, path)
  {
    if n == 0 {
      path := cycle;
    } else {
      var p := Round(gr, r, cycle, n - 1);
      path := p + cycle[1..];
      forall i {:trigger path[i]} | 0 <= i < |path| - 1
        ensures path[i] < |gr| && LeftCalls(gr, gr[path[i]], path[i + 1])
      {
        if i < |p| - 1 {
          assert path[i] == p[i];
        } else {
          assert path[i] == cycle[i - (|p| - 1)];
        }
      }
    }
  }

  /** The rule has been called, or it is the initial one: the others are not checked. */
  ghost predicate Used(gr: Grammar, r: nat) {
    r < |gr| && (r == 0 || exists q {:trigger gr[q]} :: 0 <= q < |gr| && Calls(gr[q], r))
  }

  /** verifygrammar lets a grammar pass exactly when no rule reaches itself by calls that only
      patterns that may match the empty string precede. */
  lemma AcceptsExactly(gr: Grammar)
    requires |gr| <= MAXRULES && AllDefined(gr)
    ensures (forall r: nat :: Used(gr, r) ==> VerifyRule(gr, gr[r], MAXRULES, false).Passed?) <==>
              forall r: nat :: r < |gr| ==> !LeftRecursive(gr, r)
  {
    hide VerifyRule;
    hide LeftRecursive;
    hide AllDefined;
    if r: nat :| r < |gr| && LeftRecursive(gr, r) {
      CycleRefused(gr, r);
    } else {
      forall r: nat | Used(gr, r) ensures VerifyRule(gr, gr[r], MAXRULES, false).Passed? {
        if !VerifyRule(gr, gr[r], MAXRULES, false).Passed? { RefusedCycle(gr, r); }
      }
    }
  }

  lemma CycleRefused(gr: Grammar, r: nat)
    requires AllDefined(gr) && r < |gr| && LeftRecursive(gr, r)
    ensures Used(gr, r) && !VerifyRule(gr, gr[r], MAXRULES, false).Passed?
  {
    hide VerifyRule;
    hide LeftCalls;
    hide Calls;
    var cycle: seq<nat> :| |cycle| > 1 && cycle[0] == r && cycle[|cycle| - 1] == r && LeftPath(gr, cycle);
    var k := |cycle| - 2;
    assert cycle[k] < |gr|;
    LeftIsCall(gr, gr[cycle[k]], r);
    var path := Round(gr, r, cycle, MAXRULES + 1);
    PathTail(gr, path);
    PassedIs(gr, gr[r], MAXRULES, false);
    assert Chain(gr, gr[r], path[1..]);
  }

  lemma RefusedCycle(gr: Grammar, r: nat)
    requires |gr| <= MAXRULES && AllDefined(gr) && r < |gr| && !VerifyRule(gr, gr[r], MAXRULES, false).Passed?
    ensures exists q: nat :: q < |gr| && LeftRecursive(gr, q)
  {
    hide *;
    RuleDefined(gr, r);
    PassedIs(gr, gr[r], MAXRULES, false);
    var path :| Chain(gr, gr[r], path) && |path| > MAXRULES;
    LongRecursive(gr, r, path);
  }

  lemma RuleDefined(gr: Grammar, r: nat)
    requires AllDefined(gr) && r < |gr|
    ensures Defined(gr, gr[r])
  {
  }

  /** No predicate and no look-behind. */
  predicate Plain(t: Tree) {
    match t
    case TNot(_) => false
    case TAnd(_) => false
    case TBehind(_, _) => false
    case TRep(p) => Plain(p)
    case TSeq(p1, p2) => Plain(p1) && Plain(p2)
    case TChoice(p1, p2) => Plain(p1) && Plain(p2)
    case _ => true
  }

  /** Without predicates, nullable says exactly whether the pattern matches the empty subject. */
  lemma {:induction false} NullableExact(gr: Grammar, t: Tree, d: nat, f: nat)
    requires LeftOk(gr, t, d) && d <= f && Plain(t) && forall r :: 0 <= r < |gr| ==> Plain(gr[r])
    ensures Match(gr, t, [], 0, f) == if CheckAux(gr, t, PEnullable, d) then Upto(0) else Fail
    decreases d, t
  {
    match t
    case TRep(p) => NullableExact(gr, p, d, f);
    case TSeq(p1, p2) =>
      NullableExact(gr, p1, d, f);
      if CheckAux(gr, p1, PEnullable, d) { NullableExact(gr, p2, d, f); }
    case TChoice(p1, p2) =>
      NullableExact(gr, p1, d, f);
      NullableExact(gr, p2, d, f);
    case TCall(r) => NullableExact(gr, gr[r], d - 1, f - 1);
    case _ =>
  }

  /** The lengths that a pattern may match as far as its shape tells: any number of times for a repetition,
      either part of a choice, and any length for a rule behind more than d calls. */
  ghost predicate HasLength(gr: Grammar, t: Tree, d: nat, n: nat)
    decreases d, t
  {
    match t
    case TChar(_) => n == 1
    case TSet(_) => n == 1
    case TAny => n == 1
    case TRep(_) => true
    case TSeq(p1, p2) => exists k :: 0 <= k <= n && HasLength(gr, p1, d, k) && HasLength(gr, p2, d, n - k)
    case TChoice(p1, p2) => HasLength(gr, p1, d, n) || HasLength(gr, p2, d, n)
    case TCall(r) => d == 0 || r >= |gr| || HasLength(gr, gr[r], d - 1, n)
    case _ => n == 0
  }

  /** Every match has one of these lengths. */
  lemma {:induction false} LengthOfMatch(gr: Grammar, t: Tree, s: Subject, i: nat, f: nat, d: nat)
    requires i <= |s|
    ensures Match(gr, t, s, i, f).Upto? ==> HasLength(gr, t, d, Match(gr, t, s, i, f).pos - i)
    decreases f, t
  {
    match t
    case TSeq(p1, p2) =>
      LengthOfMatch(gr, p1, s, i, f, d);
      var m := Match(gr, p1, s, i, f);
      if m.Upto? {
        LengthOfMatch(gr, p2, s, m.pos, f, d);
        var m2 := Match(gr, p2, s, m.pos, f);
        if m2.Upto? {
          assert HasLength(gr, p1, d, m.pos - i) && HasLength(gr, p2, d, m2.pos - i - (m.pos - i));
        }
      }
    case TChoice(p1, p2) =>
      LengthOfMatch(gr, p1, s, i, f, d);
      LengthOfMatch(gr, p2, s, i, f, d);
    case TCall(r) => if f > 0 && r < |gr| && d > 0 { LengthOfMatch(gr, gr[r], s, i, f - 1, d - 1); }
    case _ =>
  }

  lemma {:induction false} SomeLength(gr: Grammar, t: Tree, d: nat) returns (n: nat)
    ensures HasLength(gr, t, d, n)
    decreases d, t
  {
    match t
    case TChar(_) => n := 1;
    case TSet(_) => n := 1;
    case TAny => n := 1;
    case TSeq(p1, p2) =>
      var n1 := SomeLength(gr, p1, d);
      var n2 := SomeLength(gr, p2, d);
      n := n1 + n2;
      assert HasLength(gr, p2, d, n - n1);
    case TChoice(p1, _) => n := SomeLength(gr, p1, d);
    case TCall(r) =>
      n := 0;
      if d > 0 && r < |gr| { n := SomeLength(gr, gr[r], d - 1); }
    case _ => n := 0;
  }

  ghost predicate OnlyLength(gr: Grammar, t: Tree, d: nat, n: nat) {
    forall k: nat :: HasLength(gr, t, d, k) <==> k == n
  }

  /** fixedlen gives a length exactly when it is the only one. */
  lemma {:induction false} FixedLenExact(gr: Grammar, t: Tree, d: nat, n: nat)
    ensures FixedLenTo(gr, t, d) == n <==> OnlyLength(gr, t, d, n)
    decreases d, t
  {
    match t
    case TRep(_) => assert HasLength(gr, t, d, n + 1);
    case TSeq(p1, p2) => SeqLength(gr, p1, p2, d, n);
    case TChoice(p1, p2) =>
      FixedLenExact(gr, p1, d, n);
      FixedLenExact(gr, p2, d, n);
      ChoiceLength(gr, p1, p2, d, n);
    case TCall(r) =>
      if d > 0 && r < |gr| {
        FixedLenExact(gr, gr[r], d - 1, n);
        SameLengths(gr, t, d, gr[r], d - 1, n);
      } else {
        assert HasLength(gr, t, d, n) && HasLength(gr, t, d, n + 1);
      }
    case _ => var _ := SomeLength(gr, t, d);
  }

  lemma SameLengths(gr: Grammar, t: Tree, d: nat, t': Tree, d': nat, n: nat)
    requires forall k: nat {:trigger HasLength(gr, t, d, k)} {:trigger HasLength(gr, t', d', k)} ::
               HasLength(gr, t, d, k) <==> HasLength(gr, t', d', k)
    ensures OnlyLength(gr, t, d, n) <==> OnlyLength(gr, t', d', n)
  {
  }

  /** The parts of a length. */
  lemma SplitLength(gr: Grammar, p1: Tree, p2: Tree, d: nat, n: nat) returns (k: nat)
    requires HasLength(gr, TSeq(p1, p2), d, n)
    ensures k <= n && HasLength(gr, p1, d, k) && HasLength(gr, p2, d, n - k)
  {
    k :| 0 <= k <= n && HasLength(gr, p1, d, k) && HasLength(gr, p2, d, n - k);
  }

  lemma ChoiceLength(gr: Grammar, p1: Tree, p2: Tree, d: nat, n: nat)
    ensures OnlyLength(gr, TChoice(p1, p2), d, n) <==> OnlyLength(gr, p1, d, n) && OnlyLength(gr, p2, d, n)
  {
    var t := TChoice(p1, p2);
    var n1 := SomeLength(gr, p1, d);
    var n2 := SomeLength(gr, p2, d);
    assert forall k: nat :: HasLength(gr, t, d, k) <==> HasLength(gr, p1, d, k) || HasLength(gr, p2, d, k);
  }

  lemma {:induction false} SeqLength(gr: Grammar, p1: Tree, p2: Tree, d: nat, n: nat)
    ensures FixedLenTo(gr, TSeq(p1, p2), d) == n <==> OnlyLength(gr, TSeq(p1, p2), d, n)
    decreases d, TSeq(p1, p2), 0
  {
    var t := TSeq(p1, p2);
    var n1 := SomeLength(gr, p1, d);
    var n2 := SomeLength(gr, p2, d);
    FixedLenExact(gr, p1, d, n1);
    FixedLenExact(gr, p2, d, n2);
    forall k1: nat, k2: nat | HasLength(gr, p1, d, k1) && HasLength(gr, p2, d, k2)
      ensures HasLength(gr, t, d, k1 + k2)
    {
      assert HasLength(gr, p2, d, (k1 + k2) - k1);
    }
    assert HasLength(gr, t, d, n1 + n2);
    if OnlyLength(gr, p1, d, n1) && OnlyLength(gr, p2, d, n2) {
      forall k: nat | HasLength(gr, t, d, k) ensures k == n1 + n2 {
        var j := SplitLength(gr, p1, p2, d, k);
      }
    }
    if FixedLenTo(gr, p1, d) >= 0 { FixedLenExact(gr, p1, d, FixedLenTo(gr, p1, d)); }
    if FixedLenTo(gr, p2, d) >= 0 { FixedLenExact(gr, p2, d, FixedLenTo(gr, p2, d)); }
    if OnlyLength(gr, t, d, n) {
      forall k: nat ensures HasLength(gr, p1, d, k) <==> k == n1 {
        if HasLength(gr, p1, d, k) { assert HasLength(gr, t, d, k + n2); }
      }
      forall k: nat ensures HasLength(gr, p2, d, k) <==> k == n2 {
        if HasLength(gr, p2, d, k) { assert HasLength(gr, t, d, n1 + k); }
      }
      assert OnlyLength(gr, p1, d, n1) && OnlyLength(gr, p2, d, n2);
    }
  }
}
