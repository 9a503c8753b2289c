/** Pattern trees of the PEG compiler and the meaning of a pattern: what it
    matches, as a function of the grammar, the subject and the starting position. */
module PegTree {

  type Byte = b: int | 0 <= b < 256
  type Charset = set<Byte>
  type Subject = seq<Byte>

  const FULLSET: Charset := set b: Byte | 0 <= b < 256

  /** Longest look-behind: the operand of IBehind is one byte. */
  const MAXBEHIND := 255

  datatype Tree =
    | TChar(c: Byte)
    | TSet(cs: Charset)
    | TAny
    | TTrue
    | TFalse
    | TRep(sib1: Tree)
    | TSeq(sib1: Tree, sib2: Tree)
    | TChoice(sib1: Tree, sib2: Tree)
    | TNot(sib1: Tree)
    | TAnd(sib1: Tree)
    | TBehind(n: nat, sib1: Tree)
    | TCall(rule: nat)

  /** The rules of a grammar; a pattern outside a grammar has none to call. */
  type Grammar = seq<Tree>

  /** The number of rules that a grammar may have. */
  const MAXRULES := 250

  datatype Outcome = Fail | Upto(pos: nat) | Out

  /** PEG big-step semantics: the end position of the match of `t` at `i`, or failure, or Out
      when calls nest deeper than `f`. A repetition goes on while its body makes progress. */
  function Match(gr: Grammar, t: Tree, s: Subject, i: nat, f: nat): (r: Outcome)
    requires i <= |s|
    ensures r.Upto? ==> i <= r.pos <= |s|
    decreases f, t, |s| - i
  {
    match t
    case TChar(c) => if i < |s| && s[i] == c then Upto(i + 1) else Fail
    case TSet(cs) => if i < |s| && s[i] in cs then Upto(i + 1) else Fail
    case TAny => if i < |s| then Upto(i + 1) else Fail
    case TTrue => Upto(i)
    case TFalse => Fail
    case TRep(p) =>
      var m := Match(gr, p, s, i, f);
      if m.Out? then Out
      else if m.Upto? && m.pos > i then Match(gr, t, s, m.pos, f)
      else Upto(i)
    case TSeq(p1, p2) =>
      var m := Match(gr, p1, s, i, f);
      if m.Upto? then Match(gr, p2, s, m.pos, f) else m
    case TChoice(p1, p2) =>
      var m := Match(gr, p1, s, i, f);
      if m.Fail? then Match(gr, p2, s, i, f) else m
    case TNot(p) => Inverted(Match(gr, p, s, i, f), i)
    case TAnd(p) => Ahead(Match(gr, p, s, i, f), i)
    case TBehind(n, p) => if n > i then Fail else Ahead(Match(gr, p, s, i - n, f), i)
    case TCall(r) => if r >= |gr| then Fail else if f == 0 then Out else Match(gr, gr[r], s, i, f - 1)
  }

  /** Of what a predicate's body does, only success and failure matter. */
  function Ahead(r: Outcome, i: nat): Outcome { if r.Upto? then Upto(i) else r }

  function Inverted(r: Outcome, i: nat): Outcome {
    match r
    case Fail => Upto(i)
    case Upto(_) => Fail
    case Out => Out
  }
}

/** Static analyses of lpcode.c (checkaux, fixedlen, getfirst, headfail, needfollow)
    and the soundness of each with respect to `Match`. */
module PegAnalysis {
  import opened PegTree

  datatype Pred = PEnullable | PEnofail

  /** How many calls in a row the analyses follow. The program has no such limit, and in the
      grammars that it accepts this one is never reached. */
  const DEPTH := MAXRULES + 1

  /** Going through calls at most d times; beyond that the answer is the cautious one. */
  function CheckAux(gr: Grammar, t: Tree, pred: Pred, d: nat): bool
    decreases d, t
  {
    match t
    case TChar(_) => false
    case TSet(_) => false
    case TAny => false
    case TFalse => false
    case TTrue => true
    case TRep(_) => true
    case TNot(_) => pred.PEnullable?
    case TBehind(_, _) => pred.PEnullable?
    case TAnd(p) => pred.PEnullable? || CheckAux(gr, p, pred, d)
    case TSeq(p1, p2) => CheckAux(gr, p1, pred, d) && CheckAux(gr, p2, pred, d)
    case TChoice(p1, p2) => CheckAux(gr, p2, pred, d) || CheckAux(gr, p1, pred, d)
    case TCall(r) => if d == 0 || r >= |gr| then pred.PEnullable? else CheckAux(gr, gr[r], pred, d - 1)
  }

  predicate Nullable(gr: Grammar, t: Tree) { CheckAux(gr, t, PEnullable, DEPTH) }

  predicate Nofail(gr: Grammar, t: Tree) { CheckAux(gr, t, PEnofail, DEPTH) }

  /** Number of characters a pattern matches, or -1 when that varies. */
  function FixedLenTo(gr: Grammar, t: Tree, d: nat): int
    decreases d, t
  {
    match t
    case TChar(_) => 1
    case TSet(_) => 1
    case TAny => 1
    case TFalse => 0
    case TTrue => 0
    case TNot(_) => 0
    case TAnd(_) => 0
    case TBehind(_, _) => 0
    case TRep(_) => -1
    case TSeq(p1, p2) =>
      if FixedLenTo(gr, p1, d) < 0 || FixedLenTo(gr, p2, d) < 0 then -1
      else FixedLenTo(gr, p1, d) + FixedLenTo(gr, p2, d)
    case TChoice(p1, p2) =>
      if FixedLenTo(gr, p1, d) != FixedLenTo(gr, p2, d) || FixedLenTo(gr, p1, d) < 0 then -1
      else FixedLenTo(gr, p1, d)
    case TCall(r) => if d == 0 || r >= |gr| then -1 else FixedLenTo(gr, gr[r], d - 1)
  }

  function FixedLen(gr: Grammar, t: Tree): int { FixedLenTo(gr, t, MAXRULES) }

  /** No call at all, whether it is reached or not. */
  predicate Callless(t: Tree) {
    match t
    case TCall(_) => false
    case TRep(p) => Callless(p)
    case TNot(p) => Callless(p)
    case TAnd(p) => Callless(p)
    case TBehind(_, p) => Callless(p)
    case TSeq(p1, p2) => Callless(p1) && Callless(p2)
    case TChoice(p1, p2) => Callless(p1) && Callless(p2)
    case _ => true
  }

  /** What the tree constructors check before a tree reaches the compiler: a loop body is not
      nullable, a look-behind goes back by its body's fixed length, and rules that are called
      exist. That a look-behind has no calls is what the checks assume. */
  predicate Valid(gr: Grammar, t: Tree)
  {
    match t
    case TRep(p) => Valid(gr, p) && !Nullable(gr, p)
    case TSeq(p1, p2) => Valid(gr, p1) && Valid(gr, p2)
    case TChoice(p1, p2) => Valid(gr, p1) && Valid(gr, p2)
    case TNot(p) => Valid(gr, p)
    case TAnd(p) => Valid(gr, p)
    case TBehind(n, p) => Valid(gr, p) && Callless(p) && n == FixedLen(gr, p) && n <= MAXBEHIND
    case TCall(r) => r < |gr| && r < MAXRULES
    case _ => true
  }

  predicate IsCharset(t: Tree) { t.TChar? || t.TSet? || t.TAny? }

  function ToCharset(t: Tree): Charset
    requires IsCharset(t)
  {
    match t
    case TChar(c) => {c}
    case TSet(cs) => cs
    case TAny => FULLSET
  }

  /** Result of getfirst: the first set, and whether the pattern may accept the
      empty input (so that no test instruction can stand for it). */
  datatype First = First(cs: Charset, e: bool)

  function FirstTo(gr: Grammar, t: Tree, follow: Charset, d: nat): First
    decreases d, t
  {
    match t
    case TChar(c) => First({c}, false)
    case TSet(cs) => First(cs, false)
    case TAny => First(FULLSET, false)
    case TTrue => First(follow, true)
    case TFalse => First({}, false)
    case TChoice(p1, p2) =>
      var f1, f2 := FirstTo(gr, p1, follow, d), FirstTo(gr, p2, follow, d);
      First(f1.cs + f2.cs, f1.e || f2.e)
    case TSeq(p1, p2) =>
      if !Nullable(gr, p1) then FirstTo(gr, p1, FULLSET, d)
      else
        var f2 := FirstTo(gr, p2, follow, d);
        var f1 := FirstTo(gr, p1, f2.cs, d);
        First(f1.cs, f1.e && f2.e)
    case TRep(p) => First(FirstTo(gr, p, follow, d).cs + follow, true)
    case TAnd(p) =>
      var f := FirstTo(gr, p, follow, d);
      First(f.cs * follow, f.e)
    case TNot(p) =>
      if IsCharset(p) then First(FULLSET - ToCharset(p), true) else First(follow, true)
    case TBehind(_, _) => First(follow, true)
    case TCall(r) => if d == 0 || r >= |gr| then First(FULLSET, true) else FirstTo(gr, gr[r], follow, d - 1)
  }

  function GetFirst(gr: Grammar, t: Tree, follow: Charset): First { FirstTo(gr, t, follow, DEPTH) }

  predicate HeadfailTo(gr: Grammar, t: Tree, d: nat)
    decreases d, t
  {
    match t
    case TChar(_) => true
    case TSet(_) => true
    case TAny => true
    case TFalse => true
    case TAnd(p) => HeadfailTo(gr, p, d)
    case TSeq(p1, p2) => Nofail(gr, p2) && HeadfailTo(gr, p1, d)
    case TChoice(p1, p2) => HeadfailTo(gr, p1, d) && HeadfailTo(gr, p2, d)
    case TCall(r) => d > 0 && r < |gr| && HeadfailTo(gr, gr[r], d - 1)
    case _ => false
  }

  predicate Headfail(gr: Grammar, t: Tree) { HeadfailTo(gr, t, DEPTH) }

  predicate NeedFollow(t: Tree)
  {
    match t
    case TChoice(_, _) => true
    case TRep(_) => true
    case TSeq(_, p2) => NeedFollow(p2)
    case _ => false
  }

  /** p matches the empty string  ==>  nullable(p) */
  lemma {:induction false} NullableSound(gr: Grammar, t: Tree, s: Subject, i: nat, f: nat, d: nat)
    requires i <= |s|
    ensures Match(gr, t, s, i, f) == Upto(i) ==> CheckAux(gr, t, PEnullable, d)
    decreases f, t
  {
    match t
    case TSeq(p1, p2) =>
      NullableSound(gr, p1, s, i, f, d);
      NullableSound(gr, p2, s, i, f, d);
    case TChoice(p1, p2) =>
      NullableSound(gr, p1, s, i, f, d);
      NullableSound(gr, p2, s, i, f, d);
    case TCall(r) =>
      if d > 0 && r < |gr| && f > 0 { NullableSound(gr, gr[r], s, i, f - 1, d - 1); }
    case _ =>
  }

  /** nofail(p)  ==>  p cannot fail. */
  lemma {:induction false} NofailSound(gr: Grammar, t: Tree, s: Subject, i: nat, f: nat, d: nat)
    requires i <= |s| && CheckAux(gr, t, PEnofail, d)
    ensures !Match(gr, t, s, i, f).Fail?
    decreases f, t, |s| - i
  {
    match t
    case TSeq(p1, p2) =>
      NofailSound(gr, p1, s, i, f, d);
      var m := Match(gr, p1, s, i, f);
      if m.Upto? { NofailSound(gr, p2, s, m.pos, f, d); }
    case TChoice(p1, p2) =>
      if CheckAux(gr, p2, PEnofail, d) { NofailSound(gr, p2, s, i, f, d); } else { NofailSound(gr, p1, s, i, f, d); }
    case TAnd(p) =>
      NofailSound(gr, p, s, i, f, d);
    case TRep(p) =>
      var m := Match(gr, p, s, i, f);
      if m.Upto? && m.pos > i { NofailSound(gr, t, s, m.pos, f, d); }
    case TTrue =>
    case TCall(r) =>
      if f > 0 { NofailSound(gr, gr[r], s, i, f - 1, d - 1); }
  }

  /** nofail(p)  ==>  nullable(p), and the first set excludes nothing. */
  lemma {:induction false} NofailFirst(gr: Grammar, t: Tree, d: nat, d1: nat)
    requires CheckAux(gr, t, PEnofail, d)
    ensures CheckAux(gr, t, PEnullable, d1)
    ensures FirstTo(gr, t, FULLSET, d1).cs == FULLSET
    decreases d, t
  {
    match t
    case TSeq(p1, p2) =>
      NofailFirst(gr, p1, d, d1);
      NofailFirst(gr, p1, d, DEPTH);
      NofailFirst(gr, p2, d, d1);
    case TChoice(p1, p2) =>
      if CheckAux(gr, p2, PEnofail, d) { NofailFirst(gr, p2, d, d1); } else { NofailFirst(gr, p1, d, d1); }
    case TAnd(p) =>
      NofailFirst(gr, p, d, d1);
    case TRep(p) =>
    case TTrue =>
    case TCall(r) =>
      if d1 > 0 { NofailFirst(gr, gr[r], d - 1, d1 - 1); }
  }

  /** fixedlen(p) == n >= 0  ==>  every match of p consumes exactly n characters. */
  lemma {:induction false} FixedLenSound(gr: Grammar, t: Tree, s: Subject, i: nat, f: nat, d: nat)
    requires i <= |s| && FixedLenTo(gr, t, d) >= 0
    ensures Match(gr, t, s, i, f).Upto? ==> Match(gr, t, s, i, f).pos == i + FixedLenTo(gr, t, d)
    decreases f, t
  {
    match t
    case TSeq(p1, p2) =>
      FixedLenSound(gr, p1, s, i, f, d);
      var m := Match(gr, p1, s, i, f);
      if m.Upto? { FixedLenSound(gr, p2, s, m.pos, f, d); }
    case TChoice(p1, p2) =>
      FixedLenSound(gr, p1, s, i, f, d);
      FixedLenSound(gr, p2, s, i, f, d);
    case TCall(r) =>
      if f > 0 { FixedLenSound(gr, gr[r], s, i, f - 1, d - 1); }
    case _ =>
  }

  /** The next character exists and is outside `cs`. */
  predicate Outside(s: Subject, i: nat, cs: Charset) { i < |s| && s[i] !in cs }

  /** What a character outside a first set leaves: the pattern fails, or it matches the empty
      string and the character cannot follow. */
  predicate Refuses(r: Outcome, s: Subject, i: nat, follow: Charset) {
    r.Upto? ==> r.pos == i && Outside(s, i, follow)
  }

  /** A character outside first(p, follow) makes p fail or match the empty string,
      and in the latter case the character is outside `follow` too. */
  lemma {:induction false} FirstSound(gr: Grammar, t: Tree, follow: Charset, s: Subject, i: nat, f: nat, d: nat)
    requires i <= |s| && Valid(gr, t) && forall r :: 0 <= r < |gr| ==> Valid(gr, gr[r])
    requires Outside(s, i, FirstTo(gr, t, follow, d).cs)
    ensures Refuses(Match(gr, t, s, i, f), s, i, follow)
    decreases f, t
  {
    match t
    case TSeq(p1, p2) =>
      if !Nullable(gr, p1) {
        FirstSound(gr, p1, FULLSET, s, i, f, d);
      } else {
        FirstSound(gr, p1, FirstTo(gr, p2, follow, d).cs, s, i, f, d);
        if Match(gr, p1, s, i, f).Upto? { FirstSound(gr, p2, follow, s, i, f, d); }
      }
    case TChoice(p1, p2) =>
      FirstSound(gr, p1, follow, s, i, f, d);
      FirstSound(gr, p2, follow, s, i, f, d);
    case TRep(p) =>
      FirstSound(gr, p, follow, s, i, f, d);
      NullableSound(gr, p, s, i, f, DEPTH);
    case TAnd(p) =>
      if s[i] in follow { FirstSound(gr, p, follow, s, i, f, d); }
    case TCall(r) =>
      if f > 0 && d > 0 { FirstSound(gr, gr[r], follow, s, i, f - 1, d - 1); }
    case _ =>
  }

  /** A zero return of getfirst means that p does not match at the end of the subject. */
  lemma {:induction false} FirstEmptySound(gr: Grammar, t: Tree, follow: Charset, s: Subject, f: nat, d: nat)
    requires Valid(gr, t) && (forall r :: 0 <= r < |gr| ==> Valid(gr, gr[r])) && !FirstTo(gr, t, follow, d).e
    ensures !Match(gr, t, s, |s|, f).Upto?
    decreases f, t
  {
    match t
    case TSeq(p1, p2) =>
      if !Nullable(gr, p1) {
        FirstEmptySound(gr, p1, FULLSET, s, f, d);
      } else if !FirstTo(gr, p1, FirstTo(gr, p2, follow, d).cs, d).e {
        FirstEmptySound(gr, p1, FirstTo(gr, p2, follow, d).cs, s, f, d);
      } else {
        FirstEmptySound(gr, p2, follow, s, f, d);
      }
    case TChoice(p1, p2) =>
      FirstEmptySound(gr, p1, follow, s, f, d);
      FirstEmptySound(gr, p2, follow, s, f, d);
    case TAnd(p) =>
      FirstEmptySound(gr, p, follow, s, f, d);
    case TCall(r) =>
      if f > 0 && d > 0 { FirstEmptySound(gr, gr[r], follow, s, f - 1, d - 1); }
    case _ =>
  }

  /** headfail(p): getfirst returns zero. */
  lemma {:induction false} HeadfailFirst(gr: Grammar, t: Tree, d: nat)
    requires HeadfailTo(gr, t, d)
    ensures !FirstTo(gr, t, FULLSET, d).e
    decreases d, t
  {
    match t
    case TSeq(p1, p2) =>
      HeadfailFirst(gr, p1, d);
      NofailFirst(gr, p2, DEPTH, d);
    case TChoice(p1, p2) =>
      HeadfailFirst(gr, p1, d);
      HeadfailFirst(gr, p2, d);
    case TAnd(p) =>
      HeadfailFirst(gr, p, d);
    case TCall(r) =>
      HeadfailFirst(gr, gr[r], d - 1);
    case _ =>
  }

  /** headfail(p): p succeeds exactly when the next character exists and is in its first set. */
  lemma {:induction false} HeadfailSound(gr: Grammar, t: Tree, s: Subject, i: nat, f: nat, d: nat)
    requires i <= |s| && HeadfailTo(gr, t, d)
    ensures var r := Match(gr, t, s, i, f);
            r.Out? || (r.Upto? <==> i < |s| && s[i] in FirstTo(gr, t, FULLSET, d).cs)
    decreases f, t
  {
    match t
    case TSeq(p1, p2) =>
      HeadfailSound(gr, p1, s, i, f, d);
      NofailFirst(gr, p2, DEPTH, d);
      var m := Match(gr, p1, s, i, f);
      if m.Upto? { NofailSound(gr, p2, s, m.pos, f, DEPTH); }
    case TChoice(p1, p2) =>
      HeadfailSound(gr, p1, s, i, f, d);
      HeadfailSound(gr, p2, s, i, f, d);
    case TAnd(p) =>
      HeadfailSound(gr, p, s, i, f, d);
    case TCall(r) =>
      if f > 0 { HeadfailSound(gr, gr[r], s, i, f - 1, d - 1); }
    case _ =>
  }
}
