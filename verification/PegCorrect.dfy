/** Code generation preserves meaning: the code of a tree, run anywhere inside a
    program, does what `Match` says the tree does. */
module PegCorrect {
  import opened PegTree
  import opened PegAnalysis
  import opened PegMachine
  import opened PegCodegen
  import opened PegComponents

  /** The call at `a` goes to rule `n`: with a frame, or without when what follows it would only
      return. */
  ghost predicate Calls(m: World, a: nat, n: nat) {
    && n < |m.pos|
    && (Labelled(m, a, ICall, m.pos[n]) || (Labelled(m, a, IJmp, m.pos[n]) && Returns(m, a + 2)))
  }

  /** What is at `q` does nothing but return. */
  ghost predicate Returns(m: World, q: nat) {
    forall i: nat, stk: seq<Entry> {:trigger Run(q, i, stk)} :: i <= |m.s| ==>
      m.Reach(Run(q, i, stk), Return(i, stk))
  }

  /** Slot `a` of the program is what was generated as `x`. */
  ghost predicate SlotAt(m: World, a: nat, x: Slot)
    requires a < |m.code|
  {
    if m.corrected && x.Inst? && x.op == IOpenCall then Calls(m, a, x.aux)
    else if m.corrected && x.Hole? then true
    else m.code[a] == x
  }

  /** The program of `m` holds the sequence `f` at address `p`. */
  ghost predicate At(m: World, p: nat, f: Code) {
    p + |f| <= |m.code| && forall k {:trigger f[k]} :: 0 <= k < |f| ==> SlotAt(m, p + k, f[k])
  }

  lemma AtSlot(m: World, p: nat, f: Code, k: nat)
    requires At(m, p, f) && k < |f|
    ensures SlotAt(m, p + k, f[k])
    ensures !f[k].Hole? && (f[k].Inst? ==> f[k].op != IOpenCall) ==> m.code[p + k] == f[k]
  {
  }

  lemma WholeAt(m: World)
    requires !m.corrected
    ensures At(m, 0, m.code)
  {
    forall k {:trigger m.code[k]} | 0 <= k < |m.code| ensures SlotAt(m, 0 + k, m.code[k]) { }
  }

  lemma AtSplit(m: World, p: nat, f: Code, g: Code)
    requires At(m, p, f + g)
    ensures At(m, p, f) && At(m, p + |f|, g)
  {
    hide SlotAt;
    var fg := f + g;
    forall k {:trigger f[k]} | 0 <= k < |f| ensures SlotAt(m, p + k, f[k]) { assert fg[k] == f[k]; }
    forall k {:trigger g[k]} | 0 <= k < |g| ensures SlotAt(m, p + |f| + k, g[k]) { assert fg[|f| + k] == g[k]; }
  }

  lemma AtSplit3(m: World, p: nat, f: Code, g: Code, h: Code)
    requires At(m, p, f + g + h)
    ensures At(m, p, f) && At(m, p + |f|, g) && At(m, p + |f| + |g|, h)
  {
    AtSplit(m, p, f + g, h);
    AtSplit(m, p, f, g);
  }

  lemma PlainAt(m: World, p: nat, op: Opcode, aux: Byte)
    requires At(m, p, [Inst(op, aux)]) && SizeI(op) == 1
    ensures Plain(m, p, op, aux)
  {
    AtSlot(m, p, [Inst(op, aux)], 0);
  }

  lemma LabelledAt(m: World, p: nat, op: Opcode, off: int)
    requires At(m, p, OffInst(op, 0, off)) && SizeI(op) == 2 && op != IOpenCall && 0 <= p + off
    ensures Labelled(m, p, op, p + off)
  {
    AtSlot(m, p, OffInst(op, 0, off), 0);
    AtSlot(m, p, OffInst(op, 0, off), 1);
  }

  /** A test goes on when the next character is in the set and jumps otherwise. */
  lemma TestsAt(m: World, g: Guard, off: nat, p: nat)
    requires !g.e && g.Valid() && At(m, p, g.Code(off))
    ensures Tests(m, g.cs, p, p + g.Size(), p + off)
  {
    AtSlot(m, p, g.Code(off), 0);
    AtSlot(m, p, g.Code(off), 1);
    if g.k.General? { AtSlot(m, p, g.Code(off), 2); }
    forall i: nat, stk: seq<Entry> {:trigger Run(p, i, stk)} | i <= |m.s|
      ensures m.Reach(Run(p, i, stk), Run(if NextIn(m.s, i, g.cs) then p + g.Size() else p + off, i, stk))
    {
      m.One(Run(p, i, stk), Run(if NextIn(m.s, i, g.cs) then p + g.Size() else p + off, i, stk));
    }
  }

  lemma FirstGuards(m: World, b: Tree, g: Guard, p: nat, q: nat, l: nat)
    requires Valid(m.gr, b) && m.RulesValid()
    requires g.cs == GetFirst(m.gr, b, FULLSET).cs && g.e == GetFirst(m.gr, b, FULLSET).e
    requires if g.e then p == q else Tests(m, g.cs, p, q, l)
    ensures Guards(m, b, g, p, q, l)
  {
    if !g.e {
      forall i: nat | i <= |m.s| && !NextIn(m.s, i, g.cs) ensures !m.Mean(b, i).Upto? { TestRefutes(m, b, i); }
    }
  }

  // Where the pieces of each shape are.

  lemma AndLayout(m: World, p: nat, c: Code)
    requires At(m, p, AndGeneral(c))
    ensures |AndGeneral(c)| == |c| + 5 && At(m, p + 2, c)
    ensures Labelled(m, p, IChoice, p + |c| + 4) && Labelled(m, p + |c| + 2, IBackCommit, p + |c| + 5)
    ensures Plain(m, p + |c| + 4, IFail, 0)
  {
    hide At;
    hide Labelled;
    hide Plain;
    hide Tests;
    var choice, back := OffInst(IChoice, 0, 2 + |c| + 2), OffInst(IBackCommit, 0, 3);
    assert AndGeneral(c) == choice + c + back + [Inst(IFail, 0)];
    hide AndGeneral;
    assert p + |choice + c + back| == p + 2 + |c| + 2;
    AtSplit(m, p, choice + c + back, [Inst(IFail, 0)]);
    AtSplit3(m, p, choice, c, back);
    LabelledAt(m, p, IChoice, 2 + |c| + 2);
    LabelledAt(m, p + 2 + |c|, IBackCommit, 3);
    PlainAt(m, p + 2 + |c| + 2, IFail, 0);
  }

  lemma NotHeadfailLayout(m: World, p: nat, g: Guard)
    requires !g.e && g.Valid() && At(m, p, NotHeadfail(g))
    ensures var n := g.Size();
            |NotHeadfail(g)| == n + 1 && Tests(m, g.cs, p, p + n, p + n + 1) && Plain(m, p + n, IFail, 0)
  {
    hide Labelled;
    hide Plain;
    hide Tests;
    GuardedLayout(m, p, g, g.Size() + 1, [Inst(IFail, 0)]);
    PlainAt(m, p + g.Size(), IFail, 0);
  }

  /** A leading test, or none, and what it protects. */
  lemma GuardedLayout(m: World, p: nat, g: Guard, off: nat, body: Code)
    requires g.Valid() && At(m, p, g.Code(off) + body)
    ensures At(m, p + g.Size(), body)
    ensures if g.e then g.Size() == 0 else Tests(m, g.cs, p, p + g.Size(), p + off)
  {
    hide Labelled;
    hide Plain;
    hide Tests;
    AtSplit(m, p, g.Code(off), body);
    if !g.e { TestsAt(m, g, off, p); }
  }

  lemma NotLayout(m: World, p: nat, c: Code)
    requires At(m, p, NotBody(c))
    ensures |NotBody(c)| == |c| + 3 && At(m, p + 2, c)
    ensures Labelled(m, p, IChoice, p + |c| + 3) && Plain(m, p + |c| + 2, IFailTwice, 0)
  {
    hide Labelled;
    hide Plain;
    hide Tests;
    var choice := OffInst(IChoice, 0, 2 + |c| + 1);
    AtSplit3(m, p, choice, c, [Inst(IFailTwice, 0)]);
    LabelledAt(m, p, IChoice, 2 + |c| + 1);
    PlainAt(m, p + 2 + |c|, IFailTwice, 0);
  }

  lemma ChoiceTestedLayout(m: World, p: nat, c1: Code, emptyp2: bool, c2: Code)
    requires At(m, p, ChoiceTestedBody(c1, emptyp2, c2))
    ensures var l := |c1| + if emptyp2 then 0 else 2;
            && |ChoiceTestedBody(c1, emptyp2, c2)| == l + |c2|
            && At(m, p, c1) && At(m, p + l, c2)
            && (emptyp2 || Labelled(m, p + |c1|, IJmp, p + l + |c2|))
  {
    hide Labelled;
    hide Plain;
    hide Tests;
    AtSplit3(m, p, c1, if emptyp2 then [] else OffInst(IJmp, 0, 2 + |c2|), c2);
    if !emptyp2 { LabelledAt(m, p + |c1|, IJmp, 2 + |c2|); }
  }

  lemma ChoiceReusedLayout(m: World, p: nat, c1: Code)
    requires At(m, p, ChoiceReused(c1))
    ensures |ChoiceReused(c1)| == |c1| + 2 && Labelled(m, p, IPartialCommit, p + 2) && At(m, p + 2, c1)
  {
    hide Labelled;
    hide Plain;
    hide Tests;
    AtSplit(m, p, OffInst(IPartialCommit, 0, 2), c1);
    LabelledAt(m, p, IPartialCommit, 2);
  }

  lemma ChoiceLayout(m: World, p: nat, c1: Code, c2: Code)
    requires At(m, p, ChoiceBody(c1, c2))
    ensures |ChoiceBody(c1, c2)| == |c1| + 4 + |c2| && At(m, p + 2, c1) && At(m, p + |c1| + 4, c2)
    ensures Labelled(m, p, IChoice, p + |c1| + 4)
    ensures Labelled(m, p + 2 + |c1|, ICommit, p + |c1| + 4 + |c2|)
  {
    hide Labelled;
    hide Plain;
    hide Tests;
    var choice, commit := OffInst(IChoice, 0, 2 + |c1| + 2), OffInst(ICommit, 0, 2 + |c2|);
    AtSplit(m, p, choice + c1 + commit, c2);
    AtSplit3(m, p, choice, c1, commit);
    LabelledAt(m, p, IChoice, 2 + |c1| + 2);
    LabelledAt(m, p + 2 + |c1|, ICommit, 2 + |c2|);
  }

  lemma RepTestedLayout(m: World, p: nat, n: nat, c: Code)
    requires At(m, p + n, RepTestedBody(n, c))
    ensures |RepTestedBody(n, c)| == |c| + 2 && At(m, p + n, c) && Labelled(m, p + n + |c|, IJmp, p)
  {
    hide Labelled;
    hide Plain;
    hide Tests;
    AtSplit(m, p + n, c, OffInst(IJmp, 0, -(n + |c|)));
    LabelledAt(m, p + n + |c|, IJmp, -(n + |c|));
  }

  lemma RepLayout(m: World, p: nat, opt: bool, c: Code)
    requires At(m, p, RepBody(opt, c))
    ensures |RepBody(opt, c)| == |c| + 4 && At(m, p + 2, c)
    ensures if opt then Labelled(m, p, IPartialCommit, p + 2) else Labelled(m, p, IChoice, p + |c| + 4)
    ensures Labelled(m, p + 2 + |c|, IPartialCommit, p + 2)
  {
    hide Labelled;
    hide Plain;
    hide Tests;
    var op, off := if opt then IPartialCommit else IChoice, if opt then 2 else 2 + |c| + 2;
    AtSplit3(m, p, OffInst(op, 0, off), c, OffInst(IPartialCommit, 0, -|c|));
    LabelledAt(m, p, op, off);
    LabelledAt(m, p + 2 + |c|, IPartialCommit, -|c|);
  }

  lemma InfoHolds(g: Guard, s: Subject)
    requires g.Valid()
    ensures forall i: nat | g.e || NextIn(s, i, g.cs) :: TestHolds(g.Info(), s, i)
  {}

  lemma GuardOfIs(gr: Grammar, t: Tree, always: bool)
    ensures GuardOf(gr, t, always).Valid()
  {
    KindOfIs(GetFirst(gr, t, FULLSET).cs, KindOf(GetFirst(gr, t, FULLSET).cs));
  }

  /** The condition under which the code does without a choice makes its test decisive. */
  lemma TestDecides(m: World, b: Tree, g: Guard, follow: Charset)
    requires Valid(m.gr, b) && m.RulesValid() && g.Valid() && !g.e && g.cs == GetFirst(m.gr, b, FULLSET).cs
    requires Headfail(m.gr, b) || (!GetFirst(m.gr, b, FULLSET).e && g.cs !! follow)
    ensures Decides(m, b, g.cs, g.Info(), follow)
  {
    InfoHolds(g, m.s);
    forall i: nat {:trigger NextIn(m.s, i, g.cs)} | i <= |m.s|
      ensures NextIn(m.s, i, g.cs) ==> !m.Mean(b, i).Fail? || g.cs !! follow
      ensures !NextIn(m.s, i, g.cs) ==> !m.Mean(b, i).Upto?
    {
      if Headfail(m.gr, b) { HeadfailSound(m.gr, b, m.s, i, m.fuel, DEPTH); }
      else if !NextIn(m.s, i, g.cs) { TestRefutes(m, b, i); }
    }
  }

  /** When the next character is not in first(b), `b` does not match. */
  lemma TestRefutes(m: World, b: Tree, i: nat)
    requires Valid(m.gr, b) && m.RulesValid() && i <= |m.s| && !GetFirst(m.gr, b, FULLSET).e
    requires !NextIn(m.s, i, GetFirst(m.gr, b, FULLSET).cs)
    ensures !m.Mean(b, i).Upto?
  {
    if i < |m.s| {
      FirstSound(m.gr, b, FULLSET, m.s, i, m.fuel, DEPTH);
    } else {
      FirstEmptySound(m.gr, b, FULLSET, m.s, m.fuel, DEPTH);
    }
  }

  /** The code `c` implements `t` wherever it is placed in the program. */
  ghost predicate Good(m: World, t: Tree, opt: bool, tt: Test, fl: Charset, c: Code) {
    forall p: nat {:trigger At(m, p, c)} | At(m, p, c) :: Implements(m, t, opt, tt, fl, p, p + |c|)
  }

  lemma FixedHasLen(m: World, b: Tree)
    ensures FixedLen(m.gr, b) >= 0 ==> HasLen(m, b, FixedLen(m.gr, b))
  {
    if FixedLen(m.gr, b) >= 0 {
      forall i: nat | i <= |m.s| && m.Mean(b, i).Upto? ensures m.Mean(b, i).pos == i + FixedLen(m.gr, b) {
        FixedLenSound(m.gr, b, m.s, i, m.fuel, MAXRULES);
      }
    }
  }

  lemma SeqGood(m: World, p1: Tree, p2: Tree, opt: bool, tt: Test, fl: Charset, c1: Code, c2: Code)
    requires Valid(m.gr, p2) && m.RulesValid() && Good(m, p1, false, tt, FollowOfFirst(m.gr, p1, p2, fl), c1) &&
               Good(m, p2, opt, TestAfter(m.gr, p1, tt), fl, c2)
    ensures Good(m, TSeq(p1, p2), opt, tt, fl, c1 + c2)
  {
    hide Implements;
    hide Tests;
    hide Guards;
    var code := c1 + c2;
    forall p: nat {:trigger At(m, p, code)} | At(m, p, code)
      ensures Implements(m, TSeq(p1, p2), opt, tt, fl, p, p + |code|)
    {
      AtSplit(m, p, c1, c2);
      SeqImplements(m, p1, p2, opt, tt, FollowOfFirst(m.gr, p1, p2, fl), fl, p, p + |c1|, p + |code|);
    }
  }

  lemma BehindGood(m: World, n: nat, b: Tree, opt: bool, tt: Test, fl: Charset, c: Code)
    requires HasLen(m, b, n) && n <= MAXBEHIND && Good(m, b, false, NoTest, FULLSET, c)
    ensures Good(m, TBehind(n, b), opt, tt, fl, BehindCode(n) + c)
  {
    hide Implements;
    hide Tests;
    hide Guards;
    var code := BehindCode(n) + c;
    forall p: nat {:trigger At(m, p, code)} | At(m, p, code)
      ensures Implements(m, TBehind(n, b), opt, tt, fl, p, p + |code|)
    {
      AtSplit(m, p, BehindCode(n), c);
      if n > 0 { PlainAt(m, p, IBehind, n); }
      BehindImplements(m, b, n, opt, tt, fl, p, p + |BehindCode(n)|, p + |code|);
    }
  }

  lemma AndFixedGood(m: World, n: nat, b: Tree, opt: bool, tt: Test, fl: Charset, c: Code)
    requires HasLen(m, b, n) && n <= MAXBEHIND && Good(m, b, false, tt, FULLSET, c)
    ensures Good(m, TAnd(b), opt, tt, fl, c + BehindCode(n))
  {
    hide Implements;
    hide Tests;
    hide Guards;
    var code := c + BehindCode(n);
    forall p: nat {:trigger At(m, p, code)} | At(m, p, code)
      ensures Implements(m, TAnd(b), opt, tt, fl, p, p + |code|)
    {
      AtSplit(m, p, c, BehindCode(n));
      if n > 0 { PlainAt(m, p + |c|, IBehind, n); }
      AndFixedImplements(m, b, n, opt, tt, fl, p, p + |c|, p + |code|);
    }
  }

  lemma AndGood(m: World, b: Tree, opt: bool, tt: Test, fl: Charset, c: Code)
    requires Good(m, b, false, tt, FULLSET, c)
    ensures Good(m, TAnd(b), opt, tt, fl, AndGeneral(c))
  {
    hide Implements;
    hide Tests;
    hide Guards;
    var code := AndGeneral(c);
    forall p: nat {:trigger At(m, p, code)} | At(m, p, code)
      ensures Implements(m, TAnd(b), opt, tt, fl, p, p + |code|)
    {
      AndLayout(m, p, c);
      AndImplements(m, b, opt, tt, fl, p, p + |c| + 2);
    }
  }

  lemma HeadfailGuard(m: World, b: Tree)
    requires Headfail(m.gr, b)
    ensures !GuardOf(m.gr, b, false).e && GuardOf(m.gr, b, false).Valid()
    ensures forall i: nat | i <= |m.s| :: var r := m.Mean(b, i);
              r.Out? || (r.Upto? <==> NextIn(m.s, i, GuardOf(m.gr, b, false).cs))
  {
    GuardOfIs(m.gr, b, false);
    HeadfailFirst(m.gr, b, DEPTH);
    forall i: nat | i <= |m.s|
      ensures var r := m.Mean(b, i); r.Out? || (r.Upto? <==> NextIn(m.s, i, GuardOf(m.gr, b, false).cs))
    {
      HeadfailSound(m.gr, b, m.s, i, m.fuel, DEPTH);
    }
  }

  lemma NotHeadfailGood(m: World, b: Tree, opt: bool, tt: Test, fl: Charset, g: Guard)
    requires Headfail(m.gr, b) && g == GuardOf(m.gr, b, false)
    ensures Good(m, TNot(b), opt, tt, fl, NotHeadfail(g))
  {
    hide Implements;
    hide Tests;
    hide GuardOf;
    hide Headfail;
    hide World.Mean;
    hide NotHeadfail;
    HeadfailGuard(m, b);
    var code := NotHeadfail(g);
    forall p: nat {:trigger At(m, p, code)} | At(m, p, code)
      ensures Implements(m, TNot(b), opt, tt, fl, p, p + |code|)
    {
      NotHeadfailLayout(m, p, g);
      NotHeadfailImplements(m, b, opt, tt, fl, g.cs, p, p + g.Size());
    }
  }

  lemma NotBodyOk(m: World, b: Tree, opt: bool, tt: Test, fl: Charset, g: Guard, c: Code, p: nat, n: nat)
    requires Good(m, b, false, NoTest, FULLSET, c) && At(m, n, NotBody(c))
    requires Guards(m, b, g, p, n, n + |c| + 3)
    ensures |NotBody(c)| == |c| + 3 && Implements(m, TNot(b), opt, tt, fl, p, n + |c| + 3)
  {
    hide Implements;
    hide Tests;
    hide Guards;
    NotLayout(m, n, c);
    NotImplements(m, b, opt, tt, fl, g, p, n, n + |c| + 2);
  }

  lemma NotGood(m: World, b: Tree, opt: bool, tt: Test, fl: Charset, g: Guard, c: Code)
    requires Valid(m.gr, b) && m.RulesValid() && g == GuardOf(m.gr, b, false) && Good(m, b, false, NoTest, FULLSET, c)
    ensures Good(m, TNot(b), opt, tt, fl, NotGeneral(g, c))
  {
    hide Implements;
    hide Tests;
    hide Guards;
    GuardOfIs(m.gr, b, false);
    var code, n := NotGeneral(g, c), g.Size();
    forall p: nat {:trigger At(m, p, code)} | At(m, p, code)
      ensures Implements(m, TNot(b), opt, tt, fl, p, p + |code|)
    {
      GuardedLayout(m, p, g, n + 2 + |c| + 1, NotBody(c));
      FirstGuards(m, b, g, p, p + n, p + n + |c| + 3);
      NotBodyOk(m, b, opt, tt, fl, g, c, p, p + n);
    }
  }

  lemma ChoiceTestedBodyOk(m: World, p1: Tree, p2: Tree, opt: bool, tt1: Test, tt: Test, fl: Charset, cs: Charset,
                           c1: Code, c2: Code, p: nat, n: nat)
    requires Valid(m.gr, p2) && m.RulesValid() && (p2.TTrue? ==> c2 == [])
    requires Decides(m, p1, cs, tt1, GetFirst(m.gr, p2, fl).cs)
    requires Good(m, p1, false, tt1, fl, c1) && Good(m, p2, opt, NoTest, fl, c2)
    requires At(m, n, ChoiceTestedBody(c1, p2.TTrue?, c2))
    requires Tests(m, cs, p, n, n + |c1| + if p2.TTrue? then 0 else 2)
    ensures Implements(m, TChoice(p1, p2), opt, tt, fl, p, n + |ChoiceTestedBody(c1, p2.TTrue?, c2)|)
  {
    hide Implements;
    hide Tests;
    hide Guards;
    ChoiceTestedLayout(m, n, c1, p2.TTrue?, c2);
    var l := n + |c1| + if p2.TTrue? then 0 else 2;
    ChoiceTestedImplements(m, p1, p2, opt, tt1, tt, fl, cs, p, n, n + |c1|, l, l + |c2|);
  }

  lemma ChoiceTestedGood(m: World, p1: Tree, p2: Tree, opt: bool, tt: Test, fl: Charset, g: Guard, c1: Code, c2: Code)
    requires Valid(m.gr, p1) && m.RulesValid() && Valid(m.gr, p2)
    requires g == GuardOf(m.gr, p1, true) && TestedChoice(m.gr, p1, p2, fl)
    requires p2.TTrue? ==> c2 == []
    requires Good(m, p1, false, g.Info(), fl, c1) && Good(m, p2, opt, NoTest, fl, c2)
    ensures Good(m, TChoice(p1, p2), opt, tt, fl, ChoiceTested(g, c1, p2.TTrue?, c2))
  {
    hide Decides;
    hide TestedChoice;
    hide GuardOf;
    hide Implements;
    hide At;
    hide ChoiceTested;
    hide GetFirst;
    hide Valid;
    hide World.RulesValid;
    ChoiceDecides(m, p1, p2, fl);
    var code := ChoiceTested(g, c1, p2.TTrue?, c2);
    forall p: nat {:trigger At(m, p, code)} | At(m, p, code)
      ensures Implements(m, TChoice(p1, p2), opt, tt, fl, p, p + |code|)
    {
      hide *;
      ChoiceTestedAt(m, p1, p2, opt, tt, fl, g, c1, c2, p);
    }
  }

  lemma ChoiceDecides(m: World, p1: Tree, p2: Tree, fl: Charset)
    requires Valid(m.gr, p1) && m.RulesValid() && TestedChoice(m.gr, p1, p2, fl)
    ensures var g := GuardOf(m.gr, p1, true);
            g.Valid() && !g.e && Decides(m, p1, g.cs, g.Info(), GetFirst(m.gr, p2, fl).cs)
  {
    GuardOfIs(m.gr, p1, true);
    hide Decides;
    TestDecides(m, p1, GuardOf(m.gr, p1, true), GetFirst(m.gr, p2, fl).cs);
  }

  lemma ChoiceTestedAt(m: World, p1: Tree, p2: Tree, opt: bool, tt: Test, fl: Charset, g: Guard, c1: Code, c2: Code,
                       p: nat)
    requires Valid(m.gr, p2) && m.RulesValid() && g.Valid() && !g.e && (p2.TTrue? ==> c2 == [])
    requires Decides(m, p1, g.cs, g.Info(), GetFirst(m.gr, p2, fl).cs)
    requires Good(m, p1, false, g.Info(), fl, c1) && Good(m, p2, opt, NoTest, fl, c2)
    requires At(m, p, ChoiceTested(g, c1, p2.TTrue?, c2))
    ensures Implements(m, TChoice(p1, p2), opt, tt, fl, p, p + |ChoiceTested(g, c1, p2.TTrue?, c2)|)
  {
    hide At;
    hide Correct;
    hide Implements;
    hide Tests;
    hide Decides;
    hide Good;
    hide GetFirst;
    hide Guard.Code;
    hide Guard.Info;
    hide ChoiceTestedBody;
    var n, jmp := g.Size(), if p2.TTrue? then 0 else 2;
    GuardedLayout(m, p, g, n + |c1| + jmp, ChoiceTestedBody(c1, p2.TTrue?, c2));
    ChoiceTestedBodyOk(m, p1, p2, opt, g.Info(), tt, fl, g.cs, c1, c2, p, p + n);
  }

  lemma ChoiceReusedGood(m: World, p1: Tree, tt: Test, fl: Charset, c1: Code)
    requires Good(m, p1, true, NoTest, FULLSET, c1)
    ensures Good(m, TChoice(p1, TTrue), true, tt, fl, ChoiceReused(c1))
  {
    hide Implements;
    hide Tests;
    hide Guards;
    var code := ChoiceReused(c1);
    forall p: nat {:trigger At(m, p, code)} | At(m, p, code)
      ensures Implements(m, TChoice(p1, TTrue), true, tt, fl, p, p + |code|)
    {
      ChoiceReusedLayout(m, p, c1);
      ChoiceReusedImplements(m, p1, tt, fl, p, p + |c1| + 2);
    }
  }

  lemma ChoiceBodyOk(m: World, p1: Tree, p2: Tree, opt: bool, tt1: Test, tt: Test, fl: Charset, g: Guard,
                     c1: Code, c2: Code, p: nat, n: nat)
    requires (p2.TTrue? ==> c2 == []) && forall i: nat | g.e || NextIn(m.s, i, g.cs) :: TestHolds(tt1, m.s, i)
    requires Good(m, p1, p2.TTrue?, tt1, FULLSET, c1) && Good(m, p2, opt, NoTest, fl, c2)
    requires At(m, n, ChoiceBody(c1, c2)) && Guards(m, p1, g, p, n, n + |c1| + 4)
    ensures Implements(m, TChoice(p1, p2), opt, tt, fl, p, n + |ChoiceBody(c1, c2)|)
  {
    hide Implements;
    hide Tests;
    hide Guards;
    ChoiceLayout(m, n, c1, c2);
    ChoiceImplements(m, p1, p2, opt, tt1, tt, fl, g, p, n, n + 2 + |c1|, n + |c1| + 4 + |c2|);
  }

  lemma ChoiceGood(m: World, p1: Tree, p2: Tree, opt: bool, tt: Test, fl: Charset, g: Guard, c1: Code, c2: Code)
    requires Valid(m.gr, p1) && m.RulesValid() && g == GuardOf(m.gr, p1, false) && (p2.TTrue? ==> c2 == [])
    requires Good(m, p1, p2.TTrue?, g.Info(), FULLSET, c1) && Good(m, p2, opt, NoTest, fl, c2)
    ensures Good(m, TChoice(p1, p2), opt, tt, fl, ChoiceGeneral(g, c1, c2))
  {
    var code := ChoiceGeneral(g, c1, c2);
    forall p: nat {:trigger At(m, p, code)} | At(m, p, code)
      ensures Implements(m, TChoice(p1, p2), opt, tt, fl, p, p + |code|)
    {
      hide *;
      ChoiceAt(m, p1, p2, opt, tt, fl, g, c1, c2, p);
    }
  }

  lemma ChoiceAt(m: World, p1: Tree, p2: Tree, opt: bool, tt: Test, fl: Charset, g: Guard, c1: Code, c2: Code,
                 p: nat)
    requires Valid(m.gr, p1) && m.RulesValid() && g == GuardOf(m.gr, p1, false) && (p2.TTrue? ==> c2 == [])
    requires Good(m, p1, p2.TTrue?, g.Info(), FULLSET, c1) && Good(m, p2, opt, NoTest, fl, c2)
    requires At(m, p, ChoiceGeneral(g, c1, c2))
    ensures Implements(m, TChoice(p1, p2), opt, tt, fl, p, p + |ChoiceGeneral(g, c1, c2)|)
  {
    hide At;
    hide Correct;
    hide Implements;
    hide Tests;
    hide Guards;
    hide Good;
    hide GetFirst;
    hide Guard.Code;
    hide Guard.Size;
    hide Guard.Info;
    hide Guard.Valid;
    hide ChoiceBody;
    hide TestHolds;
    GuardOfIs(m.gr, p1, false);
    InfoHolds(g, m.s);
    var n := g.Size();
    GuardedLayout(m, p, g, n + 2 + |c1| + 2, ChoiceBody(c1, c2));
    FirstGuards(m, p1, g, p, p + n, p + n + |c1| + 4);
    ChoiceBodyOk(m, p1, p2, opt, g.Info(), tt, fl, g, c1, c2, p, p + n);
  }

  lemma RepTestedBodyOk(m: World, b: Tree, opt: bool, tt1: Test, tt: Test, fl: Charset, cs: Charset, c: Code, p: nat,
                        n: nat)
    requires !Nullable(m.gr, b) && Decides(m, b, cs, tt1, fl) && Good(m, b, false, tt1, FULLSET, c)
    requires At(m, p + n, RepTestedBody(n, c)) && Tests(m, cs, p, p + n, p + n + |c| + 2)
    ensures Implements(m, TRep(b), opt, tt, fl, p, p + n + |RepTestedBody(n, c)|)
  {
    hide Implements;
    hide Tests;
    hide Guards;
    RepTestedLayout(m, p, n, c);
    RepTestedImplements(m, b, opt, tt1, tt, fl, cs, p, p + n, p + n + |c|);
  }

  lemma RepTestedGood(m: World, b: Tree, opt: bool, tt: Test, fl: Charset, g: Guard, c: Code)
    requires Valid(m.gr, b) && m.RulesValid() && !Nullable(m.gr, b)
    requires g == GuardOf(m.gr, b, true) && TestedRep(m.gr, b, fl)
    requires Good(m, b, false, g.Info(), FULLSET, c)
    ensures Good(m, TRep(b), opt, tt, fl, RepTested(g, c))
  {
    hide Decides;
    hide TestedRep;
    hide GuardOf;
    hide Implements;
    hide At;
    hide RepTested;
    hide GetFirst;
    hide Valid;
    hide World.RulesValid;
    RepDecides(m, b, fl);
    var code := RepTested(g, c);
    forall p: nat {:trigger At(m, p, code)} | At(m, p, code)
      ensures Implements(m, TRep(b), opt, tt, fl, p, p + |code|)
    {
      hide *;
      RepTestedAt(m, b, opt, tt, fl, g, c, p);
    }
  }

  lemma RepDecides(m: World, b: Tree, fl: Charset)
    requires Valid(m.gr, b) && m.RulesValid() && TestedRep(m.gr, b, fl)
    ensures var g := GuardOf(m.gr, b, true);
            g.Valid() && !g.e && Decides(m, b, g.cs, g.Info(), fl)
  {
    GuardOfIs(m.gr, b, true);
    hide Decides;
    TestDecides(m, b, GuardOf(m.gr, b, true), fl);
  }

  lemma RepTestedAt(m: World, b: Tree, opt: bool, tt: Test, fl: Charset, g: Guard, c: Code, p: nat)
    requires !Nullable(m.gr, b) && g.Valid() && !g.e && Decides(m, b, g.cs, g.Info(), fl)
    requires Good(m, b, false, g.Info(), FULLSET, c) && At(m, p, RepTested(g, c))
    ensures Implements(m, TRep(b), opt, tt, fl, p, p + |RepTested(g, c)|)
  {
    hide At;
    hide Correct;
    hide Implements;
    hide Tests;
    hide Decides;
    hide Good;
    hide Guard.Code;
    hide Guard.Info;
    hide RepTestedBody;
    GuardedLayout(m, p, g, g.Size() + |c| + 2, RepTestedBody(g.Size(), c));
    RepTestedBodyOk(m, b, opt, g.Info(), tt, fl, g.cs, c, p, g.Size());
  }

  lemma RepBodyOk(m: World, b: Tree, opt: bool, tt: Test, fl: Charset, g: Guard, c: Code, p: nat, n: nat)
    requires !Nullable(m.gr, b) && Good(m, b, false, NoTest, FULLSET, c) && At(m, n, RepBody(opt, c))
    requires Guards(m, b, g, p, n, n + |c| + 4)
    ensures Implements(m, TRep(b), opt, tt, fl, p, n + |RepBody(opt, c)|)
  {
    hide Implements;
    hide Tests;
    hide Guards;
    RepLayout(m, n, opt, c);
    RepImplements(m, b, opt, tt, fl, g, p, n, n + 2 + |c|);
  }

  lemma RepGood(m: World, b: Tree, opt: bool, tt: Test, fl: Charset, g: Guard, c: Code)
    requires Valid(m.gr, b) && m.RulesValid() && !Nullable(m.gr, b)
    requires g == GuardOf(m.gr, b, false) && Good(m, b, false, NoTest, FULLSET, c)
    ensures Good(m, TRep(b), opt, tt, fl, RepGeneral(g, opt, c))
  {
    hide Implements;
    hide Tests;
    hide Guards;
    GuardOfIs(m.gr, b, false);
    var code, n := RepGeneral(g, opt, c), g.Size();
    forall p: nat {:trigger At(m, p, code)} | At(m, p, code)
      ensures Implements(m, TRep(b), opt, tt, fl, p, p + |code|)
    {
      GuardedLayout(m, p, g, n + 2 + |c| + 2, RepBody(opt, c));
      FirstGuards(m, b, g, p, p + n, p + n + |c| + 4);
      RepBodyOk(m, b, opt, tt, fl, g, c, p, p + n);
    }
  }

  lemma SpanGood(m: World, b: Tree, opt: bool, tt: Test, fl: Charset)
    requires IsCharset(b)
    ensures Good(m, TRep(b), opt, tt, fl, RepSpan(ToCharset(b)))
  {
    var c := RepSpan(ToCharset(b));
    forall p: nat {:trigger At(m, p, c)} | At(m, p, c)
      ensures Implements(m, TRep(b), opt, tt, fl, p, p + |c|)
    {
      AtSlot(m, p, c, 0);
      AtSlot(m, p, c, 1);
      forall i: nat, stk: seq<Entry> {:trigger Run(p, i, stk)} | i <= |m.s|
        ensures Correct(m, TRep(b), opt, fl, Run(p, i, stk), p + |c|, i, stk)
      {
        SpanIsRep(m, b, i);
        m.One(Run(p, i, stk), Run(p + |c|, Span(m.s, i, ToCharset(b)), stk));
      }
    }
  }

  /** The code of a pattern that is one instruction, or none. */
  lemma LeafGood(m: World, t: Tree, opt: bool, tt: Test, fl: Charset, c: Code)
    requires t.TChar? || t.TSet? || t.TAny? || t.TTrue? || t.TFalse?
    requires c == Gen(m.gr, t, opt, tt, fl)
    ensures Good(m, t, opt, tt, fl, c)
  {
    forall p: nat {:trigger At(m, p, c)} | At(m, p, c)
      ensures Implements(m, t, opt, tt, fl, p, p + |c|)
    {
      forall i: nat, stk: seq<Entry> {:trigger Run(p, i, stk)}
        | i <= |m.s| && TestHolds(tt, m.s, i) && (opt ==> OnChoice(stk))
        ensures Correct(m, t, opt, fl, Run(p, i, stk), p + |c|, i, stk)
      {
        hide *;
        LeafRuns(m, t, opt, tt, fl, c, p, i, stk);
      }
    }
  }

  lemma LeafRuns(m: World, t: Tree, opt: bool, tt: Test, fl: Charset, c: Code, p: nat, i: nat, stk: seq<Entry>)
    requires t.TChar? || t.TSet? || t.TAny? || t.TTrue? || t.TFalse?
    requires c == Gen(m.gr, t, opt, tt, fl) && At(m, p, c) && i <= |m.s| && TestHolds(tt, m.s, i)
    ensures Correct(m, t, opt, fl, Run(p, i, stk), p + |c|, i, stk)
  {
    hide World.Reach;
    if t.TTrue? {
      m.Refl(Run(p, i, stk));
    } else if t.TSet? {
      SetRuns(m, t.cs, tt, p, i, stk);
      hide At;
      hide CharsetCode;
      hide HasKind;
      hide Machine.Step;
    } else {
      CharRuns(m, t, tt, c, p, i, stk);
      hide At;
      hide Machine.Step;
    }
  }

  lemma CharRuns(m: World, t: Tree, tt: Test, c: Code, p: nat, i: nat, stk: seq<Entry>)
    requires c == (if t.TChar? then CharCode(t.c, tt) else if t.TAny? then [Inst(IAny, 0)] else [Inst(IFail, 0)])
    requires (t.TChar? || t.TAny? || t.TFalse?) && At(m, p, c) && i <= |m.s| && TestHolds(tt, m.s, i)
    ensures m.Reach(Run(p, i, stk), if m.Mean(t, i).Upto? then Run(p + |c|, i + 1, stk) else Backtrack(stk))
  {
    hide World.Reach;
    hide Match;
    AtSlot(m, p, c, 0);
    hide At;
    CharMeans(m, t, i);
    m.One(Run(p, i, stk), if m.Mean(t, i).Upto? then Run(p + |c|, i + 1, stk) else Backtrack(stk));
  }

  lemma CharMeans(m: World, t: Tree, i: nat)
    requires (t.TChar? || t.TAny? || t.TFalse?) && i <= |m.s|
    ensures m.Mean(t, i).Upto? <==> i < |m.s| && (t.TAny? || (t.TChar? && m.s[i] == t.c))
  {
  }

  lemma SetRuns(m: World, cs: Charset, tt: Test, p: nat, i: nat, stk: seq<Entry>)
    requires At(m, p, CharsetCode(cs, tt)) && i <= |m.s| && TestHolds(tt, m.s, i)
    ensures m.Reach(Run(p, i, stk),
              if NextIn(m.s, i, cs) then Run(p + |CharsetCode(cs, tt)|, i + 1, stk) else Backtrack(stk))
  {
    hide World.Reach;
    var c := CharsetCode(cs, tt);
    KindOfIs(cs, KindOf(cs));
    AtSlot(m, p, c, 0);
    if c[0].op.ISet? { AtSlot(m, p, c, 1); }
    m.One(Run(p, i, stk), if NextIn(m.s, i, cs) then Run(p + |c|, i + 1, stk) else Backtrack(stk));
  }

  // Calls

  /** The code of rule `n` is where calls go, with its return. */
  ghost predicate RulePlaced(m: World, n: nat)
    requires m.RulesValid() && n < |m.gr| == |m.pos|
  {
    At(m, m.pos[n], Gen(m.gr, m.gr[n], false, NoTest, FULLSET) + [Inst(IRet, 0)])
  }

  ghost predicate Placed(m: World) {
    (m.corrected || m.gr == []) && m.RulesValid() && |m.pos| == |m.gr| &&
    forall n {:trigger RulePlaced(m, n)} :: 0 <= n < |m.gr| ==> RulePlaced(m, n)
  }

  /** The same program, with one call less to nest. */
  function Deeper(m: World): World
    requires m.fuel > 0
  {
    m.(fuel := m.fuel - 1)
  }

  lemma DeeperAt(m: World, p: nat, c: Code)
    requires m.fuel > 0 && At(m, p, c)
    ensures At(Deeper(m), p, c)
  {
    var d := Deeper(m);
    assert d.M() == m.M();
    forall k {:trigger c[k]} | 0 <= k < |c| ensures SlotAt(d, p + k, c[k]) {
      if m.corrected && c[k].Inst? && c[k].op == IOpenCall { DeeperCalls(m, p + k, c[k].aux); }
    }
  }

  lemma DeeperCalls(m: World, a: nat, n: nat)
    requires m.fuel > 0 && Calls(m, a, n)
    ensures Calls(Deeper(m), a, n)
  {
    var d := Deeper(m);
    assert d.M() == m.M();
    if Returns(m, a + 2) {
      forall i: nat, stk: seq<Entry> {:trigger Run(a + 2, i, stk)} | i <= |d.s|
        ensures d.Reach(Run(a + 2, i, stk), Return(i, stk))
      {
        assert m.Reach(Run(a + 2, i, stk), Return(i, stk));
      }
    }
  }

  lemma DeeperPlaced(m: World)
    requires m.fuel > 0 && Placed(m)
    ensures Placed(Deeper(m))
  {
    hide At;
    forall n {:trigger RulePlaced(Deeper(m), n)} | 0 <= n < |m.gr| ensures RulePlaced(Deeper(m), n) {
      assert RulePlaced(m, n);
      DeeperAt(m, m.pos[n], Gen(m.gr, m.gr[n], false, NoTest, FULLSET) + [Inst(IRet, 0)]);
    }
  }

  /** What the code of a rule and its return do together: they take a frame from the stack. */
  ghost predicate RuleRuns(m: World, n: nat, i: nat, stk: seq<Entry>)
    requires n < |m.gr| && n < |m.pos| && i <= |m.s|
  {
    var r := m.Mean(TCall(n), i);
    && (r.Upto? ==> m.Reach(Run(m.pos[n], i, stk), Return(r.pos, stk)))
    && (r.Fail? ==> m.Reach(Run(m.pos[n], i, stk), Backtrack(stk)))
  }

  lemma RuleOk(m: World, n: nat, i: nat, stk: seq<Entry>)
    requires Placed(m) && n < |m.gr| && i <= |m.s| && m.fuel > 0
    requires Good(Deeper(m), m.gr[n], false, NoTest, FULLSET, Gen(m.gr, m.gr[n], false, NoTest, FULLSET))
    ensures RuleRuns(m, n, i, stk)
  {
    hide Gen;
    hide At;
    hide World.Reach;
    hide Valid;
    hide Match;
    var d, c, p := Deeper(m), Gen(m.gr, m.gr[n], false, NoTest, FULLSET), m.pos[n];
    assert RulePlaced(m, n);
    AtSplit(m, p, c, [Inst(IRet, 0)]);
    PlainAt(m, p + |c|, IRet, 0);
    DeeperAt(m, p, c);
    var a, r := Run(p, i, stk), d.Mean(m.gr[n], i);
    assert Implements(d, m.gr[n], false, NoTest, FULLSET, p, p + |c|);
    assert Correct(d, m.gr[n], false, FULLSET, a, p + |c|, i, stk);
    DeeperMean(m, n, i);
    if r.Upto? {
      var end := Run(p + |c|, r.pos, stk);
      DeeperReach(m, a, end);
      m.One(end, Return(r.pos, stk));
      m.Trans(a, end, Return(r.pos, stk));
    } else {
      DeeperReach(m, a, Backtrack(stk));
    }
  }

  lemma DeeperReach(m: World, a: State, b: State)
    requires m.fuel > 0
    ensures m.Reach(a, b) <==> Deeper(m).Reach(a, b)
  {
    hide Machine.Reach;
    assert m.M() == Deeper(m).M();
  }

  lemma DeeperMean(m: World, n: nat, i: nat)
    requires m.fuel > 0 && n < |m.gr| && i <= |m.s|
    ensures m.Mean(TCall(n), i) == Deeper(m).Mean(m.gr[n], i)
  {
  }

  /** A call, with or without a frame. */
  lemma CallOk(m: World, n: nat, opt: bool, fl: Charset, p: nat, i: nat, stk: seq<Entry>)
    requires n < |m.gr| == |m.pos| && i <= |m.s| && Calls(m, p, n)
    requires RuleRuns(m, n, i, stk) && RuleRuns(m, n, i, stk + [Frame(p + 2)])
    ensures Correct(m, TCall(n), opt, fl, Run(p, i, stk), p + 2, i, stk)
  {
    hide World.Mean;
    var r, a := m.Mean(TCall(n), i), Run(p, i, stk);
    if r.Out? { return; }
    if Labelled(m, p, ICall, m.pos[n]) {
      var stk' := stk + [Frame(p + 2)];
      var b := Run(m.pos[n], i, stk');
      m.One(a, b);
      assert stk'[..|stk|] == stk;
      hide World.Reach;
      m.Trans(a, b, if r.Upto? then Return(r.pos, stk') else Backtrack(stk'));
    } else {
      var b := Run(m.pos[n], i, stk);
      m.One(a, b);
      hide World.Reach;
      m.Trans(a, b, if r.Upto? then Return(r.pos, stk) else Backtrack(stk));
      if r.Upto? {
        assert m.Reach(Run(p + 2, r.pos, stk), Return(r.pos, stk));
        m.Symm(Run(p + 2, r.pos, stk), Return(r.pos, stk));
        m.Trans(a, Return(r.pos, stk), Run(p + 2, r.pos, stk));
      }
    }
  }

  lemma CallGood(m: World, n: nat, opt: bool, tt: Test, fl: Charset)
    requires Placed(m) && n < |m.gr| && n < MAXRULES
    requires m.fuel > 0 ==>
               Good(Deeper(m), m.gr[n], false, NoTest, FULLSET, Gen(m.gr, m.gr[n], false, NoTest, FULLSET))
    ensures Good(m, TCall(n), opt, tt, fl, CallCode(n))
  {
    var c := CallCode(n);
    forall p: nat {:trigger At(m, p, c)} | At(m, p, c)
      ensures Implements(m, TCall(n), opt, tt, fl, p, p + |c|)
    {
      AtSlot(m, p, c, 0);
      assert Calls(m, p, n);
      forall i: nat, stk: seq<Entry> {:trigger Run(p, i, stk)}
        | i <= |m.s| && TestHolds(tt, m.s, i) && (opt ==> OnChoice(stk))
        ensures Correct(m, TCall(n), opt, fl, Run(p, i, stk), p + |c|, i, stk)
      {
        hide Calls;
        hide RuleRuns;
        hide Placed;
        if m.fuel > 0 {
          RuleOk(m, n, i, stk);
          RuleOk(m, n, i, stk + [Frame(p + 2)]);
          CallOk(m, n, opt, fl, p, i, stk);
        }
      }
    }
  }

  /** Main theorem of code generation, by induction on the nesting of calls and the tree. */
  lemma {:induction false} GenCorrect(m: World, t: Tree, opt: bool, tt: Test, fl: Charset)
    requires Valid(m.gr, t) && Placed(m)
    ensures Good(m, t, opt, tt, fl, Gen(m.gr, t, opt, tt, fl))
    decreases m.fuel, t, 1
  {
    hide Good;
    match t
    case TChoice(p1, p2) => ChoiceCorrect(m, p1, p2, opt, tt, fl);
    case TRep(b) => RepCorrect(m, b, opt, tt, fl);
    case TNot(b) =>
      if Headfail(m.gr, b) {
        NotHeadfailGood(m, b, opt, tt, fl, GuardOf(m.gr, b, false));
      } else {
        GenCorrect(m, b, false, NoTest, FULLSET);
        NotGood(m, b, opt, tt, fl, GuardOf(m.gr, b, false), Gen(m.gr, b, false, NoTest, FULLSET));
      }
    case TAnd(b) =>
      GenCorrect(m, b, false, tt, FULLSET);
      FixedHasLen(m, b);
      if 0 <= FixedLen(m.gr, b) <= MAXBEHIND {
        AndFixedGood(m, FixedLen(m.gr, b), b, opt, tt, fl, Gen(m.gr, b, false, tt, FULLSET));
      } else {
        AndGood(m, b, opt, tt, fl, Gen(m.gr, b, false, tt, FULLSET));
      }
    case TSeq(p1, p2) =>
      var fl1, tt2 := FollowOfFirst(m.gr, p1, p2, fl), TestAfter(m.gr, p1, tt);
      GenCorrect(m, p1, false, tt, fl1);
      GenCorrect(m, p2, opt, tt2, fl);
      SeqGood(m, p1, p2, opt, tt, fl, Gen(m.gr, p1, false, tt, fl1), Gen(m.gr, p2, opt, tt2, fl));
    case TBehind(n, b) =>
      GenCorrect(m, b, false, NoTest, FULLSET);
      FixedHasLen(m, b);
      BehindGood(m, n, b, opt, tt, fl, Gen(m.gr, b, false, NoTest, FULLSET));
    case TCall(n) =>
      if m.fuel > 0 {
        DeeperPlaced(m);
        GenCorrect(Deeper(m), m.gr[n], false, NoTest, FULLSET);
      }
      CallGood(m, n, opt, tt, fl);
    case _ => LeafGood(m, t, opt, tt, fl, Gen(m.gr, t, opt, tt, fl));
  }

  lemma {:induction false} ChoiceCorrect(m: World, p1: Tree, p2: Tree, opt: bool, tt: Test, fl: Charset)
    requires Valid(m.gr, p1) && Valid(m.gr, p2) && Placed(m)
    ensures Good(m, TChoice(p1, p2), opt, tt, fl, GenChoice(m.gr, p1, p2, opt, fl))
    decreases m.fuel, TChoice(p1, p2), 0
  {
    GenCorrect(m, p2, opt, NoTest, fl);
    var c2 := Gen(m.gr, p2, opt, NoTest, fl);
    if TestedChoice(m.gr, p1, p2, fl) {
      var g := GuardOf(m.gr, p1, true);
      GenCorrect(m, p1, false, g.Info(), fl);
      ChoiceTestedGood(m, p1, p2, opt, tt, fl, g, Gen(m.gr, p1, false, g.Info(), fl), c2);
    } else if opt && p2.TTrue? {
      GenCorrect(m, p1, true, NoTest, FULLSET);
      ChoiceReusedGood(m, p1, tt, fl, Gen(m.gr, p1, true, NoTest, FULLSET));
    } else {
      var g := GuardOf(m.gr, p1, false);
      GenCorrect(m, p1, p2.TTrue?, g.Info(), FULLSET);
      ChoiceGood(m, p1, p2, opt, tt, fl, g, Gen(m.gr, p1, p2.TTrue?, g.Info(), FULLSET), c2);
    }
  }

  lemma {:induction false} RepCorrect(m: World, b: Tree, opt: bool, tt: Test, fl: Charset)
    requires Valid(m.gr, b) && !Nullable(m.gr, b) && Placed(m)
    ensures Good(m, TRep(b), opt, tt, fl, GenRep(m.gr, b, opt, fl))
    decreases m.fuel, TRep(b), 0
  {
    if IsCharset(b) {
      SpanGood(m, b, opt, tt, fl);
    } else if TestedRep(m.gr, b, fl) {
      var g := GuardOf(m.gr, b, true);
      GenCorrect(m, b, false, g.Info(), FULLSET);
      RepTestedGood(m, b, opt, tt, fl, g, Gen(m.gr, b, false, g.Info(), FULLSET));
    } else {
      GenCorrect(m, b, false, NoTest, FULLSET);
      RepGood(m, b, opt, tt, fl, GuardOf(m.gr, b, false), Gen(m.gr, b, false, NoTest, FULLSET));
    }
  }

  /** ISpan is the repetition of a charset. */
  lemma {:induction false} SpanIsRep(m: World, b: Tree, i: nat)
    requires IsCharset(b) && i <= |m.s|
    ensures m.Mean(TRep(b), i) == Upto(Span(m.s, i, ToCharset(b)))
    decreases |m.s| - i
  {
    var r := Match(m.gr, b, m.s, i, m.fuel);
    if i < |m.s| && m.s[i] in ToCharset(b) {
      assert r == Upto(i + 1);
      SpanIsRep(m, b, i + 1);
    } else {
      assert r == Fail;
    }
  }

  /** Result of running a whole program from its first instruction. */
  function Expected(r: Outcome): State
    requires !r.Out?
  {
    match r
    case Fail => GaveUp
    case Upto(j) => Done(j)
  }

  /** Leading to the same end as a final state is reaching it. */
  lemma Ends(m: World, a: State, b: State)
    requires m.Reach(a, b) && !b.Run?
    ensures m.M().Reach(a, b)
  {
    var x :| m.M().Reach(a, x) && m.M().Reach(b, x);
    var tr: seq<State> :| m.M().IsTrace(tr, b, x);
    m.M().Final(tr, b, x);
  }
}
