/** Generated code is well formed: labels and fall-through land on instructions, and
    backward jumps cannot cycle. */
module PegShape {
  import opened PegTree
  import opened PegAnalysis
  import opened PegMachine
  import opened PegCodegen
  import opened PegComponents
  import opened PegCorrect
  import opened PegPeephole

  /** Code as it was generated, with its open calls. */
  function Raw(code: Code): World { World(code, [], [], 0, [], false) }

  lemma RawSlot(code: Code, p: nat, f: Code, k: nat)
    requires At(Raw(code), p, f) && k < |f|
    ensures code[p + k] == f[k]
  {
    AtSlot(Raw(code), p, f, k);
  }

  /** A jump goes forward, or back to an instruction that is not a jump or that jumps
      right behind the first one. */
  predicate JumpOk(code: Code, p: nat)
    requires On(code).IsInst(p) && code[p].op == IJmp
  {
    var l := On(code).Target(p);
    l > p || (On(code).IsInst(l) && (code[l].op == IJmp ==> On(code).Target(l) == p + 2))
  }

  /** An instruction, or the end of the code. */
  predicate Lands(code: Code, q: int) {
    0 <= q <= |code| && (q < |code| ==> code[q].Inst?)
  }

  /** SlotOk for a fragment, whose labels may lead to its end and whose calls are open. */
  predicate PieceOk(code: Code, p: nat)
  {
    && On(code).IsInst(p)
    && Lands(code, p + SizeI(code[p].op))
    && (forall k :: p < k < p + SizeI(code[p].op) ==> !code[k].Inst?)
    && (HasLabel(code[p].op) ==> Lands(code, On(code).Target(p)))
    && (code[p].op == IJmp ==> JumpOk(code, p))
    && (code[p].op == IOpenCall ==> p + 1 < |code| && code[p + 1].Hole?)
    && code[p].op != IEnd
  }

  ghost predicate PiecesOk(code: Code, lo: nat, hi: nat) {
    forall p: nat {:trigger PieceOk(code, p)} | lo <= p < hi && Start(code, p) :: PieceOk(code, p)
  }

  ghost predicate Fragment(code: Code) {
    Lands(code, 0) && PiecesOk(code, 0, |code|)
  }

  /** A fragment keeps its shape inside a larger one. */
  lemma Embed(code: Code, a: nat, c: Code)
    requires At(Raw(code), a, c) && Fragment(c) && Lands(code, a + |c|)
    ensures Lands(code, a) && PiecesOk(code, a, a + |c|)
  {
    forall k: nat | k < |c| ensures code[a + k] == c[k] { RawSlot(code, a, c, k); }
    forall p: nat {:trigger PieceOk(code, p)} | a <= p < a + |c| && Start(code, p)
      ensures PieceOk(code, p)
    {
      EmbedPiece(code, a, c, p);
    }
  }

  lemma EmbedPiece(code: Code, a: nat, c: Code, p: nat)
    requires a + |c| <= |code| && (forall k: nat | k < |c| :: code[a + k] == c[k]) && Fragment(c) &&
               Lands(code, a + |c|)
    requires a <= p < a + |c| && Start(code, p)
    ensures PieceOk(code, p)
  {
    var q := p - a;
    assert code[a + q] == c[q] && PieceOk(c, q);
    hide Fragment;
    var op := c[q].op;
    LandsIn(code, a, c, q + SizeI(op));
    forall k | p < k < p + SizeI(op) ensures !code[k].Inst? { assert code[a + (k - a)] == c[k - a]; }
    EmbedInst(code, a, c, q);
    if HasLabel(op) { LandsIn(code, a, c, On(c).Target(q)); }
    if op == IOpenCall { assert code[a + (q + 1)] == c[q + 1]; }
    if op == IJmp && On(c).Target(q) <= q {
      var l := On(c).Target(q);
      EmbedInst(code, a, c, l);
    }
  }

  lemma EmbedInst(code: Code, a: nat, c: Code, q: nat)
    requires a + |c| <= |code| && (forall k: nat | k < |c| :: code[a + k] == c[k]) && On(c).IsInst(q)
    ensures On(code).IsInst(a + q) && code[a + q] == c[q]
    ensures HasLabel(c[q].op) ==> On(code).Target(a + q) == a + On(c).Target(q)
  {
    assert code[a + q] == c[q];
    if q + 1 < |c| { assert code[a + (q + 1)] == c[q + 1]; }
    if q + 2 < |c| { assert code[a + (q + 2)] == c[q + 2]; }
  }

  lemma LandsIn(code: Code, a: nat, c: Code, q: int)
    requires a + |c| <= |code| && (forall k: nat | k < |c| :: code[a + k] == c[k]) && Lands(c, q) &&
               Lands(code, a + |c|)
    ensures Lands(code, a + q)
  {
    if q < |c| { assert code[a + q] == c[q]; }
  }

  lemma LabelledPiece(code: Code, p: nat, op: Opcode, l: nat)
    requires Labelled(Raw(code), p, op, l) && SizeI(op) == 2 && Lands(code, l) && Lands(code, p + 2)
    requires op == IJmp ==> l > p || (On(code).IsInst(l) && (code[l].op == IJmp ==> On(code).Target(l) == p + 2))
    ensures PiecesOk(code, p, p + 2) && Lands(code, p)
  {
  }

  lemma PlainPiece(code: Code, p: nat, op: Opcode, aux: Byte)
    requires Plain(Raw(code), p, op, aux) && SizeI(op) == 1 && Lands(code, p + 1) && op != IEnd
    ensures PiecesOk(code, p, p + 1) && Lands(code, p)
  {
    assert Raw(code).M() == On(code) && On(code).IsInst(p);
    assert PieceOk(code, p);
  }

  /** A leading test with its label. */
  lemma GuardPiece(code: Code, g: Guard, off: nat)
    requires At(Raw(code), 0, g.Code(off)) && off > 0
    requires Lands(code, g.Size()) && Lands(code, off)
    ensures PiecesOk(code, 0, g.Size()) && Lands(code, 0)
    ensures !g.e ==> On(code).IsInst(0) && (code[0].op == IJmp ==> On(code).Target(0) == off)
  {
    if !g.e {
      RawSlot(code, 0, g.Code(off), 0);
      forall k | 0 < k < g.Size() ensures !code[k].Inst? { RawSlot(code, 0, g.Code(off), k); }
      assert SizeI(code[0].op) == g.Size();
      GuardLabel(code, g, off);
    }
  }

  lemma Whole(code: Code)
    ensures At(Raw(code), 0, code)
  {
    WholeAt(Raw(code));
  }

  lemma ConcatShape(c1: Code, c2: Code)
    requires Fragment(c1) && Fragment(c2)
    ensures Fragment(c1 + c2)
  {
    var code := c1 + c2;
    Whole(code);
    AtSplit(Raw(code), 0, c1, c2);
    Embed(code, |c1|, c2);
    Embed(code, 0, c1);
  }

  lemma SingleShape(op: Opcode, aux: Byte)
    requires SizeI(op) == 1 && op != IEnd
    ensures Fragment([Inst(op, aux)])
  {
    var code := [Inst(op, aux)];
    assert Start(code, 0) && PieceOk(code, 0);
  }

  lemma CharsetShape(op: Opcode, cs: Charset)
    requires op == ISet || op == ISpan
    ensures Fragment([Inst(op, 0)] + CharsetSlots(cs))
  {
    var code := [Inst(op, 0)] + CharsetSlots(cs);
    assert forall k :: 0 < k < |code| ==> code[k] == CharsetSlots(cs)[k - 1] && !code[k].Inst?;
    assert PieceOk(code, 0);
  }

  lemma LeafShape(gr: Grammar, t: Tree, opt: bool, tt: Test, fl: Charset)
    requires t.TChar? || t.TSet? || t.TAny? || t.TTrue? || t.TFalse?
    ensures Fragment(Gen(gr, t, opt, tt, fl))
  {
    SingleShape(IAny, 0);
    SingleShape(IFail, 0);
    if t.TChar? { SingleShape(IChar, t.c); }
    if t.TSet? {
      if KindOf(t.cs).Singleton? { SingleShape(IChar, KindOf(t.cs).c); }
      CharsetShape(ISet, t.cs);
    }
  }

  lemma CallShape(r: nat)
    requires r < MAXRULES
    ensures Fragment(CallCode(r))
  {
    var code := CallCode(r);
    assert PieceOk(code, 0);
  }

  lemma BehindShape(n: nat)
    requires n <= MAXBEHIND
    ensures Fragment(BehindCode(n))
  {
    if n > 0 { SingleShape(IBehind, n); }
  }

  lemma AndShape(c: Code)
    requires Fragment(c)
    ensures Fragment(AndGeneral(c))
  {
    hide Fragment;
    hide PiecesOk;
    hide Labelled;
    hide Plain;
    hide Guard.Code;
    var code := AndGeneral(c);
    Whole(code);
    AndLayout(Raw(code), 0, c);
    PlainPiece(code, |c| + 4, IFail, 0);
    LabelledPiece(code, |c| + 2, IBackCommit, |c| + 5);
    Embed(code, 2, c);
    LabelledPiece(code, 0, IChoice, |c| + 4);
    Join(code, 2, |c| + 2, |c| + 4, |c| + 5);
  }

  /** Consecutive ranges of well-formed pieces make a fragment. */
  lemma Join(code: Code, a: nat, b: nat, c: nat, d: nat)
    requires Lands(code, 0) && PiecesOk(code, 0, a) && PiecesOk(code, a, b)
    requires c == b || PiecesOk(code, b, c)
    requires d == c || PiecesOk(code, c, d)
    requires d == |code| || PiecesOk(code, d, |code|)
    ensures Fragment(code)
  {
  }

  /** The two parts of a guarded shape. */
  lemma GuardedParts(code: Code, g: Guard, off: nat, body: Code)
    requires code == g.Code(off) + body
    ensures At(Raw(code), 0, g.Code(off)) && At(Raw(code), g.Size(), body) && |code| == g.Size() + |body|
  {
    Whole(code);
    AtSplit(Raw(code), 0, g.Code(off), body);
  }

  lemma NotHeadfailShape(g: Guard)
    ensures Fragment(NotHeadfail(g))
  {
    hide Fragment;
    hide PiecesOk;
    hide Labelled;
    hide Plain;
    hide Guard.Code;
    var code, n := NotHeadfail(g), g.Size();
    GuardedParts(code, g, n + 1, [Inst(IFail, 0)]);
    PlainAt(Raw(code), n, IFail, 0);
    PlainPiece(code, n, IFail, 0);
    GuardPiece(code, g, n + 1);
    Join(code, n, n + 1, n + 1, n + 1);
  }

  lemma NotShapeOf(code: Code, n: nat, g: Guard, c: Code)
    requires Fragment(c)
    requires n == g.Size() && |code| == n + |NotBody(c)|
    requires At(Raw(code), 0, g.Code(n + 2 + |c| + 1)) && At(Raw(code), n, NotBody(c))
    ensures Fragment(code)
  {
    hide Fragment;
    hide PiecesOk;
    hide Labelled;
    hide Plain;
    hide NotBody;
    hide At;
    hide Guard.Code;
    NotLayout(Raw(code), n, c);
    var q := n + 2 + |c|;
    PlainPiece(code, q, IFailTwice, 0);
    Embed(code, n + 2, c);
    LabelledPiece(code, n, IChoice, q + 1);
    GuardPiece(code, g, q + 1);
    Join(code, n, n + 2, q, q + 1);
  }

  lemma NotShape(g: Guard, c: Code)
    requires Fragment(c)
    ensures Fragment(NotGeneral(g, c))
  {
    var code, n := NotGeneral(g, c), g.Size();
    GuardedParts(code, g, n + 2 + |c| + 1, NotBody(c));
    NotShapeOf(code, n, g, c);
  }

  lemma ChoiceTestedShapeOf(code: Code, n: nat, g: Guard, c1: Code, emptyp2: bool, c2: Code)
    requires Fragment(c1) && Fragment(c2) && (emptyp2 ==> c2 == [])
    requires emptyp2 ==> g.Size() + |c1| > 0
    requires n == g.Size() && |code| == n + |ChoiceTestedBody(c1, emptyp2, c2)|
    requires At(Raw(code), 0, g.Code(n + |c1| + (if emptyp2 then 0 else 2))) &&
               At(Raw(code), n, ChoiceTestedBody(c1, emptyp2, c2))
    ensures Fragment(code)
  {
    hide Fragment;
    hide PiecesOk;
    hide Labelled;
    hide Plain;
    hide ChoiceTestedBody;
    hide At;
    hide Guard.Code;
    var jmp := if emptyp2 then 0 else 2;
    var l := n + |c1| + jmp;
    ChoiceTestedLayout(Raw(code), n, c1, emptyp2, c2);
    Embed(code, l, c2);
    if !emptyp2 { LabelledPiece(code, n + |c1|, IJmp, l + |c2|); }
    Embed(code, n, c1);
    GuardPiece(code, g, l);
    Join(code, n, n + |c1|, l, l + |c2|);
  }

  lemma ChoiceTestedShape(g: Guard, c1: Code, emptyp2: bool, c2: Code)
    requires Fragment(c1) && Fragment(c2) && (emptyp2 ==> c2 == [])
    requires emptyp2 ==> g.Size() + |c1| > 0
    ensures Fragment(ChoiceTested(g, c1, emptyp2, c2))
  {
    var code, n := ChoiceTested(g, c1, emptyp2, c2), g.Size();
    GuardedParts(code, g, n + |c1| + (if emptyp2 then 0 else 2), ChoiceTestedBody(c1, emptyp2, c2));
    ChoiceTestedShapeOf(code, n, g, c1, emptyp2, c2);
  }

  lemma ChoiceReusedShape(c1: Code)
    requires Fragment(c1)
    ensures Fragment(ChoiceReused(c1))
  {
    hide Fragment;
    hide PiecesOk;
    hide Labelled;
    hide Plain;
    hide Guard.Code;
    var code := ChoiceReused(c1);
    Whole(code);
    ChoiceReusedLayout(Raw(code), 0, c1);
    Embed(code, 2, c1);
    LabelledPiece(code, 0, IPartialCommit, 2);
    Join(code, 2, 2 + |c1|, 2 + |c1|, 2 + |c1|);
  }

  lemma ChoiceShapeOf(code: Code, n: nat, g: Guard, c1: Code, c2: Code)
    requires Fragment(c1) && Fragment(c2)
    requires n == g.Size() && |code| == n + |ChoiceBody(c1, c2)|
    requires At(Raw(code), 0, g.Code(n + 2 + |c1| + 2)) && At(Raw(code), n, ChoiceBody(c1, c2))
    ensures Fragment(code)
  {
    hide Fragment;
    hide PiecesOk;
    hide Labelled;
    hide Plain;
    hide ChoiceBody;
    hide At;
    hide Guard.Code;
    ChoiceLayout(Raw(code), n, c1, c2);
    var q := n + 2 + |c1|;
    Embed(code, q + 2, c2);
    LabelledPiece(code, q, ICommit, q + 2 + |c2|);
    Embed(code, n + 2, c1);
    LabelledPiece(code, n, IChoice, q + 2);
    GuardPiece(code, g, q + 2);
    Join(code, n, n + 2, q, q + 2);
  }

  lemma ChoiceShape(g: Guard, c1: Code, c2: Code)
    requires Fragment(c1) && Fragment(c2)
    ensures Fragment(ChoiceGeneral(g, c1, c2))
  {
    var code, n := ChoiceGeneral(g, c1, c2), g.Size();
    GuardedParts(code, g, n + 2 + |c1| + 2, ChoiceBody(c1, c2));
    ChoiceShapeOf(code, n, g, c1, c2);
  }

  lemma RepTestedShapeOf(code: Code, n: nat, g: Guard, c: Code)
    requires Fragment(c) && !g.e
    requires n == g.Size() && |code| == n + |RepTestedBody(n, c)|
    requires At(Raw(code), 0, g.Code(n + |c| + 2)) && At(Raw(code), n, RepTestedBody(n, c))
    ensures Fragment(code)
  {
    hide Fragment;
    hide PiecesOk;
    hide Labelled;
    hide Plain;
    hide RepTestedBody;
    hide At;
    hide Guard.Code;
    RepTestedLayout(Raw(code), 0, n, c);
    var q := n + |c|;
    GuardLabel(code, g, q + 2);
    LabelledPiece(code, q, IJmp, 0);
    Embed(code, n, c);
    GuardPiece(code, g, q + 2);
    Join(code, n, q, q + 2, q + 2);
  }

  lemma RepTestedShape(g: Guard, c: Code)
    requires Fragment(c) && !g.e
    ensures Fragment(RepTested(g, c))
  {
    var code, n := RepTested(g, c), g.Size();
    GuardedParts(code, g, n + |c| + 2, RepTestedBody(n, c));
    RepTestedShapeOf(code, n, g, c);
  }

  /** The instruction of a test. */
  lemma GuardLabel(code: Code, g: Guard, off: nat)
    requires At(Raw(code), 0, g.Code(off)) && !g.e
    ensures On(code).IsInst(0) && Lands(code, 0) && HasLabel(code[0].op) && On(code).Target(0) == off
  {
    RawSlot(code, 0, g.Code(off), 0);
    RawSlot(code, 0, g.Code(off), 1);
    if g.k.General? { RawSlot(code, 0, g.Code(off), 2); }
  }

  lemma RepShapeOf(code: Code, n: nat, g: Guard, opt: bool, c: Code)
    requires Fragment(c)
    requires n == g.Size() && |code| == n + |RepBody(opt, c)|
    requires At(Raw(code), 0, g.Code(n + 2 + |c| + 2)) && At(Raw(code), n, RepBody(opt, c))
    ensures Fragment(code)
  {
    hide Fragment;
    hide PiecesOk;
    hide Labelled;
    hide Plain;
    hide RepBody;
    hide At;
    hide Guard.Code;
    RepLayout(Raw(code), n, opt, c);
    var q := n + 2 + |c|;
    LandsAt(code, n + 2, c, q, IPartialCommit, n + 2);
    LabelledPiece(code, q, IPartialCommit, n + 2);
    Embed(code, n + 2, c);
    LabelledPiece(code, n, if opt then IPartialCommit else IChoice, if opt then n + 2 else q + 2);
    GuardPiece(code, g, q + 2);
    Join(code, n, n + 2, q, q + 2);
  }

  lemma RepShape(g: Guard, opt: bool, c: Code)
    requires Fragment(c)
    ensures Fragment(RepGeneral(g, opt, c))
  {
    var code, n := RepGeneral(g, opt, c), g.Size();
    GuardedParts(code, g, n + 2 + |c| + 2, RepBody(opt, c));
    RepShapeOf(code, n, g, opt, c);
  }

  /** The first instruction of a loop is where its body, or the closing jump, starts. */
  lemma LandsAt(code: Code, a: nat, c: Code, q: nat, op: Opcode, l: nat)
    requires At(Raw(code), a, c) && Fragment(c) && q == a + |c| && Labelled(Raw(code), q, op, l)
    ensures Lands(code, a)
  {
    if |c| > 0 { RawSlot(code, a, c, 0); }
  }

  /** All generated code is well formed. */
  lemma {:induction false} GenShape(gr: Grammar, t: Tree, opt: bool, tt: Test, fl: Charset)
    requires Valid(gr, t)
    ensures Fragment(Gen(gr, t, opt, tt, fl))
    decreases t, 1
  {
    hide Fragment;
    match t
    case TChoice(p1, p2) => GenChoiceShape(gr, p1, p2, opt, fl);
    case TRep(b) => GenRepShape(gr, b, opt, fl);
    case TNot(b) =>
      if Headfail(gr, b) {
        NotHeadfailShape(GuardOf(gr, b, false));
      } else {
        GenShape(gr, b, false, NoTest, FULLSET);
        NotShape(GuardOf(gr, b, false), Gen(gr, b, false, NoTest, FULLSET));
      }
    case TAnd(b) =>
      GenShape(gr, b, false, tt, FULLSET);
      if 0 <= FixedLen(gr, b) <= MAXBEHIND {
        BehindShape(FixedLen(gr, b));
        ConcatShape(Gen(gr, b, false, tt, FULLSET), BehindCode(FixedLen(gr, b)));
      } else {
        AndShape(Gen(gr, b, false, tt, FULLSET));
      }
    case TSeq(p1, p2) =>
      var fl1, tt2 := FollowOfFirst(gr, p1, p2, fl), TestAfter(gr, p1, tt);
      GenShape(gr, p1, false, tt, fl1);
      GenShape(gr, p2, opt, tt2, fl);
      ConcatShape(Gen(gr, p1, false, tt, fl1), Gen(gr, p2, opt, tt2, fl));
    case TBehind(n, b) =>
      BehindShape(n);
      GenShape(gr, b, false, NoTest, FULLSET);
      ConcatShape(BehindCode(n), Gen(gr, b, false, NoTest, FULLSET));
    case TCall(r) => CallShape(r);
    case _ => LeafShape(gr, t, opt, tt, fl);
  }

  lemma {:induction false} GenChoiceShape(gr: Grammar, p1: Tree, p2: Tree, opt: bool, fl: Charset)
    requires Valid(gr, p1) && Valid(gr, p2)
    ensures Fragment(GenChoice(gr, p1, p2, opt, fl))
    decreases TChoice(p1, p2), 0
  {
    hide Fragment;
    GenShape(gr, p2, opt, NoTest, fl);
    var c2 := Gen(gr, p2, opt, NoTest, fl);
    if TestedChoice(gr, p1, p2, fl) {
      var g := GuardOf(gr, p1, true);
      GenShape(gr, p1, false, g.Info(), fl);
      ChoiceTestedShape(g, Gen(gr, p1, false, g.Info(), fl), p2.TTrue?, c2);
    } else if opt && p2.TTrue? {
      GenShape(gr, p1, true, NoTest, FULLSET);
      ChoiceReusedShape(Gen(gr, p1, true, NoTest, FULLSET));
    } else {
      var g := GuardOf(gr, p1, false);
      GenShape(gr, p1, p2.TTrue?, g.Info(), FULLSET);
      ChoiceShape(g, Gen(gr, p1, p2.TTrue?, g.Info(), FULLSET), c2);
    }
  }

  lemma {:induction false} GenRepShape(gr: Grammar, b: Tree, opt: bool, fl: Charset)
    requires Valid(gr, b)
    ensures Fragment(GenRep(gr, b, opt, fl))
    decreases TRep(b), 0
  {
    hide Fragment;
    if IsCharset(b) {
      CharsetShape(ISpan, ToCharset(b));
    } else if TestedRep(gr, b, fl) {
      var g := GuardOf(gr, b, true);
      GenShape(gr, b, false, g.Info(), FULLSET);
      RepTestedShape(g, Gen(gr, b, false, g.Info(), FULLSET));
    } else {
      GenShape(gr, b, false, NoTest, FULLSET);
      RepShape(GuardOf(gr, b, false), opt, Gen(gr, b, false, NoTest, FULLSET));
    }
  }
}
