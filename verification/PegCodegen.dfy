/** Code generation of lpcode.c as a function from trees to position-independent
    instruction sequences (every label is relative). */
module PegCodegen {
  import opened PegTree
  import opened PegAnalysis
  import opened PegMachine

  /** charsettype: empty, singleton, full, or none of those. */
  datatype Kind = Empty | Singleton(c: Byte) | Full | General

  ghost predicate HasKind(cs: Charset, k: Kind) {
    match k
    case Empty => cs == {}
    case Singleton(c) => cs == {c}
    case Full => cs == FULLSET
    case General => cs != {} && cs != FULLSET && forall c: Byte :: cs != {c}
  }

  function KindOf(cs: Charset): Kind
  {
    if cs == {} then Empty
    else if cs == FULLSET then Full
    else if exists c :: c in cs && cs == {c} then
      var c :| c in cs && cs == {c};
      Singleton(c)
    else General
  }

  lemma KindOfIs(cs: Charset, k: Kind)
    ensures HasKind(cs, k) <==> k == KindOf(cs)
  {
    assert 0 in FULLSET && 1 in FULLSET;
    if k.Singleton? && HasKind(cs, k) { assert k.c in cs; }
    if KindOf(cs).General? {
      assert forall c: Byte :: cs == {c} ==> c in cs;
    }
  }

  /** The test instruction that protects the code being generated, if any. */
  datatype Test = NoTest | TestChar(c: Byte) | TestSet(cs: Charset)

  function OffInst(op: Opcode, aux: Byte, off: int): (f: Code)
    ensures |f| == 2
  {
    [Inst(op, aux), Offset(off)]
  }

  function CharsetSlots(cs: Charset): (f: Code)
    ensures |f| == CHARSETINSTSIZE - 1
  {
    [Buff(cs), Pad, Pad, Pad, Pad, Pad, Pad, Pad]
  }

  function TestOp(k: Kind): Opcode
  {
    match k
    case Empty => IJmp
    case Full => ITestAny
    case Singleton(_) => ITestChar
    case General => ITestSet
  }

  /** What codetestset gets: a set with its kind, and whether the test would have to
      accept the empty string (there is no test then). */
  datatype Guard = Guard(cs: Charset, k: Kind, e: bool) {

    function Size(): (n: nat)
    {
      if e then 0 else if k.General? then 1 + CHARSETINSTSIZE else 2
    }

    function Code(off: int): (f: Code)
      ensures |f| == Size()
    {
      if e then [] else
      OffInst(TestOp(k), if k.Singleton? then k.c else 0, off) + if k.General? then CharsetSlots(cs) else []
    }

    /** What codechar and codecharset can learn from the instruction. */
    function Info(): Test
    {
      if e then NoTest else
      match k
      case Singleton(c) => TestChar(c)
      case General => TestSet(cs)
      case _ => NoTest
    }

    ghost predicate Valid() { HasKind(cs, k) }
  }

  /** The test on first(t); `always`: the caller knows that t needs a character. */
  function GuardOf(gr: Grammar, t: Tree, always: bool): Guard
  {
    var f := GetFirst(gr, t, FULLSET);
    Guard(f.cs, KindOf(f.cs), f.e && !always)
  }

  /** codecall: the call waits for the position of its rule. */
  function CallCode(r: nat): (f: Code)
    requires r < MAXRULES
    ensures |f| == 2
  {
    [Inst(IOpenCall, r), Hole]
  }

  function CharCode(c: Byte, tt: Test): Code
  {
    if tt == TestChar(c) then [Inst(IAny, 0)] else [Inst(IChar, c)]
  }

  function CharsetCode(cs: Charset, tt: Test): Code
  {
    match KindOf(cs)
    case Singleton(c) => CharCode(c, tt)
    case General => if tt == TestSet(cs) then [Inst(IAny, 0)] else [Inst(ISet, 0)] + CharsetSlots(cs)
    case Empty => [Inst(IFail, 0)]
    case Full => [Inst(IAny, 0)]
  }

  function BehindCode(n: nat): Code
    requires n <= MAXBEHIND
  {
    if n > 0 then [Inst(IBehind, n)] else []
  }

  /** A choice needs no IChoice: a test on the next character decides it. */
  predicate TestedChoice(gr: Grammar, p1: Tree, p2: Tree, fl: Charset)
  {
    var f1 := GetFirst(gr, p1, FULLSET);
    Headfail(gr, p1) || (!f1.e && f1.cs !! GetFirst(gr, p2, fl).cs)
  }

  predicate TestedRep(gr: Grammar, p: Tree, fl: Charset)
  {
    var f := GetFirst(gr, p, FULLSET);
    Headfail(gr, p) || (!f.e && f.cs !! fl)
  }

  function FollowOfFirst(gr: Grammar, p1: Tree, p2: Tree, fl: Charset): Charset
  {
    if NeedFollow(p1) then GetFirst(gr, p2, fl).cs else FULLSET
  }

  function TestAfter(gr: Grammar, p1: Tree, tt: Test): Test
  {
    if FixedLen(gr, p1) != 0 then NoTest else tt
  }

  // The shapes of the code of choices, repetitions and predicates around the
  // code of their operands.

  function ChoiceTestedBody(c1: Code, emptyp2: bool, c2: Code): Code
  {
    c1 + (if emptyp2 then [] else OffInst(IJmp, 0, 2 + |c2|)) + c2
  }

  function ChoiceTested(g: Guard, c1: Code, emptyp2: bool, c2: Code): Code
  {
    g.Code(g.Size() + |c1| + if emptyp2 then 0 else 2) + ChoiceTestedBody(c1, emptyp2, c2)
  }

  function ChoiceReused(c1: Code): Code { OffInst(IPartialCommit, 0, 2) + c1 }

  function ChoiceBody(c1: Code, c2: Code): Code
  {
    OffInst(IChoice, 0, 2 + |c1| + 2) + c1 + OffInst(ICommit, 0, 2 + |c2|) + c2
  }

  function ChoiceGeneral(g: Guard, c1: Code, c2: Code): Code
  {
    g.Code(g.Size() + 2 + |c1| + 2) + ChoiceBody(c1, c2)
  }

  function RepSpan(cs: Charset): Code { [Inst(ISpan, 0)] + CharsetSlots(cs) }

  function RepTestedBody(n: nat, c: Code): Code { c + OffInst(IJmp, 0, -(n + |c|)) }

  function RepTested(g: Guard, c: Code): Code
  {
    g.Code(g.Size() + |c| + 2) + RepTestedBody(g.Size(), c)
  }

  function RepBody(opt: bool, c: Code): Code
  {
    (if opt then OffInst(IPartialCommit, 0, 2) else OffInst(IChoice, 0, 2 + |c| + 2))
    + c + OffInst(IPartialCommit, 0, -|c|)
  }

  function RepGeneral(g: Guard, opt: bool, c: Code): Code
  {
    g.Code(g.Size() + 2 + |c| + 2) + RepBody(opt, c)
  }

  function NotHeadfail(g: Guard): Code { g.Code(g.Size() + 1) + [Inst(IFail, 0)] }

  function NotBody(c: Code): Code
  {
    OffInst(IChoice, 0, 2 + |c| + 1) + c + [Inst(IFailTwice, 0)]
  }

  function NotGeneral(g: Guard, c: Code): Code
  {
    g.Code(g.Size() + 2 + |c| + 1) + NotBody(c)
  }

  function AndGeneral(c: Code): Code
  {
    OffInst(IChoice, 0, 2 + |c| + 2) + c + OffInst(IBackCommit, 0, 3) + [Inst(IFail, 0)]
  }

  /** codegen. `opt`: the code is the last thing inside an optional pattern, whose
      IChoice is on top of the stack; `tt`: the test protecting this code; `fl`:
      the first set of what follows. */
  function Gen(gr: Grammar, t: Tree, opt: bool, tt: Test, fl: Charset): Code
    requires Valid(gr, t)
    decreases t, 1
  {
    match t
    case TChar(c) => CharCode(c, tt)
    case TAny => [Inst(IAny, 0)]
    case TSet(cs) => CharsetCode(cs, tt)
    case TTrue => []
    case TFalse => [Inst(IFail, 0)]
    case TChoice(p1, p2) => GenChoice(gr, p1, p2, opt, fl)
    case TRep(p) => GenRep(gr, p, opt, fl)
    case TBehind(n, p) => GenBehind(gr, n, p)
    case TNot(p) => GenNot(gr, p)
    case TAnd(p) => GenAnd(gr, p, tt)
    case TCall(r) => CallCode(r)
    case TSeq(p1, p2) => GenSeq(gr, p1, p2, opt, tt, fl)
  }

  function GenChoice(gr: Grammar, p1: Tree, p2: Tree, opt: bool, fl: Charset): Code
    requires Valid(gr, p1) && Valid(gr, p2)
    decreases TChoice(p1, p2), 0
  {
    if TestedChoice(gr, p1, p2, fl) then
      var g := GuardOf(gr, p1, true);
      ChoiceTested(g, Gen(gr, p1, false, g.Info(), fl), p2.TTrue?, Gen(gr, p2, opt, NoTest, fl))
    else if opt && p2.TTrue? then
      ChoiceReused(Gen(gr, p1, true, NoTest, FULLSET))
    else
      var g := GuardOf(gr, p1, false);
      ChoiceGeneral(g, Gen(gr, p1, p2.TTrue?, g.Info(), FULLSET), Gen(gr, p2, opt, NoTest, fl))
  }

  function GenRep(gr: Grammar, p: Tree, opt: bool, fl: Charset): Code
    requires Valid(gr, p)
    decreases TRep(p), 0
  {
    if IsCharset(p) then RepSpan(ToCharset(p))
    else if TestedRep(gr, p, fl) then
      var g := GuardOf(gr, p, true);
      RepTested(g, Gen(gr, p, false, g.Info(), FULLSET))
    else
      RepGeneral(GuardOf(gr, p, false), opt, Gen(gr, p, false, NoTest, FULLSET))
  }

  function GenBehind(gr: Grammar, n: nat, p: Tree): Code
    requires Valid(gr, p) && n <= MAXBEHIND
    decreases TBehind(n, p), 0
  {
    BehindCode(n) + Gen(gr, p, false, NoTest, FULLSET)
  }

  function GenNot(gr: Grammar, p: Tree): Code
    requires Valid(gr, p)
    decreases TNot(p), 0
  {
    if Headfail(gr, p) then NotHeadfail(GuardOf(gr, p, false))
    else NotGeneral(GuardOf(gr, p, false), Gen(gr, p, false, NoTest, FULLSET))
  }

  function GenAnd(gr: Grammar, p: Tree, tt: Test): Code
    requires Valid(gr, p)
    decreases TAnd(p), 0
  {
    var n := FixedLen(gr, p);
    if 0 <= n <= MAXBEHIND then Gen(gr, p, false, tt, FULLSET) + BehindCode(n)
    else AndGeneral(Gen(gr, p, false, tt, FULLSET))
  }

  function GenSeq(gr: Grammar, p1: Tree, p2: Tree, opt: bool, tt: Test, fl: Charset): Code
    requires Valid(gr, p1) && Valid(gr, p2)
    decreases TSeq(p1, p2), 0
  {
    Gen(gr, p1, false, tt, FollowOfFirst(gr, p1, p2, fl)) + Gen(gr, p2, opt, TestAfter(gr, p1, tt), fl)
  }
}
