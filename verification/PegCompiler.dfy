/** The compiler as it runs: a growing instruction array whose offsets are patched when
    their targets are known, the corrections of calls and the optimizer's pass over it. */
module PegCompiler {
  import opened PegTree
  import opened PegAnalysis
  import opened PegGrammar
  import opened PegMachine
  import opened PegCodegen
  import opened PegComponents
  import opened PegCorrect
  import opened PegPeephole
  import opened PegShape
  import opened PegRules
  import opened PegProgram
  import opened PegCalls

  const NOINST: int := -1

  /** Index of a test instruction in the code, or NOINST. */
  predicate TestValid(code: Code, tt: int) {
    tt < |code| && (tt >= 0 ==> code[tt].Inst? && (code[tt].op == ITestSet ==> tt + 2 < |code| && code[tt + 2].Buff?))
  }

  /** What the instruction at `tt` says about the next character. */
  function TestAt(code: Code, tt: int): Test
    requires TestValid(code, tt)
  {
    if tt < 0 then NoTest
    else if code[tt].op == ITestChar then TestChar(code[tt].aux)
    else if code[tt].op == ITestSet then TestSet(code[tt + 2].cs)
    else NoTest
  }

  lemma TestAtAppend(code: Code, tt: int, more: Code)
    requires TestValid(code, tt)
    ensures TestValid(code + more, tt) && TestAt(code + more, tt) == TestAt(code, tt)
  {
  }

  /** Set the offset of instruction `i`, if there is one, to lead to `target`. */
  function Patch(code: Code, i: int, target: int): (f: Code)
    requires i >= 0 ==> i + 1 < |code|
    ensures |f| == |code|
  {
    if i >= 0 then code[i + 1 := Offset(target - i)] else code
  }

  /** Patching the offset of an instruction in the middle of the code. */
  lemma PatchInst(pre: Code, op: Opcode, off: int, rest: Code)
    ensures (pre + OffInst(op, 0, 0) + rest)[|pre| + 1 := Offset(off)] == pre + OffInst(op, 0, off) + rest
  {
  }

  lemma PatchOff(pre: Code, op: Opcode, aux: Byte, off: int, rest: Code)
    ensures (pre + OffInst(op, aux, 0) + rest)[|pre| + 1 := Offset(off)] == pre + OffInst(op, aux, off) + rest
  {
  }

  lemma PatchGuard(pre: Code, g: Guard, off: int, rest: Code)
    requires !g.e
    ensures (pre + g.Code(0) + rest)[|pre| + 1 := Offset(off)] == pre + g.Code(off) + rest
  {
    var tail := if g.k.General? then CharsetSlots(g.cs) else [];
    var op, aux := TestOp(g.k), if g.k.Singleton? then g.k.c else 0;
    PatchOff(pre, op, aux, off, tail + rest);
    assert pre + (OffInst(op, aux, 0) + tail) + rest == pre + OffInst(op, aux, 0) + (tail + rest);
    assert pre + (OffInst(op, aux, off) + tail) + rest == pre + OffInst(op, aux, off) + (tail + rest);
  }

  /** Patching a leading test, if there is one, to jump behind what it protects. */
  lemma GuardPatched(pre: Code, g: Guard, body: Code)
    ensures var code := pre + g.Code(0) + body;
            Patch(code, if g.e then NOINST else |pre|, |code|) == pre + (g.Code(g.Size() + |body|) + body)
  {
    var off := g.Size() + |body|;
    if !g.e { PatchGuard(pre, g, off, body); }
    assert pre + g.Code(off) + body == pre + (g.Code(off) + body);
  }

  // What the patches of each shape add up to, from the code as it was appended.

  lemma AndPatched(pre: Code, c: Code)
    ensures var code := Patch(pre + OffInst(IChoice, 0, 0) + c + OffInst(IBackCommit, 0, 0), |pre|, |pre| + |c| + 4) +
              [Inst(IFail, 0)];
            Patch(code, |pre| + 2 + |c|, |pre| + |c| + 5) == pre + AndGeneral(c)
  {
    hide OffInst;
    hide Guard.Code;
    var back, fail := OffInst(IBackCommit, 0, 0), [Inst(IFail, 0)];
    assert pre + OffInst(IChoice, 0, 0) + c + back == pre + OffInst(IChoice, 0, 0) + (c + back);
    PatchInst(pre, IChoice, 2 + |c| + 2, c + back);
    var front := pre + OffInst(IChoice, 0, 2 + |c| + 2) + c;
    assert pre + OffInst(IChoice, 0, 2 + |c| + 2) + (c + back) == front + back;
    PatchInst(front, IBackCommit, 3, fail);
    assert front + OffInst(IBackCommit, 0, 3) + fail == pre + AndGeneral(c);
  }

  lemma NotPatched(pre: Code, g: Guard, c: Code)
    ensures var front := pre + g.Code(0);
            var code := Patch(front + OffInst(IChoice, 0, 0) + c + [Inst(IFailTwice, 0)], |front|, |front| + |c| + 3);
            Patch(code, if g.e then NOINST else |pre|, |code|) == pre + NotGeneral(g, c)
  {
    hide OffInst;
    hide Guard.Code;
    var front, fail := pre + g.Code(0), [Inst(IFailTwice, 0)];
    assert front + OffInst(IChoice, 0, 0) + c + fail == front + OffInst(IChoice, 0, 0) + (c + fail);
    PatchInst(front, IChoice, 2 + |c| + 1, c + fail);
    assert front + OffInst(IChoice, 0, 2 + |c| + 1) + (c + fail) == front + NotBody(c);
    GuardPatched(pre, g, NotBody(c));
  }

  lemma RepTestedPatched(pre: Code, g: Guard, c: Code)
    requires !g.e
    ensures var code := Patch(pre + g.Code(0) + c + OffInst(IJmp, 0, 0), |pre|, |pre| + g.Size() + |c| + 2);
            Patch(code, |pre| + g.Size() + |c|, |pre|) == pre + RepTested(g, c)
  {
    hide OffInst;
    hide Guard.Code;
    var jmp := OffInst(IJmp, 0, 0);
    assert pre + g.Code(0) + c + jmp == pre + g.Code(0) + (c + jmp);
    GuardPatched(pre, g, c + jmp);
    var front := pre + g.Code(g.Size() + |c| + 2) + c;
    assert pre + (g.Code(g.Size() + |c + jmp|) + (c + jmp)) == front + jmp + [];
    PatchInst(front, IJmp, -(g.Size() + |c|), []);
    assert front + OffInst(IJmp, 0, -(g.Size() + |c|)) + [] == pre + RepTested(g, c);
  }

  lemma ReusedPatched(pre: Code, c: Code)
    ensures Patch(pre + OffInst(IPartialCommit, 0, 0), |pre|, |pre| + 2) == pre + OffInst(IPartialCommit, 0, 2)
    ensures pre + OffInst(IPartialCommit, 0, 2) + c == pre + ChoiceReused(c)
  {
    hide OffInst;
    assert pre + OffInst(IPartialCommit, 0, 0) == pre + OffInst(IPartialCommit, 0, 0) + [];
    PatchInst(pre, IPartialCommit, 2, []);
    assert pre + OffInst(IPartialCommit, 0, 2) + [] == pre + OffInst(IPartialCommit, 0, 2);
  }

  /** The closing jump of a loop whose body starts at |open|. */
  lemma LoopPatched(open: Code, c: Code)
    ensures Patch(open + c + OffInst(IPartialCommit, 0, 0), |open| + |c|, |open|) ==
              open + (c + OffInst(IPartialCommit, 0, -|c|))
  {
    hide OffInst;
    assert open + c + OffInst(IPartialCommit, 0, 0) == (open + c) + OffInst(IPartialCommit, 0, 0) + [];
    PatchInst(open + c, IPartialCommit, -|c|, []);
    assert (open + c) + OffInst(IPartialCommit, 0, -|c|) + [] == open + (c + OffInst(IPartialCommit, 0, -|c|));
  }

  lemma RepPatched(pre: Code, g: Guard, opt: bool, c: Code)
    ensures var front := pre + g.Code(0);
            var open := if opt then Patch(front + OffInst(IPartialCommit, 0, 0), |front|, |front| + 2)
                else front + OffInst(IChoice, 0, 0);
            var loop := Patch(open + c + OffInst(IPartialCommit, 0, 0), |open| + |c|, |open|);
            var code := Patch(loop, if opt then NOINST else |front|, |loop|);
            Patch(code, if g.e then NOINST else |pre|, |code|) == pre + RepGeneral(g, opt, c)
  {
    hide Guard.Code;
    var front := pre + g.Code(0);
    RepBodyPatched(front, opt, c);
    GuardPatched(pre, g, RepBody(opt, c));
  }

  lemma RepBodyPatched(front: Code, opt: bool, c: Code)
    ensures var open := if opt then Patch(front + OffInst(IPartialCommit, 0, 0), |front|, |front| + 2)
              else front + OffInst(IChoice, 0, 0);
            var loop := Patch(open + c + OffInst(IPartialCommit, 0, 0), |open| + |c|, |open|);
            Patch(loop, if opt then NOINST else |front|, |loop|) == front + RepBody(opt, c)
  {
    hide OffInst;
    var rest := c + OffInst(IPartialCommit, 0, -|c|);
    if opt {
      ReusedPatched(front, []);
      LoopPatched(front + OffInst(IPartialCommit, 0, 2), c);
      assert front + OffInst(IPartialCommit, 0, 2) + rest == front + RepBody(opt, c);
    } else {
      LoopPatched(front + OffInst(IChoice, 0, 0), c);
      PatchInst(front, IChoice, 2 + |c| + 2, rest);
      assert front + OffInst(IChoice, 0, 2 + |c| + 2) + rest == front + RepBody(opt, c);
    }
  }

  lemma ChoiceTestedPatched(pre: Code, g: Guard, c1: Code, emptyp2: bool, c2: Code)
    requires !g.e && (emptyp2 ==> c2 == [])
    ensures var front := pre + g.Code(0) + c1;
            var open := if emptyp2 then front else front + OffInst(IJmp, 0, 0);
            var code := Patch(open, |pre|, |open|) + c2;
            Patch(code, if emptyp2 then NOINST else |front|, |code|) == pre + ChoiceTested(g, c1, emptyp2, c2)
  {
    hide OffInst;
    hide Guard.Code;
    var jmp := if emptyp2 then [] else OffInst(IJmp, 0, 0);
    var off := g.Size() + |c1| + |jmp|;
    assert pre + g.Code(0) + c1 + jmp == pre + g.Code(0) + (c1 + jmp);
    GuardPatched(pre, g, c1 + jmp);
    var front := pre + g.Code(off) + c1;
    assert pre + (g.Code(off) + (c1 + jmp)) + c2 == front + jmp + c2;
    PatchInst(front, IJmp, 2 + |c2|, c2);
    assert front + (if emptyp2 then [] else OffInst(IJmp, 0, 2 + |c2|)) + c2 == pre + ChoiceTested(g, c1, emptyp2, c2);
  }

  lemma ChoicePatched(pre: Code, g: Guard, c1: Code, c2: Code)
    ensures var front := pre + g.Code(0);
            var open := Patch(front + OffInst(IChoice, 0, 0) + c1 + OffInst(ICommit, 0, 0),
                              |front|, |front| + 2 + |c1| + 2);
            var code := Patch(open, if g.e then NOINST else |pre|, |open|) + c2;
            Patch(code, |front| + 2 + |c1|, |code|) == pre + ChoiceGeneral(g, c1, c2)
  {
    hide OffInst;
    hide Guard.Code;
    var front, commit, choice := pre + g.Code(0), OffInst(ICommit, 0, 0), OffInst(IChoice, 0, 2 + |c1| + 2);
    ChoiceOpen(front, c1, commit);
    GuardPatched(pre, g, choice + c1 + commit);
    ChoiceClosed(pre, g.Code(g.Size() + |c1| + 4), choice, c1, c2);
  }

  lemma ChoiceOpen(front: Code, c1: Code, commit: Code)
    requires |commit| == 2
    ensures Patch(front + OffInst(IChoice, 0, 0) + c1 + commit, |front|, |front| + 2 + |c1| + 2)
         == front + (OffInst(IChoice, 0, 2 + |c1| + 2) + c1 + commit)
  {
    hide OffInst;
    assert front + OffInst(IChoice, 0, 0) + c1 + commit == front + OffInst(IChoice, 0, 0) + (c1 + commit);
    PatchInst(front, IChoice, 2 + |c1| + 2, c1 + commit);
    var choice := OffInst(IChoice, 0, 2 + |c1| + 2);
    assert front + choice + (c1 + commit) == front + (choice + c1 + commit);
  }

  lemma ChoiceClosed(pre: Code, test: Code, choice: Code, c1: Code, c2: Code)
    ensures var code := pre + (test + (choice + c1 + OffInst(ICommit, 0, 0))) + c2;
            Patch(code, |pre| + |test| + |choice| + |c1|, |code|) ==
                pre + (test + (choice + c1 + OffInst(ICommit, 0, 2 + |c2|) + c2))
  {
    hide OffInst;
    var front := pre + test + choice + c1;
    assert pre + (test + (choice + c1 + OffInst(ICommit, 0, 0))) + c2 == front + OffInst(ICommit, 0, 0) + c2;
    PatchInst(front, ICommit, 2 + |c2|, c2);
    assert front + OffInst(ICommit, 0, 2 + |c2|) + c2 ==
        pre + (test + (choice + c1 + OffInst(ICommit, 0, 2 + |c2|) + c2));
  }

  // The code functions, case by case, in the terms of the methods below.

  lemma Assoc(a: Code, b: Code, c: Code)
    ensures a + b + c == a + (b + c)
  {
  }

  lemma TestAtNone(code: Code)
    ensures NOINST == -1 && TestValid(code, NOINST) && TestAt(code, NOINST) == NoTest
  {
  }

  lemma BehindIs(pre: Code, n: nat)
    requires n <= MAXBEHIND
    ensures MAXBEHIND == 255 && pre + BehindCode(n) == if n > 0 then pre + [Inst(IBehind, n)] else pre
  {
  }

  lemma GenBehindIs(gr: Grammar, n: nat, p: Tree)
    requires Valid(gr, p) && n <= MAXBEHIND
    ensures GenBehind(gr, n, p) == BehindCode(n) + Gen(gr, p, false, NoTest, FULLSET)
  {
    hide Gen;
  }

  lemma GenSeqIs(gr: Grammar, p1: Tree, p2: Tree, opt: bool, tt: Test, fl: Charset)
    requires Valid(gr, TSeq(p1, p2))
    ensures Gen(gr, TSeq(p1, p2), opt, tt, fl) ==
              Gen(gr, p1, false, tt, FollowOfFirst(gr, p1, p2, fl)) + Gen(gr, p2, opt, TestAfter(gr, p1, tt), fl)
  {
  }

  lemma GenAndIs(gr: Grammar, p: Tree, tt: Test)
    requires Valid(gr, p)
    ensures var n, c := FixedLen(gr, p), Gen(gr, p, false, tt, FULLSET);
            GenAnd(gr, p, tt) == if 0 <= n <= MAXBEHIND then c + BehindCode(n) else AndGeneral(c)
  {
    hide Gen;
  }

  lemma GenNotIs(gr: Grammar, p: Tree)
    requires Valid(gr, p)
    ensures var f := GetFirst(gr, p, FULLSET);
            var g := Guard(f.cs, KindOf(f.cs), f.e);
            && GuardOf(gr, p, false) == g
            && GenNot(gr, p) == if Headfail(gr, p) then g.Code(g.Size() + 1) + [Inst(IFail, 0)]
                 else NotGeneral(g, Gen(gr, p, false, NoTest, FULLSET))
  {
    hide Gen;
  }

  lemma GenRepIs(gr: Grammar, p: Tree, opt: bool, fl: Charset)
    requires Valid(gr, p)
    ensures var f := GetFirst(gr, p, FULLSET);
            && GuardOf(gr, p, true) == Guard(f.cs, KindOf(f.cs), false) &&
                 GuardOf(gr, p, false) == Guard(f.cs, KindOf(f.cs), f.e)
            && GenRep(gr, p, opt, fl) ==
               if IsCharset(p) then [Inst(ISpan, 0)] + CharsetSlots(ToCharset(p))
               else if Headfail(gr, p) || (!f.e && f.cs !! fl) then
                   RepTested(GuardOf(gr, p, true), Gen(gr, p, false, GuardOf(gr, p, true).Info(), FULLSET))
               else RepGeneral(GuardOf(gr, p, false), opt, Gen(gr, p, false, NoTest, FULLSET))
  {
    hide Gen;
  }

  lemma GenChoiceIs(gr: Grammar, p1: Tree, p2: Tree, opt: bool, fl: Charset)
    requires Valid(gr, p1) && Valid(gr, p2)
    ensures p2.TTrue? ==> Gen(gr, p2, opt, NoTest, fl) == []
    ensures var f1 := GetFirst(gr, p1, FULLSET);
            var g1, g2, c2 := GuardOf(gr, p1, true), GuardOf(gr, p1, false), Gen(gr, p2, opt, NoTest, fl);
            && g1 == Guard(f1.cs, KindOf(f1.cs), false) && g2 == Guard(f1.cs, KindOf(f1.cs), f1.e)
            && GenChoice(gr, p1, p2, opt, fl) ==
               if Headfail(gr, p1) || (!f1.e && f1.cs !! GetFirst(gr, p2, fl).cs) then
                   ChoiceTested(g1, Gen(gr, p1, false, g1.Info(), fl), p2.TTrue?, c2)
               else if opt && p2.TTrue? then ChoiceReused(Gen(gr, p1, true, NoTest, FULLSET))
               else ChoiceGeneral(g2, Gen(gr, p1, p2.TTrue?, g2.Info(), FULLSET), c2)
  {
    hide GetFirst;
    hide Headfail;
    hide KindOf;
    hide Guard.Info;
    hide Guard.Code;
    hide ChoiceTested;
    hide ChoiceGeneral;
    hide ChoiceReused;
  }

  /** The code of a grammar before its first rule, while the jump to the end is open. */
  function GrammarHead(): (f: Code)
    ensures |f| == 4
  {
    OffInst(ICall, 0, 4) + OffInst(IJmp, 0, 0)
  }

  lemma GrammarOpened(gr: Grammar)
    requires RulesValid(gr)
    ensures var code := [] + OffInst(ICall, 0, 0) + OffInst(IJmp, 0, 0);
            |code| == 4 && Patch(code, 0, 4) == GrammarHead() + Bodies(gr, 0)
  {
  }

  lemma GrammarNext(gr: Grammar, n: nat)
    requires RulesValid(gr) && n < |gr|
    ensures var code := GrammarHead() + Bodies(gr, n);
            && Valid(gr, gr[n]) && |code| == Position(gr, n)
            && code + Gen(gr, gr[n], false, NoTest, FULLSET) + [Inst(IRet, 0)] == GrammarHead() + Bodies(gr, n + 1)
  {
    hide Gen;
    hide GrammarHead;
    Assoc(GrammarHead() + Bodies(gr, n), Gen(gr, gr[n], false, NoTest, FULLSET), [Inst(IRet, 0)]);
    Assoc(GrammarHead(), Bodies(gr, n), RuleCode(gr, n));
  }

  lemma GrammarClosed(gr: Grammar)
    requires RulesValid(gr)
    ensures var code := GrammarHead() + Bodies(gr, |gr|);
            Patch(code, 2, |code|) + [Inst(IEnd, 0)] == OpenProgram(gr)
  {
    hide OffInst;
    hide Bodies;
    var call, jmp, b := OffInst(ICall, 0, 4), OffInst(IJmp, 0, 0), Bodies(gr, |gr|);
    PatchInst(call, IJmp, |b| + 2, b);
  }

  lemma CallDoneIs(code: Code, i: nat, tail: bool, target: nat)
    requires i + 2 <= |code|
    ensures CallDone(code, i, tail, target) == Patch(code[i := Inst(if tail then IJmp else ICall, 0)], i, target)
    ensures CallDone(code, i, tail, target)[i].Inst? && SizeI(CallDone(code, i, tail, target)[i].op) == 2
  {
  }

  lemma PeepholeRefl(code: Code)
    requires Program(code)
    ensures Peephole(code, code)
  {
    forall p: nat {:trigger Optimized(code, code, p)} | Start(code, p) ensures Optimized(code, code, p) {
      assert SlotOk(code, p);
    }
  }

  /** Instruction `i` changes into something that behaves alike; the rest stays. */
  ghost predicate Replaces(input: Code, before: Code, after: Code, i: nat)
    requires Program(input)
  {
    && |before| == |after| == |input| && Start(input, i) && SlotOk(input, i) && SizeI(input[i].op) >= 2
    && (forall k :: 0 <= k < |before| && k != i && k != i + 1 ==> after[k] == before[k])
    && before[i].Inst? && after[i].Inst? && (before[i].op != IJmp ==> after[i].op != IJmp)
  }

  lemma Apart(input: Code, i: nat, p: nat)
    requires Start(input, i) && SlotOk(input, i) && SizeI(input[i].op) >= 2
    requires Start(input, p) && p != i && SlotOk(input, p)
    ensures (if p < i then i >= p + SizeI(input[p].op) else p >= i + 2) && !Start(input, i + 1)
  {
  }

  lemma StaysOptimized(input: Code, before: Code, after: Code, i: nat, p: nat)
    requires Program(input) && Start(input, p) && p != i && SlotOk(input, p) && Replaces(input, before, after, i)
    requires Optimized(input, before, p)
    ensures Optimized(input, after, p)
  {
    hide Final;
    hide Program;
    hide SlotOk;
    Apart(input, i, p);
  }

  lemma Replaced(input: Code, before: Code, after: Code, i: nat)
    requires Peephole(input, before) && Replaces(input, before, after, i) && Optimized(input, after, i)
    ensures Peephole(input, after)
  {
    forall p: nat {:trigger Optimized(input, after, p)} | Start(input, p)
      ensures Optimized(input, after, p)
    {
      assert Optimized(input, before, p) && SlotOk(input, p);
      if p != i { StaysOptimized(input, before, after, i, p); }
    }
  }

  /** A jump at `i` that leads to `ft`. */
  ghost predicate Jump(input: Code, code: Code, i: nat, ft: nat)
    requires Peephole(input, code)
  {
    && Start(input, i) && SlotOk(input, i) && input[i].op == IJmp && code[i] == input[i] && code[i + 1] == input[i + 1]
    && Start(input, ft) && Final(input, ft) == Final(input, i) && Same(input, Final(input, i), code, ft)
  }

  /** It may become the instruction there, if that one has no label and does not go on. */
  lemma StopReplaced(input: Code, code: Code, i: nat, ft: nat)
    requires Peephole(input, code) && Jump(input, code, i, ft) && !HasLabel(code[ft].op) && !FallsThrough(code[ft].op)
    ensures Peephole(input, code[i := code[ft]][i + 1 := Inst(IAny, 0)])
  {
    hide Final;
    hide Program;
    Replaced(input, code, code[i := code[ft]][i + 1 := Inst(IAny, 0)], i);
  }

  /** It may lead there at once. */
  lemma JumpReplaced(input: Code, code: Code, i: nat, ft: nat)
    requires Peephole(input, code) && Jump(input, code, i, ft) && code[ft].op != IJmp
    ensures Peephole(input, Patch(code, i, ft))
  {
    hide Final;
    hide Program;
    var after := Patch(code, i, ft);
    assert On(after).Target(i) == ft;
    Replaced(input, code, after, i);
  }

  class CompileState {
    const gr: Grammar
    var code: Code

    constructor (gr: Grammar)
      ensures this.gr == gr && code == []
    {
      this.gr := gr;
      code := [];
    }

    method AddInstruction(op: Opcode, aux: Byte) returns (i: nat)
      modifies this
      ensures i == |old(code)| && code == old(code) + [Inst(op, aux)]
    {
      i := |code|;
      code := code + [Inst(op, aux)];
    }

    method AddOffsetInst(op: Opcode) returns (i: nat)
      modifies this
      ensures i == |old(code)| && code == old(code) + OffInst(op, 0, 0)
    {
      i := AddInstruction(op, 0);
      code := code + [Offset(0)];
    }

    method JumpToThere(instruction: int, target: nat)
      requires instruction >= 0 ==> instruction + 1 < |code|
      modifies this
      ensures code == Patch(old(code), instruction, target)
    {
      if instruction >= 0 {
        code := code[instruction + 1 := Offset(target - instruction)];
      }
    }

    method JumpToHere(instruction: int)
      requires instruction >= 0 ==> instruction + 1 < |code|
      modifies this
      ensures code == Patch(old(code), instruction, |old(code)|)
    {
      JumpToThere(instruction, |code|);
    }

    method CodeChar(c: Byte, tt: int)
      requires TestValid(code, tt)
      modifies this
      ensures code == old(code) + CharCode(c, TestAt(old(code), tt))
    {
      if tt >= 0 && code[tt].op == ITestChar && code[tt].aux == c {
        var _ := AddInstruction(IAny, 0);
      } else {
        var _ := AddInstruction(IChar, c);
      }
    }

    method AddCharset(cs: Charset)
      modifies this
      ensures code == old(code) + CharsetSlots(cs)
    {
      code := code + CharsetSlots(cs);
    }

    method CodeCharset(cs: Charset, tt: int)
      requires TestValid(code, tt)
      modifies this
      ensures code == old(code) + CharsetCode(cs, TestAt(old(code), tt))
    {
      match KindOf(cs)
      case Singleton(c) => CodeChar(c, tt);
      case General =>
        if tt >= 0 && code[tt].op == ITestSet && cs == code[tt + 2].cs {
          var _ := AddInstruction(IAny, 0);
        } else {
          var _ := AddInstruction(ISet, 0);
          AddCharset(cs);
          assert code == old(code) + ([Inst(ISet, 0)] + CharsetSlots(cs));
        }
      case Empty => var _ := AddInstruction(IFail, 0);
      case Full => var _ := AddInstruction(IAny, 0);
    }

    method CodeTestSet(cs: Charset, e: bool) returns (i: int)
      modifies this
      ensures var g := Guard(cs, KindOf(cs), e);
              && i == (if e then NOINST else |old(code)|)
              && code == old(code) + g.Code(0)
              && TestValid(code, i) && TestAt(code, i) == g.Info()
              && (!e ==> g.Size() >= 2)
    {
      if e { return NOINST; }
      match KindOf(cs)
      case Empty => i := AddOffsetInst(IJmp);
      case Full => i := AddOffsetInst(ITestAny);
      case Singleton(c) =>
        i := AddOffsetInst(ITestChar);
        code := code[i := Inst(ITestChar, c)];
        assert code == old(code) + OffInst(ITestChar, c, 0);
      case General =>
        i := AddOffsetInst(ITestSet);
        AddCharset(cs);
        assert code == old(code) + (OffInst(ITestSet, 0, 0) + CharsetSlots(cs));
    }

    /** Code of `t`, appended. The loop takes the second operand of a sequence in place. */
    method Codegen(t: Tree, opt: bool, tt: int, fl: Charset)
      requires Valid(gr, t) && TestValid(code, tt)
      modifies this
      ensures code == old(code) + Gen(gr, t, opt, TestAt(old(code), tt), fl)
      decreases t, 2
    {
      var tree, test := t, tt;
      ghost var all := old(code) + Gen(gr, t, opt, TestAt(old(code), tt), fl);
      while tree.TSeq?
        invariant (tree == t || tree < t) && Valid(gr, tree) && TestValid(code, test)
        invariant code + Gen(gr, tree, opt, TestAt(code, test), fl) == all
        decreases tree
      {
        hide Gen;
        ghost var code0, test0 := code, TestAt(code, test);
        GenSeqIs(gr, tree.sib1, tree.sib2, opt, test0, fl);
        test := CodeSeq1(tree.sib1, tree.sib2, test, fl);
        Assoc(code0, Gen(gr, tree.sib1, false, test0, FollowOfFirst(gr, tree.sib1, tree.sib2, fl)),
            Gen(gr, tree.sib2, opt, TestAt(code, test), fl));
        tree := tree.sib2;
      }
      match tree
      case TChar(c) => CodeChar(c, test);
      case TAny => var _ := AddInstruction(IAny, 0);
      case TSet(cs) => CodeCharset(cs, test);
      case TTrue => assert code + [] == code;
      case TFalse => var _ := AddInstruction(IFail, 0);
      case TChoice(p1, p2) => CodeChoice(p1, p2, opt, fl, t);
      case TRep(p) => CodeRep(p, opt, fl, t);
      case TBehind(n, p) => CodeBehind(n, p, t);
      case TNot(p) => CodeNot(p, t);
      case TAnd(p) => CodeAnd(p, test, t);
      case TCall(r) => CodeCall(r);
    }

    method CodeCall(r: nat)
      requires r < MAXRULES
      modifies this
      ensures code == old(code) + CallCode(r)
    {
      var _ := AddInstruction(IOpenCall, r);
      code := code + [Hole];
    }

    /** First operand of a sequence; returns the test that still protects the second. */
    method CodeSeq1(p1: Tree, p2: Tree, tt: int, fl: Charset) returns (tt2: int)
      requires Valid(gr, p1) && Valid(gr, p2) && TestValid(code, tt)
      modifies this
      ensures code == old(code) + Gen(gr, p1, false, TestAt(old(code), tt), FollowOfFirst(gr, p1, p2, fl))
      ensures TestValid(code, tt2) && TestAt(code, tt2) == TestAfter(gr, p1, TestAt(old(code), tt))
      decreases p1, 3
    {
      hide Gen;
      if NeedFollow(p1) {
        Codegen(p1, false, tt, GetFirst(gr, p2, fl).cs);
      } else {
        Codegen(p1, false, tt, FULLSET);
      }
      TestAtAppend(old(code), tt, Gen(gr, p1, false, TestAt(old(code), tt), FollowOfFirst(gr, p1, p2, fl)));
      tt2 := if FixedLen(gr, p1) != 0 then NOINST else tt;
    }

    method CodeBehind(n: nat, p: Tree, ghost t: Tree)
      requires Valid(gr, p) && n <= MAXBEHIND && p < t
      modifies this
      ensures code == old(code) + GenBehind(gr, n, p)
      decreases t, 1
    {
      hide *;
      ghost var pre := code;
      BehindIs(pre, n);
      GenBehindIs(gr, n, p);
      if n > 0 {
        var _ := AddInstruction(IBehind, n);
      }
      TestAtNone(code);
      Codegen(p, false, NOINST, FULLSET);
      Assoc(pre, BehindCode(n), Gen(gr, p, false, NoTest, FULLSET));
    }

    method CodeAnd(p: Tree, tt: int, ghost t: Tree)
      requires Valid(gr, p) && TestValid(code, tt) && p < t
      modifies this
      ensures code == old(code) + GenAnd(gr, p, TestAt(old(code), tt))
      decreases t, 1
    {
      hide *;
      var n := FixedLen(gr, p);
      ghost var pre, c := code, Gen(gr, p, false, TestAt(code, tt), FULLSET);
      GenAndIs(gr, p, TestAt(code, tt));
      if 0 <= n <= MAXBEHIND {
        Codegen(p, false, tt, FULLSET);
        BehindIs(pre + c, n);
        if n > 0 {
          var _ := AddInstruction(IBehind, n);
        }
        Assoc(pre, c, BehindCode(n));
      } else {
        var choice := AddOffsetInst(IChoice);
        TestAtAppend(pre, tt, OffInst(IChoice, 0, 0));
        Codegen(p, false, tt, FULLSET);
        var commit := AddOffsetInst(IBackCommit);
        JumpToHere(choice);
        var _ := AddInstruction(IFail, 0);
        JumpToHere(commit);
        AndPatched(pre, c);
      }
    }

    method CodeNot(p: Tree, ghost t: Tree)
      requires Valid(gr, p) && p < t
      modifies this
      ensures code == old(code) + GenNot(gr, p)
      decreases t, 1
    {
      hide *;
      var f := GetFirst(gr, p, FULLSET);
      ghost var pre, g, c := code, GuardOf(gr, p, false), Gen(gr, p, false, NoTest, FULLSET);
      GenNotIs(gr, p);
      var test := CodeTestSet(f.cs, f.e);
      if Headfail(gr, p) {
        var _ := AddInstruction(IFail, 0);
        GuardPatched(pre, g, [Inst(IFail, 0)]);
      } else {
        var choice := AddOffsetInst(IChoice);
        TestAtNone(code);
        Codegen(p, false, NOINST, FULLSET);
        var _ := AddInstruction(IFailTwice, 0);
        JumpToHere(choice);
        NotPatched(pre, g, c);
      }
      JumpToHere(test);
    }

    method CodeRep(p: Tree, opt: bool, fl: Charset, ghost t: Tree)
      requires Valid(gr, p) && p < t
      modifies this
      ensures code == old(code) + GenRep(gr, p, opt, fl)
      decreases t, 1
    {
      hide *;
      ghost var pre := code;
      GenRepIs(gr, p, opt, fl);
      if IsCharset(p) {
        var _ := AddInstruction(ISpan, 0);
        AddCharset(ToCharset(p));
        Assoc(pre, [Inst(ISpan, 0)], CharsetSlots(ToCharset(p)));
      } else {
        var f := GetFirst(gr, p, FULLSET);
        if Headfail(gr, p) || (!f.e && f.cs !! fl) {
          CodeRepTested(p, f, t);
        } else {
          CodeRepGeneral(p, opt, f, t);
        }
      }
    }

    /** L1: test (fail(p1)) -> L2; <p>; jmp L1; L2: */
    method CodeRepTested(p: Tree, f: First, ghost t: Tree)
      requires Valid(gr, p) && p < t && f == GetFirst(gr, p, FULLSET)
      modifies this
      ensures var g := GuardOf(gr, p, true);
              code == old(code) + RepTested(g, Gen(gr, p, false, g.Info(), FULLSET))
      decreases t, 0
    {
      hide *;
      GenRepIs(gr, p, false, FULLSET);
      ghost var pre, g := code, GuardOf(gr, p, true);
      var test := CodeTestSet(f.cs, false);
      Codegen(p, false, test, FULLSET);
      var jmp := AddOffsetInst(IJmp);
      JumpToHere(test);
      JumpToThere(jmp, test);
      RepTestedPatched(pre, g, Gen(gr, p, false, g.Info(), FULLSET));
    }

    /** test(fail(p1)) -> L2; choice L2; L1: <p>; partialcommit L1; L2: */
    method CodeRepGeneral(p: Tree, opt: bool, f: First, ghost t: Tree)
      requires Valid(gr, p) && p < t && f == GetFirst(gr, p, FULLSET)
      modifies this
      ensures code == old(code) + RepGeneral(GuardOf(gr, p, false), opt, Gen(gr, p, false, NoTest, FULLSET))
      decreases t, 0
    {
      hide *;
      GenRepIs(gr, p, opt, FULLSET);
      ghost var pre, g, c := code, GuardOf(gr, p, false), Gen(gr, p, false, NoTest, FULLSET);
      var test := CodeTestSet(f.cs, f.e);
      var choice := NOINST;
      TestAtNone(code);
      if opt {
        var commit := AddOffsetInst(IPartialCommit);
        JumpToHere(commit);
      } else {
        choice := AddOffsetInst(IChoice);
      }
      var l2 := |code|;
      TestAtNone(code);
      Codegen(p, false, NOINST, FULLSET);
      var commit := AddOffsetInst(IPartialCommit);
      JumpToThere(commit, l2);
      JumpToHere(choice);
      JumpToHere(test);
      RepPatched(pre, g, opt, c);
    }

    method CodeChoice(p1: Tree, p2: Tree, opt: bool, fl: Charset, ghost t: Tree)
      requires Valid(gr, p1) && Valid(gr, p2) && p1 < t && p2 < t
      modifies this
      ensures code == old(code) + GenChoice(gr, p1, p2, opt, fl)
      decreases t, 1
    {
      hide *;
      var emptyp2 := p2.TTrue?;
      var f1 := GetFirst(gr, p1, FULLSET);
      GenChoiceIs(gr, p1, p2, opt, fl);
      if Headfail(gr, p1) || (!f1.e && f1.cs !! GetFirst(gr, p2, fl).cs) {
        CodeChoiceTested(p1, p2, opt, fl, f1, t);
      } else if opt && emptyp2 {
        ghost var pre := code;
        var commit := AddOffsetInst(IPartialCommit);
        JumpToHere(commit);
        TestAtNone(code);
        Codegen(p1, true, NOINST, FULLSET);
        ReusedPatched(pre, Gen(gr, p1, true, NoTest, FULLSET));
      } else {
        CodeChoiceGeneral(p1, p2, opt, fl, f1, t);
      }
    }

    /** test (fail(p1)) -> L1; <p1>; jmp L2; L1: <p2>; L2: */
    method CodeChoiceTested(p1: Tree, p2: Tree, opt: bool, fl: Charset, f1: First, ghost t: Tree)
      requires Valid(gr, p1) && Valid(gr, p2) && p1 < t && p2 < t && f1 == GetFirst(gr, p1, FULLSET)
      modifies this
      ensures var g := GuardOf(gr, p1, true);
              code == old(code) +
                ChoiceTested(g, Gen(gr, p1, false, g.Info(), fl), p2.TTrue?, Gen(gr, p2, opt, NoTest, fl))
      decreases t, 0
    {
      hide *;
      GenChoiceIs(gr, p1, p2, opt, fl);
      ghost var pre, g := code, GuardOf(gr, p1, true);
      var test := CodeTestSet(f1.cs, false);
      var jmp := NOINST;
      Codegen(p1, false, test, fl);
      if !p2.TTrue? {
        jmp := AddOffsetInst(IJmp);
      }
      JumpToHere(test);
      TestAtNone(code);
      Codegen(p2, opt, NOINST, fl);
      JumpToHere(jmp);
      ChoiceTestedPatched(pre, g, Gen(gr, p1, false, g.Info(), fl), p2.TTrue?, Gen(gr, p2, opt, NoTest, fl));
    }

    /** test(first(p1)) -> L1; choice L1; <p1>; commit L2; L1: <p2>; L2: */
    method CodeChoiceGeneral(p1: Tree, p2: Tree, opt: bool, fl: Charset, f1: First, ghost t: Tree)
      requires Valid(gr, p1) && Valid(gr, p2) && p1 < t && p2 < t && f1 == GetFirst(gr, p1, FULLSET)
      modifies this
      ensures var g := GuardOf(gr, p1, false);
              code == old(code) +
                ChoiceGeneral(g, Gen(gr, p1, p2.TTrue?, g.Info(), FULLSET), Gen(gr, p2, opt, NoTest, fl))
      decreases t, 0
    {
      hide *;
      GenChoiceIs(gr, p1, p2, opt, fl);
      ghost var pre, g := code, GuardOf(gr, p1, false);
      ghost var c1, c2 := Gen(gr, p1, p2.TTrue?, g.Info(), FULLSET), Gen(gr, p2, opt, NoTest, fl);
      var test := CodeTestSet(f1.cs, f1.e);
      var choice := AddOffsetInst(IChoice);
      TestAtAppend(pre + g.Code(0), test, OffInst(IChoice, 0, 0));
      Codegen(p1, p2.TTrue?, test, FULLSET);
      var commit := AddOffsetInst(ICommit);
      JumpToHere(choice);
      JumpToHere(test);
      TestAtNone(code);
      Codegen(p2, opt, NOINST, fl);
      JumpToHere(commit);
      ChoicePatched(pre, g, c1, c2);
    }

    /** finaltarget: follow a sequence of jumps. */
    method FinalTarget(ghost n: nat, i: nat) returns (q: nat)
      requires Chain(code, i, n)
      ensures q == ChainEnd(code, i, n)
    {
      q := i;
      ghost var left := n;
      while code[q].op == IJmp
        invariant Chain(code, q, left) && ChainEnd(code, q, left) == ChainEnd(code, i, n)
        decreases left
      {
        q := On(code).Target(q);
        left := left - 1;
      }
    }

    /** finallabel: where the label of instruction `i` leads in the end. */
    method FinalLabel(ghost n: nat, i: nat) returns (q: nat)
      requires On(code).IsInst(i) && HasLabel(code[i].op) && Chain(code, On(code).Target(i), n)
      ensures q == ChainEnd(code, On(code).Target(i), n)
    {
      q := FinalTarget(n, On(code).Target(i));
    }

    /** correctcalls: change open calls to calls of the code of their rules. */
    method CorrectCalls(positions: array<nat>, from: nat, to: nat)
      requires Accepted(gr) && code + [Inst(IEnd, 0)] == OpenProgram(gr) && from == 4 && to == |code|
      requires positions.Length == MAXRULES && forall n :: 0 <= n < |gr| ==> positions[n] == Position(gr, n)
      modifies this
      ensures Corrected(OpenProgram(gr), code + [Inst(IEnd, 0)], Positions(gr))
    {
      hide *;
      AcceptedValid(gr);
      ghost var o, pos := OpenProgram(gr), Positions(gr);
      ghost var full := AllOpen(gr, code);
      OpenClosed(gr);
      StartCorrecting(gr, code, full);
      var i := from;
      while i < to
        invariant from <= i <= to == |code| && Correcting(o, pos, code, full, i)
      {
        ghost var before := code;
        CorrectingIs(gr, code, full, i);
        if code[i].op == IOpenCall {
          ghost var jumps := JumpsEndInside(gr, code, full, i + 2);
          var rule := positions[code[i].aux];
          BehindReturn(gr, code, full, i, code[i].aux);
          assert rule == from || code[rule - 1].op == IRet;
          var target := FinalTarget(jumps, i + 2);
          var op := if code[target].op == IRet then IJmp else ICall;
          full := CallCorrected(o, pos, code, full, i, jumps);
          code := code[i := Inst(op, 0)];
          JumpToThere(i, rule);
          CallDoneIs(before, i, op == IJmp, rule);
          i := i + SizeI(code[i].op);
        } else {
          NotCorrected(o, pos, code, full, i);
          i := i + SizeI(code[i].op);
        }
      }
      AllCorrected(o, pos, code, full);
    }

    /** codegrammar: call L1; jmp L2; L1: rule 1; ret; rule 2; ret; ...; L2: */
    method CodeGrammar()
      requires Accepted(gr) && code == []
      modifies this
      ensures Corrected(OpenProgram(gr), code + [Inst(IEnd, 0)], Positions(gr))
    {
      hide *;
      AcceptedValid(gr);
      var positions := new nat[MAXRULES];
      var rulenumber := 0;
      var firstcall := AddOffsetInst(ICall);
      var jumptoend := AddOffsetInst(IJmp);
      var start := |code|;
      JumpToHere(firstcall);
      GrammarOpened(gr);
      while rulenumber < |gr|
        invariant 0 <= rulenumber <= |gr| && code == GrammarHead() + Bodies(gr, rulenumber)
        invariant forall n :: 0 <= n < rulenumber ==> positions[n] == Position(gr, n)
      {
        GrammarNext(gr, rulenumber);
        positions[rulenumber] := |code|;
        TestAtNone(code);
        Codegen(gr[rulenumber], false, NOINST, FULLSET);
        var _ := AddInstruction(IRet, 0);
        rulenumber := rulenumber + 1;
      }
      JumpToHere(jumptoend);
      GrammarClosed(gr);
      CorrectCalls(positions, start, |code|);
    }

    /** One labelled instruction gets the final destination of its label. */
    method OptimizeLabel(ghost input: Code, i: nat)
      requires Peephole(input, code) && Start(input, i) && Same(input, Final(input, i), code, i)
      requires HasLabel(code[i].op) && SizeI(input[i].op) >= 2 && SlotOk(input, i)
      modifies this
      ensures Peephole(input, code) && |code| == |old(code)| && code[i] == old(code[i])
      ensures forall k :: 0 <= k < |code| && k != i + 1 ==> code[k] == old(code)[k]
      ensures code[i].op != IJmp ==> Straight(code, i)
    {
      hide Final;
      ghost var n := OptimizedChain(input, code, On(code).Target(i));
      var l := FinalLabel(n, i);
      ghost var before := code;
      JumpToThere(i, l);
      assert On(code).Target(i) == l;
      Replaced(input, before, code, i);
    }

    /** A jump to an instruction that does not go on becomes that instruction. */
    method OptimizeJump(ghost input: Code, i: nat)
      requires Peephole(input, code) && Start(input, i) && SlotOk(input, i) && input[i].op == IJmp
      requires code[i] == input[i] && code[i + 1] == input[i + 1]
      modifies this
      ensures Peephole(input, code) && |code| == |old(code)| && code[i].Inst?
      ensures forall k :: 0 <= k < |code| && k != i && k != i + 1 ==> code[k] == old(code)[k]
      ensures SizeI(code[i].op) == 2 || (SizeI(code[i].op) == 1 && code[i + 1] == Inst(IAny, 0))
      ensures Straight(code, i)
    {
      hide Final;
      hide Straight;
      ghost var n := OptimizedChain(input, code, i);
      var ft := FinalTarget(n, i);
      ghost var before := code;
      if code[ft].op == IRet || code[ft].op == IFail || code[ft].op == IFailTwice || code[ft].op == IEnd {
        code := code[i := code[ft]];
        code := code[i + 1 := Inst(IAny, 0)];
        StopReplaced(input, before, i, ft);
        NoLabel(code, i);
      } else if code[ft].op == ICommit || code[ft].op == IPartialCommit || code[ft].op == IBackCommit {
        ghost var n' := OptimizedChain(input, code, On(code).Target(ft));
        var fft := FinalLabel(n', ft);
        code := code[i := code[ft]];
        JumpToThere(i, fft);
        assert On(code).Target(i) == fft;
        Replaced(input, before, code, i);
        OptimizeLabel(input, i);
      } else {
        JumpToThere(i, ft);
        JumpReplaced(input, before, i, ft);
        JumpStraight(before, i, ft);
      }
    }

    /** peephole: one pass over the code. */
    method OptimizeCode()
      requires Program(code)
      modifies this
      ensures Peephole(old(code), code)
      ensures AllStraight(old(code), code, |code|)
    {
      hide Final;
      hide Straight;
      hide AllStraight;
      hide Peephole;
      hide Program;
      hide Optimized;
      hide Same;
      ghost var input := code;
      PeepholeRefl(code);
      NoneStraight(code);
      var i := 0;
      ghost var next := 0;
      while i < |code|
        invariant Peephole(input, code) && |code| == |input| && i <= next <= |code|
        invariant next < |code| ==> Start(input, next)
        invariant i == next || (i + 1 == next && code[i] == Inst(IAny, 0))
        invariant forall k :: next <= k < |code| ==> code[k] == input[k]
        invariant AllStraight(input, code, next)
      {
        ghost var before, first := code, i == next;
        if i == next {
          PeepholeIs(input, code, i);
          next := i + SizeI(input[i].op);
        }
        if code[i].op == IJmp {
          OptimizeJump(input, i);
        } else if HasLabel(code[i].op) {
          OptimizeLabel(input, i);
        } else {
          NoLabel(code, i);
        }
        if first {
          StartsStay(input, before);
          OneStraight(input, before, code, i, next);
        }
        i := i + SizeI(code[i].op);
      }
    }
  }

  lemma NoLabel(code: Code, p: nat)
    requires p < |code| && code[p].Inst? && !HasLabel(code[p].op)
    ensures Straight(code, p)
  {
  }

  lemma JumpStraight(code: Code, i: nat, ft: nat)
    requires i + 1 < |code| && Start(code, i) && code[i].op == IJmp && !code[i + 1].Inst?
    requires Start(code, ft) && code[ft].op != IJmp && FallsThrough(code[ft].op)
    ensures Straight(Patch(code, i, ft), i)
  {
    var after := Patch(code, i, ft);
    assert after[i] == code[i] && On(after).IsInst(i) && On(after).Target(i) == ft;
  }

  lemma StartsStay(code: Code, out: Code)
    requires Peephole(code, out)
    ensures forall p :: 0 <= p < |code| && Start(code, p) ==> out[p].Inst?
  {
    hide Final;
    forall p | 0 <= p < |code| && Start(code, p) ensures out[p].Inst? { assert Optimized(code, out, p); }
  }

  /** An instruction that has not been looked at. */
  lemma PeepholeIs(input: Code, code: Code, i: nat)
    requires Peephole(input, code) && Start(input, i) && code[i] == input[i]
    ensures |code| == |input| && i + SizeI(input[i].op) <= |input| && SlotOk(input, i)
    ensures i + SizeI(input[i].op) < |input| ==> Start(input, i + SizeI(input[i].op))
    ensures code[i].op != IJmp && HasLabel(code[i].op) ==> Same(input, Final(input, i), code, i)
  {
    NextStart(input, i);
    assert Optimized(input, code, i);
  }

  lemma NoneStraight(code: Code)
    requires Program(code)
    ensures Start(code, 0) && AllStraight(code, code, 0)
  {
  }

  /** Behind an instruction there is another one, or the end of the program. */
  lemma NextStart(code: Code, p: nat)
    requires Program(code) && Start(code, p)
    ensures p + SizeI(code[p].op) <= |code|
    ensures p + SizeI(code[p].op) < |code| ==> Start(code, p + SizeI(code[p].op))
    ensures SlotOk(code, p)
  {
    assert SlotOk(code, p);
  }

  // Whole patterns

  /** What is compiled: a pattern outside a grammar, or a grammar. */
  datatype Pattern = Plain(tree: Tree) | Rules(rules: Grammar) {

    /** What the tree constructors accept. */
    predicate Compilable() {
      match this
      case Plain(t) => Valid([], t)
      case Rules(gr) => Accepted(gr)
    }

    function Means(s: Subject, i: nat): Outcome
      requires i <= |s| && Compilable()
    {
      match this
      case Plain(t) => Match([], t, s, i, 0)
      case Rules(gr) => Meaning(gr, s, i)
    }

    /** Programs of the pattern before the optimizer. */
    ghost predicate Unoptimized(code: Code)
      requires Compilable()
    {
      match this
      case Plain(t) => code == Gen([], t, false, NoTest, FULLSET) + [Inst(IEnd, 0)]
      case Rules(gr) => Corrected(OpenProgram(gr), code, Positions(gr))
    }
  }

  /** Run from its first instruction, the code ends as the outcome says. */
  ghost predicate Computes(code: Code, s: Subject, i: nat, r: Outcome) {
    !r.Out? && Machine(code, s).Reach(Run(0, i, []), Expected(r))
  }

  lemma {:induction false} NoRules(t: Tree)
    requires Valid([], t)
    ensures Callless(t)
  {
    match t
    case TRep(p) => NoRules(p);
    case TNot(p) => NoRules(p);
    case TAnd(p) => NoRules(p);
    case TSeq(p1, p2) => NoRules(p1); NoRules(p2);
    case TChoice(p1, p2) => NoRules(p1); NoRules(p2);
    case _ =>
  }

  /** Before the optimizer, the program does what the pattern says. */
  lemma UnoptimizedCorrect(p: Pattern, code: Code, s: Subject, i: nat)
    requires p.Compilable() && p.Unoptimized(code) && i <= |s|
    ensures Computes(code, s, i, p.Means(s, i))
  {
    hide Machine.Reach;
    hide Corrected;
    hide OpenProgram;
    hide Positions;
    match p
    case Plain(t) =>
      NoRules(t);
      CalllessEnds([], t, s, i, 0);
      hide Gen;
      hide Match;
      TreeCorrect(t, s, i);
    case Rules(gr) =>
      MeaningIs(gr, s, i, Nesting(|s| - i, MAXRULES));
      hide Match;
      RulesCorrect(gr, code, s, i, Nesting(|s| - i, MAXRULES));
  }

  lemma UnoptimizedProgram(p: Pattern, code: Code)
    requires p.Compilable() && p.Unoptimized(code)
    ensures Program(code)
  {
    hide Corrected;
    hide OpenProgram;
    hide Positions;
    hide Program;
    hide Gen;
    match p
    case Plain(t) => TreeProgram(t);
    case Rules(gr) => RulesProgram(gr, code);
  }

  /** Whatever the optimizer makes of it, the program of a pattern does what the pattern says. */
  lemma CompiledCorrect(p: Pattern, input: Code, code: Code)
    requires p.Compilable() && p.Unoptimized(input) && Peephole(input, code)
    ensures forall s: Subject, i: nat {:trigger p.Means(s, i)} :: i <= |s| ==> Computes(code, s, i, p.Means(s, i))
  {
    hide Peephole;
    hide Machine.Reach;
    hide Pattern.Unoptimized;
    hide Pattern.Means;
    hide Pattern.Compilable;
    forall s: Subject, i: nat {:trigger p.Means(s, i)} | i <= |s| ensures Computes(code, s, i, p.Means(s, i)) {
      UnoptimizedCorrect(p, input, s, i);
      PeepholeCorrect(input, code, s, i, Expected(p.Means(s, i)));
    }
  }

  /** Compile a pattern: running the result from its first instruction gives, on every
      subject and from every position, what the PEG semantics gives. */
  method Compile(p: Pattern) returns (code: Code)
    requires p.Compilable()
    ensures forall s: Subject, i: nat {:trigger p.Means(s, i)} :: i <= |s| ==> Computes(code, s, i, p.Means(s, i))
  {
    hide Peephole;
    hide Program;
    hide Computes;
    hide Gen;
    hide Pattern.Means;
    hide Corrected;
    var compst := new CompileState(match p case Plain(_) => [] case Rules(gr) => gr);
    match p {
      case Plain(t) => compst.Codegen(t, false, NOINST, FULLSET);
      case Rules(_) => compst.CodeGrammar();
    }
    var _ := compst.AddInstruction(IEnd, 0);
    ghost var input := compst.code;
    assert p.Unoptimized(input);
    UnoptimizedProgram(p, input);
    compst.OptimizeCode();
    code := compst.code;
    CompiledCorrect(p, input, code);
  }

  /** A program that computes an outcome ends at `j` exactly when the outcome is a match up to
      `j`, gives up exactly when it is a failure, and ends in no other way. */
  lemma RunsDecide(code: Code, s: Subject, i: nat, r: Outcome, end: State)
    requires Computes(code, s, i, r) && !end.Run?
    ensures Machine(code, s).Reach(Run(0, i, []), end) <==> end == Expected(r)
  {
    if Machine(code, s).Reach(Run(0, i, []), end) {
      Machine(code, s).FinalUnique(Run(0, i, []), end, Expected(r));
    }
  }
}
