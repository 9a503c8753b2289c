/** correctcalls: which calls are open, what the code is like while some of them are, and why
    following jumps ends then. */
module PegCalls {
  import opened PegTree
  import opened PegAnalysis
  import opened PegGrammar
  import opened PegMachine
  import opened PegCodegen
  import opened PegComponents
  import opened PegCorrect
  import opened PegPeephole
  import opened PegShape
  import opened PegRules
  import opened PegProgram

  // Which rules are called

  predicate IsOpen(x: Slot) { x.Inst? && x.op == IOpenCall }

  /** A hole belongs to an open call, and only the first `n` rules are called. */
  predicate CallOf(c: Code, k: nat, n: nat)
    requires k < |c|
  {
    (IsOpen(c[k]) ==> c[k].aux < n) && (c[k].Hole? ==> k > 0 && IsOpen(c[k - 1]))
  }

  predicate CallsBelow(c: Code, n: nat) { forall k: nat {:trigger CallOf(c, k, n)} :: k < |c| ==> CallOf(c, k, n) }

  lemma CallsCat(c1: Code, c2: Code, n: nat)
    requires CallsBelow(c1, n) && CallsBelow(c2, n)
    ensures CallsBelow(c1 + c2, n)
  {
    forall k: nat {:trigger CallOf(c1 + c2, k, n)} | k < |c1 + c2| ensures CallOf(c1 + c2, k, n) {
      if k < |c1| { assert CallOf(c1, k, n); } else { assert CallOf(c2, k - |c1|, n); }
    }
  }

  lemma CallsCat4(c1: Code, c2: Code, c3: Code, c4: Code, n: nat)
    requires CallsBelow(c1, n) && CallsBelow(c2, n) && CallsBelow(c3, n) && CallsBelow(c4, n)
    ensures CallsBelow(c1 + c2 + c3 + c4, n) && CallsBelow(c1 + (c2 + c3 + c4), n) && CallsBelow(c1 + c2 + c3, n)
  {
    hide CallsBelow;
    CallsCat(c1, c2, n);
    CallsCat(c1 + c2, c3, n);
    CallsCat(c1 + c2 + c3, c4, n);
    CallsCat(c2, c3, n);
    CallsCat(c2 + c3, c4, n);
    CallsCat(c1, c2 + c3 + c4, n);
  }

  lemma NoCallsIn(op: Opcode, aux: Byte, off: int, g: Guard, n: nat)
    requires op != IOpenCall
    ensures CallsBelow([Inst(op, aux)], n) && CallsBelow(OffInst(op, aux, off), n) && CallsBelow(g.Code(off), n)
    ensures CallsBelow([], n)
  {
  }

  lemma LeafCalls(gr: Grammar, t: Tree, opt: bool, tt: Test, fl: Charset)
    requires t.TChar? || t.TSet? || t.TAny? || t.TTrue? || t.TFalse? || t.TCall?
    requires Valid(gr, t)
    ensures CallsBelow(Gen(gr, t, opt, tt, fl), |gr|)
  {
  }

  lemma {:induction false} GenCalls(gr: Grammar, t: Tree, opt: bool, tt: Test, fl: Charset)
    requires Valid(gr, t)
    ensures CallsBelow(Gen(gr, t, opt, tt, fl), |gr|)
    decreases t, 1
  {
    hide CallsBelow;
    var n := |gr|;
    match t
    case TChoice(p1, p2) => GenChoiceCalls(gr, p1, p2, opt, fl);
    case TRep(b) => GenRepCalls(gr, b, opt, fl);
    case TNot(b) =>
      GenCalls(gr, b, false, NoTest, FULLSET);
      NotCalls(GuardOf(gr, b, false), Gen(gr, b, false, NoTest, FULLSET), n);
    case TAnd(b) =>
      GenCalls(gr, b, false, tt, FULLSET);
      var c := Gen(gr, b, false, tt, FULLSET);
      AndCalls(c, n);
      if 0 <= FixedLen(gr, b) <= MAXBEHIND {
        BehindCalls(FixedLen(gr, b), n);
        CallsCat(c, BehindCode(FixedLen(gr, b)), n);
      }
    case TSeq(p1, p2) =>
      var fl1, tt2 := FollowOfFirst(gr, p1, p2, fl), TestAfter(gr, p1, tt);
      GenCalls(gr, p1, false, tt, fl1);
      GenCalls(gr, p2, opt, tt2, fl);
      CallsCat(Gen(gr, p1, false, tt, fl1), Gen(gr, p2, opt, tt2, fl), n);
    case TBehind(k, b) =>
      BehindCalls(k, n);
      GenCalls(gr, b, false, NoTest, FULLSET);
      CallsCat(BehindCode(k), Gen(gr, b, false, NoTest, FULLSET), n);
    case _ => LeafCalls(gr, t, opt, tt, fl);
  }

  lemma BehindCalls(k: nat, n: nat)
    requires k <= MAXBEHIND
    ensures CallsBelow(BehindCode(k), n)
  {
  }

  lemma AndCalls(c: Code, n: nat)
    requires CallsBelow(c, n)
    ensures CallsBelow(AndGeneral(c), n)
  {
    hide CallsBelow;
    var g := Guard({}, Empty, true);
    NoCallsIn(IChoice, 0, 2 + |c| + 2, g, n);
    NoCallsIn(IBackCommit, 0, 3, g, n);
    NoCallsIn(IFail, 0, 0, g, n);
    CallsCat4(OffInst(IChoice, 0, 2 + |c| + 2), c, OffInst(IBackCommit, 0, 3), [Inst(IFail, 0)], n);
  }

  lemma NotCalls(g: Guard, c: Code, n: nat)
    requires CallsBelow(c, n)
    ensures CallsBelow(NotHeadfail(g), n) && CallsBelow(NotGeneral(g, c), n)
  {
    hide CallsBelow;
    NoCallsIn(IFail, 0, g.Size() + 1, g, n);
    CallsCat(g.Code(g.Size() + 1), [Inst(IFail, 0)], n);
    NoCallsIn(IFailTwice, 0, g.Size() + 2 + |c| + 1, g, n);
    NoCallsIn(IChoice, 0, 2 + |c| + 1, g, n);
    CallsCat4(g.Code(g.Size() + 2 + |c| + 1), OffInst(IChoice, 0, 2 + |c| + 1), c, [Inst(IFailTwice, 0)], n);
  }

  lemma ChoiceTestedCalls(g: Guard, c1: Code, emptyp2: bool, c2: Code, n: nat)
    requires CallsBelow(c1, n) && CallsBelow(c2, n)
    ensures CallsBelow(ChoiceTested(g, c1, emptyp2, c2), n)
  {
    hide CallsBelow;
    hide Guard.Code;
    hide OffInst;
    var off := g.Size() + |c1| + if emptyp2 then 0 else 2;
    var jmp := if emptyp2 then [] else OffInst(IJmp, 0, 2 + |c2|);
    NoCallsIn(IJmp, 0, 2 + |c2|, g, n);
    NoCallsIn(IJmp, 0, off, g, n);
    CallsCat4(g.Code(off), c1, jmp, c2, n);
    CallsCat4(c1, jmp, c2, [], n);
    CallsCat(g.Code(off), ChoiceTestedBody(c1, emptyp2, c2), n);
  }

  lemma ChoiceCalls(g: Guard, c1: Code, c2: Code, n: nat)
    requires CallsBelow(c1, n) && CallsBelow(c2, n)
    ensures CallsBelow(ChoiceReused(c1), n) && CallsBelow(ChoiceGeneral(g, c1, c2), n)
  {
    hide CallsBelow;
    hide Guard.Code;
    hide OffInst;
    NoCallsIn(IPartialCommit, 0, 2, g, n);
    CallsCat(OffInst(IPartialCommit, 0, 2), c1, n);
    NoCallsIn(IChoice, 0, 2 + |c1| + 2, g, n);
    NoCallsIn(ICommit, 0, 2 + |c2|, g, n);
    NoCallsIn(IChoice, 0, g.Size() + 2 + |c1| + 2, g, n);
    CallsCat4(OffInst(IChoice, 0, 2 + |c1| + 2), c1, OffInst(ICommit, 0, 2 + |c2|), c2, n);
    CallsCat(g.Code(g.Size() + 2 + |c1| + 2), ChoiceBody(c1, c2), n);
  }

  lemma {:induction false} GenChoiceCalls(gr: Grammar, p1: Tree, p2: Tree, opt: bool, fl: Charset)
    requires Valid(gr, p1) && Valid(gr, p2)
    ensures CallsBelow(GenChoice(gr, p1, p2, opt, fl), |gr|)
    decreases TChoice(p1, p2), 0
  {
    hide CallsBelow;
    hide ChoiceTested;
    hide ChoiceReused;
    hide ChoiceGeneral;
    GenCalls(gr, p2, opt, NoTest, fl);
    var n, c2 := |gr|, Gen(gr, p2, opt, NoTest, fl);
    if TestedChoice(gr, p1, p2, fl) {
      var g := GuardOf(gr, p1, true);
      GenCalls(gr, p1, false, g.Info(), fl);
      ChoiceTestedCalls(g, Gen(gr, p1, false, g.Info(), fl), p2.TTrue?, c2, n);
    } else if opt && p2.TTrue? {
      GenCalls(gr, p1, true, NoTest, FULLSET);
      ChoiceCalls(GuardOf(gr, p1, false), Gen(gr, p1, true, NoTest, FULLSET), c2, n);
    } else {
      var g := GuardOf(gr, p1, false);
      GenCalls(gr, p1, p2.TTrue?, g.Info(), FULLSET);
      ChoiceCalls(g, Gen(gr, p1, p2.TTrue?, g.Info(), FULLSET), c2, n);
    }
  }

  lemma RepCalls(g: Guard, opt: bool, c: Code, n: nat)
    requires CallsBelow(c, n)
    ensures CallsBelow(RepTested(g, c), n) && CallsBelow(RepGeneral(g, opt, c), n)
  {
    hide CallsBelow;
    hide Guard.Code;
    hide OffInst;
    NoCallsIn(IJmp, 0, -(g.Size() + |c|), g, n);
    NoCallsIn(IJmp, 0, g.Size() + |c| + 2, g, n);
    CallsCat(c, OffInst(IJmp, 0, -(g.Size() + |c|)), n);
    CallsCat(g.Code(g.Size() + |c| + 2), RepTestedBody(g.Size(), c), n);
    var open := if opt then OffInst(IPartialCommit, 0, 2) else OffInst(IChoice, 0, 2 + |c| + 2);
    NoCallsIn(IPartialCommit, 0, 2, g, n);
    NoCallsIn(IChoice, 0, 2 + |c| + 2, g, n);
    NoCallsIn(IPartialCommit, 0, -|c|, g, n);
    NoCallsIn(IPartialCommit, 0, g.Size() + 2 + |c| + 2, g, n);
    CallsCat4(open, c, OffInst(IPartialCommit, 0, -|c|), [], n);
    CallsCat(g.Code(g.Size() + 2 + |c| + 2), RepBody(opt, c), n);
  }

  lemma {:induction false} GenRepCalls(gr: Grammar, b: Tree, opt: bool, fl: Charset)
    requires Valid(gr, b)
    ensures CallsBelow(GenRep(gr, b, opt, fl), |gr|)
    decreases TRep(b), 0
  {
    hide CallsBelow;
    hide RepTested;
    hide RepGeneral;
    if IsCharset(b) {
      SpanCalls(ToCharset(b), |gr|);
    } else if TestedRep(gr, b, fl) {
      var g := GuardOf(gr, b, true);
      GenCalls(gr, b, false, g.Info(), FULLSET);
      RepCalls(g, opt, Gen(gr, b, false, g.Info(), FULLSET), |gr|);
    } else {
      GenCalls(gr, b, false, NoTest, FULLSET);
      RepCalls(GuardOf(gr, b, false), opt, Gen(gr, b, false, NoTest, FULLSET), |gr|);
    }
  }

  lemma SpanCalls(cs: Charset, n: nat)
    ensures CallsBelow(RepSpan(cs), n)
  {
  }

  lemma {:induction false} BodiesCalls(gr: Grammar, n: nat)
    requires RulesValid(gr) && n <= |gr|
    ensures CallsBelow(Bodies(gr, n), |gr|)
  {
    if n > 0 {
      BodiesCalls(gr, n - 1);
      GenCalls(gr, gr[n - 1], false, NoTest, FULLSET);
      hide Gen;
      hide CallsBelow;
      var c := Gen(gr, gr[n - 1], false, NoTest, FULLSET);
      NoCallsIn(IRet, 0, 0, Guard({}, Empty, true), |gr|);
      CallsCat(c, [Inst(IRet, 0)], |gr|);
      CallsCat(Bodies(gr, n - 1), RuleCode(gr, n - 1), |gr|);
    }
  }

  lemma NothingToCorrect(o: Code)
    requires CallsBelow(o, 0)
    ensures Corrected(o, o, [])
  {
    forall k {:trigger o[k]} | 0 <= k < |o| ensures !IsOpen(o[k]) && !o[k].Hole? {
      assert CallOf(o, k, 0);
      if k > 0 { assert CallOf(o, k - 1, 0); }
    }
  }

  lemma CallsEnd(c: Code, n: nat)
    requires CallsBelow(c, n)
    ensures CallsBelow(c + [Inst(IEnd, 0)], n)
  {
    CallsCat(c, [Inst(IEnd, 0)], n);
  }

  /** The program of a tree without rules to call. */
  lemma TreeProgram(t: Tree)
    requires Valid([], t)
    ensures Program(Gen([], t, false, NoTest, FULLSET) + [Inst(IEnd, 0)])
  {
    hide *;
    var c := Gen([], t, false, NoTest, FULLSET);
    GenCalls([], t, false, NoTest, FULLSET);
    GenShape([], t, false, NoTest, FULLSET);
    FragmentClosed(c, IEnd);
    CallsEnd(c, 0);
    NothingToCorrect(c + [Inst(IEnd, 0)]);
    CorrectedProgram(c + [Inst(IEnd, 0)], c + [Inst(IEnd, 0)], []);
  }

  lemma OpenCalls(gr: Grammar)
    requires RulesValid(gr)
    ensures CallsBelow(OpenProgram(gr), |gr|)
  {
    var n, b, g := |gr|, Bodies(gr, |gr|), Guard({}, Empty, true);
    BodiesCalls(gr, n);
    hide CallsBelow;
    NoCallsIn(ICall, 0, 4, g, n);
    NoCallsIn(IJmp, 0, |b| + 2, g, n);
    NoCallsIn(IEnd, 0, 0, g, n);
    CallsCat4(OffInst(ICall, 0, 4), OffInst(IJmp, 0, |b| + 2), b, [Inst(IEnd, 0)], n);
  }

  // While calls are being corrected

  /** `full` is what `code` becomes, with its end, if all calls left open become plain calls. */
  predicate Halfway(code: Code, full: Code) {
    && |full| == |code| + 1 && full[|code|] == Inst(IEnd, 0)
    && forall k {:trigger full[k]} :: 0 <= k < |code| ==>
         if IsOpen(code[k]) then full[k] == Inst(ICall, 0)
         else if code[k].Hole? then !full[k].Inst?
         else full[k] == code[k]
  }

  /** All open calls as plain calls. */
  function AllCalls(o: Code, pos: seq<nat>): (full: Code)
    ensures |full| == |o|
  {
    seq(|o|, k requires 0 <= k < |o| =>
      if IsOpen(o[k]) then Inst(ICall, 0)
      else if k > 0 && IsOpen(o[k - 1]) && o[k - 1].aux < |pos| then Offset(pos[o[k - 1].aux] - (k - 1))
      else o[k])
  }

  lemma AllCallsCorrect(o: Code, pos: seq<nat>)
    requires CallsBelow(o, |pos|)
    requires forall k {:trigger o[k]} :: 0 <= k < |o| && IsOpen(o[k]) ==> k + 1 < |o| && o[k + 1].Hole?
    ensures Corrected(o, AllCalls(o, pos), pos)
  {
    var full := AllCalls(o, pos);
    forall k {:trigger o[k]} | 0 <= k < |o|
      ensures if IsOpen(o[k]) then o[k].aux < |pos| && CallSlot(full, k, pos[o[k].aux])
              else if o[k].Hole? then !full[k].Inst?
              else full[k] == o[k]
    {
      assert CallOf(o, k, |pos|);
      if IsOpen(o[k]) {
        var _ := o[k + 1];
      } else if k > 0 {
        assert CallOf(o, k - 1, |pos|);
        var _ := o[k - 1];
      }
    }
  }

  lemma CallsHalfway(o: Code, code: Code, pos: seq<nat>)
    requires o == code + [Inst(IEnd, 0)] && Corrected(o, AllCalls(o, pos), pos)
    ensures Halfway(code, AllCalls(o, pos))
  {
    hide CallSlot;
    var full := AllCalls(o, pos);
    assert o[|code|] == Inst(IEnd, 0);
    forall k {:trigger full[k]} | 0 <= k < |code|
      ensures if IsOpen(code[k]) then full[k] == Inst(ICall, 0)
              else if code[k].Hole? then !full[k].Inst?
              else full[k] == code[k]
    {
      assert code[k] == o[k];
    }
  }

  lemma HolesFollow(o: Code)
    requires Closed(o)
    ensures forall k {:trigger o[k]} :: 0 <= k < |o| && IsOpen(o[k]) ==> k + 1 < |o| && o[k + 1].Hole?
  {
    forall k {:trigger o[k]} | 0 <= k < |o| && IsOpen(o[k]) ensures k + 1 < |o| && o[k + 1].Hole? {
      assert ClosedOk(o, k);
    }
  }

  /** Before the first correction. */
  lemma AllOpen(gr: Grammar, code: Code) returns (full: Code)
    requires RulesValid(gr) && |gr| > 0 && code + [Inst(IEnd, 0)] == OpenProgram(gr)
    ensures Corrected(OpenProgram(gr), full, Positions(gr)) && Halfway(code, full)
  {
    hide *;
    var o, pos := OpenProgram(gr), Positions(gr);
    OpenCalls(gr);
    OpenClosed(gr);
    HolesFollow(o);
    AllCallsCorrect(o, pos);
    CallsHalfway(o, code, pos);
    full := AllCalls(o, pos);
  }

  /** After the last one. */
  lemma NoneOpen(code: Code, full: Code, n: nat)
    requires Halfway(code, full) && CallsBelow(code, n)
    requires forall k :: 0 <= k < |code| ==> !IsOpen(code[k])
    ensures full == code + [Inst(IEnd, 0)]
  {
    forall k {:trigger full[k]} | 0 <= k < |code| ensures full[k] == code[k] {
      assert CallOf(code, k, n);
    }
  }

  /** Jumps between lo and hi stay there. */
  predicate Stays(code: Code, lo: nat, hi: nat) {
    && hi <= |code|
    && forall q: nat {:trigger On(code).IsInst(q)} ::
         lo <= q < hi && On(code).IsInst(q) && code[q].op == IJmp ==> lo <= On(code).Target(q) < hi
  }

  lemma RulesStay(gr: Grammar, full: Code)
    requires RulesValid(gr) && |gr| > 0 && Corrected(OpenProgram(gr), full, Positions(gr))
    ensures Stays(full, 4, |full| - 1)
  {
    var o, b, pos := OpenProgram(gr), Bodies(gr, |gr|), Positions(gr);
    BodiesClosed(gr, |gr|);
    assert o[4..4 + |b|] == b;
    forall q: nat {:trigger On(full).IsInst(q)} | 4 <= q < |o| - 1 && On(full).IsInst(q) && full[q].op == IJmp
      ensures 4 <= On(full).Target(q) < |o| - 1
    {
      assert o[q] == b[q - 4];
      if IsOpen(o[q]) {
        var n := o[q].aux;
        assert CallSlot(full, q, pos[n]);
        PartAt(gr, |gr|, n);
      } else {
        assert ClosedOk(b, q - 4);
        assert o[q + 1] == b[q - 3];
      }
    }
  }

  /** Following jumps meets no open call on its way. */
  lemma {:induction false} HalfwayChain(code: Code, full: Code, calls: nat, lo: nat, p: nat, n: nat)
    requires Halfway(code, full) && CallsBelow(code, calls) && Stays(full, lo, |code|)
    requires lo <= p < |code| && Chain(full, p, n)
    ensures Chain(code, p, n) && ChainEnd(code, p, n) == ChainEnd(full, p, n) < |code|
    decreases n
  {
    var _ := full[p];
    if full[p].op == IJmp {
      var l := On(full).Target(p);
      assert full[p + 1].Offset?;
      assert p + 1 < |code|;
      assert CallOf(code, p + 1, calls);
      HalfwayChain(code, full, calls, lo, l, n - 1);
    }
  }

  /** No sequence of jumps passes a call. */
  lemma {:induction false} LeadsKept(full: Code, i: nat, q: int, n: nat)
    requires LeadsToRet(full, q, n) && i < |full| && full[i] == Inst(ICall, 0)
    ensures LeadsToRet(full[i := Inst(IJmp, 0)], q, n)
    decreases n
  {
    if full[q].op == IJmp { LeadsKept(full, i, On(full).Target(q), n - 1); }
  }

  /** A call in front of a return becomes a jump. */
  lemma TailCall(o: Code, full: Code, pos: seq<nat>, i: nat, n: nat)
    requires Corrected(o, full, pos) && i < |o| && IsOpen(o[i]) && full[i] == Inst(ICall, 0)
    requires LeadsToRet(full, i + 2, n)
    ensures Corrected(o, full[i := Inst(IJmp, 0)], pos)
  {
    var full' := full[i := Inst(IJmp, 0)];
    forall k {:trigger o[k]} | 0 <= k < |o| && IsOpen(o[k]) ensures CallSlot(full', k, pos[o[k].aux]) {
      assert CallSlot(full, k, pos[o[k].aux]);
      if k == i {
        LeadsKept(full, i, i + 2, n);
      } else if full[k].op == IJmp {
        var m :| LeadsToRet(full, k + 2, m);
        LeadsKept(full, i, k + 2, m);
      }
    }
  }

  /** Jumps from a rule's code end at an instruction of a rule. */
  lemma JumpsEndInside(gr: Grammar, code: Code, full: Code, p: nat) returns (n: nat)
    requires Accepted(gr) && Corrected(OpenProgram(gr), full, Positions(gr))
    requires Halfway(code, full) && CallsBelow(code, |gr|) && 4 <= p < |code| && Start(full, p)
    ensures Chain(full, p, n) && Chain(code, p, n) && ChainEnd(code, p, n) == ChainEnd(full, p, n) < |code|
    ensures var q := ChainEnd(code, p, n);
            code[q].Inst? && full[q].Inst? && (code[q].op == IRet <==> full[q].op == IRet)
  {
    hide *;
    AcceptedValid(gr);
    RulesProgram(gr, full);
    n := ProgramChain(full, p);
    RulesStay(gr, full);
    HalfwayLength(code, full);
    HalfwayChain(code, full, |gr|, 4, p, n);
    ChainEnds(code, p, n);
    HalfwaySame(code, full, ChainEnd(code, p, n));
  }

  lemma ChainEnds(code: Code, p: nat, n: nat)
    requires Chain(code, p, n)
    ensures var q := ChainEnd(code, p, n); Start(code, q) && code[q].Inst? && code[q].op != IJmp
  {
  }

  lemma HalfwaySame(code: Code, full: Code, q: nat)
    requires Halfway(code, full) && q < |code| && Start(code, q)
    ensures full[q].Inst? && (code[q].op == IRet <==> full[q].op == IRet)
  {
    var _ := full[q];
  }

  lemma HalfwayLength(code: Code, full: Code)
    requires Halfway(code, full)
    ensures |full| == |code| + 1
  {
  }

  lemma AcceptedValid(gr: Grammar)
    requires Accepted(gr)
    ensures 0 < |gr| <= MAXRULES && RulesValid(gr)
  {
  }

  /** The calls in front of `i` are corrected, the others are open. */
  ghost predicate Correcting(o: Code, pos: seq<nat>, code: Code, full: Code, i: nat) {
    && Corrected(o, full, pos) && Halfway(code, full) && CallsBelow(code, |pos|)
    && |o| == |code| + 1 && i <= |code| && Start(o, i)
    && (forall k {:trigger code[k]} :: 0 <= k < i ==> !IsOpen(code[k]))
    && (forall k {:trigger code[k]} :: i <= k < |code| ==> code[k] == o[k])
  }

  /** The next instruction. */
  lemma NextSlot(o: Code, i: nat)
    requires Closed(o) && Start(o, i) && i < |o| - 1 && o[|o| - 1] == Inst(IEnd, 0)
    ensures var next := i + SizeI(o[i].op);
            && next < |o| && Start(o, next) && (forall k :: i < k < next ==> !o[k].Inst?)
            && (IsOpen(o[i]) ==> o[i + 1].Hole? && next == i + 2)
  {
    assert ClosedOk(o, i);
  }

  lemma CorrectingAt(o: Code, pos: seq<nat>, code: Code, full: Code, i: nat)
    requires Correcting(o, pos, code, full, i) && i < |code|
    ensures o[i] == code[i] && full[|code|] == Inst(IEnd, 0) == o[|code|]
    ensures IsOpen(code[i]) ==>
              && full[i] == Inst(ICall, 0) && code[i].aux < |pos| && i + 1 < |full|
              && full[i + 1] == Offset(pos[code[i].aux] - i)
  {
    hide CallsBelow;
    var _, _, _ := full[i], code[i], o[|code|];
    if IsOpen(o[i]) { assert CallSlot(full, i, pos[o[i].aux]); }
  }

  /** `code` with the call at `i` corrected. */
  function CallDone(code: Code, i: nat, tail: bool, target: nat): (r: Code)
    requires i + 1 < |code|
    ensures |r| == |code|
  {
    code[i := Inst(if tail then IJmp else ICall, 0)][i + 1 := Offset(target - i)]
  }

  /** One call is corrected: it becomes a jump if what follows leads to a return. */
  lemma CallCorrected(o: Code, pos: seq<nat>, code: Code, full: Code, i: nat, n: nat) returns (full': Code)
    requires Closed(o) && Correcting(o, pos, code, full, i) && i < |code| && IsOpen(code[i])
    requires Chain(full, i + 2, n)
    ensures i + 2 <= |code| && code[i].aux < |pos|
    ensures var tail := full[ChainEnd(full, i + 2, n)].op == IRet;
            Correcting(o, pos, CallDone(code, i, tail, pos[code[i].aux]), full', i + 2)
  {
    var tail := full[ChainEnd(full, i + 2, n)].op == IRet;
    CorrectingAt(o, pos, code, full, i);
    NextSlot(o, i);
    var _, _ := code[i + 1], full[i + 1];
    var target := pos[code[i].aux];
    var code' := CallDone(code, i, tail, target);
    full' := if tail then full[i := Inst(IJmp, 0)] else full;
    if tail { TailCall(o, full, pos, i, n); }
    hide Corrected;
    CallsKept(code, code', i, |pos|);
    HalfwayKept(code, full, i, tail, target);
    hide Halfway;
    hide CallsBelow;
    hide CallDone;
    DoneSlots(o, code, i, tail, target);
  }

  lemma DoneSlots(o: Code, code: Code, i: nat, tail: bool, target: nat)
    requires |o| == |code| + 1 && i + 2 <= |code|
    requires forall k {:trigger code[k]} :: 0 <= k < i ==> !IsOpen(code[k])
    requires forall k {:trigger code[k]} :: i <= k < |code| ==> code[k] == o[k]
    ensures var code' := CallDone(code, i, tail, target);
            && (forall k {:trigger code'[k]} :: 0 <= k < i + 2 ==> !IsOpen(code'[k]))
            && (forall k {:trigger code'[k]} :: i + 2 <= k < |code| ==> code'[k] == o[k])
  {
  }

  lemma HalfwayKept(code: Code, full: Code, i: nat, tail: bool, target: nat)
    requires Halfway(code, full) && i + 2 <= |code| && full[i + 1] == Offset(target - i) && full[i] == Inst(ICall, 0)
    ensures Halfway(CallDone(code, i, tail, target), if tail then full[i := Inst(IJmp, 0)] else full)
  {
  }

  lemma CallsKept(code: Code, code': Code, i: nat, n: nat)
    requires CallsBelow(code, n) && |code'| == |code| && i + 1 < |code| && IsOpen(code[i]) && code[i + 1].Hole?
    requires !IsOpen(code'[i]) && !code'[i].Hole? && code'[i + 1].Offset?
    requires forall k :: 0 <= k < |code| && k != i && k != i + 1 ==> code'[k] == code[k]
    ensures CallsBelow(code', n)
  {
    forall k: nat {:trigger CallOf(code', k, n)} | k < |code| ensures CallOf(code', k, n) {
      assert CallOf(code, k, n);
    }
  }

  /** Other instructions stay. */
  lemma NotCorrected(o: Code, pos: seq<nat>, code: Code, full: Code, i: nat)
    requires Closed(o) && Correcting(o, pos, code, full, i) && i < |code| && !IsOpen(code[i])
    ensures code[i].Inst? && i + SizeI(code[i].op) <= |code|
    ensures Correcting(o, pos, code, full, i + SizeI(code[i].op))
  {
    CorrectingAt(o, pos, code, full, i);
    NextSlot(o, i);
    hide Corrected;
    hide Halfway;
    hide CallsBelow;
    hide Closed;
    var next := i + SizeI(code[i].op);
    forall k {:trigger code[k]} | 0 <= k < next ensures !IsOpen(code[k]) {
      if k > i { assert !o[k].Inst?; }
    }
  }

  lemma ReturnBetween(gr: Grammar, n: nat)
    requires RulesValid(gr) && n < |gr|
    ensures 4 <= Position(gr, n) < |OpenProgram(gr)| - 1
    ensures Position(gr, n) == 4 || OpenProgram(gr)[Position(gr, n) - 1] == Inst(IRet, 0)
  {
    var b := Bodies(gr, |gr|);
    PartAt(gr, |gr|, n);
    if n > 0 {
      PartAt(gr, |gr|, n - 1);
      var a, c := |Bodies(gr, n - 1)|, RuleCode(gr, n - 1);
      assert c[|c| - 1] == Inst(IRet, 0) && b[a..a + |c|][|c| - 1] == b[a + |c| - 1];
      assert Bodies(gr, n) == Bodies(gr, n - 1) + c;
      assert OpenProgram(gr)[Position(gr, n) - 1] == b[a + |c| - 1];
    }
  }

  /** The code of a rule other than the first one stands behind a return. */
  lemma BehindReturn(gr: Grammar, code: Code, full: Code, i: nat, n: nat)
    requires RulesValid(gr) && n < |gr| && Correcting(OpenProgram(gr), Positions(gr), code, full, i)
    ensures 4 <= Position(gr, n) < |code|
    ensures Position(gr, n) == 4 || code[Position(gr, n) - 1] == Inst(IRet, 0)
  {
    var o, q := OpenProgram(gr), Position(gr, n) - 1;
    ReturnBetween(gr, n);
    hide OpenProgram;
    hide Positions;
    hide Position;
    hide CallsBelow;
    if q != 3 {
      var _, _, _ := o[q], full[q], code[q];
    }
  }

  /** All calls are corrected. */
  lemma AllCorrected(o: Code, pos: seq<nat>, code: Code, full: Code)
    requires Correcting(o, pos, code, full, |code|)
    ensures Corrected(o, code + [Inst(IEnd, 0)], pos)
  {
    hide Halfway;
    hide CallsBelow;
    NoneOpen(code, full, |pos|);
  }

  lemma StartCorrecting(gr: Grammar, code: Code, full: Code)
    requires RulesValid(gr) && |gr| > 0 && code + [Inst(IEnd, 0)] == OpenProgram(gr)
    requires Corrected(OpenProgram(gr), full, Positions(gr)) && Halfway(code, full)
    ensures |code| >= 4 && Correcting(OpenProgram(gr), Positions(gr), code, full, 4)
  {
    var o := OpenProgram(gr);
    OpenCalls(gr);
    PositionStarts(gr, 0);
    assert o[0] == Inst(ICall, 0) && o[2] == Inst(IJmp, 0) && o[1].Offset? && o[3].Offset?;
    forall k: nat {:trigger CallOf(code, k, |gr|)} | k < |code| ensures CallOf(code, k, |gr|) {
      assert CallOf(o, k, |gr|);
    }
  }

  lemma CorrectingIs(gr: Grammar, code: Code, full: Code, i: nat)
    requires Accepted(gr) && Correcting(OpenProgram(gr), Positions(gr), code, full, i) && i < |code|
    ensures code[i].Inst? && Corrected(OpenProgram(gr), full, Positions(gr)) && Halfway(code, full)
    ensures CallsBelow(code, |gr|) && |Positions(gr)| == |gr|
    ensures forall n :: 0 <= n < |gr| ==> Positions(gr)[n] == Position(gr, n)
    ensures IsOpen(code[i]) <==> code[i].op == IOpenCall
    ensures IsOpen(code[i]) ==> code[i].aux < |gr| && i + 2 < |code| && Start(full, i + 2)
  {
    var o, pos := OpenProgram(gr), Positions(gr);
    OpenClosed(gr);
    CorrectingAt(o, pos, code, full, i);
    NextSlot(o, i);
    hide Closed;
    hide CallsBelow;
    hide Halfway;
    if IsOpen(code[i]) { SameStarts(o, full, pos, i + 2); }
  }
}
