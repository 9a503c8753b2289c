/** Whole programs have the shape that the optimizer relies on: in particular their jumps, with
    the tail calls among them, do not cycle. */
module PegProgram {
  import opened PegTree
  import opened PegAnalysis
  import opened PegGrammar
  import opened PegMachine
  import opened PegCodegen
  import opened PegComponents
  import opened PegCorrect
  import opened PegPeephole
  import opened PegShape
  import opened PegRules

  /** SlotOk for code with open calls. */
  predicate ClosedOk(code: Code, p: nat) {
    && On(code).IsInst(p)
    && p + SizeI(code[p].op) <= |code|
    && (p + SizeI(code[p].op) < |code| ==> Start(code, p + SizeI(code[p].op)))
    && (FallsThrough(code[p].op) ==> p + SizeI(code[p].op) < |code|)
    && (forall k :: p < k < p + SizeI(code[p].op) ==> !code[k].Inst?)
    && (HasLabel(code[p].op) ==> Start(code, On(code).Target(p)))
    && (code[p].op == IJmp ==> JumpOk(code, p))
    && (code[p].op == IOpenCall ==> p + 1 < |code| && code[p + 1].Hole?)
  }

  /** Control never leaves the code. */
  ghost predicate Closed(code: Code) {
    Start(code, 0) && forall p: nat {:trigger ClosedOk(code, p)} :: Start(code, p) ==> ClosedOk(code, p)
  }

  /** A fragment, closed by an instruction that does not go on. */
  lemma FragmentClosed(c: Code, op: Opcode)
    requires Fragment(c) && (op == IRet || op == IEnd)
    ensures Closed(c + [Inst(op, 0)])
  {
    var code := c + [Inst(op, 0)];
    Whole(code);
    AtSplit(Raw(code), 0, c, [Inst(op, 0)]);
    Embed(code, 0, c);
    forall p: nat {:trigger ClosedOk(code, p)} | Start(code, p) ensures ClosedOk(code, p) {
      hide At;
      if p < |c| { PieceCloses(c, code, p); }
    }
  }

  lemma PieceCloses(c: Code, code: Code, p: nat)
    requires |code| == |c| + 1 && code[|c|].Inst? && code[..|c|] == c && Fragment(c)
    requires Start(c, p) && PieceOk(code, p)
    ensures ClosedOk(code, p)
  {
    assert PieceOk(c, p);
    hide Fragment;
    hide PieceOk;
    forall k: nat {:trigger c[k]} | k < |c| ensures code[0 + k] == c[k] { assert code[..|c|][k] == c[k]; }
    PieceIs(c, p);
    PieceIs(code, p);
    EmbedInst(code, 0, c, p);
  }

  lemma PieceIs(c: Code, p: nat)
    requires PieceOk(c, p)
    ensures On(c).IsInst(p) && Lands(c, p + SizeI(c[p].op)) && (HasLabel(c[p].op) ==> Lands(c, On(c).Target(p)))
    ensures forall k :: p < k < p + SizeI(c[p].op) ==> !c[k].Inst?
    ensures c[p].op == IJmp ==> JumpOk(c, p)
    ensures c[p].op == IOpenCall ==> p + 1 < |c| && c[p + 1].Hole?
  {
  }

  /** `c` stands at `a`. */
  predicate PartOf(code: Code, a: nat, c: Code) {
    a + |c| <= |code| && forall k: nat {:trigger c[k]} :: k < |c| ==> code[a + k] == c[k]
  }

  /** Instruction `q` of the part `c` at `a`. */
  lemma ClosedPart(code: Code, a: nat, c: Code, q: nat)
    requires Start(c, q) && ClosedOk(c, q) && a + |c| <= |code| && code[a..a + |c|] == c
    requires q + SizeI(c[q].op) == |c| && a + |c| < |code| ==> Start(code, a + |c|)
    ensures ClosedOk(code, a + q)
  {
    forall k: nat {:trigger c[k]} | k < |c| ensures code[a + k] == c[k] { assert code[a..a + |c|][k] == c[k]; }
    EmbedInst(code, a, c, q);
    assert PartOf(code, a, c);
    hide PartOf;
    PartNext(code, a, c, q);
    if HasLabel(c[q].op) { PartLabel(code, a, c, q); }
  }

  lemma PartNext(code: Code, a: nat, c: Code, q: nat)
    requires Start(c, q) && ClosedOk(c, q) && PartOf(code, a, c)
    requires q + SizeI(c[q].op) == |c| && a + |c| < |code| ==> Start(code, a + |c|)
    ensures var next := a + q + SizeI(c[q].op);
            && (next < |code| ==> Start(code, next)) && (forall k :: a + q < k < next ==> !code[k].Inst?)
            && (c[q].op == IOpenCall ==> code[a + q + 1].Hole?)
  {
    var n := q + SizeI(c[q].op);
    if n < |c| { var _ := c[n]; }
    forall k | a + q < k < a + n ensures !code[k].Inst? { var _ := c[k - a]; }
    if c[q].op == IOpenCall { var _ := c[q + 1]; }
  }

  lemma PartLabel(code: Code, a: nat, c: Code, q: nat)
    requires Start(c, q) && ClosedOk(c, q) && PartOf(code, a, c) && HasLabel(c[q].op)
    requires On(code).IsInst(a + q) && code[a + q] == c[q] && On(code).Target(a + q) == a + On(c).Target(q)
    ensures Start(code, On(code).Target(a + q)) && (c[q].op == IJmp ==> JumpOk(code, a + q))
  {
    var l := On(c).Target(q);
    var _ := c[l];
    if c[q].op == IJmp && l <= q { EmbedInst(code, a, c, l); }
  }

  lemma ConcatClosed(c1: Code, c2: Code)
    requires Closed(c1) && Closed(c2)
    ensures Closed(c1 + c2)
  {
    var code := c1 + c2;
    assert Start(code, 0) && code[0..0 + |c1|] == c1 && code[|c1|..|c1| + |c2|] == c2;
    forall p: nat {:trigger ClosedOk(code, p)} | Start(code, p) ensures ClosedOk(code, p) {
      hide *;
      ConcatSlot(c1, c2, code, p);
    }
  }

  lemma ConcatSlot(c1: Code, c2: Code, code: Code, p: nat)
    requires Closed(c1) && Closed(c2) && |code| == |c1| + |c2|
    requires code[0..0 + |c1|] == c1 && code[|c1|..|c1| + |c2|] == c2 && Start(code, p)
    ensures ClosedOk(code, p)
  {
    if p < |c1| {
      assert code[0..0 + |c1|][p] == c1[p] && code[|c1|..|c1| + |c2|][0] == c2[0];
      assert ClosedOk(c1, p);
      hide ClosedOk;
      ClosedPart(code, 0, c1, p);
    } else {
      assert code[|c1|..|c1| + |c2|][p - |c1|] == c2[p - |c1|];
      assert ClosedOk(c2, p - |c1|);
      hide ClosedOk;
      ClosedPart(code, |c1|, c2, p - |c1|);
    }
  }

  lemma RuleClosed(gr: Grammar, n: nat)
    requires RulesValid(gr) && n < |gr|
    ensures Closed(RuleCode(gr, n))
  {
    GenShape(gr, gr[n], false, NoTest, FULLSET);
    FragmentClosed(Gen(gr, gr[n], false, NoTest, FULLSET), IRet);
  }

  lemma {:induction false} BodiesClosed(gr: Grammar, n: nat)
    requires RulesValid(gr) && 0 < n <= |gr|
    ensures Closed(Bodies(gr, n))
  {
    hide Closed;
    hide RuleCode;
    RuleClosed(gr, n - 1);
    if n == 1 {
      assert Bodies(gr, 0) + RuleCode(gr, 0) == RuleCode(gr, 0);
    } else {
      BodiesClosed(gr, n - 1);
      ConcatClosed(Bodies(gr, n - 1), RuleCode(gr, n - 1));
    }
  }

  lemma OpenClosed(gr: Grammar)
    requires RulesValid(gr) && |gr| > 0
    ensures Closed(OpenProgram(gr))
  {
    var b, o := Bodies(gr, |gr|), OpenProgram(gr);
    BodiesClosed(gr, |gr|);
    FramedClosed(b, o);
  }

  lemma FramedClosed(b: Code, o: Code)
    requires Closed(b) && o == OffInst(ICall, 0, 4) + OffInst(IJmp, 0, |b| + 2) + b + [Inst(IEnd, 0)]
    ensures Closed(o)
  {
    assert o[4..4 + |b|] == b;
    assert o[0] == Inst(ICall, 0) && o[1] == Offset(4) && o[2] == Inst(IJmp, 0) && o[3] == Offset(|b| + 2);
    assert o[4] == b[0] && o[4 + |b|] == Inst(IEnd, 0);
    forall p: nat {:trigger ClosedOk(o, p)} | Start(o, p) ensures ClosedOk(o, p) {
      if p < 4 {
        FrameStart(o, |b|, p);
      } else if p < 4 + |b| {
        assert ClosedOk(b, p - 4);
        ClosedPart(o, 4, b, p - 4);
      } else {
        hide Closed;
      }
    }
  }

  lemma FrameStart(o: Code, n: nat, p: nat)
    requires |o| == n + 5 && n > 0 && p < 4 && Start(o, p)
    requires o[0] == Inst(ICall, 0) && o[1] == Offset(4) && o[2] == Inst(IJmp, 0) && o[3] == Offset(n + 2)
    requires o[4].Inst? && o[4 + n] == Inst(IEnd, 0)
    ensures ClosedOk(o, p)
  {
  }

  // What correcting the calls leaves

  lemma SameStarts(o: Code, code: Code, pos: seq<nat>, p: int)
    requires Corrected(o, code, pos)
    ensures Start(code, p) <==> Start(o, p)
  {
    if 0 <= p < |o| { var _ := o[p]; }
  }

  lemma CorrectedSlot(o: Code, code: Code, pos: seq<nat>, p: nat)
    requires ClosedOk(o, p) && Corrected(o, code, pos) && Start(o, p)
    requires forall n :: 0 <= n < |pos| ==> Start(o, pos[n])
    ensures SlotOk(code, p)
  {
    if o[p].op == IOpenCall { CorrectedCall(o, code, pos, p); } else { CorrectedOther(o, code, pos, p); }
  }

  lemma CorrectedCall(o: Code, code: Code, pos: seq<nat>, p: nat)
    requires ClosedOk(o, p) && Corrected(o, code, pos) && Start(o, p) && o[p].op == IOpenCall
    requires forall n :: 0 <= n < |pos| ==> Start(o, pos[n])
    ensures SlotOk(code, p)
  {
    hide OnlyReturns;
    assert CallSlot(code, p, pos[o[p].aux]);
    SameStarts(o, code, pos, p + 2);
    SameStarts(o, code, pos, pos[o[p].aux]);
    hide Corrected;
  }

  lemma CorrectedOther(o: Code, code: Code, pos: seq<nat>, p: nat)
    requires ClosedOk(o, p) && Corrected(o, code, pos) && Start(o, p) && o[p].op != IOpenCall
    ensures SlotOk(code, p)
  {
    hide CallSlot;
    var op := o[p].op;
    var next := p + SizeI(op);
    SameStarts(o, code, pos, next);
    forall k | p < k < next ensures !code[k].Inst? { assert !o[k].Inst?; SameStarts(o, code, pos, k); }
    assert code[p] == o[p];
    if p + 1 < |o| { var _ := o[p + 1]; }
    if p + 2 < |o| { var _ := o[p + 2]; }
    if HasLabel(op) { SameStarts(o, code, pos, On(o).Target(p)); }
    hide Corrected;
  }

  // Jumps end

  /** A sequence of jumps from `p` has at most n jumps to jumps. */
  predicate Falls(code: Code, p: nat, n: nat)
    decreases n
  {
    JumpsOn(code, p) ==> n > 0 && Falls(code, On(code).Target(p), n - 1)
  }

  ghost predicate FallsSome(code: Code, p: nat) { exists n: nat :: Falls(code, p, n) }

  lemma {:induction false} FallsMore(code: Code, p: nat, n: nat, n1: nat)
    requires Falls(code, p, n) && n <= n1
    ensures Falls(code, p, n1)
    decreases n
  {
    if JumpsOn(code, p) { FallsMore(code, On(code).Target(p), n - 1, n1 - 1); }
  }

  /** The smallest such number below `n`. */
  function Length(code: Code, p: nat, n: nat): (l: nat)
    requires Falls(code, p, n)
    ensures l <= n && Falls(code, p, l) && (l > 0 ==> !Falls(code, p, l - 1))
    decreases n
  {
    if n > 0 && Falls(code, p, n - 1) then Length(code, p, n - 1) else n
  }

  ghost function LengthOf(code: Code, p: nat): (l: nat)
    requires FallsSome(code, p)
    ensures Falls(code, p, l) && (l > 0 ==> !Falls(code, p, l - 1))
  {
    var n: nat :| Falls(code, p, n);
    Length(code, p, n)
  }

  lemma LengthFalls(code: Code, p: nat)
    requires JumpsOn(code, p) && FallsSome(code, p) && FallsSome(code, On(code).Target(p))
    ensures LengthOf(code, On(code).Target(p)) < LengthOf(code, p)
  {
    var l, q := LengthOf(code, p), On(code).Target(p);
    var k := LengthOf(code, q);
    if k >= l { FallsMore(code, q, l - 1, k - 1); }
  }

  lemma RanksExist(code: Code)
    requires forall p: nat {:trigger FallsSome(code, p)} :: Start(code, p) ==> FallsSome(code, p)
    ensures exists rk :: Ranks(code, rk)
  {
    var rk := seq(|code|, p requires 0 <= p < |code| => if Start(code, p) then LengthOf(code, p) else 0);
    forall p: nat {:trigger JumpsOn(code, p)} | JumpsOn(code, p) ensures rk[On(code).Target(p)] < rk[p] {
      LengthFalls(code, p);
    }
    assert Ranks(code, rk);
  }

  /** A run that ends passes an end to every sequence of jumps. */
  lemma {:induction false} HaltFalls(m: Machine, p: nat, i: nat, stk: seq<Entry>, tr: seq<State>, end: State)
    requires m.IsTrace(tr, Run(p, i, stk), end) && !end.Run? && i <= |m.s|
    ensures FallsSome(m.code, p)
    decreases |tr|
  {
    if JumpsOn(m.code, p) {
      var l := On(m.code).Target(p);
      assert m.Step(tr[0]) == tr[1] == Run(l, i, stk);
      assert m.IsTrace(tr[1..], tr[1], end);
      HaltFalls(m, l, i, stk, tr[1..], end);
      var n: nat :| Falls(m.code, l, n);
      assert Falls(m.code, p, n + 1);
    } else {
      assert Falls(m.code, p, 0);
    }
  }

  /** The code of a rule ends, so jumps from its start do. */
  lemma RuleFalls(gr: Grammar, code: Code, n: nat)
    requires Accepted(gr) && n < |gr| && Corrected(OpenProgram(gr), code, Positions(gr))
    ensures FallsSome(code, Position(gr, n))
  {
    var f := Nesting(0, MAXRULES);
    var m := World(code, [], gr, f + 1, Positions(gr), true);
    RulesPlaced(m);
    RulesRun(m, n, 0, []);
    VerifyRuleIs(gr, gr[n], MAXRULES, false);
    MatchEnds(gr, gr[n], [], 0, MAXRULES, f);
    var r, a := Match(gr, gr[n], [], 0, f), Run(Position(gr, n), 0, []);
    assert m.Mean(TCall(n), 0) == r && m.pos[n] == Position(gr, n);
    var end := if r.Upto? then Return(r.pos, []) else Backtrack([]);
    hide World.Reach;
    assert m.Reach(a, end) && !end.Run?;
    Ends(m, a, end);
    var tr: seq<State> :| m.M().IsTrace(tr, a, end);
    HaltFalls(m.M(), Position(gr, n), 0, [], tr, end);
  }

  /** Jumps that come from the code of trees go forward, or back once, or to a tail call. */
  lemma {:induction false} JumpsEnd(o: Code, code: Code, pos: seq<nat>, p: nat)
    requires Closed(o) && Corrected(o, code, pos) && Start(o, p)
    requires forall n {:trigger pos[n]} :: 0 <= n < |pos| ==> FallsSome(code, pos[n])
    ensures FallsSome(code, p)
    decreases if o[p].op == IJmp && On(o).IsInst(p) && On(o).Target(p) > p then 2 * (|o| - On(o).Target(p)) + 1
              else 2 * (|o| - p)
  {
    hide CallSlot;
    hide FallsSome;
    assert ClosedOk(o, p);
    var _ := o[p];
    if !JumpsOn(code, p) {
      NoFall(code, p);
    } else if o[p].op == IOpenCall {
      CallFalls(o, code, pos, p);
    } else {
      var l := On(code).Target(p);
      var _ := o[p + 1];
      assert l == On(o).Target(p);
      SameStarts(o, code, pos, l);
      var _ := o[l];
      assert ClosedOk(o, l);
      if o[l].op == IOpenCall { CallFalls(o, code, pos, l); } else { JumpsEnd(o, code, pos, l); }
      FallsOn(code, p);
    }
  }

  lemma NoFall(code: Code, p: nat)
    requires !JumpsOn(code, p)
    ensures FallsSome(code, p)
  {
    assert Falls(code, p, 0);
  }

  lemma FallsOn(code: Code, p: nat)
    requires JumpsOn(code, p) && FallsSome(code, On(code).Target(p))
    ensures FallsSome(code, p)
  {
    var n: nat :| Falls(code, On(code).Target(p), n);
    assert Falls(code, p, n + 1);
  }

  /** A corrected call leads where the code of its rule leads. */
  lemma CallFalls(o: Code, code: Code, pos: seq<nat>, p: nat)
    requires Corrected(o, code, pos) && Start(o, p) && o[p].op == IOpenCall
    requires forall n {:trigger pos[n]} :: 0 <= n < |pos| ==> FallsSome(code, pos[n])
    ensures FallsSome(code, p)
  {
    hide FallsSome;
    assert CallSlot(code, p, pos[o[p].aux]);
    hide Corrected;
    if JumpsOn(code, p) { FallsOn(code, p); } else { NoFall(code, p); }
  }

  lemma CorrectedProgram(o: Code, code: Code, pos: seq<nat>)
    requires Closed(o) && Corrected(o, code, pos)
    requires forall n {:trigger pos[n]} :: 0 <= n < |pos| ==> Start(o, pos[n]) && FallsSome(code, pos[n])
    ensures Program(code)
  {
    SameStarts(o, code, pos, 0);
    forall p: nat {:trigger SlotOk(code, p)} | Start(code, p) ensures SlotOk(code, p) {
      SameStarts(o, code, pos, p);
      assert ClosedOk(o, p);
      hide *;
      CorrectedSlot(o, code, pos, p);
    }
    forall p: nat {:trigger FallsSome(code, p)} | Start(code, p) ensures FallsSome(code, p) {
      SameStarts(o, code, pos, p);
      JumpsEnd(o, code, pos, p);
    }
    RanksExist(code);
  }

  lemma {:induction false} PositionStarts(gr: Grammar, n: nat)
    requires RulesValid(gr) && n < |gr|
    ensures Start(OpenProgram(gr), Position(gr, n))
  {
    var o, b, r := OpenProgram(gr), Bodies(gr, |gr|), |Bodies(gr, n)|;
    Whole(b);
    assert Raw(b).RulesValid();
    PartAt(gr, |gr|, n);
    RuleClosed(gr, n);
    assert o[4 + r] == b[r] == RuleCode(gr, n)[0];
  }

  lemma {:induction false} PartAt(gr: Grammar, n: nat, r: nat)
    requires RulesValid(gr) && r < n <= |gr|
    ensures var a := |Bodies(gr, r)|;
            a + |RuleCode(gr, r)| <= |Bodies(gr, n)| && Bodies(gr, n)[a..a + |RuleCode(gr, r)|] == RuleCode(gr, r)
    decreases n
  {
    hide RuleCode;
    var a, c := |Bodies(gr, r)|, RuleCode(gr, r);
    if r < n - 1 {
      PartAt(gr, n - 1, r);
      assert Bodies(gr, n)[a..a + |c|] == Bodies(gr, n - 1)[a..a + |c|];
    } else {
      assert Bodies(gr, n)[a..a + |c|] == c;
    }
  }

  /** The program of a grammar. */
  lemma RulesProgram(gr: Grammar, code: Code)
    requires Accepted(gr) && Corrected(OpenProgram(gr), code, Positions(gr))
    ensures Program(code)
  {
    var o, pos := OpenProgram(gr), Positions(gr);
    OpenClosed(gr);
    forall n {:trigger pos[n]} | 0 <= n < |pos| ensures Start(o, pos[n]) && FallsSome(code, pos[n]) {
      PositionStarts(gr, n);
      RuleFalls(gr, code, n);
    }
    hide *;
    CorrectedProgram(o, code, pos);
  }
}
