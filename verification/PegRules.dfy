/** The program of a whole pattern: a tree, or the rules of a grammar with calls to their code
    (codegrammar and correctcalls). */
module PegRules {
  import opened PegTree
  import opened PegAnalysis
  import opened PegGrammar
  import opened PegMachine
  import opened PegCodegen
  import opened PegComponents
  import opened PegCorrect
  import opened PegPeephole
  import opened PegShape

  // The layout of a grammar

  /** The code of a rule and its return. */
  function RuleCode(gr: Grammar, n: nat): Code
    requires RulesValid(gr) && n < |gr|
  {
    Gen(gr, gr[n], false, NoTest, FULLSET) + [Inst(IRet, 0)]
  }

  /** The first `n` rules. */
  function Bodies(gr: Grammar, n: nat): Code
    requires RulesValid(gr) && n <= |gr|
  {
    if n == 0 then [] else Bodies(gr, n - 1) + RuleCode(gr, n - 1)
  }

  function Position(gr: Grammar, n: nat): nat
    requires RulesValid(gr) && n <= |gr|
  {
    4 + |Bodies(gr, n)|
  }

  function Positions(gr: Grammar): (pos: seq<nat>)
    requires RulesValid(gr)
    ensures |pos| == |gr|
  {
    seq(|gr|, n requires 0 <= n < |gr| => Position(gr, n))
  }

  /** call L1; jmp L2; L1: rule 1; ret; rule 2; ret; ...; L2: end -- with open calls. */
  function OpenProgram(gr: Grammar): Code
    requires RulesValid(gr)
  {
    OffInst(ICall, 0, 4) + OffInst(IJmp, 0, |Bodies(gr, |gr|)| + 2) + Bodies(gr, |gr|) + [Inst(IEnd, 0)]
  }

  // Corrected calls

  /** At most n jumps lead from `q` to a return. */
  predicate LeadsToRet(code: Code, q: int, n: nat) { Chain(code, q, n) && code[ChainEnd(code, q, n)].op == IRet }

  ghost predicate OnlyReturns(code: Code, q: int) { exists n :: LeadsToRet(code, q, n) }

  /** A call at `a` of the code at `target`; a tail call is a jump. */
  ghost predicate CallSlot(code: Code, a: nat, target: nat) {
    && a + 1 < |code| && code[a].Inst? && code[a + 1] == Offset(target - a)
    && (code[a].op == ICall || (code[a].op == IJmp && OnlyReturns(code, a + 2)))
  }

  /** All open calls of `o` have become calls. */
  ghost predicate Corrected(o: Code, code: Code, pos: seq<nat>) {
    && |code| == |o|
    && forall k {:trigger o[k]} :: 0 <= k < |o| ==>
         if o[k].Inst? && o[k].op == IOpenCall then o[k].aux < |pos| && CallSlot(code, k, pos[o[k].aux])
         else if o[k].Hole? then !code[k].Inst?
         else code[k] == o[k]
  }

  lemma {:induction false} LeadsReturns(m: World, q: nat, n: nat)
    requires LeadsToRet(m.code, q, n)
    ensures Returns(m, q)
    decreases n
  {
    forall i: nat, stk: seq<Entry> {:trigger Run(q, i, stk)} | i <= |m.s|
      ensures m.Reach(Run(q, i, stk), Return(i, stk))
    {
      var a := Run(q, i, stk);
      if m.code[q].op == IRet {
        m.One(a, Return(i, stk));
      } else {
        var l := On(m.code).Target(q);
        LeadsReturns(m, l, n - 1);
        m.One(a, Run(l, i, stk));
        assert m.Reach(Run(l, i, stk), Return(i, stk));
        m.Trans(a, Run(l, i, stk), Return(i, stk));
      }
    }
  }

  lemma CorrectedAt(m: World, o: Code)
    requires Corrected(o, m.code, m.pos) && m.corrected
    ensures At(m, 0, o)
  {
    forall k {:trigger o[k]} | 0 <= k < |o| ensures SlotAt(m, 0 + k, o[k]) {
      if o[k].Inst? && o[k].op == IOpenCall {
        assert CallSlot(m.code, k, m.pos[o[k].aux]);
        if m.code[k].op == IJmp {
          assert OnlyReturns(m.code, k + 2);
          var n :| LeadsToRet(m.code, k + 2, n);
          LeadsReturns(m, k + 2, n);
        }
      }
    }
  }

  lemma {:induction false} BodiesAt(m: World, p: nat, n: nat, r: nat)
    requires m.RulesValid() && r < n <= |m.gr| && At(m, p, Bodies(m.gr, n))
    ensures At(m, p + |Bodies(m.gr, r)|, RuleCode(m.gr, r))
    decreases n
  {
    hide At;
    hide RuleCode;
    AtSplit(m, p, Bodies(m.gr, n - 1), RuleCode(m.gr, n - 1));
    if r < n - 1 { BodiesAt(m, p, n - 1, r); }
  }

  lemma RulesPlaced(m: World)
    requires m.RulesValid() && m.corrected && m.pos == Positions(m.gr) && Corrected(OpenProgram(m.gr), m.code, m.pos)
    ensures Placed(m)
    ensures At(m, 0, OffInst(ICall, 0, 4)) && At(m, 2, OffInst(IJmp, 0, |Bodies(m.gr, |m.gr|)| + 2))
    ensures At(m, 4 + |Bodies(m.gr, |m.gr|)|, [Inst(IEnd, 0)])
  {
    var o, b := OpenProgram(m.gr), Bodies(m.gr, |m.gr|);
    CorrectedAt(m, o);
    var call, jmp := OffInst(ICall, 0, 4), OffInst(IJmp, 0, |b| + 2);
    hide At;
    AtSplit(m, 0, call + jmp + b, [Inst(IEnd, 0)]);
    AtSplit3(m, 0, call, jmp, b);
    forall n {:trigger RulePlaced(m, n)} | 0 <= n < |m.gr| ensures RulePlaced(m, n) { BodiesAt(m, 4, |m.gr|, n); }
  }

  /** The call of the first rule, the jump to the end and the end. */
  lemma RulesFrame(m: World, i: nat)
    requires Accepted(m.gr) && m.corrected && m.pos == Positions(m.gr) && i <= |m.s|
    requires Corrected(OpenProgram(m.gr), m.code, m.pos)
    ensures Placed(m) && m.pos[0] == 4
    ensures m.Reach(Run(0, i, []), Run(4, i, [Frame(2)])) && m.Reach(Run(2, i, []), Done(i))
  {
    hide At;
    hide Gen;
    hide Corrected;
    hide World.Reach;
    hide Placed;
    hide Valid;
    hide VerifyRule;
    var end := 4 + |Bodies(m.gr, |m.gr|)|;
    assert Bodies(m.gr, 0) == [];
    RulesPlaced(m);
    LabelledAt(m, 0, ICall, 4);
    LabelledAt(m, 2, IJmp, end - 2);
    PlainAt(m, end, IEnd, 0);
    var d := Run(end, i, []);
    m.One(Run(0, i, []), Run(4, i, [Frame(2)]));
    m.One(Run(2, i, []), d);
    m.One(d, Done(i));
    m.Trans(Run(2, i, []), d, Done(i));
  }

  /** Every rule runs as it should. */
  lemma RulesRun(m: World, n: nat, i: nat, stk: seq<Entry>)
    requires Placed(m) && n < |m.gr| && i <= |m.s| && m.fuel > 0
    ensures RuleRuns(m, n, i, stk)
  {
    DeeperPlaced(m);
    assert Valid(m.gr, m.gr[n]);
    hide *;
    DeeperIs(m);
    GenCorrect(Deeper(m), m.gr[n], false, NoTest, FULLSET);
    RuleOk(m, n, i, stk);
  }

  lemma DeeperIs(m: World)
    requires m.fuel > 0
    ensures Deeper(m).gr == m.gr
  {
  }

  /** The program of a grammar ends as its first rule does. */
  lemma RulesCorrect(gr: Grammar, code: Code, s: Subject, i: nat, f: nat)
    requires Accepted(gr) && i <= |s| && !Match(gr, gr[0], s, i, f).Out?
    requires Corrected(OpenProgram(gr), code, Positions(gr))
    ensures Machine(code, s).Reach(Run(0, i, []), Expected(Match(gr, gr[0], s, i, f)))
  {
    hide Corrected;
    hide OpenProgram;
    hide Positions;
    hide Placed;
    hide World.Reach;
    var m, r := World(code, s, gr, f + 1, Positions(gr), true), Match(gr, gr[0], s, i, f);
    var a, b := Run(0, i, []), Run(4, i, [Frame(2)]);
    RulesFrame(m, i);
    RulesRun(m, 0, i, [Frame(2)]);
    assert m.Mean(TCall(0), i) == r;
    if r.Upto? {
      RulesFrame(m, r.pos);
      m.Trans(b, Run(2, r.pos, []), Done(r.pos));
    } else {
      assert Backtrack([Frame(2)]) == GaveUp;
    }
    m.Trans(a, b, Expected(r));
    Ends(m, a, Expected(r));
  }

  /** The program of a tree without rules to call ends as the tree does. */
  lemma TreeCorrect(t: Tree, s: Subject, i: nat)
    requires Valid([], t) && i <= |s| && !Match([], t, s, i, 0).Out?
    ensures Machine(Gen([], t, false, NoTest, FULLSET) + [Inst(IEnd, 0)], s)
            .Reach(Run(0, i, []), Expected(Match([], t, s, i, 0)))
  {
    hide Gen;
    hide Match;
    hide At;
    hide World.Reach;
    hide Valid;
    var c := Gen([], t, false, NoTest, FULLSET);
    var m := World(c + [Inst(IEnd, 0)], s, [], 0, [], false);
    var a, r := Run(0, i, []), Match([], t, s, i, 0);
    WholeAt(m);
    AtSplit(m, 0, c, [Inst(IEnd, 0)]);
    GenCorrect(m, t, false, NoTest, FULLSET);
    assert Implements(m, t, false, NoTest, FULLSET, 0, 0 + |c|);
    PlainAt(m, |c|, IEnd, 0);
    assert Correct(m, t, false, FULLSET, a, |c|, i, []);
    if r.Upto? {
      var end := Run(|c|, r.pos, []);
      m.One(end, Done(end.pos));
      m.Trans(a, end, Done(end.pos));
    }
    Ends(m, a, Expected(r));
  }
}
