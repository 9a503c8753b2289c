/** The jump optimizer: what its input looks like, what its output is allowed to
    look like, and why both run alike. */
module PegPeephole {
  import opened PegTree
  import opened PegMachine

  function On(code: Code): Machine { Machine(code, []) }

  predicate Start(code: Code, p: int) { 0 <= p < |code| && code[p].Inst? }

  predicate FallsThrough(op: Opcode) {
    op !in {IEnd, IJmp, ICommit, IPartialCommit, IBackCommit, IFailTwice, IFail, IRet}
  }

  predicate SlotOk(code: Code, p: nat)
  {
    && On(code).IsInst(p)
    && p + SizeI(code[p].op) <= |code|
    && (p + SizeI(code[p].op) < |code| ==> Start(code, p + SizeI(code[p].op)))
    && (FallsThrough(code[p].op) ==> p + SizeI(code[p].op) < |code|)
    && (forall k :: p < k < p + SizeI(code[p].op) ==> !code[k].Inst?)
    && (HasLabel(code[p].op) ==> Start(code, On(code).Target(p)))
    && code[p].op != IOpenCall
  }

  /** `p` is a jump to another jump. */
  predicate JumpsOn(code: Code, p: nat) {
    && Start(code, p) && code[p].op == IJmp && On(code).IsInst(p)
    && Start(code, On(code).Target(p)) && code[On(code).Target(p)].op == IJmp
  }

  /** At most n jumps in a row start at `p`. */
  predicate Chain(code: Code, p: int, n: nat)
    decreases n
  {
    && Start(code, p)
    && (code[p].op == IJmp ==> On(code).IsInst(p) && n > 0 && Chain(code, On(code).Target(p), n - 1))
  }

  /** Where they lead. */
  function ChainEnd(code: Code, p: int, n: nat): (q: nat)
    requires Chain(code, p, n)
    ensures Start(code, q) && code[q].op != IJmp
    decreases n
  {
    if code[p].op == IJmp then ChainEnd(code, On(code).Target(p), n - 1) else p
  }

  /** Numbers that fall along every sequence of jumps. */
  ghost predicate Ranks(code: Code, rk: seq<nat>) {
    |rk| == |code| && forall p: nat {:trigger JumpsOn(code, p)} :: JumpsOn(code, p) ==> rk[On(code).Target(p)] < rk[p]
  }

  /** A complete program: control never leaves it, and its jumps do not cycle. */
  ghost predicate Program(code: Code) {
    && Start(code, 0) && (forall p: nat {:trigger SlotOk(code, p)} :: Start(code, p) ==> SlotOk(code, p))
    && exists rk :: Ranks(code, rk)
  }

  ghost function RankOf(code: Code): (rk: seq<nat>)
    requires Program(code)
    ensures Ranks(code, rk)
  {
    var rk :| Ranks(code, rk);
    rk
  }

  /** Bounds the number of jumps in a row. */
  ghost function Rank(code: Code, p: nat): (r: nat)
    requires Program(code) && p < |code|
  {
    RankOf(code)[p]
  }

  lemma RankDecreases(code: Code, p: nat)
    requires Program(code) && Start(code, p) && SlotOk(code, p) && code[p].op == IJmp
    requires code[On(code).Target(p)].op == IJmp
    ensures Rank(code, On(code).Target(p)) < Rank(code, p)
  {
    assert JumpsOn(code, p);
  }

  /** Where a sequence of jumps ends. */
  ghost function Final(code: Code, p: nat): (q: nat)
    requires Program(code) && Start(code, p)
    ensures Start(code, q) && code[q].op != IJmp
    decreases if SlotOk(code, p) && code[p].op == IJmp then Rank(code, p) + 1 else 0
  {
    assert SlotOk(code, p);
    if code[p].op != IJmp then p
    else
      var l := On(code).Target(p);
      assert SlotOk(code, l);
      if code[l].op == IJmp then RankDecreases(code, p); Final(code, l) else l
  }

  lemma {:induction false} ProgramChain(code: Code, p: nat) returns (n: nat)
    requires Program(code) && Start(code, p)
    ensures Chain(code, p, n)
    decreases if SlotOk(code, p) && code[p].op == IJmp then Rank(code, p) + 1 else 0
  {
    n := 0;
    assert SlotOk(code, p);
    if code[p].op == IJmp {
      var l := On(code).Target(p);
      assert SlotOk(code, l);
      if code[l].op == IJmp { RankDecreases(code, p); }
      var k := ProgramChain(code, l);
      n := k + 1;
    }
  }

  /** Address `p` of the output stands for instruction `q` of the input. */
  ghost predicate Same(code: Code, q: nat, out: Code, p: nat)
    requires Program(code) && Start(code, q) && |out| == |code|
  {
    && SlotOk(code, q)
    && On(out).IsInst(p) && out[p] == code[q]
    && (HasLabel(out[p].op) ==>
          && Start(code, On(out).Target(p))
          && Final(code, On(out).Target(p)) == Final(code, On(code).Target(q)))
    && (out[p].op == ISet || out[p].op == ISpan ==> out[p + 1] == code[q + 1])
    && (out[p].op == ITestSet ==> out[p + 2] == code[q + 2])
    && (FallsThrough(out[p].op) ==> p == q)
  }

  /** An address still holds a jump towards the same final destination, or it holds the
      instruction that the jumps from it lead to. */
  ghost predicate Optimized(code: Code, out: Code, p: nat)
    requires Program(code) && Start(code, p) && |out| == |code|
  {
    || (&& On(out).IsInst(p) && out[p].op == IJmp && code[p].op == IJmp
        && Start(code, On(out).Target(p)) && Final(code, On(out).Target(p)) == Final(code, p)
        && (out[p + 1] == code[p + 1] || (out[On(out).Target(p)].Inst? && out[On(out).Target(p)].op != IJmp)))
    || Same(code, Final(code, p), out, p)
  }

  ghost predicate Peephole(code: Code, out: Code) {
    && Program(code) && |out| == |code|
    && forall p: nat {:trigger Optimized(code, out, p)} :: Start(code, p) ==> Optimized(code, out, p)
  }

  /** The label of the instruction leads to no jump, and that of a jump not even to an instruction
      behind which control does not go on. */
  predicate Straight(code: Code, p: nat) {
    Start(code, p) && HasLabel(code[p].op) ==>
      && On(code).IsInst(p)
      && var q := On(code).Target(p);
         Start(code, q) && code[q].op != IJmp && (code[p].op == IJmp ==> FallsThrough(code[q].op))
  }

  /** Changing a jump, or only the label of another instruction, leaves the others straight. */
  lemma StaysStraight(before: Code, after: Code, i: nat, p: nat)
    requires p < |before| && Straight(before, p) && p != i && i + 1 < |before| == |after|
    requires before[i].Inst? && !before[i + 1].Inst?
    requires forall k :: 0 <= k < |before| && k != i && k != i + 1 ==> after[k] == before[k]
    requires after[i].Inst? && (before[i].op == IJmp || after[i] == before[i])
    requires before[p].Inst?
    ensures Straight(after, p)
  {
  }

  /** The instructions of the input in front of `n` are straight in the output. */
  predicate AllStraight(code: Code, out: Code, n: nat) {
    |out| == |code| && forall p :: 0 <= p < n && p < |code| && Start(code, p) ==> Straight(out, p)
  }

  /** One more. */
  lemma OneStraight(code: Code, before: Code, after: Code, i: nat, n: nat)
    requires AllStraight(code, before, i) && i < |before| == |after| && before[i].Inst?
    requires forall p :: 0 <= p < |code| && Start(code, p) ==> before[p].Inst?
    requires after == before || (
               && i + 1 < |before| && !before[i + 1].Inst? && after[i].Inst?
               && (before[i].op == IJmp || after[i] == before[i])
               && forall k :: 0 <= k < |before| && k != i && k != i + 1 ==> after[k] == before[k])
    requires Straight(after, i) && forall k :: i < k < n && k < |code| ==> !Start(code, k)
    ensures AllStraight(code, after, n)
  {
    hide Straight;
    forall p | 0 <= p < n && p < |code| && Start(code, p) ensures Straight(after, p) {
      if p < i && after != before { StaysStraight(before, after, i, p); }
    }
  }

  // Both programs run alike.

  /** Two addresses of the input that lead to the same instruction. */
  ghost predicate SameAddress(code: Code, p: nat, q: nat)
    requires Program(code)
  {
    Start(code, p) && Start(code, q) && Final(code, p) == Final(code, q)
  }

  ghost predicate SameStack(code: Code, a: seq<Entry>, b: seq<Entry>)
    requires Program(code)
  {
    |a| == |b| && forall k :: 0 <= k < |a| ==>
      && (if a[k].Entry? then b[k].Entry? && a[k].pos == b[k].pos else b[k].Frame?)
      && SameAddress(code, a[k].pc, b[k].pc)
  }

  ghost predicate SameState(code: Code, a: State, b: State)
    requires Program(code)
  {
    if a.Run? then b.Run? && a.pos == b.pos && SameAddress(code, a.pc, b.pc) && SameStack(code, a.stk, b.stk)
    else a == b
  }

  lemma {:induction false} BacktrackSame(code: Code, a: seq<Entry>, b: seq<Entry>)
    requires Program(code) && SameStack(code, a, b)
    ensures SameState(code, Backtrack(a), Backtrack(b))
  {
    hide Program;
    hide Final;
    if |a| > 0 && a[|a| - 1].Frame? { BacktrackSame(code, a[..|a| - 1], b[..|b| - 1]); }
  }

  /** Follow the jumps that are left in the output. */
  lemma {:induction false} SkipJumps(code: Code, out: Code, s: Subject, p: nat, i: nat,
                                     stk: seq<Entry>) returns (q: nat)
    requires Peephole(code, out) && Start(code, p) && i <= |s|
    ensures Start(code, q) && Final(code, q) == Final(code, p) && Same(code, Final(code, p), out, q)
    ensures Machine(out, s).Reach(Run(p, i, stk), Run(q, i, stk))
    decreases Budget(code, out, p)
  {
    var m := Machine(out, s);
    assert Optimized(code, out, p) && SlotOk(code, p);
    if out[p].op != IJmp {
      q := p;
      m.Refl(Run(p, i, stk));
    } else {
      BudgetDecreases(code, out, p);
      var l := On(out).Target(p);
      q := SkipJumps(code, out, s, l, i, stk);
      m.One(Run(p, i, stk), Run(l, i, stk));
      m.Trans(Run(p, i, stk), Run(l, i, stk), Run(q, i, stk));
    }
  }

  /** Bounds the number of jumps in a row in a partly optimized program. */
  ghost function Budget(code: Code, out: Code, p: nat): nat
    requires Peephole(code, out) && Start(code, p)
  {
    assert Optimized(code, out, p) && SlotOk(code, p);
    if out[p].op != IJmp then 0
    else
      var l := On(out).Target(p);
      assert Optimized(code, out, l);
      if out[l].op != IJmp then 1 else Rank(code, p) + 2
  }

  lemma BudgetDecreases(code: Code, out: Code, p: nat)
    requires Peephole(code, out) && Start(code, p) && out[p].Inst? && out[p].op == IJmp
    requires On(out).IsInst(p) && Start(code, On(out).Target(p))
    ensures Budget(code, out, On(out).Target(p)) < Budget(code, out, p)
  {
    var l := On(out).Target(p);
    assert Optimized(code, out, p) && SlotOk(code, p) && Optimized(code, out, l) && SlotOk(code, l);
    if out[l].op == IJmp {
      assert On(code).Target(p) == l;
      RankDecreases(code, p);
    }
  }

  /** Following jumps in a partly optimized program. */
  lemma {:induction false} OptimizedChain(code: Code, out: Code, p: nat) returns (n: nat)
    requires Peephole(code, out) && Start(code, p)
    ensures Chain(out, p, n)
    ensures var q := ChainEnd(out, p, n);
            Start(code, q) && Final(code, q) == Final(code, p) && Same(code, Final(code, p), out, q)
    decreases Budget(code, out, p)
  {
    n := 0;
    assert Optimized(code, out, p) && SlotOk(code, p);
    if out[p].op == IJmp {
      BudgetDecreases(code, out, p);
      var k := OptimizedChain(code, out, On(out).Target(p));
      n := k + 1;
    }
  }

  /** One instruction, in the input at `a` and in the output at `b`. */
  ghost predicate StepsAlike(code: Code, out: Code, s: Subject, a: State, b: State)
    requires Program(code)
  {
    Machine(code, s).Step(a) != Stuck ==> SameState(code, Machine(code, s).Step(a), Machine(out, s).Step(b))
  }

  /** The same labelled instruction at `p` and `q`, with labels that lead alike. */
  ghost predicate LabelledAlike(code: Code, out: Code, p: nat, q: nat)
    requires Program(code)
  {
    && On(code).IsInst(p) && On(out).IsInst(q) && out[q] == code[p] && HasLabel(code[p].op)
    && SameAddress(code, On(code).Target(p), On(out).Target(q))
    && (code[p].op == ITestSet ==> out[q + 2] == code[p + 2])
    && (FallsThrough(code[p].op) ==> q == p && SameAddress(code, p + SizeI(code[p].op), p + SizeI(code[p].op)))
  }

  lemma LabelsSame(code: Code, out: Code, p: nat, q: nat)
    requires Program(code) && |out| == |code| && Start(code, p) && Same(code, p, out, q) && HasLabel(code[p].op)
    ensures LabelledAlike(code, out, p, q)
  {
    assert SlotOk(code, p);
  }

  lemma StepSameLabelled(code: Code, out: Code, s: Subject, a: State, b: State)
    requires Program(code) && |out| == |code| && a.Run? && b.Run?
    requires SameState(code, a, b) && a.pos <= |s|
    requires code[a.pc].op != IJmp && HasLabel(code[a.pc].op) && Same(code, a.pc, out, b.pc)
    ensures StepsAlike(code, out, s, a, b)
  {
    LabelsSame(code, out, a.pc, b.pc);
    hide Program;
    hide Final;
    hide Same;
    hide SlotOk;
    if FallsThrough(code[a.pc].op) { StepSameBranch(code, out, s, a, b); } else { StepSameCommit(code, out, s, a, b); }
  }

  lemma StepSameBranch(code: Code, out: Code, s: Subject, a: State, b: State)
    requires Program(code) && a.Run? && b.Run?
    requires SameState(code, a, b) && a.pos <= |s|
    requires LabelledAlike(code, out, a.pc, b.pc) && FallsThrough(code[a.pc].op)
    ensures StepsAlike(code, out, s, a, b)
  {
    hide Final;
    hide Program;
    hide Backtrack;
    hide SlotOk;
    var l, l' := On(code).Target(a.pc), On(out).Target(b.pc);
    assert SameStack(code, a.stk + [Entry(l, a.pos)], b.stk + [Entry(l', a.pos)]);
    if code[a.pc].op == ICall {
      assert SameStack(code, a.stk + [Frame(a.pc + 2)], b.stk + [Frame(b.pc + 2)]);
    }
  }

  lemma StepSameCommit(code: Code, out: Code, s: Subject, a: State, b: State)
    requires Program(code) && a.Run? && b.Run?
    requires SameState(code, a, b) && a.pos <= |s|
    requires LabelledAlike(code, out, a.pc, b.pc) && !FallsThrough(code[a.pc].op) && code[a.pc].op != IJmp
    ensures StepsAlike(code, out, s, a, b)
  {
    hide Final;
    hide Program;
    hide Backtrack;
    hide SlotOk;
    if |a.stk| > 0 {
      assert SameStack(code, a.stk[..|a.stk| - 1], b.stk[..|b.stk| - 1]);
    }
  }

  lemma StepSamePlain(code: Code, out: Code, s: Subject, a: State, b: State)
    requires Program(code) && |out| == |code| && a.Run? && b.Run?
    requires SameState(code, a, b) && a.pos <= |s|
    requires !HasLabel(code[a.pc].op) && Same(code, a.pc, out, b.pc)
    ensures StepsAlike(code, out, s, a, b)
  {
    if FallsThrough(code[a.pc].op) { StepSamePast(code, out, s, a, b); } else { StepSameStop(code, out, s, a, b); }
  }

  /** An instruction that goes on to the next one, or fails. */
  lemma StepSamePast(code: Code, out: Code, s: Subject, a: State, b: State)
    requires Program(code) && |out| == |code| && a.Run? && b.Run?
    requires SameState(code, a, b) && a.pos <= |s|
    requires !HasLabel(code[a.pc].op) && FallsThrough(code[a.pc].op) && Same(code, a.pc, out, b.pc)
    ensures StepsAlike(code, out, s, a, b)
  {
    hide Final;
    hide Program;
    hide Backtrack;
    hide SlotOk;
    PlainFacts(code, out, s, a, b);
    BacktrackSame(code, a.stk, b.stk);
  }

  /** An instruction that ends the run, fails or returns. */
  lemma StepSameStop(code: Code, out: Code, s: Subject, a: State, b: State)
    requires Program(code) && |out| == |code| && a.Run? && b.Run?
    requires SameState(code, a, b) && a.pos <= |s|
    requires !HasLabel(code[a.pc].op) && !FallsThrough(code[a.pc].op) && Same(code, a.pc, out, b.pc)
    ensures StepsAlike(code, out, s, a, b)
  {
    hide Final;
    hide Program;
    hide Backtrack;
    hide SlotOk;
    PlainFacts(code, out, s, a, b);
    BacktrackSame(code, a.stk, b.stk);
    if |a.stk| > 0 {
      assert SameStack(code, a.stk[..|a.stk| - 1], b.stk[..|b.stk| - 1]);
      BacktrackSame(code, a.stk[..|a.stk| - 1], b.stk[..|b.stk| - 1]);
    }
  }

  lemma PlainFacts(code: Code, out: Code, s: Subject, a: State, b: State)
    requires Program(code) && |out| == |code| && a.Run? && b.Run?
    requires SameState(code, a, b) && a.pos <= |s|
    requires !HasLabel(code[a.pc].op) && Same(code, a.pc, out, b.pc)
    ensures Machine(code, s).IsInst(a.pc) && Machine(out, s).IsInst(b.pc) && code[a.pc].op != IOpenCall
    ensures FallsThrough(code[a.pc].op) ==>
              b.pc == a.pc && SameAddress(code, a.pc + SizeI(code[a.pc].op), a.pc + SizeI(code[a.pc].op))
  {
    assert SlotOk(code, a.pc);
  }

  /** A run of the input to its end is matched by a run of the output. */
  lemma {:induction false} Simulation(code: Code, out: Code, s: Subject, tr: seq<State>, a: State, b: State, end: State)
    requires Peephole(code, out) && SameState(code, a, b)
    requires Machine(code, s).IsTrace(tr, a, end) && !end.Run? && end != Stuck
    ensures Machine(out, s).Reach(b, end)
    decreases |tr|
  {
    var m, m' := Machine(code, s), Machine(out, s);
    if !a.Run? {
      Halted(m, tr, a, end);
      m'.Refl(b);
    } else {
      assert m.Step(tr[0]) == tr[1];
      assert m.IsTrace(tr[1..], tr[1], end);
      if tr[1] == Stuck {
        Halted(m, tr[1..], Stuck, end);
        assert false;
      }
      assert SlotOk(code, a.pc) && Optimized(code, out, b.pc);
      if code[a.pc].op == IJmp {
        var l := On(code).Target(a.pc);
        assert m.Target(a.pc) == l && SlotOk(code, l);
        Simulation(code, out, s, tr[1..], tr[1], b, end);
      } else {
        var q := SkipJumps(code, out, s, b.pc, b.pos, b.stk);
        var b' := Run(q, b.pos, b.stk);
        if HasLabel(code[a.pc].op) {
          StepSameLabelled(code, out, s, a, b');
        } else {
          StepSamePlain(code, out, s, a, b');
        }
        Simulation(code, out, s, tr[1..], tr[1], m'.Step(b'), end);
        m'.One(b', m'.Step(b'));
        m'.Trans(b, b', m'.Step(b'));
        m'.Trans(b, m'.Step(b'), end);
      }
    }
  }

  lemma {:induction false} Halted(m: Machine, tr: seq<State>, a: State, end: State)
    requires m.IsTrace(tr, a, end) && !a.Run?
    ensures end == a
    decreases |tr|
  {
    if |tr| > 1 {
      assert m.Step(tr[0]) == tr[1];
      Halted(m, tr[1..], a, end);
    }
  }

  /** The optimizer preserves the final state of every run from the first instruction. */
  lemma PeepholeCorrect(code: Code, out: Code, s: Subject, i: nat, end: State)
    requires Peephole(code, out) && Machine(code, s).Reach(Run(0, i, []), end) && !end.Run? && end != Stuck
    ensures Machine(out, s).Reach(Run(0, i, []), end)
  {
    var tr: seq<State> :| Machine(code, s).IsTrace(tr, Run(0, i, []), end);
    Simulation(code, out, s, tr, Run(0, i, []), Run(0, i, []), end);
  }
}
