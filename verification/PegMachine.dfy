/** Instruction slots and the backtracking virtual machine (lpvm.h, lpvm.c).
    A slot is the four-byte union of the source: an opcode with its operand, the
    offset that follows a jump-like opcode, or a piece of an inlined charset. */
module PegMachine {
  import opened PegTree

  datatype Opcode =
    | IAny | IChar | ISet | ITestAny | ITestChar | ITestSet | ISpan | IBehind
    | IEnd | IChoice | IJmp | ICommit | IPartialCommit | IBackCommit
    | IFailTwice | IFail | ICall | IRet | IOpenCall

  /** A 32-byte charset spans eight slots; the first one stands for its contents. An open
      call has the number of its rule as its operand, and a hole for the offset. */
  datatype Slot = Inst(op: Opcode, aux: Byte) | Offset(off: int) | Buff(cs: Charset) | Pad | Hole

  type Code = seq<Slot>

  const CHARSETINSTSIZE := 9

  function SizeI(op: Opcode): (n: nat)
    ensures n >= 1
  {
    match op
    case ISet => CHARSETINSTSIZE
    case ISpan => CHARSETINSTSIZE
    case ITestSet => CHARSETINSTSIZE + 1
    case ITestChar => 2
    case ITestAny => 2
    case IChoice => 2
    case IJmp => 2
    case ICommit => 2
    case IPartialCommit => 2
    case IBackCommit => 2
    case ICall => 2
    case IOpenCall => 2
    case _ => 1
  }

  predicate HasLabel(op: Opcode) { (SizeI(op) == 2 && op != IOpenCall) || op == ITestSet }

  /** A stacked choice, with where to go on failure and the position to restore, or a call, with
      where to return to. */
  datatype Entry = Entry(pc: nat, pos: nat) | Frame(pc: nat)

  datatype State =
    | Run(pc: nat, pos: nat, stk: seq<Entry>)
    | Done(pos: nat)   // IEnd
    | GaveUp           // IGiveup: the bottom entry of the stack was taken
    | Stuck            // undefined behaviour of the C machine

  /** The label 'fail' of the interpreter: pending calls are removed. */
  function Backtrack(stk: seq<Entry>): State
  {
    if |stk| == 0 then GaveUp
    else if stk[|stk| - 1].Frame? then Backtrack(stk[..|stk| - 1])
    else Run(stk[|stk| - 1].pc, stk[|stk| - 1].pos, stk[..|stk| - 1])
  }

  /** The top of the stack is a choice. */
  predicate OnChoice(stk: seq<Entry>) { |stk| > 0 && stk[|stk| - 1].Entry? }

  /** IRet */
  function Return(i: nat, stk: seq<Entry>): State {
    if |stk| > 0 && stk[|stk| - 1].Frame? then Run(stk[|stk| - 1].pc, i, stk[..|stk| - 1]) else Stuck
  }

  function Span(s: Subject, i: nat, cs: Charset): (j: nat)
    requires i <= |s|
    ensures i <= j <= |s|
    decreases |s| - i
  {
    if i < |s| && s[i] in cs then Span(s, i + 1, cs) else i
  }

  datatype Machine = Machine(code: Code, s: Subject) {

    predicate IsInst(pc: nat) {
      && pc + 1 <= |code| && code[pc].Inst?
      && (HasLabel(code[pc].op) ==> pc + 1 < |code| && code[pc + 1].Offset? && 0 <= pc + code[pc + 1].off)
      && (code[pc].op == ISet || code[pc].op == ISpan ==> pc + 1 < |code| && code[pc + 1].Buff?)
      && (code[pc].op == ITestSet ==> pc + 2 < |code| && code[pc + 2].Buff?)
    }

    function Target(pc: nat): nat
      requires IsInst(pc) && HasLabel(code[pc].op)
    {
      pc + code[pc + 1].off
    }

    /** One iteration of the interpreter loop. */
    function Step(st: State): State {
      if !st.Run? then st
      else if !IsInst(st.pc) || st.pos > |s| then Stuck
      else
        var Run(pc, i, stk) := st;
        var Inst(op, aux) := code[pc];
        match op
        case IEnd => Done(i)
        case IAny => if i < |s| then Run(pc + 1, i + 1, stk) else Backtrack(stk)
        case IChar => if i < |s| && s[i] == aux then Run(pc + 1, i + 1, stk) else Backtrack(stk)
        case ISet =>
          if i < |s| && s[i] in code[pc + 1].cs then Run(pc + CHARSETINSTSIZE, i + 1, stk) else Backtrack(stk)
        case ITestAny => if i < |s| then Run(pc + 2, i, stk) else Run(Target(pc), i, stk)
        case ITestChar => if i < |s| && s[i] == aux then Run(pc + 2, i, stk) else Run(Target(pc), i, stk)
        case ITestSet =>
          if i < |s| && s[i] in code[pc + 2].cs then Run(pc + 1 + CHARSETINSTSIZE, i, stk)
          else Run(Target(pc), i, stk)
        case IBehind => if aux > i then Backtrack(stk) else Run(pc + 1, i - aux, stk)
        case ISpan => Run(pc + CHARSETINSTSIZE, Span(s, i, code[pc + 1].cs), stk)
        case IJmp => Run(Target(pc), i, stk)
        case IChoice => Run(pc + 2, i, stk + [Entry(Target(pc), i)])
        case ICommit => if !OnChoice(stk) then Stuck else Run(Target(pc), i, stk[..|stk| - 1])
        case IPartialCommit =>
          if !OnChoice(stk) then Stuck else Run(Target(pc), i, stk[|stk| - 1 := Entry(stk[|stk| - 1].pc, i)])
        case IBackCommit =>
          if !OnChoice(stk) then Stuck else Run(Target(pc), stk[|stk| - 1].pos, stk[..|stk| - 1])
        case IFailTwice => if |stk| == 0 then Stuck else Backtrack(stk[..|stk| - 1])
        case IFail => Backtrack(stk)
        case ICall => Run(Target(pc), i, stk + [Frame(pc + 2)])
        case IRet => Return(i, stk)
        case IOpenCall => Stuck
    }

    /** A run: consecutive states are related by Step. */
    ghost predicate IsTrace(tr: seq<State>, a: State, b: State) {
      && |tr| > 0 && tr[0] == a && tr[|tr| - 1] == b
      && forall k {:trigger Step(tr[k])} :: 0 <= k < |tr| - 1 ==> Step(tr[k]) == tr[k + 1]
    }

    ghost predicate Reach(a: State, b: State) {
      exists tr: seq<State> :: IsTrace(tr, a, b)
    }

    lemma Refl(a: State)
      ensures Reach(a, a)
    {
      assert IsTrace([a], a, a);
    }

    lemma Trans(a: State, b: State, c: State)
      requires Reach(a, b) && Reach(b, c)
      ensures Reach(a, c)
    {
      var tr: seq<State> :| IsTrace(tr, a, b);
      var tr': seq<State> :| IsTrace(tr', b, c);
      var both := tr + tr'[1..];
      forall k | 0 <= k < |both| - 1
        ensures Step(both[k]) == both[k + 1]
      {
        if k < |tr| - 1 {
          assert both[k] == tr[k];
        } else {
          assert both[k] == tr'[k - (|tr| - 1)];
        }
      }
      assert IsTrace(both, a, c);
    }

    lemma One(a: State, b: State)
      requires Step(a) == b
      ensures Reach(a, b)
    {
      assert IsTrace([a, b], a, b);
    }

    /** The machine is deterministic: of two states that a state reaches, one reaches the other. */
    lemma Ordered(a: State, b: State, c: State)
      requires Reach(a, b) && Reach(a, c)
      ensures Reach(b, c) || Reach(c, b)
    {
      var tr: seq<State> :| IsTrace(tr, a, b);
      var tr': seq<State> :| IsTrace(tr', a, c);
      if |tr| <= |tr'| { TracesOrdered(tr, tr', a, b, c); } else { TracesOrdered(tr', tr, a, c, b); }
    }

    lemma {:induction false} TracesOrdered(tr: seq<State>, tr': seq<State>, a: State, b: State, c: State)
      requires IsTrace(tr, a, b) && IsTrace(tr', a, c) && |tr| <= |tr'|
      ensures Reach(b, c)
      decreases |tr|
    {
      if |tr| > 1 {
        assert Step(tr[0]) == tr[1] && Step(tr'[0]) == tr'[1];
        assert IsTrace(tr[1..], tr[1], b) && IsTrace(tr'[1..], tr'[1], c);
        TracesOrdered(tr[1..], tr'[1..], tr[1], b, c);
      }
    }

    /** A final state reaches only itself. */
    lemma {:induction false} Final(tr: seq<State>, a: State, b: State)
      requires IsTrace(tr, a, b) && !a.Run?
      ensures b == a
      decreases |tr|
    {
      if |tr| > 1 {
        assert Step(tr[0]) == tr[1];
        assert IsTrace(tr[1..], tr[1], b);
        Final(tr[1..], tr[1], b);
      }
    }

    /** A run has at most one final state. */
    lemma FinalUnique(a: State, b: State, c: State)
      requires Reach(a, b) && Reach(a, c) && !b.Run? && !c.Run?
      ensures b == c
    {
      Ordered(a, b, c);
      if Reach(b, c) {
        var tr: seq<State> :| IsTrace(tr, b, c);
        Final(tr, b, c);
      } else {
        var tr: seq<State> :| IsTrace(tr, c, b);
        Final(tr, c, b);
      }
    }
  }
}
