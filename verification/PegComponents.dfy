/** The pieces of generated code, as components between two addresses, and what
    putting them together does. No lemma here looks at how code is laid out. */
module PegComponents {
  import opened PegTree
  import opened PegAnalysis
  import opened PegMachine
  import opened PegCodegen

  /** A program with its subject, and the meaning that its code is compared with: the rules of
      a grammar, how deep calls may nest, and where the code of each rule is. `corrected`: its
      open calls have become calls. */
  datatype World = World(code: Code, s: Subject, gr: Grammar, fuel: nat, pos: seq<nat>, corrected: bool) {

    function M(): Machine { Machine(code, s) }

    predicate IsInst(pc: nat) { M().IsInst(pc) }

    function Target(pc: nat): nat
      requires IsInst(pc) && HasLabel(code[pc].op)
    {
      M().Target(pc)
    }

    function Step(st: State): State { M().Step(st) }

    /** What a pattern means at a position of the subject. */
    function Mean(t: Tree, i: nat): (r: Outcome)
      requires i <= |s|
      ensures r.Upto? ==> i <= r.pos <= |s|
    {
      Match(gr, t, s, i, fuel)
    }

    /** The rules are what the tree constructors accept. */
    predicate RulesValid() { forall r :: 0 <= r < |gr| ==> Valid(gr, gr[r]) }

    /** Both states go on to a common one: as the machine is deterministic, they end alike. */
    ghost predicate Reach(a: State, b: State) { exists x :: M().Reach(a, x) && M().Reach(b, x) }

    lemma Refl(a: State)
      ensures Reach(a, a)
    {
      M().Refl(a);
    }

    lemma Trans(a: State, b: State, c: State)
      requires Reach(a, b) && Reach(b, c)
      ensures Reach(a, c)
    {
      hide Machine.Reach;
      var x :| M().Reach(a, x) && M().Reach(b, x);
      var y :| M().Reach(b, y) && M().Reach(c, y);
      M().Ordered(b, x, y);
      if M().Reach(x, y) { M().Trans(a, x, y); } else { M().Trans(c, y, x); }
    }

    lemma Symm(a: State, b: State)
      requires Reach(a, b)
      ensures Reach(b, a)
    {
    }

    lemma One(a: State, b: State)
      requires Step(a) == b
      ensures Reach(a, b)
    {
      M().One(a, b);
      M().Refl(b);
    }
  }

  predicate TestHolds(tt: Test, s: Subject, i: nat) {
    match tt
    case NoTest => true
    case TestChar(c) => i < |s| && s[i] == c
    case TestSet(cs) => i < |s| && s[i] in cs
  }

  predicate NextIn(s: Subject, i: nat, cs: Charset) { i < |s| && s[i] in cs }

  /** An instruction without label at `p`. */
  predicate Plain(m: World, p: nat, op: Opcode, aux: Byte) {
    m.IsInst(p) && m.code[p] == Inst(op, aux)
  }

  /** A labelled instruction at `p` with target `l`. */
  predicate Labelled(m: World, p: nat, op: Opcode, l: nat) {
    m.IsInst(p) && m.code[p].op == op && HasLabel(op) && m.Target(p) == l
  }

  function Retop(stk: seq<Entry>, i: nat): seq<Entry>
    requires |stk| > 0
  {
    stk[|stk| - 1 := Entry(stk[|stk| - 1].pc, i)]
  }

  lemma ChoiceRuns(m: World, p: nat, l: nat, i: nat, stk: seq<Entry>)
    requires Labelled(m, p, IChoice, l) && i <= |m.s|
    ensures m.Reach(Run(p, i, stk), Run(p + 2, i, stk + [Entry(l, i)]))
  {
    m.One(Run(p, i, stk), Run(p + 2, i, stk + [Entry(l, i)]));
  }

  lemma JmpRuns(m: World, p: nat, l: nat, i: nat, stk: seq<Entry>)
    requires Labelled(m, p, IJmp, l) && i <= |m.s|
    ensures m.Reach(Run(p, i, stk), Run(l, i, stk))
  {
    m.One(Run(p, i, stk), Run(l, i, stk));
  }

  lemma CommitRuns(m: World, p: nat, l: nat, i: nat, stk: seq<Entry>, e: Entry)
    requires Labelled(m, p, ICommit, l) && i <= |m.s| && e.Entry?
    ensures m.Reach(Run(p, i, stk + [e]), Run(l, i, stk))
  {
    assert (stk + [e])[..|stk|] == stk;
    m.One(Run(p, i, stk + [e]), Run(l, i, stk));
  }

  lemma BackCommitRuns(m: World, p: nat, l: nat, i: nat, stk: seq<Entry>, e: Entry)
    requires Labelled(m, p, IBackCommit, l) && i <= |m.s| && e.Entry?
    ensures m.Reach(Run(p, i, stk + [e]), Run(l, e.pos, stk))
  {
    assert (stk + [e])[..|stk|] == stk;
    m.One(Run(p, i, stk + [e]), Run(l, e.pos, stk));
  }

  lemma PartialCommitRuns(m: World, p: nat, l: nat, i: nat, stk: seq<Entry>)
    requires Labelled(m, p, IPartialCommit, l) && i <= |m.s| && OnChoice(stk)
    ensures m.Reach(Run(p, i, stk), Run(l, i, Retop(stk, i)))
  {
    m.One(Run(p, i, stk), Run(l, i, Retop(stk, i)));
  }

  lemma FailRuns(m: World, p: nat, i: nat, stk: seq<Entry>)
    requires Plain(m, p, IFail, 0) && i <= |m.s|
    ensures m.Reach(Run(p, i, stk), Backtrack(stk))
  {
    m.One(Run(p, i, stk), Backtrack(stk));
  }

  lemma BehindRuns(m: World, p: nat, n: Byte, i: nat, stk: seq<Entry>)
    requires Plain(m, p, IBehind, n) && i <= |m.s|
    ensures m.Reach(Run(p, i, stk), if n > i then Backtrack(stk) else Run(p + 1, i - n, stk))
  {
    m.One(Run(p, i, stk), if n > i then Backtrack(stk) else Run(p + 1, i - n, stk));
  }

  lemma FailTwiceRuns(m: World, p: nat, i: nat, stk: seq<Entry>, e: Entry)
    requires Plain(m, p, IFailTwice, 0) && i <= |m.s|
    ensures m.Reach(Run(p, i, stk + [e]), Backtrack(stk))
  {
    assert (stk + [e])[..|stk|] == stk;
    m.One(Run(p, i, stk + [e]), Backtrack(stk));
  }

  lemma BacktrackTop(stk: seq<Entry>, e: Entry)
    requires e.Entry?
    ensures Backtrack(stk + [e]) == Run(e.pc, e.pos, stk)
  {
    assert (stk + [e])[..|stk|] == stk;
  }

  /** The code reaches its end `q` at position `j`. Inside an optional pattern the choice
      on top of the stack may have been moved, or taken already with position `j`. */
  ghost predicate Succeeds(m: World, opt: bool, from: State, q: nat, j: nat, stk: seq<Entry>) {
    || m.Reach(from, Run(q, j, stk))
    || (opt && |stk| > 0 && m.Reach(from, Backtrack(Retop(stk, j))))
    || (opt && |stk| > 0 && exists x: nat :: m.Reach(from, Run(q, j, Retop(stk, x))))
  }

  /** From `from`, the code that ends at `q` does what `t` does at `i`: it fails when `t`
      fails, and when `t` matches it succeeds, or fails on a character that cannot follow. */
  ghost predicate Correct(m: World, t: Tree, opt: bool, fl: Charset, from: State, q: nat, i: nat, stk: seq<Entry>)
    requires i <= |m.s|
  {
    match m.Mean(t, i)
    case Out => true
    case Fail => m.Reach(from, Backtrack(stk))
    case Upto(j) =>
      || Succeeds(m, opt, from, q, j, stk)
      || (Outside(m.s, j, fl) && m.Reach(from, Backtrack(stk)))
  }

  /** The code between `p` and `q` is correct for `t` wherever its test holds. */
  ghost predicate Implements(m: World, t: Tree, opt: bool, tt: Test, fl: Charset, p: nat, q: nat) {
    forall i: nat, stk: seq<Entry> {:trigger Run(p, i, stk)} ::
      i <= |m.s| && TestHolds(tt, m.s, i) && (opt ==> OnChoice(stk)) ==>
        Correct(m, t, opt, fl, Run(p, i, stk), q, i, stk)
  }

  /** The code between `p` and `q` jumps to `l` unless the next character is in `cs`. */
  ghost predicate Tests(m: World, cs: Charset, p: nat, q: nat, l: nat) {
    forall i: nat, stk: seq<Entry> {:trigger Run(p, i, stk)} :: i <= |m.s| ==>
      m.Reach(Run(p, i, stk), Run(if NextIn(m.s, i, cs) then q else l, i, stk))
  }

  /** Running into correct code is correct. */
  lemma Enter(m: World, t: Tree, opt: bool, fl: Charset, a: State, b: State, q: nat, i: nat, stk: seq<Entry>)
    requires i <= |m.s| && m.Reach(a, b) && Correct(m, t, opt, fl, b, q, i, stk)
    ensures Correct(m, t, opt, fl, a, q, i, stk)
  {
    hide World.Reach;
    hide Labelled;
    hide Plain;
    var r := m.Mean(t, i);
    if r.Upto? && Succeeds(m, opt, b, q, r.pos, stk) {
      SucceedsFrom(m, opt, a, b, q, r.pos, stk);
    } else if !r.Out? {
      m.Trans(a, b, Backtrack(stk));
    }
  }

  lemma SucceedsFrom(m: World, opt: bool, a: State, b: State, q: nat, j: nat, stk: seq<Entry>)
    requires m.Reach(a, b) && Succeeds(m, opt, b, q, j, stk)
    ensures Succeeds(m, opt, a, q, j, stk)
  {
    hide World.Reach;
    hide Labelled;
    hide Plain;
    if m.Reach(b, Run(q, j, stk)) {
      m.Trans(a, b, Run(q, j, stk));
    } else if m.Reach(b, Backtrack(Retop(stk, j))) {
      m.Trans(a, b, Backtrack(Retop(stk, j)));
    } else {
      var x: nat :| m.Reach(b, Run(q, j, Retop(stk, x)));
      m.Trans(a, b, Run(q, j, Retop(stk, x)));
    }
  }

  /** <p1>; <p2>, where p1 may give up on characters outside first(p2, fl). */
  lemma SeqOk(m: World, p1: Tree, p2: Tree, opt: bool, tt: Test, fl1: Charset, fl: Charset,
              p: nat, q: nat, r: nat, i: nat, stk: seq<Entry>)
    requires Valid(m.gr, p2) && m.RulesValid() && i <= |m.s| && TestHolds(tt, m.s, i) && (opt ==> OnChoice(stk))
    requires fl1 == FULLSET || fl1 == GetFirst(m.gr, p2, fl).cs
    requires Implements(m, p1, false, tt, fl1, p, q)
    requires Implements(m, p2, opt, TestAfter(m.gr, p1, tt), fl, q, r)
    ensures Correct(m, TSeq(p1, p2), opt, fl, Run(p, i, stk), r, i, stk)
  {
    hide World.Reach;
    hide Labelled;
    hide Plain;
    var a := Run(p, i, stk);
    assert Correct(m, p1, false, fl1, a, q, i, stk);
    var r1 := m.Mean(p1, i);
    if r1.Upto? {
      var b := Run(q, r1.pos, stk);
      if m.Reach(a, b) {
        if FixedLen(m.gr, p1) == 0 { FixedLenSound(m.gr, p1, m.s, i, m.fuel, MAXRULES); }
        assert Correct(m, p2, opt, fl, b, r, r1.pos, stk);
        Enter(m, p2, opt, fl, a, b, r, r1.pos, stk);
      } else {
        FirstSound(m.gr, p2, fl, m.s, r1.pos, m.fuel, DEPTH);
      }
    }
  }

  /** Every match of `b` consumes `n` characters. */
  ghost predicate HasLen(m: World, b: Tree, n: nat) {
    forall i: nat {:trigger m.Mean(b, i)} | i <= |m.s| && m.Mean(b, i).Upto? :: m.Mean(b, i).pos == i + n
  }

  /** [behind n]; <p> */
  lemma BehindOk(m: World, b: Tree, n: nat, opt: bool, fl: Charset, p: nat, q: nat, r: nat, i: nat, stk: seq<Entry>)
    requires i <= |m.s| && HasLen(m, b, n) && n <= MAXBEHIND
    requires if n > 0 then Plain(m, p, IBehind, n) && q == p + 1 else q == p
    requires Implements(m, b, false, NoTest, FULLSET, q, r)
    ensures Correct(m, TBehind(n, b), opt, fl, Run(p, i, stk), r, i, stk)
  {
    hide World.Reach;
    hide Labelled;
    hide Plain;
    var a := Run(p, i, stk);
    if n > 0 { BehindRuns(m, p, n, i, stk); } else { m.Refl(a); }
    if n <= i {
      assert Correct(m, b, false, FULLSET, Run(q, i - n, stk), r, i - n, stk);
      var k := m.Mean(b, i - n);
      if !k.Out? { m.Trans(a, Run(q, i - n, stk), if k.Fail? then Backtrack(stk) else Run(r, i, stk)); }
    }
  }

  /** <p>; [behind n], for a body of fixed length n. */
  lemma AndFixedOk(m: World, b: Tree, n: nat, opt: bool, tt: Test, fl: Charset, p: nat, q: nat, r: nat, i: nat,
                   stk: seq<Entry>)
    requires i <= |m.s| && HasLen(m, b, n) && n <= MAXBEHIND && TestHolds(tt, m.s, i)
    requires if n > 0 then Plain(m, q, IBehind, n) && r == q + 1 else r == q
    requires Implements(m, b, false, tt, FULLSET, p, q)
    ensures Correct(m, TAnd(b), opt, fl, Run(p, i, stk), r, i, stk)
  {
    hide World.Reach;
    hide Labelled;
    hide Plain;
    var a := Run(p, i, stk);
    assert Correct(m, b, false, FULLSET, a, q, i, stk);
    var k := m.Mean(b, i);
    if k.Upto? {
      assert m.Reach(a, Run(q, i + n, stk));
      if n > 0 {
        BehindRuns(m, q, n, i + n, stk);
        m.Trans(a, Run(q, i + n, stk), Run(r, i, stk));
      }
      assert m.Reach(a, Run(r, i, stk));
    }
  }

  /** choice L1; <p>; backcommit L2; L1: fail; L2: */
  lemma AndOk(m: World, b: Tree, opt: bool, tt: Test, fl: Charset, p: nat, q: nat, i: nat, stk: seq<Entry>)
    requires i <= |m.s| && TestHolds(tt, m.s, i)
    requires Labelled(m, p, IChoice, q + 2) && Labelled(m, q, IBackCommit, q + 3) && Plain(m, q + 2, IFail, 0)
    requires Implements(m, b, false, tt, FULLSET, p + 2, q)
    ensures Correct(m, TAnd(b), opt, fl, Run(p, i, stk), q + 3, i, stk)
  {
    hide World.Reach;
    hide Labelled;
    hide Plain;
    var a, e := Run(p, i, stk), Entry(q + 2, i);
    var l := Run(p + 2, i, stk + [e]);
    ChoiceRuns(m, p, q + 2, i, stk);
    assert Correct(m, b, false, FULLSET, l, q, i, stk + [e]);
    var r := m.Mean(b, i);
    if r.Upto? {
      BackCommitRuns(m, q, q + 3, r.pos, stk, e);
      m.Trans(a, l, Run(q, r.pos, stk + [e]));
      m.Trans(a, Run(q, r.pos, stk + [e]), Run(q + 3, i, stk));
    } else if r.Fail? {
      BacktrackTop(stk, e);
      m.Trans(a, l, Run(q + 2, i, stk));
      FailRuns(m, q + 2, i, stk);
      m.Trans(a, Run(q + 2, i, stk), Backtrack(stk));
    }
  }

  /** test (fail(p)) -> L1; fail; L1: */
  lemma NotHeadfailOk(m: World, b: Tree, opt: bool, fl: Charset, cs: Charset, p: nat, q: nat, i: nat, stk: seq<Entry>)
    requires i <= |m.s| && (m.Mean(b, i).Out? || (m.Mean(b, i).Upto? <==> NextIn(m.s, i, cs)))
    requires Tests(m, cs, p, q, q + 1) && Plain(m, q, IFail, 0)
    ensures Correct(m, TNot(b), opt, fl, Run(p, i, stk), q + 1, i, stk)
  {
    hide World.Reach;
    hide Labelled;
    hide Plain;
    var a := Run(p, i, stk);
    if m.Mean(b, i).Upto? {
      FailRuns(m, q, i, stk);
      m.Trans(a, Run(q, i, stk), Backtrack(stk));
    }
  }

  /** choice L1; <p>; failtwice; L1: */
  lemma NotOk(m: World, b: Tree, opt: bool, fl: Charset, p: nat, q: nat, i: nat, stk: seq<Entry>)
    requires i <= |m.s| && Labelled(m, p, IChoice, q + 1) && Plain(m, q, IFailTwice, 0)
    requires Implements(m, b, false, NoTest, FULLSET, p + 2, q)
    ensures Correct(m, TNot(b), opt, fl, Run(p, i, stk), q + 1, i, stk)
  {
    hide World.Reach;
    hide Labelled;
    hide Plain;
    var a, e := Run(p, i, stk), Entry(q + 1, i);
    var l := Run(p + 2, i, stk + [e]);
    ChoiceRuns(m, p, q + 1, i, stk);
    assert Correct(m, b, false, FULLSET, l, q, i, stk + [e]);
    var r := m.Mean(b, i);
    if r.Upto? {
      FailTwiceRuns(m, q, r.pos, stk, e);
      m.Trans(a, l, Run(q, r.pos, stk + [e]));
      m.Trans(a, Run(q, r.pos, stk + [e]), Backtrack(stk));
    } else if r.Fail? {
      BacktrackTop(stk, e);
      m.Trans(a, l, Run(q + 1, i, stk));
    }
  }

  /** choice L1; <p1>; commit L2; L1: <p2>; L2: */
  lemma ChoiceOk(m: World, p1: Tree, p2: Tree, opt: bool, tt: Test, fl: Charset,
                 p: nat, q: nat, r: nat, i: nat, stk: seq<Entry>)
    requires i <= |m.s| && TestHolds(tt, m.s, i) && (opt ==> OnChoice(stk)) && (p2.TTrue? ==> r == q + 2)
    requires Labelled(m, p, IChoice, q + 2) && Labelled(m, q, ICommit, r)
    requires Implements(m, p1, p2.TTrue?, tt, FULLSET, p + 2, q)
    requires Implements(m, p2, opt, NoTest, fl, q + 2, r)
    ensures Correct(m, TChoice(p1, p2), opt, fl, Run(p, i, stk), r, i, stk)
  {
    hide World.Reach;
    hide Labelled;
    hide Plain;
    var a, e := Run(p, i, stk), Entry(q + 2, i);
    var stk' := stk + [e];
    var b := Run(p + 2, i, stk');
    ChoiceRuns(m, p, q + 2, i, stk);
    assert Correct(m, p1, p2.TTrue?, FULLSET, b, q, i, stk');
    var r1 := m.Mean(p1, i);
    if r1.Fail? {
      BacktrackTop(stk, e);
      m.Trans(a, b, Run(q + 2, i, stk));
      Enter(m, p2, opt, fl, a, Run(q + 2, i, stk), r, i, stk);
    } else if r1.Upto? {
      ChoiceCommits(m, p2.TTrue?, b, q, r, r1.pos, stk, e);
      m.Trans(a, b, Run(r, r1.pos, stk));
    }
  }

  /** A successful first alternative drops the choice and leaves. */
  lemma ChoiceCommits(m: World, emptyp2: bool, b: State, q: nat, r: nat, j: nat, stk: seq<Entry>, e: Entry)
    requires j <= |m.s| && Labelled(m, q, ICommit, r) && (emptyp2 ==> r == q + 2) && e.Entry? && e.pc == q + 2
    requires Succeeds(m, emptyp2, b, q, j, stk + [e])
    ensures m.Reach(b, Run(r, j, stk))
  {
    hide World.Reach;
    hide Labelled;
    hide Plain;
    if m.Reach(b, Run(q, j, stk + [e])) {
      CommitRuns(m, q, r, j, stk, e);
      m.Trans(b, Run(q, j, stk + [e]), Run(r, j, stk));
    } else if m.Reach(b, Backtrack(Retop(stk + [e], j))) {
      assert Retop(stk + [e], j) == stk + [Entry(q + 2, j)];
      BacktrackTop(stk, Entry(q + 2, j));
    } else {
      var x: nat :| m.Reach(b, Run(q, j, Retop(stk + [e], x)));
      assert Retop(stk + [e], x) == stk + [Entry(q + 2, x)];
      CommitRuns(m, q, r, j, stk, Entry(q + 2, x));
      m.Trans(b, Run(q, j, stk + [Entry(q + 2, x)]), Run(r, j, stk));
    }
  }

  /** p1? == IPartialCommit; <p1>, reusing the choice on top of the stack. */
  lemma ChoiceReusedOk(m: World, p1: Tree, fl: Charset, p: nat, q: nat, i: nat, stk: seq<Entry>)
    requires i <= |m.s| && OnChoice(stk)
    requires Labelled(m, p, IPartialCommit, p + 2)
    requires Implements(m, p1, true, NoTest, FULLSET, p + 2, q)
    ensures Correct(m, TChoice(p1, TTrue), true, fl, Run(p, i, stk), q, i, stk)
  {
    hide World.Reach;
    hide Labelled;
    hide Plain;
    var a, stk' := Run(p, i, stk), Retop(stk, i);
    var b := Run(p + 2, i, stk');
    PartialCommitRuns(m, p, p + 2, i, stk);
    assert Correct(m, p1, true, FULLSET, b, q, i, stk');
    var r1 := m.Mean(p1, i);
    assert m.Mean(TTrue, i) == Upto(i);
    if r1.Fail? {
      m.Trans(a, b, Backtrack(Retop(stk, i)));
    } else if r1.Out? {
    } else if m.Reach(b, Run(q, r1.pos, stk')) {
      m.Trans(a, b, Run(q, r1.pos, Retop(stk, i)));
    } else if m.Reach(b, Backtrack(Retop(stk', r1.pos))) {
      assert Retop(stk', r1.pos) == Retop(stk, r1.pos);
      m.Trans(a, b, Backtrack(Retop(stk, r1.pos)));
    } else {
      var x: nat :| m.Reach(b, Run(q, r1.pos, Retop(stk', x)));
      assert Retop(stk', x) == Retop(stk, x);
      m.Trans(a, b, Run(q, r1.pos, Retop(stk, x)));
    }
  }

  /** test (fail(p1)) -> L1; <p1>; [jmp L2]; L1: <p2>; L2:  -- no choice is stacked: when
      p1 fails after its test held, p2 could only lead to a failure too. */
  lemma ChoiceTestedOk(m: World, p1: Tree, p2: Tree, opt: bool, tt: Test, fl: Charset, cs: Charset,
                       p: nat, q: nat, r: nat, l: nat, end: nat, i: nat, stk: seq<Entry>)
    requires i <= |m.s| && (opt ==> OnChoice(stk)) && Valid(m.gr, p2) && m.RulesValid()
    requires Tests(m, cs, p, q, l) && (NextIn(m.s, i, cs) ==> TestHolds(tt, m.s, i))
    requires !NextIn(m.s, i, cs) ==> !m.Mean(p1, i).Upto?
    requires NextIn(m.s, i, cs) ==> !m.Mean(p1, i).Fail? || cs !! GetFirst(m.gr, p2, fl).cs
    requires Implements(m, p1, false, tt, fl, q, r)
    requires r == end || Labelled(m, r, IJmp, end)
    requires Implements(m, p2, opt, NoTest, fl, l, end)
    ensures Correct(m, TChoice(p1, p2), opt, fl, Run(p, i, stk), end, i, stk)
  {
    hide World.Reach;
    hide Labelled;
    hide Plain;
    var a, b, r1 := Run(p, i, stk), Run(q, i, stk), m.Mean(p1, i);
    if r1.Out? { return; }
    if !NextIn(m.s, i, cs) {
      Enter(m, p2, opt, fl, a, Run(l, i, stk), end, i, stk);
    } else {
      assert Correct(m, p1, false, fl, b, r, i, stk);
      if r1.Upto? && m.Reach(b, Run(r, r1.pos, stk)) {
        m.Trans(a, b, Run(r, r1.pos, stk));
        if r != end {
          JmpRuns(m, r, end, r1.pos, stk);
          m.Trans(a, Run(r, r1.pos, stk), Run(end, r1.pos, stk));
        }
      } else {
        m.Trans(a, b, Backtrack(stk));
        if r1.Fail? { FirstSound(m.gr, p2, fl, m.s, i, m.fuel, DEPTH); }
      }
    }
  }

  /** L1: <p>; partialcommit L1 -- ends by taking the choice on top of the stack, which
      remembers the position after the last complete iteration. */
  lemma {:induction false} RepLoopOk(m: World, b: Tree, l1: nat, q: nat, i: nat, stk: seq<Entry>)
    requires i <= |m.s| && |stk| > 0 && !Nullable(m.gr, b) && !m.Mean(TRep(b), i).Out?
    requires Implements(m, b, false, NoTest, FULLSET, l1, q) && Labelled(m, q, IPartialCommit, l1)
    ensures m.Mean(TRep(b), i).Upto?
    ensures m.Reach(Run(l1, i, Retop(stk, i)), Backtrack(Retop(stk, m.Mean(TRep(b), i).pos)))
    decreases |m.s| - i
  {
    hide World.Reach;
    hide Labelled;
    hide Plain;
    var a, r := Run(l1, i, Retop(stk, i)), m.Mean(b, i);
    assert Correct(m, b, false, FULLSET, a, q, i, Retop(stk, i));
    if r.Upto? {
      NullableSound(m.gr, b, m.s, i, m.fuel, DEPTH);
      var mid, again := Run(q, r.pos, Retop(stk, i)), Run(l1, r.pos, Retop(stk, r.pos));
      PartialCommitRuns(m, q, l1, r.pos, Retop(stk, i));
      assert Retop(Retop(stk, i), r.pos) == Retop(stk, r.pos);
      m.Trans(a, mid, again);
      RepLoopOk(m, b, l1, q, r.pos, stk);
      m.Trans(a, again, Backtrack(Retop(stk, m.Mean(TRep(b), r.pos).pos)));
    }
  }

  /** choice L2; L1: <p>; partialcommit L1; L2:   (or, reusing a choice,
      partialcommit L1; L1: <p>; partialcommit L1; L2:) */
  lemma RepOk(m: World, b: Tree, opt: bool, fl: Charset, p: nat, q: nat, i: nat, stk: seq<Entry>)
    requires i <= |m.s| && !Nullable(m.gr, b) && (opt ==> OnChoice(stk))
    requires if opt then Labelled(m, p, IPartialCommit, p + 2) else Labelled(m, p, IChoice, q + 2)
    requires Implements(m, b, false, NoTest, FULLSET, p + 2, q) && Labelled(m, q, IPartialCommit, p + 2)
    ensures Correct(m, TRep(b), opt, fl, Run(p, i, stk), q + 2, i, stk)
  {
    hide World.Reach;
    hide Labelled;
    hide Plain;
    var a := Run(p, i, stk);
    var under := if opt then stk else stk + [Entry(q + 2, i)];
    var l1 := Run(p + 2, i, Retop(under, i));
    if opt {
      PartialCommitRuns(m, p, p + 2, i, stk);
    } else {
      ChoiceRuns(m, p, q + 2, i, stk);
      assert Retop(under, i) == under;
    }
    if m.Mean(TRep(b), i).Out? { return; }
    RepLoopOk(m, b, p + 2, q, i, under);
    var j := m.Mean(TRep(b), i).pos;
    m.Trans(a, l1, Backtrack(Retop(under, j)));
    if !opt {
      assert Retop(under, j) == stk + [Entry(q + 2, j)];
      BacktrackTop(stk, Entry(q + 2, j));
    }
  }

  /** A test on `cs` decides `b`: it protects b's code, `b` fails without it, and when
      `b` fails in spite of it the character is outside `follow`. */
  ghost predicate Decides(m: World, b: Tree, cs: Charset, tt: Test, follow: Charset) {
    forall i: nat {:trigger NextIn(m.s, i, cs)} | i <= |m.s| ::
      if NextIn(m.s, i, cs) then TestHolds(tt, m.s, i) && (!m.Mean(b, i).Fail? || cs !! follow)
      else !m.Mean(b, i).Upto?
  }

  /** L1: test (fail(p)) -> L2; <p>; jmp L1; L2: */
  lemma {:induction false} RepTestedOk(m: World, b: Tree, opt: bool, tt: Test, fl: Charset, cs: Charset,
                                      p: nat, q: nat, r: nat, i: nat, stk: seq<Entry>)
    requires i <= |m.s| && !Nullable(m.gr, b)
    requires Decides(m, b, cs, tt, fl)
    requires Tests(m, cs, p, q, r + 2)
    requires Implements(m, b, false, tt, FULLSET, q, r) && Labelled(m, r, IJmp, p)
    ensures Correct(m, TRep(b), opt, fl, Run(p, i, stk), r + 2, i, stk)
    decreases |m.s| - i
  {
    hide World.Reach;
    hide Labelled;
    hide Plain;
    var a, l, k := Run(p, i, stk), Run(q, i, stk), m.Mean(b, i);
    if NextIn(m.s, i, cs) {
      assert Correct(m, b, false, FULLSET, l, r, i, stk);
      if k.Upto? {
        NullableSound(m.gr, b, m.s, i, m.fuel, DEPTH);
        JmpRuns(m, r, p, k.pos, stk);
        m.Trans(a, l, Run(r, k.pos, stk));
        m.Trans(a, Run(r, k.pos, stk), Run(p, k.pos, stk));
        RepTestedOk(m, b, opt, tt, fl, cs, p, q, r, k.pos, stk);
        Enter(m, TRep(b), opt, fl, a, Run(p, k.pos, stk), r + 2, k.pos, stk);
      } else if k.Fail? {
        m.Trans(a, l, Backtrack(stk));
      }
    }
  }

  /** What the leading test of a pattern's code knows: unless there is no test, the
      pattern fails when the next character is not in the set. */
  ghost predicate Guards(m: World, b: Tree, g: Guard, p: nat, q: nat, l: nat) {
    && (if g.e then p == q else Tests(m, g.cs, p, q, l))
    && (!g.e ==> forall i: nat | i <= |m.s| && !NextIn(m.s, i, g.cs) :: !m.Mean(b, i).Upto?)
  }

  lemma Guarded(m: World, b: Tree, g: Guard, p: nat, q: nat, l: nat, i: nat, stk: seq<Entry>) returns (jumps: bool)
    requires i <= |m.s| && Guards(m, b, g, p, q, l)
    ensures jumps == (!g.e && !NextIn(m.s, i, g.cs))
    ensures m.Reach(Run(p, i, stk), Run(if jumps then l else q, i, stk))
    ensures jumps ==> !m.Mean(b, i).Upto?
  {
    hide World.Reach;
    hide Labelled;
    hide Plain;
    jumps := !g.e && !NextIn(m.s, i, g.cs);
    if g.e {
      m.Refl(Run(p, i, stk));
    } else {
      assert m.Reach(Run(p, i, stk), Run(if NextIn(m.s, i, g.cs) then q else l, i, stk));
    }
  }

  /** test (fail(p)) -> L1; choice L1; <p>; failtwice; L1: */
  lemma NotGuardedOk(m: World, b: Tree, opt: bool, fl: Charset, g: Guard,
                     p: nat, n: nat, q: nat, i: nat, stk: seq<Entry>)
    requires i <= |m.s| && Guards(m, b, g, p, n, q + 1)
    requires Labelled(m, n, IChoice, q + 1) && Plain(m, q, IFailTwice, 0)
    requires Implements(m, b, false, NoTest, FULLSET, n + 2, q)
    ensures Correct(m, TNot(b), opt, fl, Run(p, i, stk), q + 1, i, stk)
  {
    hide World.Reach;
    hide Labelled;
    hide Plain;
    var jumps := Guarded(m, b, g, p, n, q + 1, i, stk);
    if !jumps {
      NotOk(m, b, opt, fl, n, q, i, stk);
      Enter(m, TNot(b), opt, fl, Run(p, i, stk), Run(n, i, stk), q + 1, i, stk);
    }
  }

  /** test(first(p1)) -> L1; choice L1; <p1>; commit L2; L1: <p2>; L2: */
  lemma ChoiceGuardedOk(m: World, p1: Tree, p2: Tree, opt: bool, tt: Test, fl: Charset, g: Guard,
                        p: nat, n: nat, q: nat, r: nat, i: nat, stk: seq<Entry>)
    requires i <= |m.s| && (opt ==> OnChoice(stk)) && (p2.TTrue? ==> r == q + 2)
    requires Guards(m, p1, g, p, n, q + 2) && (g.e || NextIn(m.s, i, g.cs) ==> TestHolds(tt, m.s, i))
    requires Labelled(m, n, IChoice, q + 2) && Labelled(m, q, ICommit, r)
    requires Implements(m, p1, p2.TTrue?, tt, FULLSET, n + 2, q)
    requires Implements(m, p2, opt, NoTest, fl, q + 2, r)
    ensures Correct(m, TChoice(p1, p2), opt, fl, Run(p, i, stk), r, i, stk)
  {
    hide World.Reach;
    hide Labelled;
    hide Plain;
    var a := Run(p, i, stk);
    var jumps := Guarded(m, p1, g, p, n, q + 2, i, stk);
    if jumps {
      assert Correct(m, p2, opt, fl, Run(q + 2, i, stk), r, i, stk);
      Enter(m, p2, opt, fl, a, Run(q + 2, i, stk), r, i, stk);
    } else {
      ChoiceOk(m, p1, p2, opt, tt, fl, n, q, r, i, stk);
      Enter(m, TChoice(p1, p2), opt, fl, a, Run(n, i, stk), r, i, stk);
    }
  }

  /** test(fail(p)) -> L2; choice L2; L1: <p>; partialcommit L1; L2: */
  lemma RepGuardedOk(m: World, b: Tree, opt: bool, fl: Charset, g: Guard,
                     p: nat, n: nat, q: nat, i: nat, stk: seq<Entry>)
    requires i <= |m.s| && !Nullable(m.gr, b) && (opt ==> OnChoice(stk))
    requires Guards(m, b, g, p, n, q + 2)
    requires if opt then Labelled(m, n, IPartialCommit, n + 2) else Labelled(m, n, IChoice, q + 2)
    requires Implements(m, b, false, NoTest, FULLSET, n + 2, q) && Labelled(m, q, IPartialCommit, n + 2)
    ensures Correct(m, TRep(b), opt, fl, Run(p, i, stk), q + 2, i, stk)
  {
    hide World.Reach;
    hide Labelled;
    hide Plain;
    var jumps := Guarded(m, b, g, p, n, q + 2, i, stk);
    if !jumps {
      RepOk(m, b, opt, fl, n, q, i, stk);
      Enter(m, TRep(b), opt, fl, Run(p, i, stk), Run(n, i, stk), q + 2, i, stk);
    }
  }

  // The same components, for every position and every stack.

  lemma SeqImplements(m: World, p1: Tree, p2: Tree, opt: bool, tt: Test, fl1: Charset, fl: Charset, p: nat, q: nat,
                      r: nat)
    requires Valid(m.gr, p2) && m.RulesValid() && (fl1 == FULLSET || fl1 == GetFirst(m.gr, p2, fl).cs)
    requires Implements(m, p1, false, tt, fl1, p, q)
    requires Implements(m, p2, opt, TestAfter(m.gr, p1, tt), fl, q, r)
    ensures Implements(m, TSeq(p1, p2), opt, tt, fl, p, r)
  {
    forall i: nat, stk: seq<Entry> {:trigger Run(p, i, stk)}
      | i <= |m.s| && TestHolds(tt, m.s, i) && (opt ==> OnChoice(stk))
      ensures Correct(m, TSeq(p1, p2), opt, fl, Run(p, i, stk), r, i, stk)
    {
      SeqOk(m, p1, p2, opt, tt, fl1, fl, p, q, r, i, stk);
    }
  }

  lemma BehindImplements(m: World, b: Tree, n: nat, opt: bool, tt: Test, fl: Charset, p: nat, q: nat, r: nat)
    requires HasLen(m, b, n) && n <= MAXBEHIND
    requires if n > 0 then Plain(m, p, IBehind, n) && q == p + 1 else q == p
    requires Implements(m, b, false, NoTest, FULLSET, q, r)
    ensures Implements(m, TBehind(n, b), opt, tt, fl, p, r)
  {
    forall i: nat, stk: seq<Entry> {:trigger Run(p, i, stk)}
      | i <= |m.s| && TestHolds(tt, m.s, i) && (opt ==> OnChoice(stk))
      ensures Correct(m, TBehind(n, b), opt, fl, Run(p, i, stk), r, i, stk)
    {
      BehindOk(m, b, n, opt, fl, p, q, r, i, stk);
    }
  }

  lemma AndFixedImplements(m: World, b: Tree, n: nat, opt: bool, tt: Test, fl: Charset, p: nat, q: nat, r: nat)
    requires HasLen(m, b, n) && n <= MAXBEHIND
    requires if n > 0 then Plain(m, q, IBehind, n) && r == q + 1 else r == q
    requires Implements(m, b, false, tt, FULLSET, p, q)
    ensures Implements(m, TAnd(b), opt, tt, fl, p, r)
  {
    forall i: nat, stk: seq<Entry> {:trigger Run(p, i, stk)}
      | i <= |m.s| && TestHolds(tt, m.s, i) && (opt ==> OnChoice(stk))
      ensures Correct(m, TAnd(b), opt, fl, Run(p, i, stk), r, i, stk)
    {
      AndFixedOk(m, b, n, opt, tt, fl, p, q, r, i, stk);
    }
  }

  lemma AndImplements(m: World, b: Tree, opt: bool, tt: Test, fl: Charset, p: nat, q: nat)
    requires Labelled(m, p, IChoice, q + 2) && Labelled(m, q, IBackCommit, q + 3) && Plain(m, q + 2, IFail, 0)
    requires Implements(m, b, false, tt, FULLSET, p + 2, q)
    ensures Implements(m, TAnd(b), opt, tt, fl, p, q + 3)
  {
    forall i: nat, stk: seq<Entry> {:trigger Run(p, i, stk)}
      | i <= |m.s| && TestHolds(tt, m.s, i) && (opt ==> OnChoice(stk))
      ensures Correct(m, TAnd(b), opt, fl, Run(p, i, stk), q + 3, i, stk)
    {
      AndOk(m, b, opt, tt, fl, p, q, i, stk);
    }
  }

  lemma NotHeadfailImplements(m: World, b: Tree, opt: bool, tt: Test, fl: Charset, cs: Charset, p: nat, q: nat)
    requires forall i: nat | i <= |m.s| :: m.Mean(b, i).Out? || (m.Mean(b, i).Upto? <==> NextIn(m.s, i, cs))
    requires Tests(m, cs, p, q, q + 1) && Plain(m, q, IFail, 0)
    ensures Implements(m, TNot(b), opt, tt, fl, p, q + 1)
  {
    forall i: nat, stk: seq<Entry> {:trigger Run(p, i, stk)}
      | i <= |m.s| && TestHolds(tt, m.s, i) && (opt ==> OnChoice(stk))
      ensures Correct(m, TNot(b), opt, fl, Run(p, i, stk), q + 1, i, stk)
    {
      NotHeadfailOk(m, b, opt, fl, cs, p, q, i, stk);
    }
  }

  lemma NotImplements(m: World, b: Tree, opt: bool, tt: Test, fl: Charset, g: Guard, p: nat, n: nat, q: nat)
    requires Guards(m, b, g, p, n, q + 1)
    requires Labelled(m, n, IChoice, q + 1) && Plain(m, q, IFailTwice, 0)
    requires Implements(m, b, false, NoTest, FULLSET, n + 2, q)
    ensures Implements(m, TNot(b), opt, tt, fl, p, q + 1)
  {
    forall i: nat, stk: seq<Entry> {:trigger Run(p, i, stk)}
      | i <= |m.s| && TestHolds(tt, m.s, i) && (opt ==> OnChoice(stk))
      ensures Correct(m, TNot(b), opt, fl, Run(p, i, stk), q + 1, i, stk)
    {
      NotGuardedOk(m, b, opt, fl, g, p, n, q, i, stk);
    }
  }

  lemma ChoiceImplements(m: World, p1: Tree, p2: Tree, opt: bool, tt1: Test, tt: Test, fl: Charset, g: Guard, p: nat,
                         n: nat, q: nat, r: nat)
    requires p2.TTrue? ==> r == q + 2
    requires Guards(m, p1, g, p, n, q + 2)
    requires forall i: nat | g.e || NextIn(m.s, i, g.cs) :: TestHolds(tt1, m.s, i)
    requires Labelled(m, n, IChoice, q + 2) && Labelled(m, q, ICommit, r)
    requires Implements(m, p1, p2.TTrue?, tt1, FULLSET, n + 2, q)
    requires Implements(m, p2, opt, NoTest, fl, q + 2, r)
    ensures Implements(m, TChoice(p1, p2), opt, tt, fl, p, r)
  {
    forall i: nat, stk: seq<Entry> {:trigger Run(p, i, stk)}
      | i <= |m.s| && TestHolds(tt, m.s, i) && (opt ==> OnChoice(stk))
      ensures Correct(m, TChoice(p1, p2), opt, fl, Run(p, i, stk), r, i, stk)
    {
      ChoiceGuardedOk(m, p1, p2, opt, tt1, fl, g, p, n, q, r, i, stk);
    }
  }

  lemma ChoiceReusedImplements(m: World, p1: Tree, tt: Test, fl: Charset, p: nat, q: nat)
    requires Labelled(m, p, IPartialCommit, p + 2)
    requires Implements(m, p1, true, NoTest, FULLSET, p + 2, q)
    ensures Implements(m, TChoice(p1, TTrue), true, tt, fl, p, q)
  {
    forall i: nat, stk: seq<Entry> {:trigger Run(p, i, stk)}
      | i <= |m.s| && TestHolds(tt, m.s, i) && (true ==> OnChoice(stk))
      ensures Correct(m, TChoice(p1, TTrue), true, fl, Run(p, i, stk), q, i, stk)
    {
      ChoiceReusedOk(m, p1, fl, p, q, i, stk);
    }
  }

  lemma ChoiceTestedImplements(m: World, p1: Tree, p2: Tree, opt: bool, tt1: Test, tt: Test, fl: Charset,
                               cs: Charset, p: nat, q: nat, r: nat, l: nat, end: nat)
    requires Valid(m.gr, p2) && m.RulesValid() && Tests(m, cs, p, q, l)
    requires Decides(m, p1, cs, tt1, GetFirst(m.gr, p2, fl).cs)
    requires Implements(m, p1, false, tt1, fl, q, r)
    requires r == end || Labelled(m, r, IJmp, end)
    requires Implements(m, p2, opt, NoTest, fl, l, end)
    ensures Implements(m, TChoice(p1, p2), opt, tt, fl, p, end)
  {
    forall i: nat, stk: seq<Entry> {:trigger Run(p, i, stk)}
      | i <= |m.s| && TestHolds(tt, m.s, i) && (opt ==> OnChoice(stk))
      ensures Correct(m, TChoice(p1, p2), opt, fl, Run(p, i, stk), end, i, stk)
    {
      ChoiceTestedOk(m, p1, p2, opt, tt1, fl, cs, p, q, r, l, end, i, stk);
    }
  }

  lemma RepImplements(m: World, b: Tree, opt: bool, tt: Test, fl: Charset, g: Guard, p: nat, n: nat, q: nat)
    requires !Nullable(m.gr, b) && Guards(m, b, g, p, n, q + 2)
    requires if opt then Labelled(m, n, IPartialCommit, n + 2) else Labelled(m, n, IChoice, q + 2)
    requires Implements(m, b, false, NoTest, FULLSET, n + 2, q) && Labelled(m, q, IPartialCommit, n + 2)
    ensures Implements(m, TRep(b), opt, tt, fl, p, q + 2)
  {
    forall i: nat, stk: seq<Entry> {:trigger Run(p, i, stk)}
      | i <= |m.s| && TestHolds(tt, m.s, i) && (opt ==> OnChoice(stk))
      ensures Correct(m, TRep(b), opt, fl, Run(p, i, stk), q + 2, i, stk)
    {
      RepGuardedOk(m, b, opt, fl, g, p, n, q, i, stk);
    }
  }

  lemma RepTestedImplements(m: World, b: Tree, opt: bool, tt1: Test, tt: Test, fl: Charset, cs: Charset, p: nat,
                            q: nat, r: nat)
    requires !Nullable(m.gr, b) && Decides(m, b, cs, tt1, fl)
    requires Tests(m, cs, p, q, r + 2)
    requires Implements(m, b, false, tt1, FULLSET, q, r) && Labelled(m, r, IJmp, p)
    ensures Implements(m, TRep(b), opt, tt, fl, p, r + 2)
  {
    forall i: nat, stk: seq<Entry> {:trigger Run(p, i, stk)}
      | i <= |m.s| && TestHolds(tt, m.s, i) && (opt ==> OnChoice(stk))
      ensures Correct(m, TRep(b), opt, fl, Run(p, i, stk), r + 2, i, stk)
    {
      RepTestedOk(m, b, opt, tt1, fl, cs, p, q, r, i, stk);
    }
  }
}
