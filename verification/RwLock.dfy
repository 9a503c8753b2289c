/** rwlock.h: the spinning reader-writer lock as a state machine over its atomic operations. */
module RwLock {

  type Thread = nat

  /** Where a thread is. A reader has counted itself from Counted on; a writer owns the
      write flag from Draining on. */
  datatype Where = Outside | Spinning | Counted | Reading | Undo | WantsWrite | Draining | Writing

  datatype State = State(write: bool, read: int, at: map<Thread, Where>)

  datatype Call = CallRead | CallWrite | Go

  function At(s: State, t: Thread): Where { if t in s.at then s.at[t] else Outside }

  function Set(s: State, t: Thread, w: Where): State { s.(at := s.at[t := w]) }

  /** One atomic operation of thread `t`; outside, it may start either kind of call. */
  function Step(s: State, t: Thread, c: Call): State
  {
    match At(s, t)
    case Outside => if c.CallRead? then Set(s, t, Spinning) else if c.CallWrite? then Set(s, t, WantsWrite) else s
    case Spinning => if s.write then s else Set(s, t, Counted).(read := s.read + 1)
    case Counted => if s.write then Set(s, t, Undo) else Set(s, t, Reading)
    case Undo => Set(s, t, Spinning).(read := s.read - 1)
    case Reading => Set(s, t, Outside).(read := s.read - 1)
    case WantsWrite => if s.write then s else Set(s, t, Draining).(write := true)
    case Draining => if s.read != 0 then s else Set(s, t, Writing)
    case Writing => Set(s, t, Outside).(write := false)
  }

  const START := State(false, 0, map[])

  ghost predicate Follows(s: State, s': State) { exists t, c :: s' == Step(s, t, c) }

  ghost predicate IsRun(run: seq<State>) {
    |run| > 0 && run[0] == START && forall k {:trigger run[k]} :: 0 <= k < |run| - 1 ==> Follows(run[k], run[k + 1])
  }

  predicate Counts(w: Where) { w.Counted? || w.Reading? || w.Undo? }

  predicate Owns(w: Where) { w.Draining? || w.Writing? }

  ghost function Readers(s: State): set<Thread> { set t | t in s.at && Counts(s.at[t]) }

  /** `read` counts the readers, the write flag has one owner, and nobody reads while a
      writer writes. */
  ghost predicate Inv(s: State) {
    && s.read == |Readers(s)|
    && (forall t, u {:trigger At(s, t), At(s, u)} :: Owns(At(s, t)) && Owns(At(s, u)) ==> t == u)
    && (s.write <==> exists t {:trigger At(s, t)} :: Owns(At(s, t)))
    && (forall t, u {:trigger At(s, t), At(s, u)} :: At(s, t).Writing? ==> !At(s, u).Reading?)
  }

  /** When one thread moves, the number of readers changes by what it was and is. */
  lemma Moved(s: State, s': State, t: Thread)
    requires t in s'.at && s'.at == s.at[t := s'.at[t]]
    ensures |Readers(s')| - (if Counts(At(s', t)) then 1 else 0) == |Readers(s)| - (if Counts(At(s, t)) then 1 else 0)
    ensures forall u {:trigger At(s', u)} :: u != t ==> At(s', u) == At(s, u)
  {
    var a, b := Readers(s), Readers(s');
    forall u | u != t ensures u in a <==> u in b { assert At(s', u) == At(s, u); }
    assert b - {t} == a - {t};
    assert |a - {t}| == |a| - (if t in a then 1 else 0);
    assert |b - {t}| == |b| - (if t in b then 1 else 0);
    assert t in Readers(s) <==> Counts(At(s, t));
    assert t in Readers(s') <==> Counts(At(s', t));
  }

  lemma IsReader(s: State, t: Thread)
    requires Counts(At(s, t))
    ensures |Readers(s)| > 0
  {
    assert t in Readers(s);
  }

  lemma StepKeeps(s: State, t: Thread, c: Call)
    requires Inv(s)
    ensures Inv(Step(s, t, c))
  {
    hide Readers;
    var s' := Step(s, t, c);
    if s' != s {
      Moved(s, s', t);
      assert s'.read == |Readers(s')|;
      var x, y := At(s, t), At(s', t);
      forall u, v {:trigger At(s', u), At(s', v)}
        ensures Owns(At(s', u)) && Owns(At(s', v)) ==> u == v
        ensures At(s', u).Writing? ==> !At(s', v).Reading?
        ensures Owns(At(s', u)) ==> s'.write
      {
        Pair(s, s', t, u, v);
      }
      if s'.write && !Owns(At(s', t)) {
        var u :| Owns(At(s, u));
        assert u != t ==> At(s', u) == At(s, u);
      }
    }
  }

  lemma Pair(s: State, s': State, t: Thread, u: Thread, v: Thread)
    requires Inv(s) && exists c :: s' == Step(s, t, c)
    requires forall w {:trigger At(s', w)} :: w != t ==> At(s', w) == At(s, w)
    ensures Owns(At(s', u)) && Owns(At(s', v)) ==> u == v
    ensures At(s', u).Writing? ==> !At(s', v).Reading?
    ensures Owns(At(s', u)) ==> s'.write
  {
    hide Readers;
    if At(s, t).Draining? && s.read == 0 && At(s, v).Reading? { IsReader(s, v); }
    assert Owns(At(s, u)) ==> s.write;
    assert Owns(At(s, v)) ==> s.write;
    assert Owns(At(s, u)) && Owns(At(s, t)) ==> u == t;
    assert Owns(At(s, v)) && Owns(At(s, t)) ==> v == t;
  }

  lemma {:induction false} RunKeeps(run: seq<State>, n: nat)
    requires IsRun(run) && n < |run|
    ensures Inv(run[n])
  {
    if n > 0 {
      RunKeeps(run, n - 1);
      assert Follows(run[n - 1], run[n - 1 + 1]);
      var t, c :| run[n] == Step(run[n - 1], t, c);
      StepKeeps(run[n - 1], t, c);
    } else {
      assert Readers(START) == {};
    }
  }

  /** In every interleaving a writer is alone. */
  lemma MutualExclusion(run: seq<State>, n: nat, t: Thread, u: Thread)
    requires IsRun(run) && n < |run| && At(run[n], t).Writing? && t != u
    ensures !At(run[n], u).Writing? && !At(run[n], u).Reading?
  {
    RunKeeps(run, n);
    var _ := At(run[n], u);
  }

  lemma Extended(run: seq<State>, t: Thread, c: Call)
    requires IsRun(run)
    ensures |run| > 0 && IsRun(run + [Step(run[|run| - 1], t, c)])
  {
    hide Step;
    var longer := run + [Step(run[|run| - 1], t, c)];
    forall k {:trigger longer[k]} | 0 <= k < |longer| - 1 ensures Follows(longer[k], longer[k + 1]) {
      if k < |run| - 1 {
        assert Follows(run[k], run[k + 1]);
      } else {
        assert longer[k] == run[k];
      }
    }
  }

  /** Nobody holds the lock or is on the way in. */
  predicate Free(s: State) { !s.write && s.read == 0 && forall t :: t in s.at ==> Waits(s.at[t]) }

  predicate Waits(w: Where) { w.Outside? || w.Spinning? || w.WantsWrite? }

  ghost function JustCounted(s: State): set<Thread> { set t | t in s.at && s.at[t].Counted? }

  /** Whatever the other threads do, a thread that has counted itself takes itself back. */
  lemma ReaderLeaves(s: State, t: Thread)
    requires Counts(At(s, t))
    ensures var s' := Step(s, t, CallRead);
            && (At(s, t).Counted? ==> Readers(s') == Readers(s) && JustCounted(s') < JustCounted(s))
            && (!At(s, t).Counted? ==> Readers(s') < Readers(s))
  {
    var s' := Step(s, t, CallRead);
    assert forall u :: u != t ==> At(s', u) == At(s, u);
    assert s'.at.Keys == s.at.Keys;
    assert t in Readers(s);
    if At(s, t).Counted? {
      assert t in JustCounted(s) && t !in JustCounted(s');
      assert forall u :: u in Readers(s') <==> u in Readers(s);
    } else {
      assert t !in Readers(s');
    }
  }

  /** The owner of the flag gets in when the readers are gone, and gives it back. */
  lemma OwnerLeaves(s: State, t: Thread)
    requires Inv(s) && Readers(s) == {} && Owns(At(s, t))
    ensures At(s, t).Draining? ==> At(Step(s, t, CallRead), t).Writing? && Readers(Step(s, t, CallRead)) == {}
    ensures At(s, t).Writing? ==> Free(Step(s, t, CallRead))
  {
    var s' := Step(s, t, CallRead);
    assert forall u :: u != t ==> At(s', u) == At(s, u);
    forall u | u in s'.at ensures !Counts(s'.at[u]) && (At(s, t).Writing? ==> Waits(s'.at[u])) {
      assert At(s', u) == s'.at[u];
      if u != t {
        assert At(s, u) == s.at[u] && u !in Readers(s);
        assert !Owns(At(s, u));
      }
    }
  }

  /** From every state of every run the lock can become free again. */
  lemma {:induction false} CanBeFree(run: seq<State>) returns (longer: seq<State>)
    requires IsRun(run)
    ensures IsRun(longer) && run <= longer && Free(longer[|longer| - 1])
    decreases Readers(run[|run| - 1]), JustCounted(run[|run| - 1])
  {
    hide *;
    longer := run;
    NotEmpty(run);
    var s := run[|run| - 1];
    RunKeeps(run, |run| - 1);
    var t := Mover(s);
    Extended(run, t, CallRead);
    if Counts(At(s, t)) {
      CountsIs(At(s, t));
      ReaderLeaves(s, t);
      longer := CanBeFree(run + [Step(s, t, CallRead)]);
    } else if Owns(At(s, t)) {
      OwnsIs(At(s, t));
      OwnerLeaves(s, t);
      longer := run + [Step(s, t, CallRead)];
      if At(s, t).Draining? {
        RunKeeps(longer, |run|);
        OwnsIs(At(longer[|run|], t));
        OwnerLeaves(longer[|run|], t);
        Extended(longer, t, CallRead);
        longer := longer + [Step(longer[|run|], t, CallRead)];
      }
    }
  }

  lemma NotEmpty(run: seq<State>)
    requires IsRun(run)
    ensures |run| > 0
  {
  }

  lemma OwnsIs(w: Where)
    ensures Owns(w) <==> w.Draining? || w.Writing?
  {
  }

  lemma CountsIs(w: Where)
    ensures Counts(w) <==> w.Counted? || w.Reading? || w.Undo?
  {
  }

  /** A reader, or the owner of the flag when there is none; without both the lock is free. */
  lemma Mover(s: State) returns (t: Thread)
    requires Inv(s)
    ensures Counts(At(s, t)) || (if Owns(At(s, t)) then Readers(s) == {} else Free(s))
  {
    t := 0;
    if u: Thread :| Counts(At(s, u)) {
      t := u;
    } else if u: Thread :| Owns(At(s, u)) {
      t := u;
      assert forall v :: v in s.at ==> !Counts(At(s, v));
    } else {
      assert forall v :: v in s.at ==> !Counts(At(s, v)) && !Owns(At(s, v));
      assert Readers(s) == {};
    }
  }

  /** Where the call leads to. */
  function Inside(c: Call): Where { if c.CallRead? then Reading else Writing }

  /** When the lock is free, a thread that is alone on its way gets in, and frees it again. */
  lemma EntersFree(s: State, t: Thread, c: Call)
    requires Free(s) && (At(s, t).Spinning? || At(s, t).WantsWrite?)
    ensures var s2 := Step(Step(s, t, c), t, c);
            && At(s2, t) == (if At(s, t).Spinning? then Reading else Writing)
            && Free(Step(s2, t, c)) && At(Step(s2, t, c), t).Outside?
  {
  }

  lemma Calls(s: State, t: Thread, c: Call)
    requires Free(s) && At(s, t).Outside? && !c.Go?
    ensures Inside(c) == if c.CallRead? then Reading else Writing
    ensures Free(Step(s, t, c)) && At(Step(s, t, c), t) == if c.CallRead? then Spinning else WantsWrite
  {
  }

  /** From every state of every run each thread can get in, as a reader and as a writer. */
  lemma GetsIn(run: seq<State>, t: Thread, c: Call) returns (longer: seq<State>)
    requires IsRun(run) && !c.Go?
    ensures IsRun(longer) && run <= longer && At(longer[|longer| - 1], t) == Inside(c)
  {
    hide *;
    var free := CanBeFree(run);
    NotEmpty(free);
    var idle := GetsOut(free, t, c);
    NotEmpty(idle);
    longer := Enters(idle, t, c);
  }

  /** When the lock is free, a thread that is on its way goes in and comes out. */
  lemma GetsOut(run: seq<State>, t: Thread, c: Call) returns (longer: seq<State>)
    requires IsRun(run) && |run| > 0 && Free(run[|run| - 1])
    ensures IsRun(longer) && run <= longer && Free(longer[|longer| - 1]) && At(longer[|longer| - 1], t).Outside?
  {
    hide *;
    var s := run[|run| - 1];
    FreeWaits(s, t);
    longer := run;
    if !At(s, t).Outside? {
      EntersFree(s, t, c);
      SteppedIs(s, t, c);
      longer := Steps(run, t, c, 3);
    }
  }

  lemma Enters(run: seq<State>, t: Thread, c: Call) returns (longer: seq<State>)
    requires IsRun(run) && |run| > 0 && Free(run[|run| - 1]) && At(run[|run| - 1], t).Outside? && !c.Go?
    ensures IsRun(longer) && run <= longer && At(longer[|longer| - 1], t) == Inside(c)
  {
    hide *;
    var s := run[|run| - 1];
    SteppedIs(s, t, c);
    Calls(s, t, c);
    var called := Steps(run, t, c, 1);
    s := called[|called| - 1];
    EntersFree(s, t, c);
    SteppedIs(s, t, c);
    longer := Steps(called, t, c, 2);
  }

  lemma FreeWaits(s: State, t: Thread)
    requires Free(s)
    ensures At(s, t).Outside? || At(s, t).Spinning? || At(s, t).WantsWrite?
  {
  }

  function Stepped(s: State, t: Thread, c: Call, n: nat): State {
    if n == 0 then s else Step(Stepped(s, t, c, n - 1), t, c)
  }

  lemma SteppedIs(s: State, t: Thread, c: Call)
    ensures Stepped(s, t, c, 1) == Step(s, t, c)
    ensures Stepped(s, t, c, 2) == Step(Step(s, t, c), t, c)
    ensures Stepped(s, t, c, 3) == Step(Step(Step(s, t, c), t, c), t, c)
  {
    hide Step;
    assert Stepped(s, t, c, 0) == s;
    assert Stepped(s, t, c, 1) == Step(s, t, c);
    assert Stepped(s, t, c, 2) == Step(Stepped(s, t, c, 1), t, c);
  }

  lemma {:induction false} Steps(run: seq<State>, t: Thread, c: Call, n: nat) returns (longer: seq<State>)
    requires IsRun(run)
    ensures IsRun(longer) && run <= longer && longer[|longer| - 1] == Stepped(run[|run| - 1], t, c, n)
  {
    hide Step;
    longer := run;
    if n > 0 {
      var l := Steps(run, t, c, n - 1);
      Extended(l, t, c);
      longer := l + [Step(l[|l| - 1], t, c)];
    }
  }
}
