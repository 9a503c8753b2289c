/** What every run of the socket's threads guarantees, and exactly when a close breaks it. */
module SocketRuns {
  import opened Socket
  import opened SocketProof
  import opened Wrappers

  // Interleaving

  /** Which byte may come behind another one: the next one of its package, or behind the last
      one the first one of some package. */
  predicate Adjacent(o: Octet, p: Octet) {
    if o.at + 1 < |o.pkg.bytes| then p == Octet(o.pkg, o.at + 1) else p.at == 0
  }

  /** Nothing interleaves: whole packages one after the other, and then a part of one. */
  ghost predicate Orderly(w: seq<Octet>) {
    && (w != [] ==> w[0].at == 0)
    && (forall i {:trigger w[i]} :: 0 <= i < |w| ==> w[i].at < |w[i].pkg.bytes|)
    && (forall i {:trigger w[i]} :: 0 <= i < |w| - 1 ==> Adjacent(w[i], w[i + 1]))
  }

  ghost predicate Complete(w: seq<Octet>) {
    Orderly(w) && (w != [] ==> w[|w| - 1].at + 1 == |w[|w| - 1].pkg.bytes|)
  }

  lemma SliceOrderly(p: Package, n: nat)
    requires n <= |p.bytes|
    ensures Orderly(Slice(p, 0, n)) && (n == |p.bytes| ==> Complete(Slice(p, 0, n)))
  {
  }

  lemma OrderlyCat(v: seq<Octet>, w: seq<Octet>)
    requires Complete(v) && Orderly(w)
    ensures Orderly(v + w) && (Complete(w) ==> Complete(v + w))
  {
    var u := v + w;
    forall i {:trigger u[i]} | 0 <= i < |u| - 1 ensures Adjacent(u[i], u[i + 1]) {
      if i < |v| - 1 {
        assert u[i] == v[i] && u[i + 1] == v[i + 1];
      } else if i >= |v| {
        assert u[i] == w[i - |v|] && u[i + 1] == w[i - |v| + 1];
      }
    }
  }

  lemma {:induction false} ConcatComplete(ps: seq<Package>)
    ensures Complete(Concat(ps))
  {
    if ps != [] {
      var p := ps[|ps| - 1];
      ConcatComplete(ps[..|ps| - 1]);
      SliceOrderly(p, |p.bytes|);
      OrderlyCat(Concat(ps[..|ps| - 1]), Slice(p, 0, |p.bytes|));
    }
  }

  /** A part of a package with more to send, and then the start of something. */
  lemma NotOrderly(v: seq<Octet>, p: Package, n: nat, w: seq<Octet>)
    requires 0 < n < |p.bytes| && w != [] && w[0].at == 0
    ensures !Orderly(v + Slice(p, 0, n) + w)
  {
    var u, i := v + Slice(p, 0, n) + w, |v| + n - 1;
    assert u[i] == Octet(p, n - 1) && u[i + 1] == w[0];
    assert !Adjacent(u[i], u[i + 1]);
  }

  /** A close freed a package that was sent in part, and then a direct write put at least one
      byte on the wire. */
  ghost predicate Torn(s: State) { s.freed.Some? && Sent(s.freed.value.part) != [] && |s.wire| > |Base(s)| }

  /** The package that is sent in part, if there is one. */
  function Part(s: State): Option<Buffer> {
    if s.freed.Some? && Sent(s.freed.value.part) != [] then s.freed.value.part else Current(s)
  }

  lemma {:induction false} ConcatCat(ps: seq<Package>, qs: seq<Package>)
    ensures Concat(ps + qs) == Concat(ps) + Concat(qs)
  {
    if qs == [] {
      assert ps + qs == ps;
    } else {
      assert (ps + qs)[..|ps + qs| - 1] == ps + qs[..|qs| - 1];
      ConcatCat(ps, qs[..|qs| - 1]);
    }
  }

  lemma WireIs(s: State)
    requires Inv(s)
    ensures Orderly(s.wire) <==> !Torn(s)
    ensures !Torn(s) ==> s.wire == Concat(s.done) + Sent(Part(s))
  {
    if Torn(s) {
      TornWire(s);
    } else {
      StillWhole(s);
      hide *;
      ConcatComplete(s.done);
      SentOrderly(Part(s));
      OrderlyCat(Concat(s.done), Sent(Part(s)));
    }
  }

  lemma TornWire(s: State)
    requires Inv(s) && Torn(s)
    ensures !Orderly(s.wire)
  {
    var f, late := s.freed.value, Concat(Late(s)) + Sent(Current(s));
    assert s.wire == Base(s) + late && late != [] && 0 < f.part.value.off < |f.part.value.pkg.bytes|;
    assert Base(s) == Concat(f.done) + Slice(f.part.value.pkg, 0, f.part.value.off);
    hide *;
    ConcatComplete(Late(s));
    SentOrderly(Current(s));
    OrderlyCat(Concat(Late(s)), Sent(Current(s)));
    OrderlyStarts(late);
    NotOrderly(Concat(f.done), f.part.value.pkg, f.part.value.off, late);
  }

  lemma OrderlyStarts(w: seq<Octet>)
    requires Orderly(w) && w != []
    ensures w[0].at == 0
  {
  }

  lemma SentOrderly(o: Option<Buffer>)
    ensures Orderly(Sent(o))
  {
    if o.Some? && Fits(o.value) { SliceOrderly(o.value.pkg, o.value.off); }
  }

  lemma DoneIs(s: State)
    requires Sound(s) && s.freed.Some?
    ensures s.freed.value.done + Late(s) == s.done
    ensures Concat(s.freed.value.done) + Concat(Late(s)) == Concat(s.done)
  {
    ConcatCat(s.freed.value.done, Late(s));
  }

  lemma StillWhole(s: State)
    requires Inv(s) && !Torn(s)
    ensures s.wire == Concat(s.done) + Sent(Part(s))
  {
    hide OrderInv;
    hide Concat;
    if s.freed.Some? {
      DoneIs(s);
      var f := s.freed.value;
      if Sent(f.part) != [] {
        assert Concat(Late(s)) + Sent(Current(s)) == [];
      }
    }
  }

  // The package that is sent in part

  predicate Distinct(ps: seq<Package>) { forall i, j :: 0 <= i < j < |ps| ==> ps[i] != ps[j] }

  lemma {:induction false} OfFrom(ps: seq<Package>, t: Thread, high: bool)
    ensures forall p :: p in Of(ps, t, high) ==> p in ps
  {
    if ps != [] { OfFrom(ps[..|ps| - 1], t, high); }
  }

  lemma {:induction false} OfDistinct(ps: seq<Package>, t: Thread, high: bool)
    requires Distinct(ps)
    ensures Distinct(Of(ps, t, high))
  {
    if ps != [] {
      var front, p := ps[..|ps| - 1], ps[|ps| - 1];
      OfDistinct(front, t, high);
      OfFrom(front, t, high);
      forall q | q in front ensures q != p { var k :| 0 <= k < |front| && front[k] == q; }
      var m := Of(front, t, high);
      forall i | 0 <= i < |m| ensures m[i] != p { assert m[i] in m; }
    }
  }

  lemma {:induction false} OfKeeps(ps: seq<Package>, p: Package)
    requires p in ps
    ensures p in Of(ps, p.sender, p.high)
  {
    if p != ps[|ps| - 1] { OfKeeps(ps[..|ps| - 1], p); }
  }

  /** A package of the line was called, and is there once. */
  lemma Once(called: seq<Package>, a: seq<Package>, p: Package, b: seq<Package>, own: seq<Package>)
    requires Numbered(called) && InOrder(called, a + [p] + b, own, p.sender, p.high)
    ensures p in called && p !in a && p !in b
  {
    hide Of;
    var t, h := p.sender, p.high;
    OfDistinct(called, t, h);
    OfFrom(called, t, h);
    assert a + [p] + b + own == a + ([p] + (b + own));
    OfCat(a, [p] + (b + own), t, h);
    OfCat([p], b + own, t, h);
    OfCat(b, own, t, h);
    OfKeeps([p], p);
    if p in a { OfKeeps(a, p); }
    if p in b { OfKeeps(b, p); }
    InMiddle(Of(called, t, h), Of(a, t, h), Of([p], t, h), Of(b, t, h), Of(own, t, h), p);
  }

  lemma InMiddle(c: seq<Package>, x: seq<Package>, m: seq<Package>, y: seq<Package>, z: seq<Package>, p: Package)
    requires Distinct(c) && c == x + (m + (y + z)) && p in m
    ensures p in c && p !in x && p !in y
  {
    var k :| 0 <= k < |m| && m[k] == p;
    assert c[|x| + k] == p;
    if p in x {
      var i :| 0 <= i < |x| && x[i] == p;
      Twice(c, i, |x| + k);
    }
    if p in y {
      var i :| 0 <= i < |y| && y[i] == p;
      Twice(c, |x| + k, |x| + |m| + i);
    }
  }

  lemma Twice(ps: seq<Package>, i: nat, j: nat)
    requires Distinct(ps) && i < j < |ps|
    ensures ps[i] != ps[j]
  {
  }

  ghost predicate Known(s: State) {
    Part(s).Some? ==> Part(s).value.pkg in s.called && Part(s).value.pkg !in s.done
  }

  lemma OpenKnown(s: State)
    requires Inv(s) && !s.status.Closed?
    ensures Known(s)
  {
    if Part(s).Some? {
      var p := Part(s).value.pkg;
      var a, b := Around(s);
      assert InOrder(s.called, Line(s), Own(s, p.sender), p.sender, p.high);
      hide Inv;
      hide Line;
      hide InOrder;
      Once(s.called, a, p, b, Own(s, p.sender));
    }
  }

  /** The line in front of that package and behind it. */
  lemma FreedFacts(s: State)
    requires Sound(s) && !s.status.Closed? && s.freed.Some?
    ensures s.high == [] && s.low == []
  {
    hide CountInv;
  }

  lemma Around(s: State) returns (a: seq<Package>, b: seq<Package>)
    requires Sound(s) && !s.status.Closed? && Part(s).Some?
    ensures Line(s) == a + [Part(s).value.pkg] + b && forall q :: q in s.done ==> q in a || q in b
  {
    if s.freed.Some? {
      FreedFacts(s);
      DoneIs(s);
      a, b := AroundFreed(s);
    } else {
      hide Sound;
      var p := Part(s).value.pkg;
      a, b := s.done, Waiting(s)[1..];
      assert Waiting(s)[0] == p;
      assert Line(s) == a + [p] + b;
    }
  }

  lemma AroundFreed(s: State) returns (a: seq<Package>, b: seq<Package>)
    requires Sound(s) && !s.status.Closed? && Part(s).Some? && s.freed.Some? && s.high == []
    requires s.freed.value.done + Late(s) == s.done
    ensures Line(s) == a + [Part(s).value.pkg] + b && forall q :: q in s.done ==> q in a || q in b
  {
    hide CountInv;
    hide LockInv;
    hide Late;
    var p, f := Part(s).value.pkg, s.freed.value;
    assert forall q :: q in s.done ==> q in f.done || q in Late(s);
    if f.direct {
      assert Late(s) == [] && DirectPart(s) == [p];
      hide Sound;
      a, b := f.done, f.gone + s.pipe;
    } else if f.part.Some? && Sent(f.part) != [] {
      assert f.gone == [p] + f.gone[1..];
      hide Sound;
      a, b := f.done, f.gone[1..] + Late(s) + DirectPart(s) + s.pipe;
      Regroup1(f.done, p, f.gone[1..], Late(s), DirectPart(s), s.pipe);
    } else {
      assert DirectPart(s) == [p];
      hide Sound;
      a, b := f.done + f.gone + Late(s), s.pipe;
    }
  }

  lemma Regroup1(a: seq<Package>, p: Package, g: seq<Package>, l: seq<Package>, d: seq<Package>, r: seq<Package>)
    ensures a + ([p] + g) + l + d + r == a + [p] + (g + l + d + r)
  {
  }

  lemma ClosedKnown(s: State, t: State)
    requires Inv(s) && Known(s) && Follows(s, t) && t.status.Closed?
    ensures Known(t)
  {
    hide OrderInv;
    hide WireInv;
    var x :| t == Next(s, x);
    ClosesSame(s, x);
    hide Next;
    hide Inv;
  }

  /** The end of a close, and what follows it, finishes nothing and calls nothing. */
  lemma ClosesSame(s: State, x: Step)
    requires Sound(s) && Next(s, x).status.Closed?
    ensures var t := Next(s, x); t.called == s.called && t.done == s.done && Part(t) == Part(s)
  {
    hide CountInv;
    hide StepWrite;
    match x
    case Write(r) => WriteClosesSame(s, r);
    case _ =>
  }

  lemma WriteClosesSame(s: State, r: Result)
    requires Sound(s) && StepWrite(s, r).status.Closed?
    ensures var t := StepWrite(s, r); t.called == s.called && t.done == s.done && Part(t) == Part(s)
  {
    if !s.status.Closed? { WriteCloses(s, r); }
    hide CountInv;
    hide StepWriteHigh;
    hide StepWriteLow;
  }

  lemma {:induction false} RunKnown(run: seq<State>, n: nat)
    requires IsRun(run) && n < |run|
    ensures Inv(run[n]) && Known(run[n])
  {
    hide Known;
    hide Inv;
    hide Follows;
    RunInv(run, n);
    if !run[n].status.Closed? {
      OpenKnown(run[n]);
    } else {
      assert n > 0;
      RunKnown(run, n - 1);
      assert Follows(run[n - 1], run[n - 1 + 1]);
      ClosedKnown(run[n - 1], run[n]);
    }
  }

  /** Packages do not interleave on the wire, whatever the partial writes, exactly if no direct
      write put a byte on it between the two steps of a close that freed a package sent in part.
      Then the wire carries the finished packages and part of at most one more, which was called
      and is not finished. No assertion ever fails. */
  lemma NoInterleaving(run: seq<State>, n: nat)
    requires IsRun(run) && n < |run|
    ensures !run[n].fault
    ensures Orderly(run[n].wire) <==> !Torn(run[n])
    ensures !Torn(run[n]) ==> run[n].wire == Concat(run[n].done) + Sent(Part(run[n]))
    ensures var part := Part(run[n]);
            part.Some? ==> Fits(part.value) && part.value.pkg in run[n].called && part.value.pkg !in run[n].done
  {
    RunKnown(run, n);
    WireIs(run[n]);
    PartFits(run[n]);
  }

  lemma PartFits(s: State)
    requires Inv(s)
    ensures !s.fault && (Part(s).Some? ==> Fits(Part(s).value))
  {
  }

  /** While the socket is open, wb_size is exactly what the two lists have not sent; and a package
      that was sent in part never waits in the low list. */
  lemma ListsExact(run: seq<State>, n: nat)
    requires IsRun(run) && n < |run|
    ensures var s := run[n];
            && (Open(s) ==> s.wbSize == Unsent(s.high) + Unsent(s.low))
            && (forall i :: 0 <= i < |s.low| ==> s.low[i].off == 0)
            && (forall i :: 1 <= i < |s.high| ==> s.high[i].off == 0)
            && (s.dw.Some? && s.high != [] ==> s.high[0].off == 0)
  {
    RunInv(run, n);
  }

  // Order

  /** A close freed packages of this sender and priority, and then later ones were finished. */
  ghost predicate Overtaken(s: State, t: Thread, high: bool) {
    s.freed.Some? && Of(s.freed.value.gone, t, high) != [] && Of(Late(s), t, high) != []
  }

  function Gone(s: State): seq<Package> { if s.freed.Some? then s.freed.value.gone else [] }

  /** What was called begins with what was finished, with what was freed in between. */
  lemma CalledIs(s: State, t: Thread, high: bool)
    requires Inv(s)
    ensures s.freed.None? || s.freed.value.direct ==>
              Of(s.done, t, high) <= Of(s.called, t, high) && !Overtaken(s, t, high)
    ensures s.freed.Some? && !s.freed.value.direct ==>
              && Of(s.done, t, high) == Of(s.freed.value.done, t, high) + Of(Late(s), t, high)
              && Of(s.freed.value.done, t, high) + Of(s.freed.value.gone, t, high) + Of(Late(s), t, high)
                 <= Of(s.called, t, high)
  {
    StoppedIs(s, t, high);
    if s.freed.Some? {
      var f := s.freed.value;
      DoneIs(s);
      OfCat(f.done, Late(s), t, high);
      OfCat(f.done + f.gone, Late(s), t, high);
      OfCat(f.done, f.gone, t, high);
    }
  }

  lemma StoppedIs(s: State, t: Thread, high: bool)
    requires Inv(s)
    ensures Of(Stopped(s), t, high) <= Of(s.called, t, high)
  {
    if !s.status.Closed? {
      assert InOrder(s.called, Line(s), Own(s, t), t, high);
      var rest := StoppedRest(s);
      hide Inv;
      hide Line;
      hide Stopped;
      assert Stopped(s) + rest + Own(s, t) == Stopped(s) + (rest + Own(s, t));
      OfPrefix(Stopped(s), rest + Own(s, t), t, high);
    }
  }

  lemma StoppedRest(s: State) returns (rest: seq<Package>)
    requires Sound(s) && !s.status.Closed?
    ensures Line(s) == Stopped(s) + rest
  {
    hide CountInv;
    hide LockInv;
    if s.freed.None? {
      rest := Waiting(s);
    } else if s.freed.value.direct {
      rest := DirectPart(s) + s.freed.value.gone + s.pipe;
    } else {
      rest := DirectPart(s) + s.pipe;
    }
  }

  lemma NotPrefix(c: seq<Package>, d: seq<Package>, g: seq<Package>, l: seq<Package>)
    requires Distinct(c) && d + g + l <= c
    ensures d + l <= c <==> g == [] || l == []
  {
    if g == [] {
      assert d + g + l == d + l;
    } else if l == [] {
      assert d + l == d <= d + g + l;
    } else {
      assert c[|d|] == (d + g + l)[|d|] == g[0] && c[|d| + |g|] == (d + g + l)[|d| + |g|] == l[0];
      assert (d + l)[|d|] == l[0];
      Twice(c, |d|, |d| + |g|);
    }
  }

  /** The packages of one sender and one priority are finished in the order of the calls, without
      leaving one out, exactly if no later one was finished between the two steps of a close that
      freed some. And all are finished once nothing is under way, but for those that were freed. */
  lemma SentInOrder(run: seq<State>, n: nat, t: Thread, high: bool)
    requires IsRun(run) && n < |run|
    ensures Of(run[n].done, t, high) <= Of(run[n].called, t, high) <==> !Overtaken(run[n], t, high)
    ensures var s := run[n];
            !s.status.Closed? && NoMoreSendingData(s) && SenderOf(s, t).Idle? ==>
              (Of(s.done, t, high) == Of(s.called, t, high) <==> Of(Gone(s), t, high) == [])
  {
    RunInv(run, n);
    var s := run[n];
    CalledIs(s, t, high);
    OfDistinct(s.called, t, high);
    if s.freed.Some? && !s.freed.value.direct {
      NotPrefix(Of(s.called, t, high), Of(s.freed.value.done, t, high), Of(s.freed.value.gone, t, high),
                Of(Late(s), t, high));
    }
    if !s.status.Closed? && NoMoreSendingData(s) && SenderOf(s, t).Idle? { AllSent(s, t, high); }
  }

  lemma AllSent(s: State, t: Thread, high: bool)
    requires Inv(s) && !s.status.Closed? && NoMoreSendingData(s) && SenderOf(s, t).Idle?
    ensures Of(s.done, t, high) == Of(s.called, t, high) <==> Of(Gone(s), t, high) == []
  {
    NothingWaits(s, t);
    assert InOrder(s.called, Line(s), Own(s, t), t, high);
    if s.freed.Some? {
      var f := s.freed.value;
      DoneIs(s);
      hide *;
      OfCat(f.done, Late(s), t, high);
      OfCat(f.done + f.gone, Late(s), t, high);
      OfCat(f.done, f.gone, t, high);
      GoneIs(s);
      LeftOut(Of(f.done, t, high), Of(f.gone, t, high), Of(Late(s), t, high));
    }
  }

  lemma GoneIs(s: State)
    requires s.freed.Some?
    ensures Gone(s) == s.freed.value.gone
  {
  }

  lemma LeftOut(d: seq<Package>, g: seq<Package>, l: seq<Package>)
    ensures d + l == d + g + l <==> g == []
  {
    if g == [] { assert d + g + l == d + l; } else { assert |d + g + l| > |d + l|; }
  }

  lemma NothingWaits(s: State, t: Thread)
    requires Sound(s) && !s.status.Closed? && NoMoreSendingData(s) && SenderOf(s, t).Idle?
    ensures Line(s) + Own(s, t) ==
              if s.freed.Some? then s.freed.value.done + s.freed.value.gone + Late(s) else s.done
  {
    assert |s.pipe| == 0;
  }

  // How a close comes to that, and how it does not

  /** The socket thread is about to close while a buffer waits at the head of the high list, and a
      sender may write directly as soon as the lists are gone. */
  predicate Exposed(s: State, t: Thread) {
    && s.server.Ready? && s.status.Connected? && s.high != [] && s.dw.None? && s.sending == 0 && s.lock.Free?
    && SenderOf(s, t).Idle?
  }

  lemma Extended(run: seq<State>, x: Step)
    requires IsRun(run)
    ensures IsRun(run + [Next(run[|run| - 1], x)])
  {
    hide Next;
    var longer := run + [Next(run[|run| - 1], x)];
    forall k {:trigger longer[k]} | 0 <= k < |longer| - 1 ensures Follows(longer[k], longer[k + 1]) {
      if k < |run| - 1 { assert Follows(run[k], run[k + 1]); } else { assert longer[k] == run[|run| - 1]; }
    }
  }

  /** The states in which a close starts and sender `t` writes `bytes` before it ends. */
  function Overtake(s: State, t: Thread, bytes: Bytes): State {
    Next(Next(Next(s, Close), Call(t, true, bytes, true)), DirectWrite(t, Wrote(|bytes|)))
  }

  lemma OvertakeIs(s: State, t: Thread, bytes: Bytes)
    requires Inv(s) && Exposed(s, t)
    ensures var u, pkg := Overtake(s, t, bytes), Package(t, true, bytes, |s.called|);
            && u.freed == Some(Freed(s.done, Some(s.high[0]), Packages(s.high) + Packages(s.low), false))
            && u.done == s.done + [pkg] && u.wire == s.wire + Slice(pkg, 0, |bytes|)
  {
    assert s.freed.None?;
    hide Inv;
  }

  /** In every state of every run where a close can start with a part of a package on the wire,
      a direct write before its end tears that package. */
  lemma CloseTears(run: seq<State>, t: Thread, bytes: Bytes) returns (longer: seq<State>)
    requires IsRun(run) && var s := run[|run| - 1]; Exposed(s, t) && s.high[0].off > 0 && bytes != []
    ensures IsRun(longer) && run <= longer && !Orderly(longer[|longer| - 1].wire)
  {
    longer := Raced(run, t, bytes);
    var u, s := longer[|longer| - 1], run[|run| - 1];
    assert s.high != [] && s.high[0].off > 0;
    hide *;
    RunInv(run, |run| - 1);
    TornAfter(s, t, bytes);
    RunInv(longer, |longer| - 1);
    WireIs(u);
  }

  lemma TornAfter(s: State, t: Thread, bytes: Bytes)
    requires Inv(s) && Exposed(s, t) && s.high[0].off > 0 && bytes != []
    ensures Torn(Overtake(s, t, bytes))
  {
    hide Overtake;
    hide Concat;
    OvertakeIs(s, t, bytes);
    ExposedWire(s, t);
  }

  lemma ExposedWire(s: State, t: Thread)
    requires Inv(s) && Exposed(s, t)
    ensures Fits(s.high[0]) && s.wire == Concat(s.done) + Sent(Some(s.high[0]))
  {
    assert s.freed.None? && Unfinished(s.high[0]);
    hide Sound;
    hide OrderInv;
  }

  lemma Raced(run: seq<State>, t: Thread, bytes: Bytes) returns (longer: seq<State>)
    requires IsRun(run)
    ensures IsRun(longer) && run <= longer && |longer| == |run| + 3
    ensures longer[|longer| - 1] == Overtake(run[|run| - 1], t, bytes)
  {
    hide Next;
    longer := run;
    Extended(longer, Close);
    longer := longer + [Next(longer[|longer| - 1], Close)];
    Extended(longer, Call(t, true, bytes, true));
    longer := longer + [Next(longer[|longer| - 1], Call(t, true, bytes, true))];
    Extended(longer, DirectWrite(t, Wrote(|bytes|)));
    longer := longer + [Next(longer[|longer| - 1], DirectWrite(t, Wrote(|bytes|)))];
  }

  /** And in every one where a package of that sender is freed, a later one overtakes it. */
  lemma CloseOvertakes(run: seq<State>, t: Thread, bytes: Bytes) returns (longer: seq<State>)
    requires IsRun(run) && var s := run[|run| - 1];
             Exposed(s, t) && s.high[0].pkg.sender == t && s.high[0].pkg.high
    ensures IsRun(longer) && run <= longer
    ensures var u := longer[|longer| - 1]; !(Of(u.done, t, true) <= Of(u.called, t, true))
  {
    longer := Raced(run, t, bytes);
    var u, s := longer[|longer| - 1], run[|run| - 1];
    assert s.high != [] && s.high[0].pkg.sender == t && s.high[0].pkg.high;
    hide *;
    RunInv(run, |run| - 1);
    OvertakenAfter(s, t, bytes);
    SentInOrder(longer, |longer| - 1, t, true);
  }

  lemma OvertakenAfter(s: State, t: Thread, bytes: Bytes)
    requires Inv(s) && Exposed(s, t) && s.high[0].pkg.sender == t && s.high[0].pkg.high
    ensures Overtaken(Overtake(s, t, bytes), t, true)
  {
    hide Overtake;
    hide Inv;
    hide Of;
    var u, pkg := Overtake(s, t, bytes), Package(t, true, bytes, |s.called|);
    OvertakeIs(s, t, bytes);
    assert Late(u) == [pkg];
    var gone := u.freed.value.gone;
    assert gone[0] == Packages(s.high)[0] == s.high[0].pkg;
    OfKeeps(gone, gone[0]);
    OfKeeps([pkg], pkg);
  }

  /** Such states are reached: a direct write is interrupted after n bytes. */
  lemma ExposedRun(bytes: Bytes, n: nat) returns (run: seq<State>)
    requires n < |bytes|
    ensures IsRun(run) && var s := run[|run| - 1];
            && Exposed(s, 0) && Exposed(s, 1) && s.high[0] == Buffer(Package(0, true, bytes, 0), n)
  {
    var s0 := Start(Connected);
    run := [s0];
    Extended(run, Call(0, true, bytes, true));
    run := run + [Next(run[|run| - 1], Call(0, true, bytes, true))];
    Extended(run, DirectWrite(0, Wrote(n)));
    run := run + [Next(run[|run| - 1], DirectWrite(0, Wrote(n)))];
    Extended(run, Writable);
    run := run + [Next(run[|run| - 1], Writable)];
    Extended(run, Write(WouldBlock));
    run := run + [Next(run[|run| - 1], Write(WouldBlock))];
  }

  lemma FreedOnce(s: State, t: State)
    requires Sound(s) && Follows(s, t) && s.freed.Some?
    ensures t.freed == s.freed
  {
    hide CountInv;
    hide ListInv;
    var x :| t == Next(s, x);
    match x
    case Write(r) =>
    case _ =>
  }

  lemma {:induction false} FreedStays(run: seq<State>, m: nat, n: nat)
    requires IsRun(run) && m <= n < |run| && run[m].freed.Some?
    ensures run[n].freed == run[m].freed
  {
    hide Follows;
    hide Inv;
    if m < n {
      FreedStays(run, m, n - 1);
      RunInv(run, n - 1);
      assert Follows(run[n - 1], run[n - 1 + 1]);
      InvSound(run[n - 1]);
      FreedOnce(run[n - 1], run[n]);
    }
  }

  lemma InvSound(s: State)
    requires Inv(s)
    ensures Sound(s)
  {
  }

  lemma FreedIs(s: State, t: State)
    requires Sound(s) && Follows(s, t) && s.freed.None? && t.freed.Some?
    ensures t == FreeLists(s)
  {
    hide Sound;
    var x :| t == Next(s, x);
    if !x.Close? && !x.Connect? { FreedByClose(s, x); }
  }

  lemma FreedByClose(s: State, x: Step)
    requires !x.Close? && !x.Connect?
    ensures Next(s, x).freed == s.freed
  {
    hide Slice;
    hide Count;
    hide NoMoreSendingData;
    hide StepWrite;
    if x.Write? { FreedByWrite(s, x.r); }
  }

  lemma FreedByWrite(s: State, r: Result)
    ensures StepWrite(s, r).freed == s.freed
  {
    hide Slice;
    hide Count;
    hide StepWriteHigh;
    hide StepWriteLow;
    FreedByHigh(s, r);
    FreedByLow(s, r);
  }

  lemma FreedByHigh(s: State, r: Result)
    ensures StepWriteHigh(s, r).freed == s.freed
  {
    hide Slice;
    hide Count;
  }

  lemma FreedByLow(s: State, r: Result)
    ensures StepWriteLow(s, r).freed == s.freed
  {
    hide Slice;
    hide Count;
  }

  /** A close that finds both lists empty tears nothing and lets nothing overtake, then or later. */
  lemma GuardedClose(run: seq<State>, m: nat, n: nat, t: Thread, high: bool)
    requires IsRun(run) && m < n < |run| && run[m].freed.None? && run[m + 1].freed.Some?
    requires run[m].high == [] && run[m].low == []
    ensures Orderly(run[n].wire) && Of(run[n].done, t, high) <= Of(run[n].called, t, high)
  {
    hide *;
    FollowsAt(run, m);
    RunInv(run, m);
    InvSound(run[m]);
    FreedIs(run[m], run[m + 1]);
    FreedStays(run, m + 1, n);
    EmptyFreed(run[m]);
    NoInterleaving(run, n);
    SentInOrder(run, n, t, high);
    NothingFreed(run[n], t, high);
  }

  lemma FollowsAt(run: seq<State>, m: nat)
    requires IsRun(run) && m + 1 < |run|
    ensures Follows(run[m], run[m + 1])
  {
  }

  lemma EmptyFreed(s: State)
    requires s.high == [] && s.low == []
    ensures var f := FreeLists(s).freed; f.Some? && f.value.part.None? && f.value.gone == []
  {
  }

  lemma NothingFreed(s: State, t: Thread, high: bool)
    requires s.freed.None? || (s.freed.value.part.None? && s.freed.value.gone == [])
    ensures !Torn(s) && !Overtaken(s, t, high)
  {
  }

  /** Nor does a close that holds the lock, nor is anything wrong while no close has started. */
  lemma LockedClose(run: seq<State>, n: nat, t: Thread, high: bool)
    requires IsRun(run) && n < |run| && run[n].freed.None?
    ensures Orderly(run[n].wire) && Of(run[n].done, t, high) <= Of(run[n].called, t, high)
  {
    hide *;
    NoInterleaving(run, n);
    SentInOrder(run, n, t, high);
    NothingFreed(run[n], t, high);
  }
}
