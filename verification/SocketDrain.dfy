/** What is waiting is sent: in every run the poll watches for it, but for one race, and from every
    state everything that was called can be finished. */
module SocketDrain {
  import opened Socket
  import opened SocketProof
  import opened SocketRuns
  import opened Wrappers

  // The event

  predicate Pending(s: State) { s.high != [] || s.low != [] || s.dw.Some? }

  /** Something is waiting, and the poll does not watch for it. */
  predicate Deaf(s: State) { s.status.Connected? && Pending(s) && !s.event }

  ghost predicate EventInv(s: State) {
    && (s.status.Connecting? || s.server.Reporting? || s.server.TurningOff? || s.lock.ByServer? ==> s.event)
    && (s.server.Reporting? || s.server.TurningOff? ==> s.status.Connected?)
    && (s.server.TurningOff? || Deaf(s) ==> s.high == [] && s.low == [])
    && (Deaf(s) ==> !s.server.Decrement?)
  }

  /** A direct write was left in part after report_connect had looked, and now it turns the event off. */
  predicate Misses(s: State, t: State) { s.server.TurningOff? && t.server.Ready? && s.dw.Some? }

  lemma NextEvent(s: State, x: Step)
    requires Sound(s) && EventInv(s)
    ensures EventInv(Next(s, x))
    ensures !Deaf(s) ==> (Deaf(Next(s, x)) <==> Misses(s, Next(s, x)))
  {
    hide CountInv;
    hide StepWrite;
    match x
    case Write(r) => WriteEvent(s, r);
    case _ =>
  }

  lemma WriteEvent(s: State, r: Result)
    requires Sound(s) && EventInv(s)
    ensures var u := StepWrite(s, r); EventInv(u) && (!Deaf(s) ==> !Deaf(u) && !Misses(s, u))
  {
    if s.server.SendHigh? { var _ := HighTurn(s, r); } else if s.server.SendLow? { var _ := LowTurn(s, r); }
    hide CountInv;
    hide StepWriteHigh;
    hide StepWriteLow;
  }

  lemma StartEvent(status: Status)
    requires !status.Closed?
    ensures EventInv(Start(status)) && !Deaf(Start(status))
  {
  }

  lemma FollowsEvent(s: State, t: State)
    requires Inv(s) && EventInv(s) && Follows(s, t)
    ensures EventInv(t) && (!Deaf(s) ==> (Deaf(t) <==> Misses(s, t)))
  {
    hide WireInv;
    hide OrderInv;
    hide Sound;
    hide EventInv;
    hide Next;
    var x :| t == Next(s, x);
    NextEvent(s, x);
  }

  lemma {:induction false} RunEvents(run: seq<State>, n: nat)
    requires IsRun(run) && n < |run|
    ensures EventInv(run[n]) && Inv(run[n]) && !Deaf(run[0])
  {
    hide Inv;
    hide EventInv;
    hide Deaf;
    hide Follows;
    RunInv(run, n);
    StartEvent(run[0].status);
    if n > 0 {
      RunEvents(run, n - 1);
      assert Follows(run[n - 1], run[n - 1 + 1]);
      FollowsEvent(run[n - 1], run[n]);
    }
  }

  /** What waits on a connected socket is watched for, exactly until report_connect turns the event off
      although a direct write was left in part since it looked. */
  lemma DeafExactly(run: seq<State>, n: nat)
    requires IsRun(run) && n + 1 < |run| && !Deaf(run[n])
    ensures !Deaf(run[0]) && (Deaf(run[n + 1]) <==> Misses(run[n], run[n + 1]))
  {
    hide Inv;
    hide EventInv;
    hide Deaf;
    hide Follows;
    RunEvents(run, n);
    assert Follows(run[n], run[n + 1]);
    FollowsEvent(run[n], run[n + 1]);
  }

  function Last(run: seq<State>): State
    requires |run| > 0
  {
    run[|run| - 1]
  }

  lemma Taken(run: seq<State>, x: Step) returns (longer: seq<State>)
    requires IsRun(run)
    ensures IsRun(longer) && run <= longer && |longer| == |run| + 1 && Last(longer) == Next(Last(run), x)
  {
    hide Next;
    Extended(run, x);
    longer := run + [Next(Last(run), x)];
  }

  /** Such a run. */
  lemma DeafRun(bytes: Bytes, n: nat) returns (run: seq<State>)
    requires n < |bytes|
    ensures IsRun(run) && Deaf(Last(run)) && Last(run).dw == Some(Buffer(Package(0, true, bytes, 0), n))
  {
    run := [Start(Connecting)];
    run := Taken(run, Connect(true));
    run := Taken(run, Report);
    run := Taken(run, Call(0, true, bytes, true));
    run := Taken(run, DirectWrite(0, Wrote(n)));
    run := Taken(run, TurnOff);
  }

  /** The next request of the pipe turns the event on again. */
  lemma Woken(s: State)
    requires EventInv(s) && Deaf(s) && s.server.Ready? && s.pipe != []
    ensures Next(s, Command).event
  {
  }

  // Sending what waits

  /** Only the lists, the finished packages and what belongs to them change. */
  predicate Sends(s: State, u: State) {
    u == s.(high := u.high, low := u.low, done := u.done, wire := u.wire, wbSize := u.wbSize)
  }

  lemma LastSound(run: seq<State>)
    requires IsRun(run)
    ensures |run| > 0 && Sound(Last(run)) && EventInv(Last(run))
  {
    RunEvents(run, |run| - 1);
  }

  lemma HighGoes(s: State)
    requires Sound(s) && s.server.SendHigh? && s.high != []
    ensures Rest(s.high[0]) >= 0 && Fits(s.high[0]) && Next(s, Write(Wrote(Rest(s.high[0])))) == HighDone(s)
  {
    assert Unfinished(s.high[0]);
    hide Sound;
  }

  lemma NoPackages()
    ensures Packages([]) == []
  {
  }

  lemma HeadFirst(done: seq<Package>, bs: seq<Buffer>)
    requires bs != []
    ensures done + Packages(bs) == done + [bs[0].pkg] + Packages(bs[1..])
  {
  }

  lemma {:induction false} DrainHigh(run: seq<State>) returns (longer: seq<State>)
    requires IsRun(run) && |run| > 0 && Last(run).server.SendHigh?
    ensures IsRun(longer) && run <= longer && Sends(Last(run), Last(longer))
    ensures var s, u := Last(run), Last(longer);
            u.high == [] && u.low == s.low && u.done == s.done + Packages(s.high)
    decreases |Last(run).high|
  {
    hide Next;
    hide Sound;
    hide EventInv;
    hide IsRun;
    hide Slice;
    hide Packages;
    longer := run;
    NoPackages();
    var s := Last(run);
    if s.high != [] {
      LastSound(run);
      HighGoes(s);
      var next := Taken(run, Write(Wrote(Rest(s.high[0]))));
      longer := DrainHigh(next);
      HeadFirst(s.done, s.high);
    }
  }

  lemma LowGoes(s: State)
    requires Sound(s) && s.server.SendLow? && s.low != []
    ensures Next(s, Write(Wrote(|s.low[0].pkg.bytes|))) == LowDone(s)
  {
    LowHead(s);
    hide Sound;
  }

  lemma {:induction false} DrainLow(run: seq<State>) returns (longer: seq<State>)
    requires IsRun(run) && |run| > 0 && Last(run).server.SendLow?
    ensures IsRun(longer) && run <= longer && Sends(Last(run), Last(longer))
    ensures var s, u := Last(run), Last(longer);
            u.high == s.high && u.low == [] && u.done == s.done + Packages(s.low)
    decreases |Last(run).low|
  {
    hide Next;
    hide Sound;
    hide EventInv;
    hide IsRun;
    hide Slice;
    hide Packages;
    longer := run;
    NoPackages();
    var s := Last(run);
    if s.low != [] {
      LastSound(run);
      LowGoes(s);
      var next := Taken(run, Write(Wrote(|s.low[0].pkg.bytes|)));
      longer := DrainLow(next);
      HeadFirst(s.done, s.low);
    }
  }

  /** The socket thread is free to look at the connected socket, and nobody writes. */
  predicate Quiet(s: State) { s.server.Ready? && s.status.Connected? && s.lock.Free? }

  /** Calls and requests are as before. */
  predicate SameCalls(s: State, u: State) {
    u.called == s.called && u.senders == s.senders && u.pipe == s.pipe && u.sending == s.sending
  }

  lemma WritableGoes(s: State)
    requires Sound(s) && Quiet(s) && s.event
    ensures var u := Next(s, Writable);
            && u.server.SendHigh? && u.lock.ByServer? && u.status.Connected? && u.dw.None? && SameCalls(s, u)
            && Packages(u.high) == DirectPart(s) + Packages(s.high) && u.low == s.low && u.done == s.done
  {
    LowHead(s);
    hide Sound;
    if s.dw.Some? { PackagesCons(s.dw.value, s.high); }
  }

  lemma FinishGoes(s: State, r: Result)
    requires Sound(s) && (s.server.SendHigh? || s.server.SendLow?) && s.high == [] && s.low == []
    ensures Next(s, Write(r)) == TurnedOff(s) && s.status.Connected?
  {
    NothingUnsent(s);
  }

  lemma ToLowGoes(s: State, r: Result)
    requires s.server.SendHigh? && s.high == [] && s.low != []
    ensures Next(s, Write(r)) == s.(server := SendLow)
  {
  }

  /** What a drain makes of a state: the direct buffer goes first, then the high list, then the low one. */
  predicate Drained(s: State, u: State) {
    && Quiet(u) && !Pending(u) && SameCalls(s, u)
    && u.done == s.done + DirectPart(s) + Packages(s.high) + Packages(s.low)
  }

  /** From every state of every run in which the socket thread may look at what waits on a connected
      socket, writes that take all they are given send it: whatever waits, in this order. */
  lemma Drains(run: seq<State>) returns (longer: seq<State>)
    requires IsRun(run) && |run| > 0 && Quiet(Last(run)) && !Deaf(Last(run))
    ensures IsRun(longer) && run <= longer && Drained(Last(run), Last(longer))
  {
    var s := Last(run);
    longer := run;
    if Pending(s) {
      longer := DrainsPending(run);
    } else {
      assert DirectPart(s) == [] && Packages([]) == [];
    }
  }

  lemma DrainsPending(run: seq<State>) returns (longer: seq<State>)
    requires IsRun(run) && |run| > 0 && Quiet(Last(run)) && Last(run).event
    ensures IsRun(longer) && run <= longer && Drained(Last(run), Last(longer))
  {
    hide Next;
    hide Sound;
    hide EventInv;
    hide IsRun;
    hide Packages;
    hide DirectPart;
    hide Last;
    LastSound(run);
    WritableGoes(Last(run));
    var r1 := Taken(run, Writable);
    var r2 := DrainHigh(r1);
    var r3 := LowAfter(r2);
    LastSound(r3);
    FinishGoes(Last(r3), Interrupted);
    longer := Taken(r3, Write(Interrupted));
    Regrouped(Last(run).done, DirectPart(Last(run)), Packages(Last(run).high), Packages(Last(run).low));
  }

  lemma Regrouped(a: seq<Package>, b: seq<Package>, c: seq<Package>, d: seq<Package>)
    ensures a + (b + c) + d == a + b + c + d
  {
  }

  lemma LowAfter(run: seq<State>) returns (longer: seq<State>)
    requires IsRun(run) && |run| > 0 && Last(run).server.SendHigh? && Last(run).high == []
    ensures IsRun(longer) && run <= longer
    ensures var s, u := Last(run), Last(longer);
            && (u.server.SendHigh? || u.server.SendLow?) && u.high == [] && u.low == [] && u.dw == s.dw
            && u.status == s.status && SameCalls(s, u) && u.done == s.done + Packages(s.low)
  {
    hide Next;
    hide Sound;
    hide EventInv;
    hide IsRun;
    hide Packages;
    hide Last;
    longer := run;
    NoPackages();
    if Last(run).low != [] {
      ToLowGoes(Last(run), Interrupted);
      var next := Taken(run, Write(Interrupted));
      longer := DrainLow(next);
    }
  }

  // Everything that was called

  /** Something turns the event on again, or it is not off while something waits, nor about to be. */
  predicate Hears(s: State) { s.sending > 0 || (!Deaf(s) && (s.server.TurningOff? ==> s.dw.None?)) }

  /** What the socket thread of an open socket does next until it is ready. */
  function Way(s: State): Step {
    match s.server
    case Decrement => Decrease
    case Reporting => Report
    case TurningOff => TurnOff
    case Ready => Connect(true)
    case _ => Write(WouldBlock)
  }

  function Steps(s: State): nat {
    match s.server
    case Decrement => 4
    case Reporting => 2
    case SendHigh => 2
    case Ready => if s.status.Connected? then 0 else 3
    case _ => 1
  }

  lemma WayGoes(s: State)
    requires Sound(s) && EventInv(s) && Open(s) && Hears(s) && Steps(s) > 0
    ensures var u := Next(s, Way(s));
            Open(u) && Hears(u) && Steps(u) < Steps(s) && u.called == s.called
  {
    hide Unsent;
    hide PipingSet;
    if s.server.SendHigh? { var _ := HighTurn(s, WouldBlock); }
    if s.server.SendLow? { var _ := LowTurn(s, WouldBlock); }
  }

  lemma {:induction false} GetsReady(run: seq<State>) returns (longer: seq<State>)
    requires IsRun(run) && |run| > 0 && Open(Last(run)) && Hears(Last(run))
    ensures IsRun(longer) && run <= longer
    ensures var u := Last(longer);
            && u.server.Ready? && u.status.Connected? && u.called == Last(run).called
            && (!Deaf(u) || u.sending > 0)
    decreases Steps(Last(run))
  {
    hide Next;
    hide Sound;
    hide EventInv;
    hide IsRun;
    longer := run;
    LastSound(run);
    if Steps(Last(run)) > 0 {
      WayGoes(Last(run));
      var next := Taken(run, Way(Last(run)));
      longer := GetsReady(next);
    }
  }

  /** A sender with the lock writes its package and is done. */
  lemma DirectGoes(s: State, t: Thread)
    requires Sound(s) && EventInv(s) && s.lock == BySender(t) && s.server.Ready? && s.status.Connected?
    ensures SenderOf(s, t).Direct?
    ensures var u := Next(s, DirectWrite(t, Wrote(|SenderOf(s, t).pkg.bytes|)));
            Quiet(u) && u.called == s.called && u.sending == s.sending && Deaf(u) == Deaf(s)
  {
    hide CountInv;
    hide ListInv;
  }

  lemma Unlocked(run: seq<State>) returns (longer: seq<State>)
    requires IsRun(run) && |run| > 0 && Last(run).server.Ready? && Last(run).status.Connected?
    ensures IsRun(longer) && run <= longer
    ensures var s, u := Last(run), Last(longer);
            Quiet(u) && u.called == s.called && u.sending == s.sending && Deaf(u) == Deaf(s)
  {
    hide Next;
    hide Deaf;
    LastSound(run);
    var s := Last(run);
    longer := run;
    if s.lock.BySender? {
      DirectGoes(s, s.lock.t);
      hide Sound;
      longer := Taken(run, DirectWrite(s.lock.t, Wrote(|SenderOf(s, s.lock.t).pkg.bytes|)));
    }
  }

  lemma PipeGoes(s: State, t: Thread)
    requires Sound(s) && Quiet(s) && t in PipingSet(s)
    ensures var u := Next(s, PipeWrite(t));
            && Quiet(u) && PipingSet(u) < PipingSet(s) && u.called == s.called && u.sending == s.sending
            && Deaf(u) == Deaf(s)
  {
    var u := Next(s, PipeWrite(t));
    assert t !in PipingSet(u);
  }

  lemma {:induction false} PipeAll(run: seq<State>) returns (longer: seq<State>)
    requires IsRun(run) && |run| > 0 && Quiet(Last(run))
    ensures IsRun(longer) && run <= longer
    ensures var s, u := Last(run), Last(longer);
            && Quiet(u) && PipingSet(u) == {} && u.called == s.called && u.sending == s.sending
            && Deaf(u) == Deaf(s)
    decreases PipingSet(Last(run))
  {
    hide Next;
    hide Deaf;
    hide Sound;
    hide EventInv;
    hide IsRun;
    longer := run;
    LastSound(run);
    if t: Thread :| t in PipingSet(Last(run)) {
      PipeGoes(Last(run), t);
      hide PipingSet;
      var next := Taken(run, PipeWrite(t));
      longer := PipeAll(next);
    }
  }

  /** The next request goes into the lists. */
  lemma CommandGoes(s: State)
    requires Sound(s) && EventInv(s) && Quiet(s) && s.pipe != []
    ensures var v := Next(s, Command);
            var u := Next(v, Decrease);
            && Quiet(u) && PipingSet(u) == PipingSet(s) && u.called == s.called && |u.pipe| == |s.pipe| - 1 && !Deaf(u)
  {
    hide ListInv;
    SendersSame(s, Next(Next(s, Command), Decrease));
  }

  lemma {:induction false} CommandAll(run: seq<State>) returns (longer: seq<State>)
    requires IsRun(run) && |run| > 0 && Quiet(Last(run)) && PipingSet(Last(run)) == {}
    requires !Deaf(Last(run)) || Last(run).pipe != []
    ensures IsRun(longer) && run <= longer
    ensures var s, u := Last(run), Last(longer);
            Quiet(u) && PipingSet(u) == {} && u.called == s.called && u.pipe == [] && !Deaf(u)
    decreases |Last(run).pipe|
  {
    hide Next;
    hide Deaf;
    hide Sound;
    hide EventInv;
    hide IsRun;
    hide PipingSet;
    longer := run;
    LastSound(run);
    if Last(run).pipe != [] {
      CommandGoes(Last(run));
      var next := Taken(run, Command);
      next := Taken(next, Decrease);
      longer := CommandAll(next);
    }
  }

  lemma CountsIs(s: State)
    requires Sound(s) && Quiet(s) && PipingSet(s) == {}
    ensures s.sending == |s.pipe|
  {
  }

  /** All is at rest: every sender is idle, and there is nothing to send. */
  lemma AtRest(s: State, t: Thread)
    requires Sound(s) && Quiet(s) && !Pending(s) && PipingSet(s) == {} && s.pipe == []
    ensures NoMoreSendingData(s) && SenderOf(s, t).Idle? && s.freed.None?
  {
    hide ListInv;
    assert t in PipingSet(s) <==> SenderOf(s, t).Piping?;
  }

  lemma DrainedSenders(s: State, u: State)
    requires Drained(s, u)
    ensures PipingSet(u) == PipingSet(s) && u.pipe == s.pipe && u.called == s.called && Quiet(u) && !Pending(u)
  {
  }

  /** From every state of every run with an open socket that hears, all that was called can be sent, in
      the order of the calls of each sender and priority, and nothing else is on the wire. */
  lemma AllSent(run: seq<State>) returns (longer: seq<State>)
    requires IsRun(run) && |run| > 0 && Open(Last(run)) && Hears(Last(run))
    ensures IsRun(longer) && run <= longer
    ensures var s, u := Last(run), Last(longer);
            && NoMoreSendingData(u) && u.called == s.called && u.wire == Concat(u.done)
            && forall t: Thread, high: bool :: Of(u.done, t, high) == Of(s.called, t, high)
  {
    hide *;
    var r0 := GetsReady(run);
    var r1 := Unlocked(r0);
    var r2 := PipeAll(r1);
    LastSound(r2);
    CountsIs(Last(r2));
    var r3 := CommandAll(r2);
    longer := Drains(r3);
    DrainedSenders(Last(r3), Last(longer));
    LastSound(longer);
    AllDone(longer);
  }

  lemma AllDone(run: seq<State>)
    requires IsRun(run) && |run| > 0 && Quiet(Last(run)) && !Pending(Last(run)) && PipingSet(Last(run)) == {}
    requires Last(run).pipe == []
    ensures var u := Last(run);
            && NoMoreSendingData(u) && u.wire == Concat(u.done)
            && forall t: Thread, high: bool :: Of(u.done, t, high) == Of(u.called, t, high)
  {
    hide Of;
    hide Concat;
    hide PipingSet;
    LastSound(run);
    var u := Last(run);
    hide Sound;
    AtRest(u, 0);
    NoInterleaving(run, |run| - 1);
    assert Part(u) == None;
    forall t: Thread, high: bool ensures Of(u.done, t, high) == Of(u.called, t, high) {
      AtRest(u, t);
      SentInOrder(run, |run| - 1, t, high);
      NothingOf(t, high);
    }
  }

  lemma NothingOf(t: Thread, high: bool)
    ensures Of([], t, high) == []
  {
  }

  /** One that does not hear keeps its direct buffer until it is closed, or something more is sent. */
  lemma StuckStep(s: State, x: Step)
    requires Sound(s) && EventInv(s) && Open(s) && !Hears(s)
    requires var u := Next(s, x); u.called == s.called && Open(u)
    ensures var u := Next(s, x); !Hears(u) && u.dw == s.dw && s.dw.Some?
  {
  }

  lemma StuckFollows(s: State, u: State)
    requires Inv(s) && EventInv(s) && Follows(s, u) && Open(u) && |u.called| == |s.called|
    ensures Open(s) && (!Hears(s) ==> !Hears(u) && u.dw == s.dw && s.dw.Some?)
  {
    hide WireInv;
    hide OrderInv;
    hide EventInv;
    hide Hears;
    var x :| u == Next(s, x);
    StaysClosed(s, x);
    NextGrows(s, x);
    hide Sound;
    hide Next;
    assert u.called == s.called;
    if !Hears(s) { StuckStep(s, x); }
  }

  lemma StaysClosed(s: State, x: Step)
    requires Sound(s) && Open(Next(s, x))
    ensures Open(s)
  {
    hide CountInv;
    hide ListInv;
  }

  /** So the condition is exact: if the socket does not hear, no run on that calls nothing more and
      does not close it sends what waits. */
  lemma {:induction false} Stuck(run: seq<State>, m: nat, n: nat)
    requires IsRun(run) && m <= n < |run| && !Hears(run[m]) && Open(run[n]) && |run[n].called| == |run[m].called|
    ensures Open(run[m]) && run[m].dw.Some? && run[n].dw == run[m].dw && !Hears(run[n])
  {
    hide Inv;
    hide EventInv;
    hide Hears;
    hide Follows;
    hide Extends;
    if m < n {
      RunEvents(run, n - 1);
      assert Follows(run[n - 1], run[n - 1 + 1]);
      CalledGrows(run, m, n - 1);
      CalledGrows(run, n - 1, n);
      StuckFollows(run[n - 1], run[n]);
      Stuck(run, m, n - 1);
    } else {
      RunEvents(run, n);
      StuckNow(run[n]);
    }
  }

  lemma CalledGrows(run: seq<State>, m: nat, n: nat)
    requires IsRun(run) && m <= n < |run|
    ensures |run[m].called| <= |run[n].called|
  {
    WireOnlyGrows(run, m, n);
  }

  lemma StuckNow(s: State)
    requires Inv(s) && EventInv(s) && Open(s) && !Hears(s)
    ensures s.dw.Some?
  {
    hide WireInv;
    hide OrderInv;
    hide CountInv;
  }
}
