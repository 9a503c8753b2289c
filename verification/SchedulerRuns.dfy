/** What every run of the scheduler guarantees, for any number of workers, senders and
    launches and in any interleaving of their steps. */
module SchedulerRuns {
  import opened Queues
  import opened MessageQueues
  import opened Scheduler
  import opened SchedulerProof

  /** In every run, a step touches freed memory or a queue that is not there, or fails an assertion,
      exactly when it is the use, by the launcher, of the context that it launched and that has been
      freed, or when it pushes a message to a service whose queue has not been made yet. */
  lemma FaultsExactly(run: seq<State>, n: nat, a: Aid, c: Choice)
    requires IsRun(run) && n < |run| && !run[n].fault
    ensures Step(run[n], a, c).fault <==> UsesFreed(run[n], a, c) || SendsEarly(run[n], a)
  {
    hide *;
    RunKeeps(run, n);
    StepKeeps(run[n], a, c);
  }

  /** The context of a launched service has been freed exactly when the handle has been retired,
      no activity holds a reference, and none is deleting the context. */
  lemma FreedWhen(run: seq<State>, n: nat, a: Aid, h: Handle)
    requires IsRun(run) && n < |run| && Uses(ActOf(run[n], a), h)
    ensures h in run[n].services
    ensures Gone(run[n], h) <==>
              && !run[n].services[h].registered
              && forall b {:trigger ActOf(run[n], b)} :: var x := ActOf(run[n], b);
                   !Holds(x, h) && !Deletes(x, h) && !Deallocs(x, h)
  {
    RunKeeps(run, n);
    var s := run[n];
    assert ActInv(s, ActOf(s, a));
    assert RolesInv(s, h) && ContextInv(s.services[h]);
    var v := s.services[h];
    match v.phase
    case Deleting(b) => assert Deletes(ActOf(s, b), h);
    case Marked(b) => assert Deallocs(ActOf(s, b), h);
    case Live => if !v.registered { var b :| b in v.holders; assert Holds(ActOf(s, b), h); }
    case Dead =>
  }

  lemma NotEmpty(run: seq<State>)
    requires IsRun(run)
    ensures |run| > 0
  {
  }

  lemma Extended(run: seq<State>, a: Aid, c: Choice)
    requires IsRun(run) && !run[|run| - 1].fault
    ensures IsRun(run + [Step(run[|run| - 1], a, c)])
  {
    hide Step;
    var s := run[|run| - 1];
    var longer := run + [Step(s, a, c)];
    forall k {:trigger longer[k]} | 0 <= k < |longer| - 1 ensures Follows(longer[k], longer[k + 1]) {
      if k < |run| - 1 {
        assert Follows(run[k], run[k + 1]);
      } else {
        assert longer[k] == s;
      }
    }
  }

  /** A service has no queue exactly while its launcher is between setting the handle and making the
      queue. */
  lemma EarlyWhen(run: seq<State>, n: nat, a: Aid, h: Handle, m: Message)
    requires IsRun(run) && n < |run| && ActOf(run[n], a) == SendPush(h, m)
    ensures SendsEarly(run[n], a) <==> exists b {:trigger ActOf(run[n], b)} :: ActOf(run[n], b) == Make(h)
  {
    RunKeeps(run, n);
    var s := run[n];
    assert ActInv(s, ActOf(s, a));
    assert RolesInv(s, h);
    var v := s.services[h];
    if b: Aid {:trigger ActOf(s, b)} :| ActOf(s, b) == Make(h) {
      assert Owns(ActOf(s, b), h);
    } else {
      if !v.made { assert ActOf(s, v.owner.a) == Make(h); }
    }
  }

  /** From every state of every run with such a launcher, a message to the service makes a fault. */
  lemma SendFaults(run: seq<State>, a: Aid, b: Aid, h: Handle, m: Message) returns (longer: seq<State>)
    requires IsRun(run) && var s := run[|run| - 1];
             !s.fault && ActOf(s, a) == Make(h) && ActOf(s, b) == Idle && Registered(s, h)
    ensures IsRun(longer) && run <= longer && |longer| == |run| + 3 && longer[|run| + 2].fault
  {
    hide *;
    NotEmpty(run);
    RunKeeps(run, |run| - 1);
    var s := run[|run| - 1];
    EarlySteps(s, a, b, h, m);
    Extended(run, b, Send(h, m));
    longer := run + [Step(s, b, Send(h, m))];
    Extended(longer, b, Create);
    longer := longer + [Step(longer[|run|], b, Create)];
    Extended(longer, b, Create);
    longer := longer + [Step(longer[|run| + 1], b, Create)];
  }

  lemma EarlySteps(s: State, a: Aid, b: Aid, h: Handle, m: Message)
    requires Inv(s) && ActOf(s, a) == Make(h) && ActOf(s, b) == Idle && Registered(s, h)
    ensures var s1 := Step(s, b, Send(h, m));
            var s2 := Step(s1, b, Create);
            !s1.fault && !s2.fault && Step(s2, b, Create).fault
  {
    assert Owns(ActOf(s, a), h);
    RegisteredLives(s, h);
    assert RolesInv(s, h);
    assert !s.services[h].made;
    hide Inv;
    hide RolesInv;
  }

  /** Where `b` is on its way from the request to retire `h` to the end of its context, while `a`
      is about to use that context. */
  ghost predicate Retiring(s: State, a: Aid, x: Act, b: Aid, y: Act, h: Handle) {
    && Inv(s) && a != b && ActOf(s, a) == x && ActOf(s, b) == y && Uses(x, h) && h in s.services
    && var v := s.services[h];
       match y
       case Idle => v.registered && v.holders == {}
       case RetireReq(g) => g == h && v.registered && v.holders == {}
       case Rel(g, k) => g == h && k == KIdle && !v.registered && v.holders == {b}
       case Del(g, k) => g == h && k == KIdle
       case Dealloc(g, k) => g == h && k == KIdle
       case _ => false
  }

  /** What comes next on that way. */
  function Onwards(y: Act, h: Handle): Act {
    match y
    case Idle => RetireReq(h)
    case RetireReq(_) => Rel(h, KIdle)
    case Rel(_, _) => Del(h, KIdle)
    case _ => Dealloc(h, KIdle)
  }

  /** The others stay where they are. */
  lemma OthersStay(s: State, b: Aid, h: Handle, a: Aid)
    requires var y := ActOf(s, b); a != b && (y.Idle? || y.RetireReq? || y.Rel? || y.Del? || y.Dealloc?)
    ensures ActOf(Step(s, b, Retire(h)), a) == ActOf(s, a)
  {
    hide Resume;
    hide Returned;
    hide Queue.MarkRelease;
  }

  lemma RetiringOn(s: State, a: Aid, x: Act, b: Aid, y: Act, h: Handle)
    requires Retiring(s, a, x, b, y, h) && !y.Dealloc?
    ensures !Step(s, b, Retire(h)).fault && Retiring(Step(s, b, Retire(h)), a, x, b, Onwards(y, h), h)
  {
    hide Inv;
    hide Step;
    var t := Step(s, b, Retire(h));
    StepKeeps(s, b, Retire(h));
    OthersStay(s, b, h, a);
    RetiringStep(s, a, x, b, y, h);
    assert !UsesFreed(s, b, Retire(h));
    SoundClear(t);
    InvIs(t);
  }

  lemma RetiringStep(s: State, a: Aid, x: Act, b: Aid, y: Act, h: Handle)
    requires Retiring(s, a, x, b, y, h) && !y.Dealloc?
    ensures var t := Step(s, b, Retire(h));
            && ActOf(t, b) == Onwards(y, h) && h in t.services
            && (y.Idle? ==> t.services[h].registered && t.services[h].holders == {})
            && (y.RetireReq? ==> !t.services[h].registered && t.services[h].holders == {b})
  {
    Facts(s, b, h);
    hide Inv;
    hide QueueInv;
    hide RolesInv;
    hide NoDup;
    hide Msgs;
    hide InHand;
  }

  /** From every state of every run in which a launcher is about to use the context of `h` that
      only the handle table refers to, another activity that retires `h` makes it a fault. */
  lemma RetireFaults(run: seq<State>, a: Aid, b: Aid, h: Handle) returns (longer: seq<State>)
    requires IsRun(run) && var s := run[|run| - 1];
             !s.fault && Uses(ActOf(s, a), h) && ActOf(s, b) == Idle && Registered(s, h) && s.services[h].holders == {}
    ensures IsRun(longer) && run <= longer && |longer| == |run| + 6 && longer[|run| + 5].fault
  {
    hide *;
    NotEmpty(run);
    longer := run;
    var x, y: Act := ActOf(run[|run| - 1], a), Idle;
    RunKeeps(run, |run| - 1);
    RetiringStarts(run[|run| - 1], a, x, b, h);
    assert |longer| == |run| + Way(y);
    while !y.Dealloc?
      invariant IsRun(longer) && run <= longer && !longer[|longer| - 1].fault
      invariant Retiring(longer[|longer| - 1], a, x, b, y, h) && |longer| == |run| + Way(y)
      decreases 4 - Way(y)
    {
      RetiringIs(longer[|longer| - 1], a, x, b, y, h);
      WayOn(y, h);
      RetiringOn(longer[|longer| - 1], a, x, b, y, h);
      Extended(longer, b, Retire(h));
      longer, y := longer + [Step(longer[|longer| - 1], b, Retire(h))], Onwards(y, h);
    }
    RetiringIs(longer[|longer| - 1], a, x, b, y, h);
    Extended(longer, b, Retire(h));
    LastUse(longer[|longer| - 1], a, x, b, y, h);
    longer := longer + [Step(longer[|longer| - 1], b, Retire(h))];
    Extended(longer, a, Retire(h));
    longer := longer + [Step(longer[|longer| - 1], a, Retire(h))];
  }

  lemma RetiringStarts(s: State, a: Aid, x: Act, b: Aid, h: Handle)
    requires Inv(s) && ActOf(s, a) == x && Uses(x, h) && ActOf(s, b) == Idle
    requires Registered(s, h) && s.services[h].holders == {}
    ensures Retiring(s, a, x, b, Idle, h) && Way(Idle) == 0
  {
  }

  /** How many steps of the way are done. */
  function Way(y: Act): int {
    match y
    case Idle => 0
    case RetireReq(_) => 1
    case Rel(_, _) => 2
    case Del(_, _) => 3
    case _ => 4
  }

  lemma WayOn(y: Act, h: Handle)
    requires y.Idle? || y.RetireReq? || y.Rel? || y.Del?
    ensures Way(y) < 4 && Way(Onwards(y, h)) == Way(y) + 1
  {
  }

  lemma RetiringIs(s: State, a: Aid, x: Act, b: Aid, y: Act, h: Handle)
    requires Retiring(s, a, x, b, y, h)
    ensures y.Idle? || y.RetireReq? || y.Rel? || y.Del? || (y.Dealloc? && Way(y) == 4)
  {
  }

  /** The context is freed, and used. */
  lemma LastUse(s: State, a: Aid, x: Act, b: Aid, y: Act, h: Handle)
    requires Retiring(s, a, x, b, y, h) && y.Dealloc?
    ensures var t := Step(s, b, Retire(h)); !t.fault && Step(t, a, Retire(h)).fault
  {
    var t := Step(s, b, Retire(h));
    StepKeeps(s, b, Retire(h));
    OthersStay(s, b, h, a);
    Facts(s, b, h);
    SoundClear(t);
    assert UsesFreed(t, a, Retire(h));
    hide Step;
    InvIs(t);
    StepKeeps(t, a, Retire(h));
  }

  /** A launcher at work, with nobody else around. */
  function LaunchState(x: Act): State {
    var holds := x.Make? || x.Init? || x.Rel?;
    var v := Service(true, if holds then 2 else 1, !holds && !x.SetInit?, !x.Make?, Live,
                     if holds then {0} else {}, Queue([], true, false), false,
                     if x.Report? || x.Reply? then InList else By(0), [], [], 0, 0);
    State(map[1 := v], 2, if x.Report? || x.Reply? then [1] else [], map[0 := x], false)
  }

  function LaunchRun(): seq<State> {
    [Start(), LaunchState(Make(1)), LaunchState(Init(1)), LaunchState(Rel(1, KPublish(1))), LaunchState(SetInit(1)),
     LaunchState(Publish(1, true)), LaunchState(Report(1)), LaunchState(Reply(1))]
  }

  lemma LaunchIsRun()
    ensures IsRun(LaunchRun())
  {
    hide Step;
    LaunchCreates();
    LaunchReleases();
    LaunchInits();
    LaunchPublishes();
    LaunchReports();
    var run := LaunchRun();
    forall k {:trigger run[k]} | 0 <= k < |run| - 1 ensures Follows(run[k], run[k + 1]) {
      assert k == 0 || k == 1 || k == 2 || k == 3 || k == 4 || k == 5 || k == 6;
    }
  }

  lemma LaunchCreates()
    ensures Step(Start(), 0, Create) == LaunchState(Make(1))
    ensures Step(LaunchState(Make(1)), 0, Create) == LaunchState(Init(1))
    ensures Step(LaunchState(Init(1)), 0, InitReturns(true)) == LaunchState(Rel(1, KPublish(1)))
  {
  }

  lemma LaunchReleases()
    ensures Step(LaunchState(Rel(1, KPublish(1))), 0, Create) == LaunchState(SetInit(1))
  {
    var r := LaunchState(Rel(1, KPublish(1)));
    assert ActOf(r, 0) == Rel(1, KPublish(1)) && r.services[1].holders - {0} == {};
    assert StepRel(r, 0, 1, KPublish(1)).services == LaunchState(SetInit(1)).services;
  }

  lemma LaunchInits()
    ensures Step(LaunchState(SetInit(1)), 0, Create) == LaunchState(Publish(1, true))
  {
  }

  lemma LaunchPublishes()
    ensures Step(LaunchState(Publish(1, true)), 0, Create) == LaunchState(Report(1))
  {
  }

  lemma LaunchReports()
    ensures Step(LaunchState(Report(1)), 0, Create) == LaunchState(Reply(1))
  {
  }

  /** Each of the three uses can be of a freed context: a launch of the first service, which
      activity 1 retires just before the use. */
  lemma LaunchFaults(k: nat) returns (run: seq<State>)
    requires k == 4 || k == 6 || k == 7
    ensures IsRun(run) && |run| == k + 7 && run[..k + 1] == LaunchRun()[..k + 1] && run[k + 6].fault
    ensures ActOf(run[k], 0) == if k == 4 then SetInit(1) else if k == 6 then Report(1) else Reply(1)
  {
    hide *;
    var start := LaunchStart(k);
    run := RetireFaults(start, 0, 1, 1);
    assert run[k] == start[k] && run[..k + 1] == start;
  }

  lemma LaunchStart(k: nat) returns (start: seq<State>)
    requires k == 4 || k == 6 || k == 7
    ensures |LaunchRun()| == 8 && start == LaunchRun()[..k + 1] && IsRun(start)
    ensures var s, x := start[k], if k == 4 then SetInit(1) else if k == 6 then Report(1) else Reply(1);
            && ActOf(s, 0) == x && Uses(x, 1) && ActOf(s, 1) == Idle
            && !s.fault && Registered(s, 1) && s.services[1].holders == {}
  {
    hide Step;
    LaunchIsRun();
    start := LaunchRun()[..k + 1];
    forall j {:trigger start[j]} | 0 <= j < |start| - 1 ensures Follows(start[j], start[j + 1]) {
      assert Follows(LaunchRun()[j], LaunchRun()[j + 1]);
    }
    hide Follows;
    assert start[k] == LaunchRun()[k];
  }

  ghost predicate Owned(s: State, h: Handle) { exists a {:trigger ActOf(s, a)} :: Owns(ActOf(s, a), h) }

  /** A queue is in one place of the global list, or with one activity, or idle: idle
      exactly when it is empty, unmarked and live, or already freed. */
  lemma OneOwner(run: seq<State>, n: nat, h: Handle)
    requires IsRun(run) && n < |run| && h in run[n].services
    ensures var s, v := run[n], run[n].services[h];
            && (forall i, j :: 0 <= i < j < |s.global| ==> s.global[i] != s.global[j])
            && (forall a, b :: Owns(ActOf(s, a), h) && Owns(ActOf(s, b), h) ==> a == b)
            && !(h in s.global && Owned(s, h))
            && (h !in s.global && !Owned(s, h) <==> v.freed || (!v.queue.inGlobal && !v.queue.release))
            && (h !in s.global && !Owned(s, h) ==> v.queue.msgs == [])
  {
    RunKeeps(run, n);
    var s := run[n];
    assert RolesInv(s, h);
    if s.services[h].owner.By? { assert Owns(ActOf(s, s.services[h].owner.a), h); }
  }

  /** No two activities run the same service, and none runs it while it is initialised. */
  lemma NoParallelDispatch(run: seq<State>, n: nat, a: Aid, b: Aid, h: Handle)
    requires IsRun(run) && n < |run|
    requires var x := ActOf(run[n], a); x.Busy? && x.q == h
    requires var y := ActOf(run[n], b);
             || (y.Busy? && y.q == h) || y == Make(h) || y == Init(h) || y == Rel(h, KPublish(h)) || y == SetInit(h)
             || (y.Publish? && y.q == h)
    ensures a == b
  {
    RunKeeps(run, n);
    assert ActInv(run[n], ActOf(run[n], a));
    assert RolesInv(run[n], h);
    assert Owns(ActOf(run[n], a), h) && Owns(ActOf(run[n], b), h);
  }

  /** Messages leave a queue in the order in which they entered it, each one once: what
      was finished, what is running and what waits make up exactly what was pushed. */
  lemma DeliveredInOrder(run: seq<State>, n: nat, h: Handle)
    requires IsRun(run) && n < |run| && h in run[n].services
    ensures var s, v := run[n], run[n].services[h];
            && v.pushed == Msgs(v.log) + InHand(s, h) + v.queue.msgs
            && Msgs(v.log) <= v.pushed
            && (v.freed ==> Msgs(v.log) == v.pushed)
            && (h !in s.global && !Owned(s, h) ==> Msgs(v.log) == v.pushed)
  {
    RunKeeps(run, n);
    assert RolesInv(run[n], h);
    OneOwner(run, n, h);
    var s, v := run[n], run[n].services[h];
    assert v.owner.By? ==> Owns(ActOf(s, v.owner.a), h);
    if h !in s.global && !Owned(s, h) {
      assert !v.owner.By?;
    }
  }

  /** A context is freed at most once and only when the handle table and every activity
      have given it up; its queue is freed at most once, marked and with no owner left. */
  lemma FreedOnce(run: seq<State>, n: nat, h: Handle)
    requires IsRun(run) && n < |run| && h in run[n].services
    ensures var s, v := run[n], run[n].services[h];
            && v.ctxFrees <= 1 && v.queueFrees <= 1
            && (v.registered || (exists a {:trigger ActOf(s, a)} :: Holds(ActOf(s, a), h)) ==>
                 v.ctxFrees == 0 && !v.freed)
            && (v.queueFrees == 1 ==> v.queue.release && v.queue.msgs == [] && h !in s.global && !Owned(s, h))
            && (h in s.global || Owned(s, h) ==> v.queueFrees == 0)
  {
    RunKeeps(run, n);
    var s := run[n];
    assert RolesInv(s, h);
    assert forall a {:trigger ActOf(s, a)} :: a in s.services[h].holders <==> Holds(ActOf(s, a), h);
  }

  /** How a service may change later in a run: its histories only grow; once its queue is
      marked nothing is pushed and what is left is dropped; before that nothing is
      dropped; a freed queue never changes; a retired handle never comes back. */
  ghost predicate Grows(v: Service, w: Service) {
    && v.pushed <= w.pushed && v.log <= w.log && v.ctxFrees <= w.ctxFrees && v.queueFrees <= w.queueFrees
    && (v.queue.release ==> w.queue.release && w.pushed == v.pushed)
    && (v.freed ==> w.freed && w.log == v.log && w.queue == v.queue)
    && (w.registered ==> v.registered)
    && (forall i :: |v.log| <= i < |w.log| ==>
          (v.queue.release ==> w.log[i].fate.Dropped?) && (!w.queue.release ==> !w.log[i].fate.Dropped?))
  }

  lemma GrowsRefl(v: Service)
    ensures Grows(v, v)
  {
  }

  ghost predicate GrowsIn(s: State, t: State, h: Handle) {
    h in s.services && h in t.services && Grows(s.services[h], t.services[h])
  }

  lemma DelGrows(s: State, a: Aid, q: Handle, k: Cont, h: Handle)
    requires Inv(s) && q in s.services && h in s.services && ActOf(s, a) == Del(q, k)
    ensures GrowsIn(s, StepDel(s, a, q, k), h)
  {
    StepFacts(s, a, Dispatch, q);
    hide Inv;
  }

  lemma LoopGrows(s: State, a: Aid, q: Handle, h: Handle)
    requires Inv(s) && q in s.services && h in s.services && ActOf(s, a) == Loop(q)
    ensures GrowsIn(s, StepLoop(s, a, q), h)
  {
    StepFacts(s, a, Dispatch, q);
    hide Inv;
  }

  /** Steps that leave the queue and the histories alone. */
  predicate Beside(v: Service, w: Service) {
    && w.queue == v.queue && w.pushed == v.pushed && w.log == v.log && w.freed == v.freed
    && w.queueFrees == v.queueFrees && v.ctxFrees <= w.ctxFrees && (w.registered ==> v.registered)
  }

  lemma GrowsBeside(v: Service, w: Service)
    requires Beside(v, w)
    ensures Grows(v, w)
  {
  }

  /** One more message is finished or dropped. */
  lemma GrowsLog(v: Service, w: Service, e: Logged)
    requires w == v.(queue := w.queue, log := v.log + [e]) && w.queue.release == v.queue.release && !v.freed
    requires v.queue.release <==> e.fate.Dropped?
    ensures Grows(v, w)
  {
  }

  /** What the invariant rules out for the activity that steps. */
  lemma StepFacts(s: State, a: Aid, c: Choice, h: Handle)
    requires Inv(s) && h in s.services
    ensures var x, v := ActOf(s, a), s.services[h];
            && h != s.next && !s.fault
            && (!x.SetInit? && !x.Report? && !x.Reply? && !SendsEarly(s, a) ==> !Step(s, a, c).fault)
            && (v.freed ==> !Owns(x, h)) && (v.queue.release ==> !Holds(x, h))
            && (x.Drain? && x.q == h ==> v.queue.release)
            && (Deletes(x, h) ==> !v.registered && !v.freed)
  {
    hide RolesInv;
    assert h < s.next;
    Facts(s, a, h);
    StepKeeps(s, a, c);
    hide Step;
  }

  lemma BusyGrows(s: State, a: Aid, q: Handle, m: Message, c: Choice, h: Handle)
    requires Inv(s) && q in s.services && h in s.services && ActOf(s, a) == Busy(q, m)
    ensures GrowsIn(s, StepBusy(s, a, q, m, c), h)
  {
    StepFacts(s, a, c, q);
    GrowsRefl(s.services[h]);
    hide Inv;
    hide Grows;
    if c.Return? && h == q {
      var v, w := s.services[q], StepBusy(s, a, q, m, c).services[q];
      GrowsLog(v, w, w.log[|v.log|]);
    }
  }

  lemma DrainGrows(s: State, a: Aid, q: Handle, k: Cont, h: Handle)
    requires Inv(s) && q in s.services && h in s.services && ActOf(s, a) == Drain(q, k)
    ensures GrowsIn(s, StepDrain(s, a, q, k), h)
  {
    StepFacts(s, a, Dispatch, q);
    GrowsRefl(s.services[h]);
    hide Inv;
    var v, w := s.services[q], StepDrain(s, a, q, k).services[q];
    if v.queue.msgs != [] && h == q { GrowsLog(v, w, w.log[|v.log|]); }
  }

  lemma FreeGrows(s: State, a: Aid, q: Handle, k: Cont, h: Handle)
    requires Inv(s) && q in s.services && h in s.services && ActOf(s, a) == Free(q, k)
    ensures GrowsIn(s, StepFree(s, a, q, k), h)
  {
    StepFacts(s, a, Dispatch, q);
    hide Inv;
    hide Resume;
  }

  lemma SendPushGrows(s: State, a: Aid, q: Handle, m: Message, h: Handle)
    requires Inv(s) && q in s.services && h in s.services && ActOf(s, a) == SendPush(q, m)
    ensures GrowsIn(s, StepSendPush(s, a, q, m), h)
  {
    StepFacts(s, a, Dispatch, q);
    hide Inv;
  }

  ghost predicate BesideIn(s: State, t: State, h: Handle) {
    h in s.services && h in t.services && Beside(s.services[h], t.services[h])
  }

  lemma EnlistBeside(s: State, q: Handle, h: Handle)
    requires h in s.services
    ensures BesideIn(s, Enlist(s, q), h)
  {
  }

  lemma DelistBeside(s: State, a: Aid, h: Handle)
    requires h in s.services && s.global != []
    ensures BesideIn(s, Delist(s, a), h)
  {
  }

  lemma GrabBeside(s: State, a: Aid, g: Handle, h: Handle)
    requires h in s.services && Registered(s, g)
    ensures BesideIn(s, Grab(s, a, g), h)
  {
  }

  lemma UnregisterBeside(s: State, a: Aid, g: Handle, h: Handle)
    requires h in s.services && Registered(s, g)
    ensures BesideIn(s, Unregister(s, a, g), h)
  {
  }

  lemma RelBeside(s: State, a: Aid, q: Handle, k: Cont, h: Handle)
    requires h in s.services
    ensures BesideIn(s, StepRel(s, a, q, k), h)
  {
    hide Resume;
    hide Returned;
  }

  lemma DeallocBeside(s: State, a: Aid, q: Handle, k: Cont, h: Handle)
    requires h in s.services
    ensures BesideIn(s, StepDealloc(s, a, q, k), h)
  {
    hide Resume;
  }

  lemma SetInitBeside(s: State, a: Aid, q: Handle, h: Handle)
    requires h in s.services
    ensures BesideIn(s, StepSetInit(s, a, q), h)
  {
  }

  lemma IdleBeside(s: State, a: Aid, c: Choice, h: Handle)
    requires h in s.services && h != s.next
    ensures BesideIn(s, StepIdle(s, a, c), h)
  {
  }

  lemma AloneGrows(s: State, a: Aid, c: Choice, h: Handle)
    requires Inv(s) && h in s.services
    requires var x := ActOf(s, a);
             x.Idle? || x.Make? || x.Init? || x.SetInit? || x.Report? || x.Reply? || x.Rel? || x.Dealloc?
    ensures BesideIn(s, Step(s, a, c), h)
  {
    hide StepRel;
    hide StepDealloc;
    hide StepSetInit;
    hide StepIdle;
    hide RolesInv;
    hide ContextInv;
    hide QueueInv;
    hide ActInv;
    hide NoDup;
    assert h != s.next;
    match ActOf(s, a)
    case Rel(q, k) => RelBeside(s, a, q, k, h);
    case Dealloc(q, k) => DeallocBeside(s, a, q, k, h);
    case SetInit(q) => SetInitBeside(s, a, q, h);
    case Idle => IdleBeside(s, a, c, h);
    case _ =>
  }

  /** Steps that can only touch the registration, references, owner and phase of `h`. */
  lemma BesideGrows(s: State, a: Aid, c: Choice, h: Handle)
    requires Inv(s) && h in s.services
    requires var x := ActOf(s, a); !x.Busy? && !x.Drain? && !x.SendPush? && !x.Loop? && !x.Free? && !x.Del?
    ensures BesideIn(s, Step(s, a, c), h)
  {
    hide Inv;
    hide Enlist;
    hide Delist;
    hide Grab;
    hide Unregister;
    hide Registered;
    hide Resume;
    hide Returned;
    StepFacts(s, a, c, h);
    match ActOf(s, a)
    case Own(q) => if Registered(s, q) { GrabBeside(s, a, q, h); }
    case MqRelease(q, k) => EnlistBeside(s, q, h);
    case PopNext => if s.global != [] { DelistBeside(s, a, h); }
    case Done(q) => if s.global != [] { DelistBeside(s, a, h); }
    case PushBack(q, nq) => EnlistBeside(s, q, h);
    case SendGrab(g, m) => if Registered(s, g) { GrabBeside(s, a, g, h); }
    case RetireReq(g) => if Registered(s, g) { UnregisterBeside(s, a, g, h); }
    case Publish(q, _) => EnlistBeside(s, q, h);
    case FailRetire(q) => if Registered(s, q) { UnregisterBeside(s, a, q, h); }
    case _ => AloneGrows(s, a, c, h);
  }

  lemma StepGrows(s: State, a: Aid, c: Choice, h: Handle)
    requires Inv(s) && h in s.services
    ensures GrowsIn(s, Step(s, a, c), h)
  {
    StepServices(s, a);
    hide *;
    match ActOf(s, a)
    case Busy(q, m) => StepIs(s, a, c); BusyGrows(s, a, q, m, c, h);
    case Drain(q, k) => StepIs(s, a, c); DrainGrows(s, a, q, k, h);
    case SendPush(q, m) => StepIs(s, a, c); SendPushGrows(s, a, q, m, h);
    case Loop(q) => StepIs(s, a, c); LoopGrows(s, a, q, h);
    case Free(q, k) => StepIs(s, a, c); FreeGrows(s, a, q, k, h);
    case Del(q, k) => StepIs(s, a, c); DelGrows(s, a, q, k, h);
    case _ =>
      BesideGrows(s, a, c, h);
      BesideInGrows(s, Step(s, a, c), h);
  }

  lemma BesideInGrows(s: State, t: State, h: Handle)
    requires BesideIn(s, t, h)
    ensures GrowsIn(s, t, h)
  {
    GrowsBeside(s.services[h], t.services[h]);
  }

  lemma StepIs(s: State, a: Aid, c: Choice)
    ensures var x, t := ActOf(s, a), Step(s, a, c);
            && (x.Busy? ==> t == StepBusy(s, a, x.q, x.m, c))
            && (x.Drain? ==> t == StepDrain(s, a, x.q, x.k))
            && (x.SendPush? ==> t == StepSendPush(s, a, x.h, x.m))
            && (x.Loop? ==> t == StepLoop(s, a, x.q))
            && (x.Free? ==> t == StepFree(s, a, x.q, x.k))
            && (x.Del? ==> t == StepDel(s, a, x.h, x.k))
  {
    hide StepBusy;
    hide StepDrain;
    hide StepSendPush;
    hide StepLoop;
    hide StepFree;
    hide StepDel;
  }

  /** The service that an activity works on exists. */
  lemma StepServices(s: State, a: Aid)
    requires Inv(s)
    ensures var x := ActOf(s, a);
            && (x.Busy? || x.Drain? || x.Loop? || x.Free? ==> x.q in s.services)
            && (x.SendPush? || x.Del? ==> x.h in s.services)
  {
    ActFacts(s, a);
    hide Inv;
  }

  lemma GrowsOnce(run: seq<State>, n: nat, h: Handle)
    requires IsRun(run) && n + 1 < |run| && h in run[n].services
    ensures GrowsIn(run[n], run[n + 1], h)
  {
    RunKeeps(run, n);
    hide Inv;
    hide Grows;
    hide Step;
    assert 0 <= n < |run| - 1;
    var a, c :| run[n + 1] == Step(run[n], a, c);
    StepGrows(run[n], a, c, h);
  }

  lemma GrowsTrans(u: Service, v: Service, w: Service)
    requires Grows(u, v) && Grows(v, w)
    ensures Grows(u, w)
  {
    assert u.log <= w.log by { assert v.log == w.log[..|v.log|]; }
    assert u.pushed <= w.pushed;
    forall i | |u.log| <= i < |w.log|
      ensures u.queue.release ==> w.log[i].fate.Dropped?
      ensures !w.queue.release ==> !w.log[i].fate.Dropped?
    {
      if i < |v.log| { assert w.log[i] == v.log[i]; }
    }
  }

  lemma GrowsInIs(s: State, t: State, h: Handle)
    ensures GrowsIn(s, t, h) <==> h in s.services && h in t.services && Grows(s.services[h], t.services[h])
  {
  }

  lemma {:induction false} GrowsOver(run: seq<State>, m: nat, n: nat, h: Handle)
    requires IsRun(run) && m <= n < |run| && h in run[m].services
    ensures h in run[n].services && Grows(run[m].services[h], run[n].services[h])
  {
    hide *;
    if m == n {
      GrowsRefl(run[m].services[h]);
    } else {
      GrowsOver(run, m, n - 1, h);
      GrowsOnce(run, n - 1, h);
      GrowsInIs(run[n - 1], run[n], h);
      GrowsTrans(run[m].services[h], run[n - 1].services[h], run[n].services[h]);
    }
  }
}
