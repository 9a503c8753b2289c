/** Nothing is left over: from every state of every run the queue of a service that is gone can be
    freed, with every message of it accounted for. */
module SchedulerReclaim {
  import opened Queues
  import opened MessageQueues
  import opened Scheduler
  import opened SchedulerProof
  import opened SchedulerRuns
  import opened SchedulerDelivery

  /** The queue of `h` is marked and not freed yet, and worker `d` owns it or may take it out of the list. */
  ghost predicate Clears(s: State, d: Aid, h: Handle) {
    && Inv(s) && h in s.services && s.services[h].queue.release && !s.services[h].freed && Worker(ActOf(s, d))
    && (s.services[h].owner == InList || s.services[h].owner == By(d))
  }

  /** What the invariant says about worker and service. */
  ghost predicate Visibly(s: State, d: Aid, h: Handle) {
    && h in s.services && Worker(ActOf(s, d)) && !s.fault && NoDup(s.global)
    && var v, x := s.services[h], ActOf(s, d);
       && !v.registered && v.queue.release && !v.freed && !v.phase.Live?
       && (h in s.global <==> v.owner == InList) && (Owns(x, h) <==> v.owner == By(d)) && (h in s.global || Owns(x, h))
       && !Holds(x, h) && !Deletes(x, h) && (x.Free? && x.q == h ==> v.queue.msgs == [])
  }

  lemma ClearsVisibly(s: State, d: Aid, h: Handle)
    requires Clears(s, d, h)
    ensures Visibly(s, d, h)
  {
    Facts(s, d, h);
    hide Inv;
    hide RolesInv;
    hide Msgs;
    hide InHand;
  }

  /** The worker is nearer to the end of the queue. */
  predicate Sooner(s: State, t: State, d: Aid, h: Handle) {
    var x, y := ActOf(s, d), ActOf(t, d);
    var f, f' := Far(s, h), Far(t, h);
    f' < f || (f' == f &&
      (Stage(y) < Stage(x) || (Stage(y) == Stage(x) && ToDrain(t, y) < ToDrain(s, x))))
  }

  /** The step leads on: the queue is freed, or the worker is nearer to that. */
  ghost predicate Shrinks(s: State, t: State, d: Aid, h: Handle) {
    && h in s.services && h in t.services && Worker(ActOf(t, d))
    && var v, w := s.services[h], t.services[h];
       && w.queue.release && w.pushed == v.pushed
       && (w.freed || (Sooner(s, t, d, h) && (w.owner == InList || w.owner == By(d))))
  }

  lemma PopNextShrinks(s: State, d: Aid, h: Handle)
    requires Visibly(s, d, h) && ActOf(s, d) == PopNext && !StepPopNext(s, d).fault
    ensures Shrinks(s, StepPopNext(s, d), d, h)
  {
    assert h in s.global;
    var g := s.global[0];
    assert g != h ==> h in s.global[1..];
    forall i | 0 < i < |s.global| ensures s.global[i] != s.global[0] { }
  }

  lemma OwnShrinks(s: State, d: Aid, h: Handle, q: Handle)
    requires Visibly(s, d, h) && ActOf(s, d) == Own(q) && !StepOwn(s, d, q).fault
    ensures Shrinks(s, StepOwn(s, d, q), d, h)
  {
  }

  lemma MqReleaseShrinks(s: State, d: Aid, h: Handle, q: Handle, k: Cont)
    requires Visibly(s, d, h) && ActOf(s, d) == MqRelease(q, k) && !StepMqRelease(s, d, q, k).fault
    ensures Shrinks(s, StepMqRelease(s, d, q, k), d, h)
  {
    if h in s.global { AtEnd(s.global, q, h); }
  }

  lemma DrainShrinks(s: State, d: Aid, h: Handle, q: Handle, k: Cont)
    requires Visibly(s, d, h) && ActOf(s, d) == Drain(q, k) && !StepDrain(s, d, q, k).fault
    ensures Shrinks(s, StepDrain(s, d, q, k), d, h)
  {
  }

  lemma FreeShrinks(s: State, d: Aid, h: Handle, q: Handle, k: Cont)
    requires Visibly(s, d, h) && ActOf(s, d) == Free(q, k) && !StepFree(s, d, q, k).fault
    ensures Shrinks(s, StepFree(s, d, q, k), d, h)
  {
  }

  lemma LoopShrinks(s: State, d: Aid, h: Handle, q: Handle)
    requires Visibly(s, d, h) && ActOf(s, d) == Loop(q) && !StepLoop(s, d, q).fault
    ensures Shrinks(s, StepLoop(s, d, q), d, h)
  {
  }

  lemma BusyShrinks(s: State, d: Aid, h: Handle, q: Handle, m: Message)
    requires Visibly(s, d, h) && ActOf(s, d) == Busy(q, m) && !StepBusy(s, d, q, m, Return(true, false)).fault
    ensures Shrinks(s, StepBusy(s, d, q, m, Return(true, false)), d, h)
  {
  }

  lemma DoneShrinks(s: State, d: Aid, h: Handle, q: Handle)
    requires Visibly(s, d, h) && ActOf(s, d) == Done(q) && !StepDone(s, d, q).fault
    ensures Shrinks(s, StepDone(s, d, q), d, h)
  {
    if s.global != [] {
      var g := s.global[0];
      assert h in s.global && g != h ==> h in s.global[1..];
      forall i | 0 < i < |s.global| ensures s.global[i] != s.global[0] { }
    }
  }

  lemma PushBackShrinks(s: State, d: Aid, h: Handle, q: Handle, nq: Handle)
    requires Visibly(s, d, h) && ActOf(s, d) == PushBack(q, nq) && !StepPushBack(s, d, q, nq).fault
    ensures Shrinks(s, StepPushBack(s, d, q, nq), d, h)
  {
    if h in s.global { AtEnd(s.global, q, h); }
  }

  lemma RelShrinks(s: State, d: Aid, h: Handle, g: Handle, k: Cont)
    requires Visibly(s, d, h) && ActOf(s, d) == Rel(g, k) && !StepRel(s, d, g, k).fault
    ensures Shrinks(s, StepRel(s, d, g, k), d, h)
  {
  }

  lemma DelShrinks(s: State, d: Aid, h: Handle, g: Handle, k: Cont)
    requires Visibly(s, d, h) && ActOf(s, d) == Del(g, k) && !StepDel(s, d, g, k).fault
    ensures Shrinks(s, StepDel(s, d, g, k), d, h)
  {
    if h in s.global { AtEnd(s.global, g, h); }
  }

  lemma DeallocShrinks(s: State, d: Aid, h: Handle, g: Handle, k: Cont)
    requires Visibly(s, d, h) && ActOf(s, d) == Dealloc(g, k) && !StepDealloc(s, d, g, k).fault
    ensures Shrinks(s, StepDealloc(s, d, g, k), d, h)
  {
  }

  lemma StepShrinks(s: State, d: Aid, h: Handle)
    requires Clears(s, d, h) && !Step(s, d, Return(true, false)).fault
    ensures Shrinks(s, Step(s, d, Return(true, false)), d, h)
  {
    ClearsVisibly(s, d, h);
    StepOfWorker(s, d, Return(true, false));
    hide *;
    match ActOf(s, d)
    case PopNext => PopNextShrinks(s, d, h);
    case Own(q) => OwnShrinks(s, d, h, q);
    case MqRelease(q, k) => MqReleaseShrinks(s, d, h, q, k);
    case Drain(q, k) => DrainShrinks(s, d, h, q, k);
    case Free(q, k) => FreeShrinks(s, d, h, q, k);
    case Loop(q) => LoopShrinks(s, d, h, q);
    case Busy(q, m) => BusyShrinks(s, d, h, q, m);
    case Done(q) => DoneShrinks(s, d, h, q);
    case PushBack(q, nq) => PushBackShrinks(s, d, h, q, nq);
    case Rel(g, k) => RelShrinks(s, d, h, g, k);
    case Del(g, k) => DelShrinks(s, d, h, g, k);
    case Dealloc(g, k) => DeallocShrinks(s, d, h, g, k);
  }

  lemma ClearOn(s: State, d: Aid, h: Handle)
    requires Clears(s, d, h)
    ensures var t := Step(s, d, Return(true, false));
            !t.fault && Shrinks(s, t, d, h) && (t.services[h].freed || Clears(t, d, h))
  {
    hide Step;
    hide Inv;
    var c := Return(true, false);
    StepOfWorker(s, d, c);
    StepKeeps(s, d, c);
    SoundClear(Step(s, d, c));
    InvIs(Step(s, d, c));
    StepShrinks(s, d, h);
    hide *;
    ShrinksClears(s, Step(s, d, c), d, h);
  }

  lemma ShrinksClears(s: State, t: State, d: Aid, h: Handle)
    requires Shrinks(s, t, d, h) && Inv(t)
    ensures h in t.services && t.services[h].pushed == s.services[h].pushed
    ensures t.services[h].freed || (Clears(t, d, h) && Sooner(s, t, d, h))
  {
    hide Inv;
    hide Sooner;
  }

  lemma SoonerIs(s: State, t: State, d: Aid, h: Handle)
    requires Sooner(s, t, d, h)
    ensures var x, y := ActOf(s, d), ActOf(t, d);
            var f, f' := Far(s, h), Far(t, h);
            f' < f || (f' == f &&
              (Stage(y) < Stage(x) || (Stage(y) == Stage(x) && ToDrain(t, y) < ToDrain(s, x))))
  {
  }

  lemma ClearsIs(s: State, d: Aid, h: Handle)
    requires Clears(s, d, h)
    ensures h in s.services && !s.fault
  {
    NoFault(s);
  }

  lemma {:induction false} Cleared(run: seq<State>, d: Aid, h: Handle) returns (longer: seq<State>)
    requires IsRun(run) && |run| > 0 && Clears(Last(run), d, h)
    ensures IsRun(longer) && run <= longer && h in Last(longer).services && !Last(longer).fault
    ensures var v, w := Last(run).services[h], Last(longer).services[h]; w.pushed == v.pushed && w.freed
    decreases Far(Last(run), h), Stage(ActOf(Last(run), d)), ToDrain(Last(run), ActOf(Last(run), d))
  {
    hide *;
    var s := Last(run);
    ClearsIs(s, d, h);
    ClearOn(s, d, h);
    longer := Stepped(run, d, Return(true, false));
    var t := Last(longer);
    ShrinksIs(s, t, d, h);
    if !t.services[h].freed {
      SoonerIs(s, t, d, h);
      longer := Cleared(longer, d, h);
    }
  }

  lemma ShrinksIs(s: State, t: State, d: Aid, h: Handle)
    requires Shrinks(s, t, d, h)
    ensures h in s.services && h in t.services && t.services[h].pushed == s.services[h].pushed
    ensures t.services[h].freed || Sooner(s, t, d, h)
  {
    hide Sooner;
  }

  /** The queue of an initialised service that is gone is in the list, or with a worker, or about to
      be published. */
  lemma WhoHas(s: State, h: Handle)
    requires Inv(s) && Settled(s, h) && h in s.services
    requires s.services[h].init && s.services[h].queue.release && !s.services[h].freed
    ensures var o := s.services[h].owner;
            o == InList || (o.By? && (Clears(s, o.a, h) || (Owns(ActOf(s, o.a), h) && ActOf(s, o.a).Publish?)))
  {
    assert QueueInv(s.services[h]) && RolesInv(s, h);
    var o := s.services[h].owner;
    if o.By? { assert Owns(ActOf(s, o.a), h); }
    hide RolesInv;
    hide QueueInv;
  }

  /** An initialised service with a marked queue. */
  ghost predicate Marked(s: State, h: Handle, v: Service) {
    Inv(s) && h in s.services && var w := s.services[h]; w.init && w.queue.release && !w.freed && w.pushed == v.pushed
  }

  lemma PublishOn(s: State, x: Aid, h: Handle, v: Service)
    requires Marked(s, h, v) && s.services[h].owner == By(x) && Owns(ActOf(s, x), h) && ActOf(s, x).Publish?
    ensures var t := Step(s, x, Create); Marked(t, h, v) && t.services[h].owner == InList && !s.fault
  {
    Facts(s, x, h);
    StepKeeps(s, x, Create);
    SoundClear(Step(s, x, Create));
    InvIs(Step(s, x, Create));
    hide Inv;
    hide RolesInv;
    hide Msgs;
    hide InHand;
  }

  lemma DispatchOn(s: State, b: Aid, h: Handle, v: Service)
    requires Marked(s, h, v) && s.services[h].owner == InList && ActOf(s, b) == Idle
    ensures var t := Step(s, b, Dispatch); Clears(t, b, h) && Marked(t, h, v) && !s.fault
  {
    StepKeeps(s, b, Dispatch);
    SoundClear(Step(s, b, Dispatch));
    InvIs(Step(s, b, Dispatch));
    hide Inv;
    hide RolesInv;
  }

  lemma MarkedIs(s: State, h: Handle, v: Service)
    requires Marked(s, h, v)
    ensures h in s.services && s.services[h].pushed == v.pushed && Inv(s)
    ensures s.services[h].init && s.services[h].queue.release && !s.services[h].freed
  {
    hide Inv;
  }

  lemma MarkedNow(s: State, h: Handle)
    requires Inv(s) && h in s.services
    requires var w := s.services[h]; w.init && w.queue.release && !w.freed
    ensures Marked(s, h, s.services[h])
  {
    hide Inv;
  }

  /** From every state of every run, the queue of an initialised service that is gone can be freed, and then
      every message that was ever pushed is logged, in order. */
  lemma Reclaimed(run: seq<State>, b: Aid, h: Handle) returns (longer: seq<State>)
    requires IsRun(run) && |run| > 0 && !Last(run).fault && ActOf(Last(run), b) == Idle && h in Last(run).services
    requires Last(run).services[h].init && Last(run).services[h].queue.release
    ensures IsRun(longer) && run <= longer && h in Last(longer).services
    ensures var v, w := Last(run).services[h], Last(longer).services[h];
            w.freed && w.pushed == v.pushed && Msgs(w.log) == v.pushed
  {
    hide *;
    LastIs(run);
    RunKeeps(run, |run| - 1);
    longer := run;
    var v := Last(run).services[h];
    if !v.freed {
      MarkedNow(Last(run), h);
      RunSettled(run, |run| - 1, h);
      WhoHas(Last(run), h);
      var d := b;
      if v.owner.By? && Clears(Last(run), v.owner.a, h) {
        d := v.owner.a;
      } else {
        if v.owner.By? {
          PublishOn(Last(run), v.owner.a, h, v);
          OthersNext(Last(run), v.owner.a, Create);
          longer := Stepped(run, v.owner.a, Create);
        }
        DispatchOn(Last(longer), b, h, v);
        longer := Stepped(longer, b, Dispatch);
      }
      MarkedIs(Last(longer), h, v);
      longer := Cleared(longer, d, h);
    }
    LastIs(longer);
    DeliveredInOrder(longer, |longer| - 1, h);
  }

  /** Activity `a` is on its way from the request to retire the idle service `h` to the end of its context. */
  ghost predicate Retires(s: State, a: Aid, h: Handle, v: Service) {
    && Inv(s) && h in s.services
    && var y, w := ActOf(s, a), s.services[h];
       && w.init && w.pushed == v.pushed
       && match y
          case Idle => (w.registered && w.holders == {}) || (w.queue.release && w.phase.Dead?)
          case RetireReq(g) => g == h && w.registered && w.holders == {}
          case Rel(g, k) => g == h && k == KIdle && !w.registered && w.holders == {a}
          case Del(g, k) => g == h && k == KIdle
          case Dealloc(g, k) => g == h && k == KIdle && w.queue.release
          case _ => false
  }

  predicate Over(s: State, a: Aid, h: Handle) { ActOf(s, a) == Idle && h in s.services && s.services[h].phase.Dead? }

  lemma RetiresOn(s: State, a: Aid, h: Handle, v: Service)
    requires Retires(s, a, h, v) && !Over(s, a, h)
    ensures var t := Step(s, a, Retire(h));
            && !s.fault && Retires(t, a, h, v)
            && (ActOf(s, a).Dealloc? <==> Over(t, a, h))
            && (!Over(t, a, h) ==> Way(ActOf(t, a)) == Way(ActOf(s, a)) + 1)
  {
    hide Step;
    hide Inv;
    hide UsesFreed;
    hide SendsEarly;
    RetiresStep(s, a, h, v);
    StepKeeps(s, a, Retire(h));
    SoundClear(Step(s, a, Retire(h)));
    InvIs(Step(s, a, Retire(h)));
  }

  lemma RetiresStep(s: State, a: Aid, h: Handle, v: Service)
    requires Retires(s, a, h, v) && !Over(s, a, h)
    ensures var y, t := ActOf(s, a), Step(s, a, Retire(h));
            && h in t.services && t.services[h].init && t.services[h].pushed == v.pushed && !s.fault
            && !UsesFreed(s, a, Retire(h)) && !SendsEarly(s, a)
            && (y.Dealloc? ==> ActOf(t, a) == Idle && t.services[h].phase.Dead? && t.services[h].queue.release)
            && (!y.Dealloc? ==> ActOf(t, a) == Onwards(y, h))
            && (y.Idle? ==> t.services[h].registered && t.services[h].holders == {})
            && (y.RetireReq? ==> !t.services[h].registered && t.services[h].holders == {a})
            && (y.Del? ==> t.services[h].queue.release)
  {
    Facts(s, a, h);
    hide Inv;
    hide QueueInv;
    hide RolesInv;
    hide NoDup;
    hide Msgs;
    hide InHand;
  }

  lemma {:induction false} RetireAll(run: seq<State>, a: Aid, b: Aid, h: Handle, v: Service)
    returns (longer: seq<State>)
    requires IsRun(run) && |run| > 0 && Retires(Last(run), a, h, v) && a != b && ActOf(Last(run), b) == Idle
    ensures IsRun(longer) && run <= longer && Retires(Last(longer), a, h, v) && Over(Last(longer), a, h)
    ensures ActOf(Last(longer), b) == Idle
    decreases if Over(Last(run), a, h) then 0 else 5 - Way(ActOf(Last(run), a))
  {
    hide Step;
    hide Inv;
    hide IsRun;
    longer := run;
    if !Over(Last(run), a, h) {
      RetiresOn(Last(run), a, h, v);
      OthersNext(Last(run), a, Retire(h));
      hide Retires;
      hide Over;
      longer := Stepped(run, a, Retire(h));
      longer := RetireAll(longer, a, b, h, v);
    }
  }

  lemma RetiresIs(s: State, a: Aid, h: Handle, v: Service)
    requires Retires(s, a, h, v) && Over(s, a, h)
    ensures h in s.services && !s.fault && s.services[h].ctxFrees == 1
    ensures var w := s.services[h]; w.init && w.pushed == v.pushed && w.queue.release
  {
    assert ContextInv(s.services[h]);
    hide RolesInv;
  }

  lemma RetiresNow(s: State, a: Aid, h: Handle)
    requires Inv(s) && ActOf(s, a) == Idle && Registered(s, h) && s.services[h].init && s.services[h].holders == {}
    ensures Retires(s, a, h, s.services[h])
  {
    hide Inv;
  }

  /** From every state of every run in which only the handle table refers to an initialised service, retiring it can
      free its context and its queue, and then every message that was ever pushed is logged, in order. */
  lemma Retired(run: seq<State>, a: Aid, b: Aid, h: Handle) returns (longer: seq<State>)
    requires IsRun(run) && |run| > 0 && !Last(run).fault && a != b
    requires var s := Last(run); ActOf(s, a) == Idle && ActOf(s, b) == Idle
    requires Registered(Last(run), h) && Last(run).services[h].init && Last(run).services[h].holders == {}
    ensures IsRun(longer) && run <= longer && h in Last(longer).services
    ensures var v, w := Last(run).services[h], Last(longer).services[h];
            w.ctxFrees == 1 && w.queueFrees == 1 && w.pushed == v.pushed && Msgs(w.log) == v.pushed
  {
    hide *;
    IsRegistered(Last(run), h);
    LastIs(run);
    RunKeeps(run, |run| - 1);
    RetiresNow(Last(run), a, h);
    var gone := RetireAll(run, a, b, h, Last(run).services[h]);
    RetiresIs(Last(gone), a, h, Last(run).services[h]);
    longer := Reclaimed(gone, b, h);
    LastIs(gone);
    LastIs(longer);
    FreesAre(gone, longer, h);
  }

  lemma FreesAre(run: seq<State>, longer: seq<State>, h: Handle)
    requires IsRun(run) && IsRun(longer) && 0 < |run| && run <= longer
    requires h in Last(run).services && h in Last(longer).services
    requires Last(run).services[h].ctxFrees == 1 && Last(longer).services[h].freed
    ensures Last(longer).services[h].ctxFrees == 1 && Last(longer).services[h].queueFrees == 1
  {
    hide IsRun;
    hide QueueInv;
    hide RolesInv;
    assert longer[|run| - 1] == Last(run);
    GrowsOver(longer, |run| - 1, |longer| - 1, h);
    RunKeeps(longer, |longer| - 1);
    FreedOnce(longer, |longer| - 1, h);
    FreedIs(Last(longer), h);
  }

  lemma FreedIs(s: State, h: Handle)
    requires Sound(s) && h in s.services && s.services[h].freed
    ensures s.services[h].queueFrees == 1
  {
    assert QueueInv(s.services[h]);
    hide RolesInv;
  }
}
