/** Messages arrive: what a send does to the queue, and that from every state of every run a message
    to an initialised service can be handled. */
module SchedulerDelivery {
  import opened Queues
  import opened MessageQueues
  import opened Scheduler
  import opened SchedulerProof
  import opened SchedulerRuns

  /** A send that does not fault puts its message at the end of the queue, and the queue is then in
      the global list or with an activity. */
  lemma SendPushes(run: seq<State>, k: nat, a: Aid, c: Choice, h: Handle, m: Message)
    requires IsRun(run) && k + 1 < |run| && run[k + 1] == Step(run[k], a, c) && !run[k + 1].fault
    requires ActOf(run[k], a) == SendPush(h, m)
    ensures h in run[k].services && h in run[k + 1].services
    ensures var v, w := run[k].services[h], run[k + 1].services[h];
            && w.pushed == v.pushed + [m] && w.queue.msgs == v.queue.msgs + [m]
            && (h in run[k + 1].global || Owned(run[k + 1], h))
  {
    Pushed(run[k], a, c, h, m);
    OneOwner(run, k + 1, h);
  }

  lemma Pushed(s: State, a: Aid, c: Choice, h: Handle, m: Message)
    requires ActOf(s, a) == SendPush(h, m) && !s.fault && !Step(s, a, c).fault
    ensures h in s.services && s.services[h].made && !s.services[h].freed
    ensures var t := Step(s, a, c);
            && h in t.services && ActOf(t, a) == Rel(h, KIdle)
            && var v, w := s.services[h], t.services[h];
               && w.pushed == v.pushed + [m] && w.queue == v.queue.Push(m) && w.log == v.log
               && w.registered == v.registered && w.made == v.made && w.init == v.init
               && w.owner == if v.queue.Enlists() then InList else v.owner
  {
  }

  // Who has the queue of an initialised service

  /** The activity is a worker that has taken a queue, or is between two queues. */
  predicate Worker(x: Act) {
    match x
    case PopNext => true
    case Own(_) => true
    case MqRelease(_, k) => k.KPopNext?
    case Drain(_, k) => k.KPopNext?
    case Free(_, k) => k.KPopNext?
    case Loop(_) => true
    case Busy(_, _) => true
    case Done(_) => true
    case PushBack(_, _) => true
    case Rel(_, k) => k.KPopNext? || k.KOwn?
    case Del(_, k) => k.KPopNext? || k.KOwn?
    case Dealloc(_, k) => k.KPopNext? || k.KOwn?
    case _ => false
  }

  /** Who owns the queue of an initialised service is a worker, or its launcher about to publish it. */
  ghost predicate Settled(s: State, h: Handle) {
    h in s.services && s.services[h].init ==>
      forall a {:trigger ActOf(s, a)} :: Owns(ActOf(s, a), h) ==> Worker(ActOf(s, a)) || ActOf(s, a).Publish?
  }

  lemma EnlistActs(s: State, h: Handle)
    ensures Enlist(s, h).acts == s.acts
  {
  }

  lemma DelistActs(s: State, a: Aid)
    requires s.global != []
    ensures Delist(s, a).acts == s.acts
  {
  }

  lemma GrabActs(s: State, a: Aid, h: Handle)
    requires Registered(s, h)
    ensures Grab(s, a, h).acts == s.acts && Unregister(s, a, h).acts == s.acts
  {
  }

  /** What a worker does. */
  lemma StepOfWorker(s: State, d: Aid, c: Choice)
    requires Worker(ActOf(s, d))
    ensures !UsesFreed(s, d, c) && !SendsEarly(s, d)
    ensures var x := ActOf(s, d);
            && !x.Idle? && !x.SendGrab? && !x.SendPush? && !x.RetireReq? && !x.Make? && !x.Init? && !x.SetInit?
            && !x.Publish? && !x.Report? && !x.Reply? && !x.FailRetire?
    ensures var x, t := ActOf(s, d), Step(s, d, c);
            && (x.PopNext? ==> t == StepPopNext(s, d)) && (x.Own? ==> t == StepOwn(s, d, x.q))
            && (x.MqRelease? ==> t == StepMqRelease(s, d, x.q, x.k)) && (x.Drain? ==> t == StepDrain(s, d, x.q, x.k))
            && (x.Free? ==> t == StepFree(s, d, x.q, x.k)) && (x.Loop? ==> t == StepLoop(s, d, x.q))
            && (x.Busy? ==> t == StepBusy(s, d, x.q, x.m, c)) && (x.Done? ==> t == StepDone(s, d, x.q))
            && (x.PushBack? ==> t == StepPushBack(s, d, x.q, x.nq)) && (x.Rel? ==> t == StepRel(s, d, x.h, x.k))
            && (x.Del? ==> t == StepDel(s, d, x.h, x.k)) && (x.Dealloc? ==> t == StepDealloc(s, d, x.h, x.k))
  {
  }

  /** What the other activities do. */
  lemma StepOfOther(s: State, a: Aid, c: Choice)
    requires !Worker(ActOf(s, a))
    ensures var x := ActOf(s, a);
            !x.PopNext? && !x.Own? && !x.Loop? && !x.Busy? && !x.Done? && !x.PushBack?
    ensures var x, t := ActOf(s, a), Step(s, a, c);
            && (x.Idle? ==> t == StepIdle(s, a, c)) && (x.MqRelease? ==> t == StepMqRelease(s, a, x.q, x.k))
            && (x.Drain? ==> t == StepDrain(s, a, x.q, x.k)) && (x.Free? ==> t == StepFree(s, a, x.q, x.k))
            && (x.SendGrab? ==> t == StepSendGrab(s, a, x.h, x.m))
            && (x.SendPush? ==> t == StepSendPush(s, a, x.h, x.m))
            && (x.RetireReq? ==> t == StepRetireReq(s, a, x.h)) && (x.Make? ==> t == StepMake(s, a, x.h))
            && (x.Init? ==> t == StepInit(s, a, x.h, c)) && (x.SetInit? ==> t == StepSetInit(s, a, x.h))
            && (x.Publish? ==> t == StepPublish(s, a, x.q, x.ret)) && (x.Report? ==> t == StepReport(s, a, x.h, c))
            && (x.Reply? ==> t == StepReply(s, a, x.h)) && (x.FailRetire? ==> t == StepFailRetire(s, a, x.q))
            && (x.Rel? ==> t == StepRel(s, a, x.h, x.k)) && (x.Del? ==> t == StepDel(s, a, x.h, x.k))
            && (x.Dealloc? ==> t == StepDealloc(s, a, x.h, x.k))
  {
  }

  /** What a step makes of a worker. */
  lemma WorkerNext(s: State, a: Aid, c: Choice)
    requires Worker(ActOf(s, a))
    ensures var y := ActOf(Step(s, a, c), a); Worker(y) || y.Idle?
  {
    hide Enlist;
    hide Delist;
    hide Grab;
    hide Unregister;
    hide Queue.Pop;
    hide Queue.MarkRelease;
    match ActOf(s, a)
    case PopNext => if s.global != [] { DelistActs(s, a); }
    case Done(q) => if s.global != [] { DelistActs(s, a); }
    case Own(q) => if Registered(s, q) { GrabActs(s, a, q); }
    case MqRelease(q, k) => EnlistActs(s, q);
    case PushBack(q, nq) => EnlistActs(s, q);
    case Del(h, k) => DelActs(s, a, h, k);
    case _ =>
  }

  lemma DelActs(s: State, a: Aid, h: Handle, k: Cont)
    ensures var y := ActOf(StepDel(s, a, h, k), a); y == Dealloc(h, k) || y == ActOf(s, a)
  {
  }

  /** What a step makes of another activity. */
  lemma OtherNext(s: State, a: Aid, c: Choice, h: Handle)
    requires !Worker(ActOf(s, a)) && ActInv(s, ActOf(s, a))
    ensures var x, y := ActOf(s, a), ActOf(Step(s, a, c), a);
            (Owns(y, h) ==> y == Make(s.next) || (Owns(x, h) && !x.Publish?)) && (x.SetInit? ==> y.Publish?)
  {
    hide *;
    var x := ActOf(s, a);
    ActiveOwns(s, x, h);
    StepOfOther(s, a, c);
    match x
    case MqRelease(q, k) => ReleasedActs(s, a, q, k); WithoutQueue(h, k);
    case Drain(q, k) => ReleasedActs(s, a, q, k); WithoutQueue(h, k);
    case Free(q, k) => ReleasedActs(s, a, q, k); WithoutQueue(h, k);
    case Rel(g, k) => RelActs(s, a, g, k); WithoutQueue(h, k);
    case Del(g, k) => DelActs(s, a, g, k); WithoutQueue(h, k);
    case Dealloc(g, k) => DeallocActs(s, a, g, k); WithoutQueue(h, k);
    case SendGrab(g, m) => CallerActs(s, a, g, m, false); WithoutQueue(h, KIdle);
    case RetireReq(g) => CallerActs(s, a, g, Message(0, 0, [], 0), false); WithoutQueue(h, KIdle);
    case FailRetire(q) => CallerActs(s, a, q, Message(0, 0, [], 0), false); OneQueue(h, q);
    case Publish(q, ret) => CallerActs(s, a, q, Message(0, 0, [], 0), ret); OneQueue(h, q);
    case SendPush(g, m) => SendPushActs(s, a, g, m); WithoutQueue(h, KIdle); OneQueue(h, g);
    case _ => LauncherOwns(s, a, c, h);
  }

  /** Who owns a queue while a context or queue is released. */
  lemma WithoutQueue(h: Handle, k: Cont)
    ensures Owns(Idle, h) == false
    ensures forall g {:trigger Act.Rel(g, k)} :: Owns(Act.Rel(g, k), h) == ContOwns(k, h)
    ensures forall g {:trigger Act.Del(g, k)} :: Owns(Act.Del(g, k), h) == ContOwns(k, h)
    ensures forall g {:trigger Act.Dealloc(g, k)} :: Owns(Act.Dealloc(g, k), h) == ContOwns(k, h)
    ensures Owns(Resume(k), h) == ContOwns(k, h) && Owns(Returned(k), h) == ContOwns(k, h)
    ensures forall g {:trigger MqRelease(g, k)} :: Owns(MqRelease(g, k), h) == (g == h)
    ensures forall g {:trigger Drain(g, k)} :: Owns(Drain(g, k), h) == (g == h)
    ensures forall g {:trigger Free(g, k)} :: Owns(Free(g, k), h) == (g == h)
    ensures k.KIdle? ==> !ContOwns(k, h)
    ensures forall g, m {:trigger SendPush(g, m)} :: !Owns(SendPush(g, m), h)
  {
  }

  lemma OneQueue(h: Handle, q: Handle)
    ensures Owns(Act.Rel(q, KMqRelease(q)), h) == Owns(MqRelease(q, KIdle), h) == Owns(FailRetire(q), h) == (q == h)
    ensures !Owns(Report(q), h) && !Owns(Idle, h) && (forall m :: !Owns(SendPush(q, m), h))
    ensures !FailRetire(q).Publish?
  {
  }

  lemma LauncherOwns(s: State, a: Aid, c: Choice, h: Handle)
    requires var x := ActOf(s, a); x.Idle? || x.Make? || x.Init? || x.SetInit? || x.Report? || x.Reply?
    ensures var x, y := ActOf(s, a), ActOf(Step(s, a, c), a);
            (Owns(y, h) ==> y == Make(s.next) || (Owns(x, h) && !x.Publish?)) && (x.SetInit? ==> y.Publish?)
  {
  }

  lemma DeallocActs(s: State, a: Aid, g: Handle, k: Cont)
    ensures var y := ActOf(StepDealloc(s, a, g, k), a); y == ActOf(s, a) || y == Resume(k)
  {
    hide Resume;
  }

  lemma ActiveOwns(s: State, x: Act, h: Handle)
    requires ActInv(s, x)
    ensures x.MqRelease? || x.Drain? || x.Free? ==> !ContOwns(x.k, h)
  {
  }

  lemma ReleasedActs(s: State, a: Aid, q: Handle, k: Cont)
    ensures var y := ActOf(StepMqRelease(s, a, q, k), a); y == ActOf(s, a) || y == Drain(q, k) || y == Resume(k)
    ensures var y := ActOf(StepDrain(s, a, q, k), a); y == ActOf(s, a) || y == Free(q, k)
    ensures var y := ActOf(StepFree(s, a, q, k), a); y == ActOf(s, a) || y == Resume(k)
  {
    EnlistActs(s, q);
    hide Enlist;
    hide Resume;
    hide Queue.Pop;
  }

  lemma CallerActs(s: State, a: Aid, g: Handle, m: Message, ret: bool)
    ensures var y := ActOf(StepSendGrab(s, a, g, m), a); y == SendPush(g, m) || y == Idle
    ensures var y := ActOf(StepRetireReq(s, a, g), a); y == Rel(g, KIdle) || y == Idle
    ensures var y := ActOf(StepFailRetire(s, a, g), a); y == Rel(g, KMqRelease(g)) || y == MqRelease(g, KIdle)
    ensures var y := ActOf(StepPublish(s, a, g, ret), a); y == Report(g) || y == Idle
  {
    hide Registered;
    hide Grab;
    hide Unregister;
    hide Enlist;
  }

  lemma SendPushActs(s: State, a: Aid, h: Handle, m: Message)
    ensures var y := ActOf(StepSendPush(s, a, h, m), a); y == Rel(h, KIdle) || y == ActOf(s, a)
  {
  }

  lemma RelActs(s: State, a: Aid, h: Handle, k: Cont)
    ensures var y := ActOf(StepRel(s, a, h, k), a); y == Del(h, k) || y == Returned(k) || y == ActOf(s, a)
  {
    hide Returned;
  }

  /** The step does not touch the flag of `h`. */
  predicate SameInit(s: State, t: State, h: Handle) {
    (h in t.services <==> h in s.services) && (h in s.services ==> t.services[h].init == s.services[h].init)
  }

  lemma TableInit(s: State, a: Aid, g: Handle, h: Handle)
    ensures SameInit(s, Enlist(s, g), h)
    ensures s.global != [] ==> SameInit(s, Delist(s, a), h)
    ensures Registered(s, g) ==> SameInit(s, Grab(s, a, g), h) && SameInit(s, Unregister(s, a, g), h)
  {
  }

  lemma QueueInit(s: State, a: Aid, q: Handle, k: Cont, m: Message, c: Choice, h: Handle)
    ensures SameInit(s, StepDrain(s, a, q, k), h) && SameInit(s, StepFree(s, a, q, k), h)
    ensures SameInit(s, StepLoop(s, a, q), h) && SameInit(s, StepBusy(s, a, q, m, c), h)
  {
    hide Resume;
    hide Queue.Pop;
  }

  lemma ContextInit(s: State, a: Aid, g: Handle, k: Cont, h: Handle)
    ensures SameInit(s, StepRel(s, a, g, k), h) && SameInit(s, StepDealloc(s, a, g, k), h)
  {
    hide Resume;
    hide Returned;
  }

  lemma DelInit(s: State, a: Aid, g: Handle, k: Cont, h: Handle)
    ensures SameInit(s, StepDel(s, a, g, k), h)
  {
    hide Queue.MarkRelease;
    hide Queue.Enlists;
  }

  lemma SendInit(s: State, a: Aid, g: Handle, m: Message, h: Handle)
    ensures SameInit(s, StepSendPush(s, a, g, m), h)
  {
    hide Queue.Push;
    hide Queue.Enlists;
  }

  /** Only its launcher makes a service initialised. */
  lemma InitNext(s: State, a: Aid, c: Choice, h: Handle)
    requires h in Step(s, a, c).services && Step(s, a, c).services[h].init
    ensures h in s.services && (s.services[h].init || ActOf(s, a) == SetInit(h))
  {
    hide Enlist;
    hide Delist;
    hide Grab;
    hide Unregister;
    hide StepRel;
    hide StepDel;
    hide StepDealloc;
    hide StepSendPush;
    hide StepDrain;
    hide StepFree;
    hide StepLoop;
    hide StepBusy;
    hide Resume;
    match ActOf(s, a)
    case MqRelease(q, _) => TableInit(s, a, q, h);
    case PopNext => TableInit(s, a, 0, h);
    case Done(_) => TableInit(s, a, 0, h);
    case PushBack(q, _) => TableInit(s, a, q, h);
    case Own(q) => TableInit(s, a, q, h);
    case SendGrab(g, _) => TableInit(s, a, g, h);
    case RetireReq(g) => TableInit(s, a, g, h);
    case FailRetire(q) => TableInit(s, a, q, h);
    case Publish(q, _) => TableInit(s, a, q, h);
    case Drain(q, k) => QueueInit(s, a, q, k, Message(0, 0, [], 0), c, h);
    case Free(q, k) => QueueInit(s, a, q, k, Message(0, 0, [], 0), c, h);
    case Loop(q) => QueueInit(s, a, q, KIdle, Message(0, 0, [], 0), c, h);
    case Busy(q, m) => QueueInit(s, a, q, KIdle, m, c, h);
    case Rel(g, k) => ContextInit(s, a, g, k, h);
    case Del(g, k) => DelInit(s, a, g, k, h);
    case Dealloc(g, k) => ContextInit(s, a, g, k, h);
    case SendPush(g, m) => SendInit(s, a, g, m, h);
    case _ =>
  }

  lemma SettledNext(s: State, a: Aid, c: Choice, h: Handle)
    requires Inv(s) && Settled(s, h)
    ensures Settled(Step(s, a, c), h)
  {
    hide Step;
    hide Worker;
    var t := Step(s, a, c);
    if h in t.services && t.services[h].init {
      InitNext(s, a, c, h);
      assert h < s.next && RolesInv(s, h) && ActInv(s, ActOf(s, a));
      hide Inv;
      OthersNext(s, a, c);
      forall b {:trigger ActOf(t, b)} | Owns(ActOf(t, b), h) ensures Worker(ActOf(t, b)) || ActOf(t, b).Publish? {
        if b != a {
          assert ActOf(t, b) == ActOf(s, b);
          assert !s.services[h].init ==> Owns(ActOf(s, a), h);
        } else {
          OwnerNext(s, a, c, h);
        }
      }
    }
  }

  lemma OwnerNext(s: State, a: Aid, c: Choice, h: Handle)
    requires ActInv(s, ActOf(s, a)) && Settled(s, h) && h in s.services && h < s.next
    requires s.services[h].init || ActOf(s, a) == SetInit(h)
    requires Owns(ActOf(Step(s, a, c), a), h)
    ensures var y := ActOf(Step(s, a, c), a); Worker(y) || y.Publish?
  {
    hide Step;
    hide ActInv;
    if Worker(ActOf(s, a)) { WorkerNext(s, a, c); } else { OtherNext(s, a, c, h); }
  }

  /** At most where activity `a` is changes. */
  predicate OnlyActs(s: State, t: State, a: Aid) {
    t.acts == s.acts || (a in t.acts && t.acts == s.acts[a := t.acts[a]])
  }

  lemma QueueActs(s: State, a: Aid, q: Handle, k: Cont, m: Message, c: Choice)
    ensures OnlyActs(s, StepDrain(s, a, q, k), a) && OnlyActs(s, StepFree(s, a, q, k), a)
    ensures OnlyActs(s, StepLoop(s, a, q), a) && OnlyActs(s, StepBusy(s, a, q, m, c), a)
  {
    hide Resume;
    hide Queue.Pop;
  }

  lemma ReleaseActs(s: State, a: Aid, q: Handle, k: Cont)
    ensures OnlyActs(s, StepMqRelease(s, a, q, k), a)
  {
    EnlistActs(s, q);
    hide Resume;
    hide Enlist;
  }

  lemma ContextActs(s: State, a: Aid, g: Handle, k: Cont)
    ensures OnlyActs(s, StepRel(s, a, g, k), a) && OnlyActs(s, StepDealloc(s, a, g, k), a)
    ensures OnlyActs(s, StepSetInit(s, a, g), a)
  {
    hide Resume;
    hide Returned;
  }

  lemma SendActs(s: State, a: Aid, g: Handle, k: Cont, m: Message)
    ensures OnlyActs(s, StepDel(s, a, g, k), a) && OnlyActs(s, StepSendPush(s, a, g, m), a)
  {
    hide Queue.MarkRelease;
    hide Queue.Push;
  }

  lemma ListActs(s: State, a: Aid, q: Handle, nq: Handle, ret: bool)
    ensures OnlyActs(s, StepPopNext(s, a), a) && OnlyActs(s, StepDone(s, a, q), a)
    ensures OnlyActs(s, StepPushBack(s, a, q, nq), a) && OnlyActs(s, StepPublish(s, a, q, ret), a)
  {
    hide Enlist;
    hide Delist;
    if s.global != [] { DelistActs(s, a); }
    EnlistActs(s, q);
  }

  lemma TableActs(s: State, a: Aid, g: Handle, m: Message)
    ensures OnlyActs(s, StepOwn(s, a, g), a) && OnlyActs(s, StepSendGrab(s, a, g, m), a)
    ensures OnlyActs(s, StepRetireReq(s, a, g), a) && OnlyActs(s, StepFailRetire(s, a, g), a)
  {
    hide Grab;
    hide Unregister;
    hide Registered;
    if Registered(s, g) { GrabActs(s, a, g); }
  }

  lemma ActsNext(s: State, a: Aid, c: Choice)
    ensures OnlyActs(s, Step(s, a, c), a)
  {
    hide *;
    if Worker(ActOf(s, a)) { WorkerActs(s, a, c); } else { OtherActs(s, a, c); }
  }

  lemma WorkerActs(s: State, a: Aid, c: Choice)
    requires Worker(ActOf(s, a))
    ensures OnlyActs(s, Step(s, a, c), a)
  {
    hide *;
    StepOfWorker(s, a, c);
    match ActOf(s, a)
    case PopNext => ListActs(s, a, 0, 0, false);
    case Done(q) => ListActs(s, a, q, 0, false);
    case PushBack(q, nq) => ListActs(s, a, q, nq, false);
    case Own(q) => TableActs(s, a, q, Message(0, 0, [], 0));
    case MqRelease(q, k) => ReleaseActs(s, a, q, k);
    case Drain(q, k) => QueueActs(s, a, q, k, Message(0, 0, [], 0), c);
    case Free(q, k) => QueueActs(s, a, q, k, Message(0, 0, [], 0), c);
    case Loop(q) => QueueActs(s, a, q, KIdle, Message(0, 0, [], 0), c);
    case Busy(q, m) => QueueActs(s, a, q, KIdle, m, c);
    case Rel(g, k) => ContextActs(s, a, g, k);
    case Dealloc(g, k) => ContextActs(s, a, g, k);
    case Del(g, k) => SendActs(s, a, g, k, Message(0, 0, [], 0));
  }

  lemma OtherActs(s: State, a: Aid, c: Choice)
    requires !Worker(ActOf(s, a))
    ensures OnlyActs(s, Step(s, a, c), a)
  {
    hide *;
    StepOfOther(s, a, c);
    match ActOf(s, a)
    case Publish(q, ret) => ListActs(s, a, q, 0, ret);
    case SendGrab(g, m) => TableActs(s, a, g, m);
    case RetireReq(g) => TableActs(s, a, g, Message(0, 0, [], 0));
    case FailRetire(q) => TableActs(s, a, q, Message(0, 0, [], 0));
    case MqRelease(q, k) => ReleaseActs(s, a, q, k);
    case Drain(q, k) => QueueActs(s, a, q, k, Message(0, 0, [], 0), c);
    case Free(q, k) => QueueActs(s, a, q, k, Message(0, 0, [], 0), c);
    case Rel(g, k) => ContextActs(s, a, g, k);
    case Dealloc(g, k) => ContextActs(s, a, g, k);
    case Del(g, k) => SendActs(s, a, g, k, Message(0, 0, [], 0));
    case SendPush(g, m) => SendActs(s, a, g, KIdle, m);
    case _ => LauncherActs(s, a, c);
  }

  lemma LauncherActs(s: State, a: Aid, c: Choice)
    requires var x := ActOf(s, a); x.Idle? || x.Make? || x.Init? || x.SetInit? || x.Report? || x.Reply?
    ensures OnlyActs(s, Step(s, a, c), a)
  {
  }

  /** A step is of one activity. */
  lemma OthersNext(s: State, a: Aid, c: Choice)
    ensures forall b {:trigger ActOf(Step(s, a, c), b)} :: b != a ==> ActOf(Step(s, a, c), b) == ActOf(s, b)
  {
    ActsNext(s, a, c);
    hide Step;
  }

  lemma {:induction false} RunSettled(run: seq<State>, n: nat, h: Handle)
    requires IsRun(run) && n < |run|
    ensures Settled(run[n], h)
  {
    hide *;
    RunFollows(run, n);
    if n > 0 {
      RunSettled(run, n - 1, h);
      RunFollows(run, n - 1);
      RunKeeps(run, n - 1);
      FollowsSettled(run[n - 1], run[n], h);
    } else {
      StartSettled(h);
    }
  }

  lemma StartSettled(h: Handle)
    ensures Settled(Start(), h)
  {
  }

  lemma FollowsSettled(s: State, t: State, h: Handle)
    requires Inv(s) && Settled(s, h) && Follows(s, t)
    ensures Settled(t, h)
  {
    hide Inv;
    hide Settled;
    hide Step;
    var a, c :| t == Step(s, a, c);
    SettledNext(s, a, c, h);
  }

  // A worker on its way to the queue of `h`

  /** The place of `h` in the list. */
  function At(q: seq<Handle>, h: Handle): nat { if q == [] || q[0] == h then 0 else 1 + At(q[1..], h) }

  lemma {:induction false} AtEnd(q: seq<Handle>, g: Handle, h: Handle)
    requires h in q
    ensures At(q + [g], h) == At(q, h)
  {
    if q[0] != h {
      AtEnd(q[1..], g, h);
      assert (q + [g])[1..] == q[1..] + [g];
    }
  }

  /** How far the queue of `h` is from the worker that owns it or will take it. */
  function Far(s: State, h: Handle): nat { if h in s.global then At(s.global, h) + 1 else 0 }

  /** The worker has the queue of `h`, and is about to push it back. */
  function Back(x: Act, h: Handle): nat {
    match x
    case Done(q) => if q == h then 2 else 0
    case PushBack(q, _) => if q == h then 1 else 0
    case MqRelease(q, _) => if q == h then 1 else 0
    case _ => 0
  }

  /** What is left to do with the present queue. */
  function Stage(x: Act): nat {
    match x
    case PushBack(_, _) => 12
    case Rel(_, k) => if k.KOwn? then 11 else 4
    case Del(_, k) => if k.KOwn? then 10 else 3
    case Dealloc(_, k) => if k.KOwn? then 9 else 2
    case Own(_) => 8
    case Loop(_) => 7
    case MqRelease(_, _) => 7
    case Busy(_, _) => 6
    case Drain(_, _) => 6
    case Free(_, _) => 5
    case Done(_) => 5
    case _ => 1
  }

  function ToDrain(s: State, x: Act): nat {
    if x.Drain? && x.q in s.services then |s.services[x.q].queue.msgs| else 0
  }

  /** The worker is nearer to the next message of `h`. */
  predicate Nearer(s: State, t: State, d: Aid, h: Handle) {
    var x, y := ActOf(s, d), ActOf(t, d);
    var b, b', f, f' := Back(x, h), Back(y, h), Far(s, h), Far(t, h);
    || b' < b
    || (b' == b && (f' < f || (f' == f &&
         (Stage(y) < Stage(x) || (Stage(y) == Stage(x) && ToDrain(t, y) < ToDrain(s, x))))))
  }

  /** Worker `d` owns the queue of the initialised service `h`, or may take it out of the list. */
  ghost predicate Drives(s: State, d: Aid, h: Handle) {
    && Inv(s) && Registered(s, h) && s.services[h].made && s.services[h].init && Worker(ActOf(s, d))
    && (s.services[h].owner == InList || s.services[h].owner == By(d))
  }

  /** Callbacks handle their message; only the batch of `h` goes on. */
  function Pick(x: Act, h: Handle): Choice { Return(true, x.Busy? && x.q == h) }

  /** What the invariant says about worker and service. */
  ghost predicate Clearly(s: State, d: Aid, h: Handle) {
    && h in s.services && Worker(ActOf(s, d)) && !s.fault && NoDup(s.global)
    && var v, x := s.services[h], ActOf(s, d);
       && v.registered && v.made && v.init && v.phase.Live? && !v.queue.release && !v.freed
       && v.ref == |v.holders| + 1
       && (h in s.global <==> v.owner == InList) && (Owns(x, h) <==> v.owner == By(d)) && (h in s.global || Owns(x, h))
       && (x.PushBack? ==> x.q != x.nq) && (d in v.holders <==> Holds(x, h)) && (Deletes(x, h) ==> false)
       && (Deallocs(x, h) ==> false) && ((x.Drain? || x.Free?) ==> x.q != h)
  }

  lemma DrivesClearly(s: State, d: Aid, h: Handle)
    requires Drives(s, d, h)
    ensures Clearly(s, d, h)
  {
    RegisteredLives(s, h);
    Facts(s, d, h);
    hide Inv;
    hide RolesInv;
    hide Msgs;
    hide InHand;
  }

  /** The step leads on: the service stays as it is, and a message of it is handled or the worker
      is nearer to the next one. */
  ghost predicate Leads(s: State, t: State, d: Aid, h: Handle) {
    && h in s.services && h in t.services && Worker(ActOf(t, d))
    && var v, w, x := s.services[h], t.services[h], ActOf(s, d);
       && w.registered && w.made && w.init && w.pushed == v.pushed && (w.owner == InList || w.owner == By(d))
       && (if x.Busy? && x.q == h then w.log == v.log + [Logged(x.m, Handled)]
           else w.log == v.log && Nearer(s, t, d, h))
  }

  lemma PopNextLeads(s: State, d: Aid, h: Handle)
    requires Clearly(s, d, h) && ActOf(s, d) == PopNext && !StepPopNext(s, d).fault
    ensures Leads(s, StepPopNext(s, d), d, h)
  {
    assert h in s.global;
    var g := s.global[0];
    assert g != h ==> h in s.global[1..];
    forall i | 0 < i < |s.global| ensures s.global[i] != s.global[0] { }
  }

  lemma OwnLeads(s: State, d: Aid, h: Handle, q: Handle)
    requires Clearly(s, d, h) && ActOf(s, d) == Own(q) && !StepOwn(s, d, q).fault
    ensures Leads(s, StepOwn(s, d, q), d, h)
  {
  }

  lemma MqReleaseLeads(s: State, d: Aid, h: Handle, q: Handle, k: Cont)
    requires Clearly(s, d, h) && ActOf(s, d) == MqRelease(q, k) && !StepMqRelease(s, d, q, k).fault
    ensures Leads(s, StepMqRelease(s, d, q, k), d, h)
  {
    if h in s.global { AtEnd(s.global, q, h); }
  }

  lemma DrainLeads(s: State, d: Aid, h: Handle, q: Handle, k: Cont)
    requires Clearly(s, d, h) && ActOf(s, d) == Drain(q, k) && !StepDrain(s, d, q, k).fault
    ensures Leads(s, StepDrain(s, d, q, k), d, h)
  {
  }

  lemma FreeLeads(s: State, d: Aid, h: Handle, q: Handle, k: Cont)
    requires Clearly(s, d, h) && ActOf(s, d) == Free(q, k) && !StepFree(s, d, q, k).fault
    ensures Leads(s, StepFree(s, d, q, k), d, h)
  {
  }

  lemma LoopLeads(s: State, d: Aid, h: Handle, q: Handle)
    requires Clearly(s, d, h) && ActOf(s, d) == Loop(q) && !StepLoop(s, d, q).fault
    requires q == h ==> s.services[h].queue.msgs != []
    ensures Leads(s, StepLoop(s, d, q), d, h)
  {
  }

  lemma BusyLeads(s: State, d: Aid, h: Handle, q: Handle, m: Message)
    requires Clearly(s, d, h) && ActOf(s, d) == Busy(q, m) && !StepBusy(s, d, q, m, Pick(Busy(q, m), h)).fault
    ensures Leads(s, StepBusy(s, d, q, m, Pick(Busy(q, m), h)), d, h)
  {
  }

  lemma DoneLeads(s: State, d: Aid, h: Handle, q: Handle)
    requires Clearly(s, d, h) && ActOf(s, d) == Done(q) && !StepDone(s, d, q).fault
    ensures Leads(s, StepDone(s, d, q), d, h)
  {
    if s.global != [] {
      var g := s.global[0];
      assert h in s.global && g != h ==> h in s.global[1..];
      forall i | 0 < i < |s.global| ensures s.global[i] != s.global[0] { }
    }
  }

  lemma PushBackLeads(s: State, d: Aid, h: Handle, q: Handle, nq: Handle)
    requires Clearly(s, d, h) && ActOf(s, d) == PushBack(q, nq) && !StepPushBack(s, d, q, nq).fault
    ensures Leads(s, StepPushBack(s, d, q, nq), d, h)
  {
    if h in s.global { AtEnd(s.global, q, h); }
  }

  lemma RelLeads(s: State, d: Aid, h: Handle, g: Handle, k: Cont)
    requires Clearly(s, d, h) && ActOf(s, d) == Rel(g, k) && !StepRel(s, d, g, k).fault
    ensures Leads(s, StepRel(s, d, g, k), d, h)
  {
  }

  lemma DelLeads(s: State, d: Aid, h: Handle, g: Handle, k: Cont)
    requires Clearly(s, d, h) && ActOf(s, d) == Del(g, k) && !StepDel(s, d, g, k).fault
    ensures Leads(s, StepDel(s, d, g, k), d, h)
  {
    if h in s.global { AtEnd(s.global, g, h); }
  }

  lemma DeallocLeads(s: State, d: Aid, h: Handle, g: Handle, k: Cont)
    requires Clearly(s, d, h) && ActOf(s, d) == Dealloc(g, k) && !StepDealloc(s, d, g, k).fault
    ensures Leads(s, StepDealloc(s, d, g, k), d, h)
  {
  }

  /** A worker that may take a queue with a message to handle. */
  lemma LoopHas(s: State, d: Aid, h: Handle)
    requires Drives(s, d, h) && ActOf(s, d) == Loop(h) && |s.services[h].log| < |s.services[h].pushed|
    ensures s.services[h].queue.msgs != []
  {
    Facts(s, d, h);
    hide Inv;
    hide RolesInv;
  }

  lemma StepLeads(s: State, d: Aid, h: Handle)
    requires Drives(s, d, h) && |s.services[h].log| < |s.services[h].pushed|
    requires !Step(s, d, Pick(ActOf(s, d), h)).fault
    ensures Leads(s, Step(s, d, Pick(ActOf(s, d), h)), d, h)
  {
    DrivesClearly(s, d, h);
    if ActOf(s, d) == Loop(h) { LoopHas(s, d, h); }
    StepOfWorker(s, d, Pick(ActOf(s, d), h));
    hide *;
    match ActOf(s, d)
    case PopNext => PopNextLeads(s, d, h);
    case Own(q) => OwnLeads(s, d, h, q);
    case MqRelease(q, k) => MqReleaseLeads(s, d, h, q, k);
    case Drain(q, k) => DrainLeads(s, d, h, q, k);
    case Free(q, k) => FreeLeads(s, d, h, q, k);
    case Loop(q) => LoopLeads(s, d, h, q);
    case Busy(q, m) => BusyLeads(s, d, h, q, m);
    case Done(q) => DoneLeads(s, d, h, q);
    case PushBack(q, nq) => PushBackLeads(s, d, h, q, nq);
    case Rel(g, k) => RelLeads(s, d, h, g, k);
    case Del(g, k) => DelLeads(s, d, h, g, k);
    case Dealloc(g, k) => DeallocLeads(s, d, h, g, k);
  }

  lemma DriveOn(s: State, d: Aid, h: Handle)
    requires Drives(s, d, h) && |s.services[h].log| < |s.services[h].pushed|
    ensures var t := Step(s, d, Pick(ActOf(s, d), h)); !t.fault && Leads(s, t, d, h) && Drives(t, d, h)
  {
    hide Step;
    hide Inv;
    var c := Pick(ActOf(s, d), h);
    StepOfWorker(s, d, c);
    StepKeeps(s, d, c);
    SoundClear(Step(s, d, c));
    InvIs(Step(s, d, c));
    StepLeads(s, d, h);
    hide *;
    LeadsDrives(s, Step(s, d, c), d, h);
  }

  lemma LeadsDrives(s: State, t: State, d: Aid, h: Handle)
    requires Leads(s, t, d, h) && Inv(t)
    ensures Drives(t, d, h)
  {
    hide Inv;
  }

  function Last(run: seq<State>): State
    requires |run| > 0
  {
    run[|run| - 1]
  }

  lemma LastIs(run: seq<State>)
    requires |run| > 0
    ensures Last(run) == run[|run| - 1]
  {
  }

  lemma Stepped(run: seq<State>, a: Aid, c: Choice) returns (longer: seq<State>)
    requires IsRun(run) && |run| > 0 && !Last(run).fault
    ensures IsRun(longer) && run <= longer && |longer| == |run| + 1 && Last(longer) == Step(Last(run), a, c)
  {
    hide Step;
    hide IsRun;
    Extended(run, a, c);
    longer := run + [Step(Last(run), a, c)];
  }

  lemma LeadsIs(s: State, t: State, d: Aid, h: Handle)
    requires Leads(s, t, d, h)
    ensures h in s.services && h in t.services && t.services[h].pushed == s.services[h].pushed
    ensures var v, w := s.services[h], t.services[h];
            || (w.log == v.log && Nearer(s, t, d, h))
            || (|w.log| == |v.log| + 1 && w.log[..|v.log|] == v.log && w.log[|v.log|].fate.Handled?)
  {
    hide Nearer;
  }

  lemma NearerIs(s: State, t: State, d: Aid, h: Handle)
    requires Nearer(s, t, d, h)
    ensures var x, y := ActOf(s, d), ActOf(t, d);
            var b, b', f, f' := Back(x, h), Back(y, h), Far(s, h), Far(t, h);
            b' < b || (b' == b && (f' < f || (f' == f &&
              (Stage(y) < Stage(x) || (Stage(y) == Stage(x) && ToDrain(t, y) < ToDrain(s, x))))))
  {
  }

  lemma DrivesIs(s: State, d: Aid, h: Handle)
    requires Drives(s, d, h)
    ensures h in s.services && !s.fault
  {
    NoFault(s);
  }

  /** Messages of the service are handled one after the other, up to number n. */
  lemma {:induction false} Drive(run: seq<State>, d: Aid, h: Handle, n: nat) returns (longer: seq<State>)
    requires IsRun(run) && |run| > 0 && Drives(Last(run), d, h)
    requires var v := Last(run).services[h]; |v.log| <= n < |v.pushed|
    ensures IsRun(longer) && run <= longer && h in Last(longer).services
    ensures var v, w := Last(run).services[h], Last(longer).services[h];
            w.pushed == v.pushed && n < |w.log| && w.log[n].fate.Handled?
    decreases |Last(run).services[h].pushed| - |Last(run).services[h].log|, Back(ActOf(Last(run), d), h),
              Far(Last(run), h), Stage(ActOf(Last(run), d)), ToDrain(Last(run), ActOf(Last(run), d))
  {
    hide *;
    var s := Last(run);
    DrivesIs(s, d, h);
    DriveOn(s, d, h);
    longer := Stepped(run, d, Pick(ActOf(s, d), h));
    var t := Last(longer);
    LeadsIs(s, t, d, h);
    if |t.services[h].log| <= n {
      if t.services[h].log == s.services[h].log { NearerIs(s, t, d, h); }
      longer := Drive(longer, d, h, n);
    }
  }

  /** From every state of every run, a message that an idle activity sends to a registered and initialised
      service can be handled, after those pushed before it: it has its place in the log of the service. */
  lemma Delivered(run: seq<State>, a: Aid, b: Aid, h: Handle, m: Message) returns (longer: seq<State>)
    requires IsRun(run) && |run| > 0 && !Last(run).fault && a != b
    requires var s := Last(run); ActOf(s, a) == Idle && ActOf(s, b) == Idle
    requires Registered(Last(run), h) && Last(run).services[h].made && Last(run).services[h].init
    ensures IsRun(longer) && run <= longer && h in Last(longer).services
    ensures var v, w := Last(run).services[h], Last(longer).services[h];
            && w.pushed == v.pushed + [m]
            && |v.pushed| < |w.log| && w.log[|v.pushed|] == Logged(m, Handled)
  {
    hide *;
    IsRegistered(Last(run), h);
    var v := Last(run).services[h];
    var n := |v.pushed|;
    var sent := Sent(run, a, b, h, m);
    var ready, d := Taken(sent, b, h, v.(pushed := v.pushed + [m]));
    ServedIs(Last(ready), h, v.(pushed := v.pushed + [m]));
    LogShort(run, h);
    longer := Drive(ready, d, h, n);
    LastIs(longer);
    DeliveredInOrder(longer, |longer| - 1, h);
    LogIs(Last(longer).services[h], n);
  }

  lemma IsRegistered(s: State, h: Handle)
    requires Registered(s, h)
    ensures h in s.services
  {
  }

  lemma LogShort(run: seq<State>, h: Handle)
    requires IsRun(run) && |run| > 0 && h in Last(run).services
    ensures |Last(run).services[h].log| <= |Last(run).services[h].pushed|
  {
    DeliveredInOrder(run, |run| - 1, h);
    assert |Msgs(Last(run).services[h].log)| <= |Last(run).services[h].pushed|;
  }

  lemma LogIs(v: Service, n: nat)
    requires Msgs(v.log) <= v.pushed && n < |v.log|
    ensures n < |v.pushed| && v.log[n].msg == v.pushed[n]
  {
    assert Msgs(v.log)[n] == v.pushed[n];
  }

  /** A service that is registered and has its queue and its context ready. */
  ghost predicate Served(s: State, h: Handle, v: Service) {
    && Inv(s) && Registered(s, h) && var w := s.services[h];
       w.made && w.init && w.pushed == v.pushed && w.log == v.log
  }

  /** The three steps of a send. */
  lemma Sent(run: seq<State>, a: Aid, b: Aid, h: Handle, m: Message) returns (longer: seq<State>)
    requires IsRun(run) && |run| > 0 && !Last(run).fault && a != b
    requires var s := Last(run); ActOf(s, a) == Idle && ActOf(s, b) == Idle
    requires Registered(Last(run), h) && Last(run).services[h].made && Last(run).services[h].init
    ensures IsRun(longer) && run <= longer && ActOf(Last(longer), b) == Idle
    ensures var v := Last(run).services[h];
            Served(Last(longer), h, v.(pushed := v.pushed + [m])) && !Last(longer).services[h].owner.NoOne?
  {
    hide *;
    IsRegistered(Last(run), h);
    LastIs(run);
    var s, c := Last(run), Send(h, m);
    var v := s.services[h];
    RunKeeps(run, |run| - 1);
    ServedNow(s, h);
    SendStarts(s, a, h, m, v);
    OthersNext(s, a, c);
    var r1 := Stepped(run, a, c);
    SendGrabs(Last(r1), a, h, m, v);
    OthersNext(Last(r1), a, c);
    var r2 := Stepped(r1, a, c);
    SendArrives(Last(r2), a, h, m, v);
    OthersNext(Last(r2), a, c);
    longer := Stepped(r2, a, c);
  }

  lemma ServedNow(s: State, h: Handle)
    requires Inv(s) && Registered(s, h) && s.services[h].made && s.services[h].init
    ensures Served(s, h, s.services[h])
  {
    hide Inv;
  }

  lemma SendStarts(s: State, a: Aid, h: Handle, m: Message, v: Service)
    requires Served(s, h, v) && ActOf(s, a) == Idle
    ensures var t := Step(s, a, Send(h, m)); Served(t, h, v) && ActOf(t, a) == SendGrab(h, m) && !s.fault
  {
    StepKeeps(s, a, Send(h, m));
    SoundClear(Step(s, a, Send(h, m)));
    InvIs(Step(s, a, Send(h, m)));
    hide Inv;
  }

  lemma SendGrabs(s: State, a: Aid, h: Handle, m: Message, v: Service)
    requires Served(s, h, v) && ActOf(s, a) == SendGrab(h, m)
    ensures var t := Step(s, a, Send(h, m)); Served(t, h, v) && ActOf(t, a) == SendPush(h, m) && !s.fault
  {
    StepKeeps(s, a, Send(h, m));
    SoundClear(Step(s, a, Send(h, m)));
    InvIs(Step(s, a, Send(h, m)));
    hide Inv;
  }

  lemma SendArrives(s: State, a: Aid, h: Handle, m: Message, v: Service)
    requires Served(s, h, v) && ActOf(s, a) == SendPush(h, m)
    ensures var t := Step(s, a, Send(h, m));
            Served(t, h, v.(pushed := v.pushed + [m])) && !t.services[h].owner.NoOne? && !s.fault
  {
    var t := Step(s, a, Send(h, m));
    StepKeeps(s, a, Send(h, m));
    SoundClear(t);
    InvIs(t);
    hide Inv;
    Pushed(s, a, Send(h, m), h, m);
    hide Step;
    WaitingOwned(t, h);
  }

  /** A queue with messages is somewhere. */
  lemma WaitingOwned(s: State, h: Handle)
    requires Inv(s) && Registered(s, h) && s.services[h].queue.msgs != []
    ensures !s.services[h].owner.NoOne?
  {
    RegisteredLives(s, h);
    assert QueueInv(s.services[h]) && ContextInv(s.services[h]);
    hide RolesInv;
  }

  /** The launcher puts the queue into the list. */
  lemma PublishGoes(s: State, x: Aid, h: Handle, v: Service)
    requires Served(s, h, v) && s.services[h].owner == By(x) && ActOf(s, x).Publish?
    ensures var t := Step(s, x, Create); Served(t, h, v) && t.services[h].owner == InList && !s.fault
  {
    Facts(s, x, h);
    StepKeeps(s, x, Create);
    SoundClear(Step(s, x, Create));
    InvIs(Step(s, x, Create));
    hide Inv;
    hide RolesInv;
    hide Msgs;
    hide InHand;
  }

  /** A worker that is idle turns to the list. */
  lemma DispatchGoes(s: State, b: Aid, h: Handle, v: Service)
    requires Served(s, h, v) && s.services[h].owner == InList && ActOf(s, b) == Idle
    ensures var t := Step(s, b, Dispatch); Drives(t, b, h) && Served(t, h, v) && !s.fault
  {
    StepKeeps(s, b, Dispatch);
    SoundClear(Step(s, b, Dispatch));
    InvIs(Step(s, b, Dispatch));
    hide Inv;
    hide RolesInv;
  }

  lemma ServedIs(s: State, h: Handle, v: Service)
    requires Served(s, h, v)
    ensures h in s.services && s.services[h].pushed == v.pushed && s.services[h].log == v.log
  {
    hide Inv;
  }

  /** A worker has the queue of the service, or it is in the list, or its launcher publishes it. */
  lemma WhoOwns(s: State, h: Handle, v: Service)
    requires Served(s, h, v) && Settled(s, h) && !s.services[h].owner.NoOne?
    ensures var o := s.services[h].owner;
            o == InList || Drives(s, o.a, h) || ActOf(s, o.a).Publish?
  {
    var o := s.services[h].owner;
    if o.By? { Facts(s, o.a, h); }
    hide Inv;
    hide RolesInv;
  }

  /** Then a worker has the queue, or `b` takes it out of the list. */
  lemma Taken(run: seq<State>, b: Aid, h: Handle, v: Service) returns (longer: seq<State>, d: Aid)
    requires IsRun(run) && |run| > 0 && ActOf(Last(run), b) == Idle
    requires Served(Last(run), h, v) && !Last(run).services[h].owner.NoOne?
    ensures IsRun(longer) && run <= longer && Drives(Last(longer), d, h) && Served(Last(longer), h, v)
  {
    hide *;
    var s := Last(run);
    longer := run;
    LastIs(run);
    ServedIs(s, h, v);
    RunSettled(run, |run| - 1, h);
    WhoOwns(s, h, v);
    var o := s.services[h].owner;
    if o != InList && Drives(s, o.a, h) {
      d := o.a;
    } else {
      if o != InList {
        PublishGoes(s, o.a, h, v);
        OthersNext(s, o.a, Create);
        longer := Stepped(run, o.a, Create);
      }
      d := b;
      DispatchGoes(Last(longer), b, h, v);
      longer := Stepped(longer, b, Dispatch);
    }
  }
}
