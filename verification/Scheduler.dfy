/** The actor scheduler as a state machine: skynet_server.c, skynet_mq.c and the handle
    table of skynet_handle.c. A step is one critical section or one atomic operation of
    one activity (a worker, or any call in progress); any activity may step next. */
module Scheduler {
  import opened Queues
  import opened MessageQueues

  type Handle = nat
  type Aid = nat   // an activity: a worker's loop, or one call in progress

  datatype Fate = Handled | Discarded | Dropped

  datatype Logged = Logged(msg: Message, fate: Fate)

  /** What an activity does after it has released a context. */
  datatype Cont =
    | KIdle
    | KPopNext            // take the next queue from the global list
    | KOwn(q: Handle)     // dispatch q next
    | KPublish(q: Handle) // launch: push the new queue, if the context is gone; see Returned
    | KFailRetire(q: Handle) | KMqRelease(q: Handle) // failed launch

  datatype Act =
    | Idle
    | PopNext
    | Own(q: Handle)                     // about to grab the context of its queue
    | MqRelease(q: Handle, k: Cont)      // the context is gone: skynet_mq_release
    | Drain(q: Handle, k: Cont)          // _drop_queue
    | Free(q: Handle, k: Cont)           // _release
    | Loop(q: Handle)                    // about to pop a message
    | Busy(q: Handle, m: Message)              // running the callback on m
    | Done(q: Handle)                    // batch finished
    | PushBack(q: Handle, nq: Handle)    // got nq, must push q back
    | SendGrab(h: Handle, m: Message)
    | SendPush(h: Handle, m: Message)
    | RetireReq(h: Handle)
    | Make(h: Handle)                    // launch: registered, but without a queue
    | Init(h: Handle)                    // running the service's init function
    | SetInit(h: Handle)                 // launch: the reference is given up, ctx->init = true comes next
    | Publish(q: Handle, ret: bool)      // `ret`: skynet_context_release returned the context
    | Report(h: Handle)                  // skynet_error reads the handle of the returned context
    | Reply(h: Handle)                   // so does cmd_launch
    | FailRetire(q: Handle)
    | Rel(h: Handle, k: Cont)            // skynet_context_release
    | Del(h: Handle, k: Cont)            // delete_context: mark the queue
    | Dealloc(h: Handle, k: Cont)        // delete_context: free the context

  /** Bookkeeping of the model, not of the program: who owns a queue, and how far the
      deletion of a context has got. */
  datatype Owner = NoOne | InList | By(a: Aid)
  datatype Phase = Live | Deleting(a: Aid) | Marked(a: Aid) | Dead

  /** A service: its context (`registered`, `ref`, `init`, and whether ctx->queue is set), its
      queue, and its history. */
  datatype Service = Service(
    registered: bool, ref: int, init: bool, made: bool, phase: Phase, holders: set<Aid>,
    queue: Queue<Message>, freed: bool, owner: Owner,
    pushed: seq<Message>, log: seq<Logged>, ctxFrees: nat, queueFrees: nat)

  /** `fault` is raised by an access to freed memory or through a queue pointer that is not set, and by
      a failing assertion. */
  datatype State = State(services: map<Handle, Service>, next: Handle, global: seq<Handle>,
                            acts: map<Aid, Act>, fault: bool)

  /** The nondeterminism of a step. */
  datatype Choice =
    | Dispatch | Send(h: Handle, m: Message) | Retire(h: Handle) | Create
    | Return(hasCallback: bool, more: bool)  // the callback returns; the batch goes on or not
    | InitReturns(ok: bool)
    | NoLogger                               // skynet_error finds no logger

  function ActOf(s: State, a: Aid): Act { if a in s.acts then s.acts[a] else Idle }

  function SetAct(s: State, a: Aid, x: Act): State { s.(acts := s.acts[a := x]) }

  function SetSvc(s: State, h: Handle, v: Service): State { s.(services := s.services[h := v]) }

  function Fault(s: State): State { s.(fault := true) }

  function Resume(k: Cont): Act
  {
    match k
    case KIdle => Idle
    case KPopNext => PopNext
    case KOwn(q) => Own(q)
    case KPublish(q) => Publish(q, false)
    case KFailRetire(q) => FailRetire(q)
    case KMqRelease(q) => MqRelease(q, KIdle)
  }

  /** After a release that was not the last one: the launcher goes on using the context. */
  function Returned(k: Cont): Act { if k.KPublish? then SetInit(k.q) else Resume(k) }

  /** skynet_globalmq_push: asserts that the queue is not in the list. */
  function Enlist(s: State, h: Handle): State
  {
    if h !in s.services || s.services[h].freed || h in s.global then Fault(s)
    else SetSvc(s, h, s.services[h].(owner := InList)).(global := s.global + [h])
  }

  /** skynet_globalmq_pop of a non-empty list. */
  function Delist(s: State, a: Aid): State
    requires s.global != []
  {
    var h := s.global[0];
    if h !in s.services || s.services[h].freed then Fault(s)
    else SetSvc(s, h, s.services[h].(owner := By(a))).(global := s.global[1..])
  }

  /** The context of `h` has been freed. */
  predicate Gone(s: State, h: Handle) { h !in s.services || s.services[h].phase.Dead? }

  /** The launcher in activity `a` uses a context that has been freed. */
  predicate UsesFreed(s: State, a: Aid, c: Choice) {
    var x := ActOf(s, a);
    (x.SetInit? || (x.Report? && !c.NoLogger?) || x.Reply?) && Gone(s, x.h)
  }

  /** Activity `a` sends to a service that has no queue yet. */
  predicate SendsEarly(s: State, a: Aid) {
    var x := ActOf(s, a);
    x.SendPush? && x.h in s.services && !s.services[x.h].made
  }

  predicate Registered(s: State, h: Handle) { h in s.services && s.services[h].registered }

  /** skynet_handle_grab of a registered handle. */
  function Grab(s: State, a: Aid, h: Handle): State
    requires Registered(s, h)
  {
    var v := s.services[h];
    if v.phase.Dead? then Fault(s) else SetSvc(s, h, v.(ref := v.ref + 1, holders := v.holders + {a}))
  }

  /** skynet_handle_retire of a registered handle: the table's reference goes to the caller. */
  function Unregister(s: State, a: Aid, h: Handle): State
    requires Registered(s, h)
  {
    var v := s.services[h];
    if v.phase.Dead? then Fault(s) else SetSvc(s, h, v.(registered := false, holders := v.holders + {a}))
  }

  // The steps, one for each place where an activity can be.

  function Launch(s: State, a: Aid): State
  {
    var v := Service(true, 2, false, false, Live, {a}, Queue([], true, false), false, By(a), [], [], 0, 0);
    SetAct(SetSvc(s, s.next, v).(next := s.next + 1), a, Make(s.next))
  }

  /** skynet_mq_create */
  function StepMake(s: State, a: Aid, h: Handle): State
  {
    if h !in s.services || s.services[h].phase.Dead? then Fault(s)
    else SetAct(SetSvc(s, h, s.services[h].(made := true)), a, Init(h))
  }

  function StepIdle(s: State, a: Aid, c: Choice): State
  {
    match c
    case Dispatch => SetAct(s, a, PopNext)
    case Send(h, m) => SetAct(s, a, SendGrab(h, m))
    case Retire(h) => SetAct(s, a, RetireReq(h))
    case Create => Launch(s, a)
    case _ => s
  }

  function StepPopNext(s: State, a: Aid): State
  {
    if s.global == [] then SetAct(s, a, Idle) else SetAct(Delist(s, a), a, Own(s.global[0]))
  }

  function StepOwn(s: State, a: Aid, q: Handle): State
  {
    if Registered(s, q) then SetAct(Grab(s, a, q), a, Loop(q)) else SetAct(s, a, MqRelease(q, KPopNext))
  }

  function StepMqRelease(s: State, a: Aid, q: Handle, k: Cont): State
  {
    if q !in s.services || s.services[q].freed then Fault(s)
    else if s.services[q].queue.release then SetAct(s, a, Drain(q, k))
    else SetAct(Enlist(s, q), a, Resume(k))
  }

  function StepDrain(s: State, a: Aid, q: Handle, k: Cont): State
  {
    if q !in s.services || s.services[q].freed then Fault(s)
    else
      var v := s.services[q];
      var v' := v.(queue := v.queue.Pop());
      if v.queue.msgs == [] then SetAct(SetSvc(s, q, v'), a, Free(q, k))
      else SetSvc(s, q, v'.(log := v.log + [Logged(v.queue.msgs[0], Dropped)]))
  }

  function StepFree(s: State, a: Aid, q: Handle, k: Cont): State
  {
    if q !in s.services || s.services[q].freed then Fault(s)
    else
      var v := s.services[q];
      SetAct(SetSvc(s, q, v.(freed := true, owner := NoOne, queueFrees := v.queueFrees + 1)), a, Resume(k))
  }

  function StepLoop(s: State, a: Aid, q: Handle): State
  {
    if q !in s.services || s.services[q].freed then Fault(s)
    else
      var v := s.services[q];
      var v' := v.(queue := v.queue.Pop());
      if v.queue.msgs == [] then SetAct(SetSvc(s, q, v'.(owner := NoOne)), a, Rel(q, KPopNext))
      else SetAct(SetSvc(s, q, v'), a, Busy(q, v.queue.msgs[0]))
  }

  function StepBusy(s: State, a: Aid, q: Handle, m: Message, c: Choice): State
  {
    if !c.Return? then s
    else if q !in s.services || s.services[q].phase.Dead? then Fault(s)
    else if c.hasCallback && !s.services[q].init then Fault(s)   // assert(ctx->init)
    else
      var v := s.services[q];
      var fate := if c.hasCallback then Handled else Discarded;
      SetAct(SetSvc(s, q, v.(log := v.log + [Logged(m, fate)])), a, if c.more then Loop(q) else Done(q))
  }

  function StepDone(s: State, a: Aid, q: Handle): State
  {
    if s.global == [] then SetAct(s, a, Rel(q, KOwn(q))) else SetAct(Delist(s, a), a, PushBack(q, s.global[0]))
  }

  function StepPushBack(s: State, a: Aid, q: Handle, nq: Handle): State
  {
    SetAct(Enlist(s, q), a, Rel(q, KOwn(nq)))
  }

  function StepSendGrab(s: State, a: Aid, h: Handle, m: Message): State
  {
    if Registered(s, h) then SetAct(Grab(s, a, h), a, SendPush(h, m)) else SetAct(s, a, Idle)
  }

  function StepSendPush(s: State, a: Aid, h: Handle, m: Message): State
  {
    if h !in s.services || s.services[h].phase.Dead? || s.services[h].freed || !s.services[h].made then Fault(s)
    else
      var v := s.services[h];
      var s' := SetSvc(s, h, v.(queue := v.queue.Push(m), pushed := v.pushed + [m]));
      SetAct(if v.queue.Enlists() then Enlist(s', h) else s', a, Rel(h, KIdle))
  }

  function StepRetireReq(s: State, a: Aid, h: Handle): State
  {
    if Registered(s, h) then SetAct(Unregister(s, a, h), a, Rel(h, KIdle)) else SetAct(s, a, Idle)
  }

  function StepInit(s: State, a: Aid, h: Handle, c: Choice): State
  {
    if !c.InitReturns? then s else SetAct(s, a, Rel(h, if c.ok then KPublish(h) else KFailRetire(h)))
  }

  /** ctx->init = true, without a reference to the context. */
  function StepSetInit(s: State, a: Aid, h: Handle): State
  {
    SetAct(if Gone(s, h) then Fault(s) else SetSvc(s, h, s.services[h].(init := true)), a, Publish(h, true))
  }

  function StepPublish(s: State, a: Aid, q: Handle, ret: bool): State {
    SetAct(Enlist(s, q), a, if ret then Report(q) else Idle)
  }

  /** skynet_error takes the handle out of the context if there is a logger. */
  function StepReport(s: State, a: Aid, h: Handle, c: Choice): State {
    SetAct(if Gone(s, h) && !c.NoLogger? then Fault(s) else s, a, Reply(h))
  }

  function StepReply(s: State, a: Aid, h: Handle): State { SetAct(if Gone(s, h) then Fault(s) else s, a, Idle) }

  function StepFailRetire(s: State, a: Aid, q: Handle): State
  {
    if Registered(s, q) then SetAct(Unregister(s, a, q), a, Rel(q, KMqRelease(q)))
    else SetAct(s, a, MqRelease(q, KIdle))
  }

  function StepRel(s: State, a: Aid, h: Handle, k: Cont): State
  {
    if h !in s.services || s.services[h].phase.Dead? then Fault(s)
    else
      var v := s.services[h];
      var v' := v.(ref := v.ref - 1, holders := v.holders - {a});
      if v'.ref == 0 then SetAct(SetSvc(s, h, v'.(phase := Deleting(a))), a, Del(h, k))
      else SetAct(SetSvc(s, h, v'), a, Returned(k))
  }

  function StepDel(s: State, a: Aid, h: Handle, k: Cont): State
  {
    if h !in s.services || s.services[h].freed || s.services[h].queue.release then Fault(s)
    else
      var v := s.services[h];
      var s' := SetSvc(s, h, v.(queue := v.queue.MarkRelease(), phase := Marked(a)));
      SetAct(if v.queue.Enlists() then Enlist(s', h) else s', a, Dealloc(h, k))
  }

  function StepDealloc(s: State, a: Aid, h: Handle, k: Cont): State
  {
    if h !in s.services || s.services[h].phase.Dead? then Fault(s)
    else
      var v := s.services[h];
      SetAct(SetSvc(s, h, v.(phase := Dead, ctxFrees := v.ctxFrees + 1)), a, Resume(k))
  }

  /** One step of activity `a`. */
  function Step(s: State, a: Aid, c: Choice): State
  {
    match ActOf(s, a)
    case Idle => StepIdle(s, a, c)
    case PopNext => StepPopNext(s, a)
    case Own(q) => StepOwn(s, a, q)
    case MqRelease(q, k) => StepMqRelease(s, a, q, k)
    case Drain(q, k) => StepDrain(s, a, q, k)
    case Free(q, k) => StepFree(s, a, q, k)
    case Loop(q) => StepLoop(s, a, q)
    case Busy(q, m) => StepBusy(s, a, q, m, c)
    case Done(q) => StepDone(s, a, q)
    case PushBack(q, nq) => StepPushBack(s, a, q, nq)
    case SendGrab(h, m) => StepSendGrab(s, a, h, m)
    case SendPush(h, m) => StepSendPush(s, a, h, m)
    case RetireReq(h) => StepRetireReq(s, a, h)
    case Make(h) => StepMake(s, a, h)
    case Init(h) => StepInit(s, a, h, c)
    case SetInit(h) => StepSetInit(s, a, h)
    case Publish(q, ret) => StepPublish(s, a, q, ret)
    case Report(h) => StepReport(s, a, h, c)
    case Reply(h) => StepReply(s, a, h)
    case FailRetire(q) => StepFailRetire(s, a, q)
    case Rel(h, k) => StepRel(s, a, h, k)
    case Del(h, k) => StepDel(s, a, h, k)
    case Dealloc(h, k) => StepDealloc(s, a, h, k)
  }

  function Start(): State { State(map[], 1, [], map[], false) }

  ghost predicate Follows(s: State, t: State) { !s.fault && exists a, c :: t == Step(s, a, c) }

  /** A run ends at its first fault: nothing is known of the program after it. */
  ghost predicate IsRun(run: seq<State>) {
    |run| > 0 && run[0] == Start() && forall k {:trigger run[k]} :: 0 <= k < |run| - 1 ==> Follows(run[k], run[k + 1])
  }

  // What activities own and hold.

  predicate ContOwns(k: Cont, q: Handle) { !k.KIdle? && !k.KPopNext? && k.q == q }

  /** The activity is the current owner of queue `q`. */
  predicate Owns(x: Act, q: Handle)
  {
    match x
    case Own(p) => p == q
    case MqRelease(p, _) => p == q
    case Drain(p, _) => p == q
    case Free(p, _) => p == q
    case Loop(p) => p == q
    case Busy(p, _) => p == q
    case Done(p) => p == q
    case PushBack(p, n) => p == q || n == q
    case Make(p) => p == q
    case Init(p) => p == q
    case SetInit(p) => p == q
    case Publish(p, _) => p == q
    case FailRetire(p) => p == q
    case Rel(_, k) => ContOwns(k, q)
    case Del(_, k) => ContOwns(k, q)
    case Dealloc(_, k) => ContOwns(k, q)
    case _ => false
  }

  /** The activity holds a reference to the context of `h`. */
  predicate Holds(x: Act, h: Handle)
  {
    match x
    case Loop(p) => p == h
    case Busy(p, _) => p == h
    case Done(p) => p == h
    case PushBack(p, _) => p == h
    case SendPush(p, _) => p == h
    case Make(p) => p == h
    case Init(p) => p == h
    case Rel(p, _) => p == h
    case _ => false
  }

  /** The launcher of `h`, with no reference any more, is about to use the context of `h`. */
  predicate Uses(x: Act, h: Handle) { (x.SetInit? || x.Report? || x.Reply?) && x.h == h }

  /** The activity is launching `h` and the context of `h` may not be initialised. */
  predicate Launches(x: Act, h: Handle) {
    || x == Make(h) || x == Init(h) || x == SetInit(h) || x == Rel(h, KPublish(h))
    || x == Rel(h, KFailRetire(h)) || x == FailRetire(h)
  }

  /** The activity dispatches messages to `h`. */
  predicate Works(x: Act, h: Handle) { (x.Loop? || x.Busy? || x.Done? || x.PushBack?) && x.q == h }

  predicate Deletes(x: Act, h: Handle) { x.Del? && x.h == h }

  predicate Deallocs(x: Act, h: Handle) { x.Dealloc? && x.h == h }

  /** The message that the activity has popped from `q` and not finished. */
  function InHandOf(x: Act, q: Handle): seq<Message> { if x.Busy? && x.q == q then [x.m] else [] }

  function InHand(s: State, q: Handle): seq<Message>
    requires q in s.services
  {
    if s.services[q].owner.By? then InHandOf(ActOf(s, s.services[q].owner.a), q) else []
  }

  function Msgs(log: seq<Logged>): seq<Message> { seq(|log|, i requires 0 <= i < |log| => log[i].msg) }

  // The invariant.

  predicate NoDup(q: seq<Handle>) { forall i, j :: 0 <= i < j < |q| ==> q[i] != q[j] }

  ghost predicate ContextInv(v: Service) {
    && v.ref == |v.holders| + (if v.registered then 1 else 0)
    && (v.phase.Live? ==> v.ref > 0)
    && (!v.phase.Live? ==> !v.registered && v.holders == {})
    && (v.queue.release <==> v.phase.Marked? || v.phase.Dead?)
    && v.ctxFrees == (if v.phase.Dead? then 1 else 0)
  }

  ghost predicate QueueInv(v: Service) {
    && (v.freed ==> v.queue.release && v.queue.msgs == [])
    && (v.owner == NoOne <==> v.freed || (!v.queue.inGlobal && !v.queue.release))
    && (v.queue.msgs != [] ==> v.queue.inGlobal || v.queue.release)
    && v.queueFrees == (if v.freed then 1 else 0)
  }

  /** The bookkeeping of service `h` agrees with what the activities do. */
  ghost predicate RolesInv(s: State, h: Handle)
    requires h in s.services
  {
    var v := s.services[h];
    && (v.owner == InList <==> h in s.global)
    && (forall a {:trigger ActOf(s, a)} :: v.owner == By(a) <==> Owns(ActOf(s, a), h))
    && (forall a {:trigger ActOf(s, a)} :: a in v.holders <==> Holds(ActOf(s, a), h))
    && (forall a {:trigger ActOf(s, a)} :: v.phase == Deleting(a) <==> Deletes(ActOf(s, a), h))
    && (forall a {:trigger ActOf(s, a)} :: v.phase == Marked(a) <==> Deallocs(ActOf(s, a), h))
    && (forall a {:trigger ActOf(s, a)} :: var x := ActOf(s, a);
          && ((x.Drain? || x.Free?) && x.q == h ==> v.queue.release)
          && (x.Free? && x.q == h ==> v.queue.msgs == []))
    && (forall a {:trigger ActOf(s, a)} :: Works(ActOf(s, a), h) ==> v.init)
    && (v.registered && !v.init ==> v.owner.By? && Launches(ActOf(s, v.owner.a), h))
    && (!v.made <==> v.owner.By? && ActOf(s, v.owner.a) == Make(h))
    && v.pushed == Msgs(v.log) + InHand(s, h) + v.queue.msgs
  }

  ghost predicate Inv(s: State) { !s.fault && Sound(s) }

  ghost predicate Sound(s: State) {
    && NoDup(s.global)
    && (forall h :: h in s.services ==> h < s.next)
    && (forall h :: h in s.global ==> h in s.services)
    && (forall h {:trigger RolesInv(s, h)} :: h in s.services ==> RolesInv(s, h))
    && (forall h {:trigger s.services[h]} :: h in s.services ==> ContextInv(s.services[h]) && QueueInv(s.services[h]))
    && (forall a {:trigger ActOf(s, a)} :: ActInv(s, ActOf(s, a)))
  }

  /** Activities refer to existing services. */
  ghost predicate ActInv(s: State, x: Act) {
    && (forall h :: Owns(x, h) || Holds(x, h) || Uses(x, h) || Deletes(x, h) || Deallocs(x, h) ==> h in s.services)
    && (x.PushBack? ==> x.q != x.nq)
    && (x.MqRelease? || x.Drain? || x.Free? ==> x.k == KIdle || x.k == KPopNext)
  }
}
