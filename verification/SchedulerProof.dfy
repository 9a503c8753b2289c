/** Every step of every interleaving keeps the scheduler's invariant. */
module SchedulerProof {
  import opened Queues
  import opened MessageQueues
  import opened Scheduler

  /** Both activities play the same part for service `h`. */
  predicate SameRole(x: Act, y: Act, h: Handle) {
    && Owns(x, h) == Owns(y, h) && Holds(x, h) == Holds(y, h)
    && Deletes(x, h) == Deletes(y, h) && Deallocs(x, h) == Deallocs(y, h)
    && (Launches(x, h) ==> Launches(y, h)) && (Works(y, h) ==> Works(x, h)) && (x == Make(h) <==> y == Make(h))
    && InHandOf(x, h) == InHandOf(y, h)
    && (y.Drain? && y.q == h ==> x.Drain? && x.q == h)
    && (y.Free? && y.q == h ==> x.Free? && x.q == h)
  }

  ghost predicate OthersSame(s: State, s': State, a: Aid) {
    forall b {:trigger ActOf(s', b)} :: b != a ==> ActOf(s', b) == ActOf(s, b)
  }

  lemma Framed(s: State, s': State, a: Aid, h: Handle)
    requires h in s.services && h in s'.services && RolesInv(s, h) && s'.services[h] == s.services[h]
    requires h in s.global <==> h in s'.global
    requires OthersSame(s, s', a) && SameRole(ActOf(s, a), ActOf(s', a), h)
    ensures RolesInv(s', h)
  {
    var v := s.services[h];
    forall b {:trigger ActOf(s', b)}
      ensures v.owner == By(b) <==> Owns(ActOf(s', b), h)
      ensures b in v.holders <==> Holds(ActOf(s', b), h)
      ensures v.phase == Deleting(b) <==> Deletes(ActOf(s', b), h)
      ensures v.phase == Marked(b) <==> Deallocs(ActOf(s', b), h)
      ensures var x := ActOf(s', b);
              && ((x.Drain? || x.Free?) && x.q == h ==> v.queue.release)
              && (x.Free? && x.q == h ==> v.queue.msgs == [])
              && (Works(x, h) ==> v.init)
    {
      assert b != a ==> ActOf(s', b) == ActOf(s, b);
      var _ := ActOf(s, b);
    }
  }

  /** A step that touches at most services `h` and `g`. */
  lemma Assemble(s: State, s': State, a: Aid, h: Handle, g: Handle)
    requires Inv(s) && !s'.fault && NoDup(s'.global) && OthersSame(s, s', a)
    requires s'.services.Keys == s.services.Keys && s'.next == s.next
    requires forall k :: k in s.services && k != h && k != g ==>
               && s'.services[k] == s.services[k] && (k in s.global <==> k in s'.global)
               && SameRole(ActOf(s, a), ActOf(s', a), k)
    requires forall k :: k in s'.global ==> k in s.services
    requires forall k {:trigger RolesInv(s', k)} :: (k == h || k == g) && k in s.services ==>
               RolesInv(s', k) && ContextInv(s'.services[k]) && QueueInv(s'.services[k])
    requires ActInv(s', ActOf(s', a))
    ensures Inv(s')
  {
    forall k {:trigger RolesInv(s', k)} | k in s'.services ensures RolesInv(s', k) {
      if k != h && k != g {
        assert RolesInv(s, k);
        Framed(s, s', a, k);
      }
    }
    forall k {:trigger s'.services[k]} | k in s'.services
      ensures ContextInv(s'.services[k]) && QueueInv(s'.services[k])
    {
      var _ := RolesInv(s', k);
      if k != h && k != g { assert s'.services[k] == s.services[k]; }
    }
    forall b {:trigger ActOf(s', b)} ensures ActInv(s', ActOf(s', b)) {
      if b != a { assert ActOf(s', b) == ActOf(s, b); }
    }
  }

  /** The owner changes to or from the stepping activity only. */
  predicate OwnerMoves(o: Owner, o': Owner, a: Aid) {
    o == o' || ((o.By? ==> o.a == a) && (o'.By? ==> o'.a == a))
  }

  predicate PhaseMoves(p: Phase, p': Phase, a: Aid) {
    p == p' || ((p.Deleting? || p.Marked? ==> p.a == a) && (p'.Deleting? || p'.Marked? ==> p'.a == a))
  }

  /** What a step has to show about a service that it changes. */
  ghost predicate TouchOk(s: State, s': State, a: Aid, h: Handle)
    requires h in s.services && h in s'.services
  {
    var v, v', x := s.services[h], s'.services[h], ActOf(s', a);
    && (v'.owner == InList <==> h in s'.global) && (v'.owner == By(a) <==> Owns(x, h)) &&
         OwnerMoves(v.owner, v'.owner, a)
    && (a in v'.holders <==> Holds(x, h)) && v'.holders - {a} == v.holders - {a}
    && (v'.phase == Deleting(a) <==> Deletes(x, h)) && (v'.phase == Marked(a) <==> Deallocs(x, h))
    && PhaseMoves(v.phase, v'.phase, a)
    && (v.queue.release ==> v'.queue.release)
    && (v.queue.release && v.queue.msgs == [] ==> v'.queue.msgs == [])
    && ((x.Drain? || x.Free?) && x.q == h ==> v'.queue.release)
    && (x.Free? && x.q == h ==> v'.queue.msgs == [])
    && (v.init ==> v'.init) && (Works(x, h) ==> v'.init)
    && (v'.registered && !v'.init ==> v'.owner.By? && Launches(ActOf(s', v'.owner.a), h))
    && (!v'.made <==> v'.owner.By? && ActOf(s', v'.owner.a) == Make(h))
    && v'.pushed == Msgs(v'.log) + InHand(s', h) + v'.queue.msgs
    && ContextInv(v') && QueueInv(v')
  }

  lemma Touched(s: State, s': State, a: Aid, h: Handle)
    requires h in s.services && h in s'.services && RolesInv(s, h) && OthersSame(s, s', a) && TouchOk(s, s', a, h)
    ensures RolesInv(s', h)
  {
    var v, v' := s.services[h], s'.services[h];
    forall b {:trigger ActOf(s', b)}
      ensures v'.owner == By(b) <==> Owns(ActOf(s', b), h)
      ensures b in v'.holders <==> Holds(ActOf(s', b), h)
      ensures v'.phase == Deleting(b) <==> Deletes(ActOf(s', b), h)
      ensures v'.phase == Marked(b) <==> Deallocs(ActOf(s', b), h)
      ensures var x := ActOf(s', b);
              && ((x.Drain? || x.Free?) && x.q == h ==> v'.queue.release)
              && (x.Free? && x.q == h ==> v'.queue.msgs == [])
              && (Works(x, h) ==> v'.init)
    {
      if b != a {
        assert ActOf(s', b) == ActOf(s, b);
        assert b in v'.holders - {a} <==> b in v.holders - {a};
      }
    }
  }

  /** A step of `a` that changes at most services `h` and `g` and the list at these. */
  ghost predicate Local(s: State, s': State, a: Aid, h: Handle, g: Handle) {
    && !s'.fault && NoDup(s'.global) && OthersSame(s, s', a)
    && s'.services.Keys == s.services.Keys && s'.next == s.next
    && (forall k {:trigger s'.services[k]} :: k in s.services && k != h && k != g ==> s'.services[k] == s.services[k])
    && (forall k {:trigger k in s'.global} :: k != h && k != g ==> (k in s.global <==> k in s'.global))
    && (forall k {:trigger SameRole(ActOf(s, a), ActOf(s', a), k)} :: k != h && k != g ==>
         SameRole(ActOf(s, a), ActOf(s', a), k))
    && h in s.services && g in s.services
    && ActInv(s', ActOf(s', a))
  }

  lemma Kept(s: State, s': State, a: Aid, h: Handle, g: Handle)
    requires Inv(s) && Local(s, s', a, h, g)
    requires TouchOk(s, s', a, h) && TouchOk(s, s', a, g)
    ensures Inv(s')
  {
    assert RolesInv(s, h) && RolesInv(s, g);
    Touched(s, s', a, h);
    Touched(s, s', a, g);
    Assemble(s, s', a, h, g);
  }

  /** Only service `h` and its place in the list change. */
  ghost predicate OnlyAt(s: State, s1: State, h: Handle) {
    && !s1.fault && NoDup(s1.global) && s1.acts == s.acts && h in s.services
    && s1.services.Keys == s.services.Keys && s1.next == s.next
    && (forall k {:trigger s1.services[k]} :: k in s.services && k != h ==> s1.services[k] == s.services[k])
    && (forall k {:trigger k in s1.global} :: k != h ==> (k in s.global <==> k in s1.global))
  }

  lemma OnlySet(s: State, h: Handle, v: Service)
    requires !s.fault && NoDup(s.global) && h in s.services
    ensures OnlyAt(s, SetSvc(s, h, v), h)
  {
  }

  lemma OnlyEnlisted(s: State, s1: State, h: Handle)
    requires OnlyAt(s, s1, h) && !s1.services[h].freed && h !in s1.global
    ensures OnlyAt(s, Enlist(s1, h), h)
  {
  }

  lemma KeptAt(s: State, s1: State, a: Aid, x: Act, h: Handle)
    requires Inv(s) && OnlyAt(s, s1, h) && ActInv(s, x)
    requires forall k {:trigger SameRole(ActOf(s, a), x, k)} :: k != h ==> SameRole(ActOf(s, a), x, k)
    requires TouchOk(s, SetAct(s1, a, x), a, h)
    ensures Inv(SetAct(s1, a, x))
  {
    hide Inv;
    hide RolesInv;
    hide SameRole;
    hide TouchOk;
    hide NoDup;
    var s' := SetAct(s1, a, x);
    forall b {:trigger ActOf(s', b)} | b != a ensures ActOf(s', b) == ActOf(s, b) { }
    Kept(s, s', a, h, h);
  }

  /** The activity has to do with no service but `h`. */
  predicate About(x: Act, h: Handle) {
    match x
    case Idle => true
    case PopNext => true
    case SendGrab(_, _) => true
    case RetireReq(_) => true
    case Own(q) => q == h
    case MqRelease(q, k) => q == h && (k.KIdle? || k.KPopNext?)
    case Loop(q) => q == h
    case Busy(q, _) => q == h
    case Done(q) => q == h
    case SendPush(q, _) => q == h
    case Make(q) => q == h
    case Init(q) => q == h
    case SetInit(q) => q == h
    case Publish(q, _) => q == h
    case Report(q) => q == h
    case Reply(q) => q == h
    case FailRetire(q) => q == h
    case Rel(q, k) => q == h && (k.KIdle? || k.KPopNext? || k.q == h)
    case _ => false
  }

  /** Its part for the others is none. */
  lemma AboutRoles(s: State, x: Act, y: Act, h: Handle)
    requires About(x, h) && About(y, h)
    ensures forall k {:trigger SameRole(x, y, k)} :: k != h ==> SameRole(x, y, k)
    ensures h in s.services ==> ActInv(s, y)
  {
    forall k {:trigger SameRole(x, y, k)} | k != h ensures SameRole(x, y, k) {
      NoPart(x, h, k);
      NoPart(y, h, k);
      hide *;
      NoneSame(x, y, k);
    }
    forall k ensures Owns(y, k) || Holds(y, k) || Uses(y, k) || Deletes(y, k) || Deallocs(y, k) ==> k == h {
      if k != h { NoPart(y, h, k); }
    }
    hide SameRole;
  }

  predicate None(x: Act, k: Handle) {
    && !Owns(x, k) && !Holds(x, k) && !Uses(x, k) && !Deletes(x, k) && !Deallocs(x, k) && !Launches(x, k)
    && !Works(x, k) && InHandOf(x, k) == [] && x != Make(k) && !x.Drain? && !x.Free?
  }

  lemma NoPart(x: Act, h: Handle, k: Handle)
    requires About(x, h) && k != h
    ensures None(x, k)
  {
  }

  lemma NoneSame(x: Act, y: Act, k: Handle)
    requires None(x, k) && None(y, k)
    ensures SameRole(x, y, k)
  {
  }

  /** What the invariant says about activity `a` and service `h`. */
  lemma Facts(s: State, a: Aid, h: Handle)
    requires Inv(s) && h in s.services
    ensures var v, x := s.services[h], ActOf(s, a);
            && ContextInv(v) && QueueInv(v) && ActInv(s, x) && NoDup(s.global) && !s.fault
            && (v.owner == InList <==> h in s.global) && (v.owner == By(a) <==> Owns(x, h))
            && (a in v.holders <==> Holds(x, h))
            && (v.phase == Deleting(a) <==> Deletes(x, h)) && (v.phase == Marked(a) <==> Deallocs(x, h))
            && ((x.Drain? || x.Free?) && x.q == h ==> v.queue.release)
            && (x.Free? && x.q == h ==> v.queue.msgs == [])
            && (Works(x, h) ==> v.init)
            && (v.registered && !v.init ==> v.owner.By? && Launches(ActOf(s, v.owner.a), h))
            && (!v.made <==> v.owner.By? && ActOf(s, v.owner.a) == Make(h))
            && v.pushed == Msgs(v.log) + InHand(s, h) + v.queue.msgs
  {
    assert RolesInv(s, h) && ActInv(s, ActOf(s, a));
  }

  lemma OwnedFacts(s: State, a: Aid, q: Handle)
    requires Inv(s) && Owns(ActOf(s, a), q)
    ensures q in s.services && !s.services[q].freed && q !in s.global
  {
    assert ActInv(s, ActOf(s, a));
    hide Inv;
    hide RolesInv;
    Facts(s, a, q);
  }

  lemma HeldFacts(s: State, a: Aid, h: Handle)
    requires Inv(s) && Holds(ActOf(s, a), h)
    ensures h in s.services && s.services[h].phase.Live? && !s.services[h].freed && !s.services[h].queue.release
    ensures Works(ActOf(s, a), h) ==> s.services[h].init
    ensures s.services[h].queue.Enlists() ==> h !in s.global
  {
    assert ActInv(s, ActOf(s, a));
    hide Inv;
    hide RolesInv;
    Facts(s, a, h);
  }

  lemma DeletedFacts(s: State, a: Aid, h: Handle)
    requires Inv(s) && (Deletes(ActOf(s, a), h) || Deallocs(ActOf(s, a), h))
    ensures h in s.services && !s.services[h].phase.Dead? && !s.services[h].registered
    ensures Deletes(ActOf(s, a), h) ==>
              && !s.services[h].freed && !s.services[h].queue.release
              && (s.services[h].queue.Enlists() ==> h !in s.global)
  {
    assert ActInv(s, ActOf(s, a));
    hide Inv;
    hide RolesInv;
    Facts(s, a, h);
  }

  lemma ActFacts(s: State, a: Aid)
    requires Inv(s)
    ensures ActInv(s, ActOf(s, a)) && NoDup(s.global) && !s.fault
    ensures s.global != [] ==> s.global[0] in s.services && s.global[0] in s.global
  {
  }

  lemma RegisteredLives(s: State, h: Handle)
    requires Inv(s) && Registered(s, h)
    ensures s.services[h].phase.Live? && !s.services[h].phase.Dead?
  {
    assert RolesInv(s, h);
  }

  /** Popping moves the first message from the queue into the hand. */
  lemma PopKeepsHistory(log: seq<Logged>, msgs: seq<Message>)
    requires msgs != []
    ensures Msgs(log) + [] + msgs == Msgs(log) + [msgs[0]] + msgs[1..]
  {
  }

  /** Finishing or dropping a message moves it to the log. */
  lemma LogKeepsHistory(log: seq<Logged>, m: Message, fate: Fate, msgs: seq<Message>)
    ensures Msgs(log) + [m] + msgs == Msgs(log + [Logged(m, fate)]) + [] + msgs
  {
    assert Msgs(log + [Logged(m, fate)]) == Msgs(log) + [m];
  }

  /** Going on after a release changes no role but the reference that is given up. */
  lemma ResumeRole(h: Handle, k: Cont, y: Act)
    requires y == Resume(k) || y == Returned(k)
    ensures var x: Act := Rel(h, k);
            && (forall j {:trigger SameRole(x, y, j)} :: j != h ==> SameRole(x, y, j))
            && (forall j {:trigger SameRole(x, Del(h, k), j)} :: j != h ==> SameRole(x, Del(h, k), j))
            && (forall j {:trigger SameRole(Del(h, k), Dealloc(h, k), j)} :: j != h ==>
                 SameRole(Del(h, k), Dealloc(h, k), j))
            && (forall j {:trigger SameRole(Dealloc(h, k), y, j)} :: j != h ==> SameRole(Dealloc(h, k), y, j))
    ensures (forall j :: Owns(y, j) == Owns(Rel(h, k), j)) && (forall j :: Uses(y, j) ==> Owns(y, j)) &&
              (forall j :: !Holds(y, j) && !Deletes(y, j) && !Deallocs(y, j) && !Works(y, j))
    ensures InHandOf(y, h) == [] && !y.Make? && !y.Drain? && !y.Free? && !y.PushBack?
    ensures y.MqRelease? ==> y.k == KIdle
    ensures y == Returned(k) && Launches(Rel(h, k), h) ==> Launches(y, h)
  {
  }

  lemma ResumeActs(s: State, a: Aid, h: Handle, k: Cont)
    requires Inv(s) && (ActOf(s, a) == Rel(h, k) || ActOf(s, a) == Del(h, k) || ActOf(s, a) == Dealloc(h, k))
    ensures ActInv(s, Del(h, k)) && ActInv(s, Dealloc(h, k)) && ActInv(s, Resume(k)) && ActInv(s, Returned(k))
    ensures h in s.services
  {
    hide *;
    ActFacts(s, a);
    ContKnown(s, ActOf(s, a), h, k);
    ContActs(s, h, k);
  }

  lemma ContKnown(s: State, x: Act, h: Handle, k: Cont)
    requires ActInv(s, x) && (x == Rel(h, k) || x == Del(h, k) || x == Dealloc(h, k))
    ensures h in s.services && (k.KIdle? || k.KPopNext? || k.q in s.services)
  {
    assert Holds(x, h) || Deletes(x, h) || Deallocs(x, h);
    if !k.KIdle? && !k.KPopNext? { assert Owns(x, k.q); }
  }

  lemma ContActs(s: State, h: Handle, k: Cont)
    requires h in s.services && (k.KIdle? || k.KPopNext? || k.q in s.services)
    ensures ActInv(s, Del(h, k)) && ActInv(s, Dealloc(h, k)) && ActInv(s, Resume(k)) && ActInv(s, Returned(k))
  {
  }

  /** The continuations of a queue release play no part at all. */
  lemma ResumeNone(k: Cont)
    requires k == KIdle || k == KPopNext
    ensures var y: Act := Resume(k);
            && (forall j :: !Owns(y, j) && !Holds(y, j) && !Deletes(y, j) && !Deallocs(y, j) && InHandOf(y, j) == [])
            && (forall j :: !Uses(y, j) && !Works(y, j))
            && !y.Make? && !y.Drain? && !y.Free? && !y.PushBack? && !y.MqRelease?
  {
  }

  lemma LoopTouch(s: State, a: Aid, q: Handle)
    requires Inv(s) && ActOf(s, a) == Loop(q) && q in s.services
    ensures TouchOk(s, StepLoop(s, a, q), a, q)
  {
    hide Inv;
    hide RolesInv;
    hide NoDup;
    ActFacts(s, a);
    Facts(s, a, q);
    if s.services[q].queue.msgs != [] { PopKeepsHistory(s.services[q].log, s.services[q].queue.msgs); }
  }

  lemma LoopKeeps(s: State, a: Aid, q: Handle)
    requires Inv(s) && ActOf(s, a) == Loop(q)
    ensures Inv(StepLoop(s, a, q))
  {
    hide SameRole;
    hide ActInv;
    hide QueueInv;
    hide Inv;
    hide RolesInv;
    hide TouchOk;
    hide ContextInv;
    hide NoDup;
    hide OnlyAt;
    hide InHand;
    hide Msgs;
    ActFacts(s, a);
    OwnedFacts(s, a, q);
    LoopTouch(s, a, q);
    var v := s.services[q];
    var v' := v.(queue := v.queue.Pop());
    if v.queue.msgs == [] {
      AboutRoles(s, Loop(q), Rel(q, KPopNext), q);
      OnlySet(s, q, v'.(owner := NoOne));
      KeptAt(s, SetSvc(s, q, v'.(owner := NoOne)), a, Rel(q, KPopNext), q);
    } else {
      AboutRoles(s, Loop(q), Busy(q, v.queue.msgs[0]), q);
      OnlySet(s, q, v');
      KeptAt(s, SetSvc(s, q, v'), a, Busy(q, v.queue.msgs[0]), q);
    }
  }

  lemma BusyTouch(s: State, a: Aid, q: Handle, m: Message, c: Choice)
    requires Inv(s) && ActOf(s, a) == Busy(q, m) && c.Return? && q in s.services
    ensures TouchOk(s, StepBusy(s, a, q, m, c), a, q)
  {
    hide Inv;
    hide RolesInv;
    hide NoDup;
    ActFacts(s, a);
    Facts(s, a, q);
    var fate := if c.Return? && c.hasCallback then Handled else Discarded;
    LogKeepsHistory(s.services[q].log, m, fate, s.services[q].queue.msgs);
  }

  lemma BusyKeeps(s: State, a: Aid, q: Handle, m: Message, c: Choice)
    requires Inv(s) && ActOf(s, a) == Busy(q, m) && c.Return?
    ensures Inv(StepBusy(s, a, q, m, c))
  {
    hide QueueInv;
    hide Inv;
    hide RolesInv;
    hide TouchOk;
    hide ContextInv;
    hide InHand;
    hide Msgs;
    ActFacts(s, a);
    HeldFacts(s, a, q);
    BusyTouch(s, a, q, m, c);
    Kept(s, StepBusy(s, a, q, m, c), a, q, q);
  }

  lemma DrainTouch(s: State, a: Aid, q: Handle, k: Cont)
    requires Inv(s) && ActOf(s, a) == Drain(q, k) && q in s.services
    ensures TouchOk(s, StepDrain(s, a, q, k), a, q)
  {
    hide Inv;
    hide RolesInv;
    hide NoDup;
    ActFacts(s, a);
    Facts(s, a, q);
    var v := s.services[q];
    if v.queue.msgs != [] {
      PopKeepsHistory(v.log, v.queue.msgs);
      LogKeepsHistory(v.log, v.queue.msgs[0], Dropped, v.queue.msgs[1..]);
    }
  }

  lemma DrainKeeps(s: State, a: Aid, q: Handle, k: Cont)
    requires Inv(s) && ActOf(s, a) == Drain(q, k)
    ensures Inv(StepDrain(s, a, q, k))
  {
    hide QueueInv;
    hide Inv;
    hide RolesInv;
    hide TouchOk;
    hide ContextInv;
    hide InHand;
    hide Msgs;
    ActFacts(s, a);
    OwnedFacts(s, a, q);
    DrainTouch(s, a, q, k);
    Kept(s, StepDrain(s, a, q, k), a, q, q);
  }

  lemma FreeTouch(s: State, a: Aid, q: Handle, k: Cont)
    requires Inv(s) && ActOf(s, a) == Free(q, k) && q in s.services
    ensures TouchOk(s, StepFree(s, a, q, k), a, q)
  {
    assert ActInv(s, ActOf(s, a));
    ResumeNone(k);
    hide Resume;
    hide Inv;
    hide RolesInv;
    hide NoDup;
    ActFacts(s, a);
    Facts(s, a, q);
  }

  lemma FreeKeeps(s: State, a: Aid, q: Handle, k: Cont)
    requires Inv(s) && ActOf(s, a) == Free(q, k)
    ensures Inv(StepFree(s, a, q, k))
  {
    hide QueueInv;
    hide Inv;
    hide Resume;
    hide RolesInv;
    hide TouchOk;
    hide ContextInv;
    hide InHand;
    hide Msgs;
    ActFacts(s, a);
    ResumeNone(k);
    OwnedFacts(s, a, q);
    FreeTouch(s, a, q, k);
    Kept(s, StepFree(s, a, q, k), a, q, q);
  }

  lemma MqReleaseTouch(s: State, a: Aid, q: Handle, k: Cont)
    requires Inv(s) && ActOf(s, a) == MqRelease(q, k) && q in s.services
    ensures TouchOk(s, StepMqRelease(s, a, q, k), a, q)
  {
    assert ActInv(s, ActOf(s, a));
    ResumeNone(k);
    hide Resume;
    hide Inv;
    hide RolesInv;
    hide NoDup;
    ActFacts(s, a);
    Facts(s, a, q);
  }

  lemma MqReleaseKeeps(s: State, a: Aid, q: Handle, k: Cont)
    requires Inv(s) && ActOf(s, a) == MqRelease(q, k)
    ensures Inv(StepMqRelease(s, a, q, k))
  {
    hide QueueInv;
    hide Inv;
    hide Resume;
    hide RolesInv;
    hide TouchOk;
    hide ContextInv;
    hide InHand;
    hide Msgs;
    ActFacts(s, a);
    ResumeNone(k);
    OwnedFacts(s, a, q);
    MqReleaseTouch(s, a, q, k);
    Kept(s, StepMqRelease(s, a, q, k), a, q, q);
  }

  lemma PublishTouch(s: State, a: Aid, q: Handle, ret: bool)
    requires Inv(s) && ActOf(s, a) == Publish(q, ret) && q in s.services
    ensures TouchOk(s, StepPublish(s, a, q, ret), a, q)
  {
    hide Inv;
    hide RolesInv;
    hide NoDup;
    ActFacts(s, a);
    Facts(s, a, q);
  }

  lemma PublishKeeps(s: State, a: Aid, q: Handle, ret: bool)
    requires Inv(s) && ActOf(s, a) == Publish(q, ret)
    ensures Inv(StepPublish(s, a, q, ret))
  {
    hide SameRole;
    hide ActInv;
    hide QueueInv;
    hide Inv;
    hide RolesInv;
    hide TouchOk;
    hide ContextInv;
    hide NoDup;
    hide OnlyAt;
    hide InHand;
    hide Msgs;
    ActFacts(s, a);
    AboutRoles(s, Publish(q, ret), if ret then Report(q) else Idle, q);
    OwnedFacts(s, a, q);
    PublishTouch(s, a, q, ret);
    OnlySet(s, q, s.services[q]);
    assert SetSvc(s, q, s.services[q]) == s;
    OnlyEnlisted(s, s, q);
    KeptAt(s, Enlist(s, q), a, if ret then Report(q) else Idle, q);
  }

  /** A fault aside, what the uses of a context without a reference do. */
  function Clear(s: State): State { s.(fault := false) }

  lemma SetInitTouch(s: State, a: Aid, h: Handle)
    requires Inv(s) && ActOf(s, a) == SetInit(h) && h in s.services
    ensures TouchOk(s, Clear(StepSetInit(s, a, h)), a, h)
  {
    hide Inv;
    hide RolesInv;
    hide NoDup;
    ActFacts(s, a);
    Facts(s, a, h);
  }

  lemma SetInitKeeps(s: State, a: Aid, h: Handle)
    requires Inv(s) && ActOf(s, a) == SetInit(h)
    ensures Inv(Clear(StepSetInit(s, a, h)))
  {
    hide SameRole;
    hide ActInv;
    hide Inv;
    hide RolesInv;
    hide TouchOk;
    hide ContextInv;
    hide QueueInv;
    hide NoDup;
    hide OnlyAt;
    hide InHand;
    hide Msgs;
    ActFacts(s, a);
    AboutRoles(s, SetInit(h), Publish(h, true), h);
    OwnedFacts(s, a, h);
    SetInitTouch(s, a, h);
    var v := s.services[h];
    var v' := if Gone(s, h) then v else v.(init := true);
    OnlySet(s, h, v');
    assert Clear(StepSetInit(s, a, h)) == SetAct(SetSvc(s, h, v'), a, Publish(h, true)) by {
      if Gone(s, h) { assert SetSvc(s, h, v) == s; }
    }
    KeptAt(s, SetSvc(s, h, v'), a, Publish(h, true), h);
  }

  lemma ReportKeeps(s: State, a: Aid, h: Handle, c: Choice)
    requires Inv(s) && ActOf(s, a) == Report(h)
    ensures Inv(Clear(StepReport(s, a, h, c)))
  {
    hide Inv;
    hide RolesInv;
    hide Step;
    ActFacts(s, a);
    assert Clear(StepReport(s, a, h, c)) == SetAct(s, a, Reply(h));
    Unchanged(s, a, Reply(h));
  }

  lemma ReplyKeeps(s: State, a: Aid, h: Handle)
    requires Inv(s) && ActOf(s, a) == Reply(h)
    ensures Inv(Clear(StepReply(s, a, h)))
  {
    hide Inv;
    hide RolesInv;
    hide Step;
    ActFacts(s, a);
    assert Clear(StepReply(s, a, h)) == SetAct(s, a, Idle);
    Unchanged(s, a, Idle);
  }

  lemma SendPushTouch(s: State, a: Aid, h: Handle, m: Message)
    requires Inv(s) && ActOf(s, a) == SendPush(h, m) && h in s.services && s.services[h].made
    ensures TouchOk(s, StepSendPush(s, a, h, m), a, h)
  {
    hide Inv;
    hide RolesInv;
    hide NoDup;
    ActFacts(s, a);
    Facts(s, a, h);
  }

  function Pushing(s: State, h: Handle, m: Message): State
    requires h in s.services
  {
    var v := s.services[h];
    var s1 := SetSvc(s, h, v.(queue := v.queue.Push(m), pushed := v.pushed + [m]));
    if v.queue.Enlists() then Enlist(s1, h) else s1
  }

  lemma OnlyPushed(s: State, h: Handle, m: Message)
    requires !s.fault && NoDup(s.global) && h in s.services && !s.services[h].freed
    requires s.services[h].queue.Enlists() ==> h !in s.global
    ensures OnlyAt(s, Pushing(s, h, m), h)
  {
    hide OnlyAt;
    hide NoDup;
    var v := s.services[h];
    var v' := v.(queue := v.queue.Push(m), pushed := v.pushed + [m]);
    OnlySet(s, h, v');
    if v.queue.Enlists() { OnlyEnlisted(s, SetSvc(s, h, v'), h); }
  }

  lemma SendPushIs(s: State, a: Aid, h: Handle, m: Message)
    requires h in s.services && !s.services[h].freed && !s.services[h].phase.Dead? && s.services[h].made
    ensures StepSendPush(s, a, h, m) == SetAct(Pushing(s, h, m), a, Rel(h, KIdle))
  {
  }

  lemma SendPushKeeps(s: State, a: Aid, h: Handle, m: Message)
    requires Inv(s) && ActOf(s, a) == SendPush(h, m) && !SendsEarly(s, a)
    ensures Inv(StepSendPush(s, a, h, m))
  {
    hide SameRole;
    hide ActInv;
    hide Inv;
    hide Pushing;
    hide StepSendPush;
    hide RolesInv;
    hide TouchOk;
    hide ContextInv;
    hide QueueInv;
    hide NoDup;
    hide OnlyAt;
    hide InHand;
    hide Msgs;
    ActFacts(s, a);
    AboutRoles(s, SendPush(h, m), Rel(h, KIdle), h);
    HeldFacts(s, a, h);
    SendPushTouch(s, a, h, m);
    OnlyPushed(s, h, m);
    SendPushIs(s, a, h, m);
    KeptAt(s, Pushing(s, h, m), a, Rel(h, KIdle), h);
  }

  /** Giving up a reference: the count reaches zero when nobody holds one any more. */
  lemma DropRef(v: Service, a: Aid)
    requires ContextInv(v) && a in v.holders
    ensures v.phase.Live?
    ensures var v' := v.(ref := v.ref - 1, holders := v.holders - {a});
            if v'.ref == 0 then ContextInv(v'.(phase := Deleting(a))) else ContextInv(v')
  {
    assert |v.holders - {a}| == |v.holders| - 1;
  }

  lemma RelTouch(s: State, a: Aid, h: Handle, k: Cont)
    requires Inv(s) && ActOf(s, a) == Rel(h, k) && h in s.services
    ensures TouchOk(s, StepRel(s, a, h, k), a, h)
  {
    hide Inv;
    hide Resume;
    hide Returned;
    hide RolesInv;
    hide SameRole;
    hide NoDup;
    hide ContextInv;
    hide TouchOk;
    ActFacts(s, a);
    Facts(s, a, h);
    var v := s.services[h];
    DropRef(v, a);
    var v' := v.(ref := v.ref - 1, holders := v.holders - {a});
    if v'.ref == 0 { LastTouch(s, a, h, k, v'); } else { GivenTouch(s, a, h, k, v'); }
  }

  /** The last reference is given up. */
  lemma LastTouch(s: State, a: Aid, h: Handle, k: Cont, v': Service)
    requires Inv(s) && ActOf(s, a) == Rel(h, k) && h in s.services && s.services[h].phase.Live?
    requires v' == s.services[h].(ref := s.services[h].ref - 1, holders := s.services[h].holders - {a}) && v'.ref == 0
    requires ContextInv(v'.(phase := Deleting(a)))
    ensures TouchOk(s, SetAct(SetSvc(s, h, v'.(phase := Deleting(a))), a, Del(h, k)), a, h)
  {
    hide Inv;
    hide RolesInv;
    hide SameRole;
    hide NoDup;
    assert ContextInv(v'.(phase := Deleting(a))) && !v'.registered;
    hide ContextInv;
    Facts(s, a, h);
  }

  /** Another reference is left. */
  lemma GivenTouch(s: State, a: Aid, h: Handle, k: Cont, v': Service)
    requires Inv(s) && ActOf(s, a) == Rel(h, k) && h in s.services && s.services[h].phase.Live?
    requires v' == s.services[h].(ref := s.services[h].ref - 1, holders := s.services[h].holders - {a})
    requires ContextInv(v')
    ensures TouchOk(s, SetAct(SetSvc(s, h, v'), a, Returned(k)), a, h)
  {
    hide Inv;
    hide Resume;
    hide Returned;
    hide RolesInv;
    hide SameRole;
    hide NoDup;
    hide ContextInv;
    ResumeRole(h, k, Returned(k));
    Facts(s, a, h);
  }

  lemma RelKeeps(s: State, a: Aid, h: Handle, k: Cont)
    requires Inv(s) && ActOf(s, a) == Rel(h, k)
    ensures Inv(StepRel(s, a, h, k))
  {
    hide ActInv;
    hide QueueInv;
    hide Inv;
    hide Resume;
    hide Returned;
    hide RolesInv;
    hide SameRole;
    hide TouchOk;
    hide ContextInv;
    hide NoDup;
    hide OnlyAt;
    hide InHand;
    hide Msgs;
    ActFacts(s, a);
    ResumeActs(s, a, h, k);
    ResumeRole(h, k, Returned(k));
    HeldFacts(s, a, h);
    RelTouch(s, a, h, k);
    var v := s.services[h];
    var v' := v.(ref := v.ref - 1, holders := v.holders - {a});
    if v'.ref == 0 {
      OnlySet(s, h, v'.(phase := Deleting(a)));
      KeptAt(s, SetSvc(s, h, v'.(phase := Deleting(a))), a, Del(h, k), h);
    } else {
      OnlySet(s, h, v');
      KeptAt(s, SetSvc(s, h, v'), a, Returned(k), h);
    }
  }

  /** The queue of a context that is being deleted is marked. */
  function Marking(s: State, a: Aid, h: Handle): State
    requires h in s.services
  {
    var v := s.services[h];
    var s1 := SetSvc(s, h, v.(queue := v.queue.MarkRelease(), phase := Marked(a)));
    if v.queue.Enlists() then Enlist(s1, h) else s1
  }

  lemma DelIs(s: State, a: Aid, h: Handle, k: Cont)
    requires h in s.services && !s.services[h].freed && !s.services[h].queue.release
    ensures StepDel(s, a, h, k) == SetAct(Marking(s, a, h), a, Dealloc(h, k))
  {
  }

  lemma DelTouch(s: State, a: Aid, h: Handle, k: Cont)
    requires Inv(s) && ActOf(s, a) == Del(h, k) && h in s.services
    ensures TouchOk(s, StepDel(s, a, h, k), a, h)
  {
    hide Inv;
    hide Resume;
    hide RolesInv;
    hide SameRole;
    hide NoDup;
    hide Returned;
    hide TouchOk;
    hide ContextInv;
    hide QueueInv;
    DeletedFacts(s, a, h);
    DelIs(s, a, h, k);
    MarkTouch(s, a, h, k);
  }

  lemma MarkTouch(s: State, a: Aid, h: Handle, k: Cont)
    requires Inv(s) && ActOf(s, a) == Del(h, k) && h in s.services
    requires !s.services[h].freed && (s.services[h].queue.Enlists() ==> h !in s.global)
    ensures TouchOk(s, SetAct(Marking(s, a, h), a, Dealloc(h, k)), a, h)
  {
    hide Inv;
    hide RolesInv;
    hide SameRole;
    hide NoDup;
    Facts(s, a, h);
  }

  lemma OnlyMarked(s: State, a: Aid, h: Handle)
    requires !s.fault && NoDup(s.global) && h in s.services && !s.services[h].freed
    requires s.services[h].queue.Enlists() ==> h !in s.global
    ensures OnlyAt(s, Marking(s, a, h), h)
  {
    hide OnlyAt;
    hide NoDup;
    var v := s.services[h];
    var v' := v.(queue := v.queue.MarkRelease(), phase := Marked(a));
    OnlySet(s, h, v');
    if v.queue.Enlists() { OnlyEnlisted(s, SetSvc(s, h, v'), h); }
  }

  lemma DelKeeps(s: State, a: Aid, h: Handle, k: Cont)
    requires Inv(s) && ActOf(s, a) == Del(h, k)
    ensures Inv(StepDel(s, a, h, k))
  {
    hide ActInv;
    hide Inv;
    hide Marking;
    hide Resume;
    hide RolesInv;
    hide SameRole;
    hide TouchOk;
    hide ContextInv;
    hide QueueInv;
    hide NoDup;
    hide OnlyAt;
    hide InHand;
    hide Msgs;
    ActFacts(s, a);
    ResumeActs(s, a, h, k);
    ResumeRole(h, k, Resume(k));
    DeletedFacts(s, a, h);
    DelTouch(s, a, h, k);
    OnlyMarked(s, a, h);
    DelIs(s, a, h, k);
    hide StepDel;
    KeptAt(s, Marking(s, a, h), a, Dealloc(h, k), h);
  }

  lemma DeallocTouch(s: State, a: Aid, h: Handle, k: Cont)
    requires Inv(s) && ActOf(s, a) == Dealloc(h, k) && h in s.services
    ensures TouchOk(s, StepDealloc(s, a, h, k), a, h)
  {
    hide Inv;
    hide Resume;
    hide RolesInv;
    hide SameRole;
    hide NoDup;
    ResumeRole(h, k, Resume(k));
    ActFacts(s, a);
    Facts(s, a, h);
  }

  lemma DeallocKeeps(s: State, a: Aid, h: Handle, k: Cont)
    requires Inv(s) && ActOf(s, a) == Dealloc(h, k)
    ensures Inv(StepDealloc(s, a, h, k))
  {
    hide ActInv;
    hide QueueInv;
    hide Inv;
    hide Resume;
    hide RolesInv;
    hide SameRole;
    hide TouchOk;
    hide ContextInv;
    hide NoDup;
    hide OnlyAt;
    hide InHand;
    hide Msgs;
    ActFacts(s, a);
    ResumeActs(s, a, h, k);
    ResumeRole(h, k, Resume(k));
    DeletedFacts(s, a, h);
    DeallocTouch(s, a, h, k);
    var v := s.services[h];
    OnlySet(s, h, v.(phase := Dead, ctxFrees := v.ctxFrees + 1));
    KeptAt(s, SetSvc(s, h, v.(phase := Dead, ctxFrees := v.ctxFrees + 1)), a, Resume(k), h);
  }

  lemma PushBackTouch(s: State, a: Aid, q: Handle, nq: Handle)
    requires Inv(s) && ActOf(s, a) == PushBack(q, nq) && q in s.services
    ensures TouchOk(s, StepPushBack(s, a, q, nq), a, q)
  {
    hide Inv;
    hide RolesInv;
    hide NoDup;
    ActFacts(s, a);
    Facts(s, a, q);
  }

  lemma PushBackKeeps(s: State, a: Aid, q: Handle, nq: Handle)
    requires Inv(s) && ActOf(s, a) == PushBack(q, nq)
    ensures Inv(StepPushBack(s, a, q, nq))
  {
    hide QueueInv;
    hide Inv;
    hide RolesInv;
    hide TouchOk;
    hide ContextInv;
    hide NoDup;
    hide OnlyAt;
    hide InHand;
    hide Msgs;
    ActFacts(s, a);
    OwnedFacts(s, a, q);
    PushBackTouch(s, a, q, nq);
    OnlySet(s, q, s.services[q]);
    assert SetSvc(s, q, s.services[q]) == s;
    OnlyEnlisted(s, s, q);
    KeptAt(s, Enlist(s, q), a, Rel(q, KOwn(nq)), q);
  }

  lemma MakeTouch(s: State, a: Aid, h: Handle)
    requires Inv(s) && ActOf(s, a) == Make(h) && h in s.services
    ensures TouchOk(s, StepMake(s, a, h), a, h)
  {
    hide Inv;
    hide RolesInv;
    hide NoDup;
    ActFacts(s, a);
    Facts(s, a, h);
  }

  lemma MakeKeeps(s: State, a: Aid, h: Handle)
    requires Inv(s) && ActOf(s, a) == Make(h)
    ensures Inv(StepMake(s, a, h))
  {
    hide SameRole;
    hide ActInv;
    hide Inv;
    hide RolesInv;
    hide TouchOk;
    hide ContextInv;
    hide QueueInv;
    hide NoDup;
    hide OnlyAt;
    hide InHand;
    hide Msgs;
    ActFacts(s, a);
    AboutRoles(s, Make(h), Init(h), h);
    HeldFacts(s, a, h);
    MakeTouch(s, a, h);
    OnlySet(s, h, s.services[h].(made := true));
    KeptAt(s, SetSvc(s, h, s.services[h].(made := true)), a, Init(h), h);
  }

  lemma InitTouch(s: State, a: Aid, h: Handle, c: Choice)
    requires Inv(s) && ActOf(s, a) == Init(h) && c.InitReturns? && h in s.services
    ensures TouchOk(s, StepInit(s, a, h, c), a, h)
  {
    hide Inv;
    hide RolesInv;
    hide NoDup;
    ActFacts(s, a);
    Facts(s, a, h);
  }

  lemma InitKeeps(s: State, a: Aid, h: Handle, c: Choice)
    requires Inv(s) && ActOf(s, a) == Init(h) && c.InitReturns?
    ensures Inv(StepInit(s, a, h, c))
  {
    hide Inv;
    hide RolesInv;
    hide TouchOk;
    hide ContextInv;
    hide InHand;
    hide Msgs;
    ActFacts(s, a);
    Facts(s, a, h);
    InitTouch(s, a, h, c);
    Kept(s, StepInit(s, a, h, c), a, h, h);
  }

  lemma OwnTouch(s: State, a: Aid, q: Handle)
    requires Inv(s) && ActOf(s, a) == Own(q) && q in s.services
    ensures TouchOk(s, StepOwn(s, a, q), a, q)
  {
    hide Inv;
    hide RolesInv;
    hide NoDup;
    ActFacts(s, a);
    Facts(s, a, q);
  }

  lemma OwnKeeps(s: State, a: Aid, q: Handle)
    requires Inv(s) && ActOf(s, a) == Own(q)
    ensures Inv(StepOwn(s, a, q))
  {
    hide SameRole;
    hide ActInv;
    hide QueueInv;
    hide Inv;
    hide RolesInv;
    hide TouchOk;
    hide ContextInv;
    hide InHand;
    hide Msgs;
    ActFacts(s, a);
    AboutRoles(StepOwn(s, a, q), Own(q), Loop(q), q);
    AboutRoles(StepOwn(s, a, q), Own(q), MqRelease(q, KPopNext), q);
    OwnedFacts(s, a, q);
    if Registered(s, q) { RegisteredLives(s, q); }
    OwnTouch(s, a, q);
    Kept(s, StepOwn(s, a, q), a, q, q);
  }

  lemma FailRetireTouch(s: State, a: Aid, q: Handle)
    requires Inv(s) && ActOf(s, a) == FailRetire(q) && q in s.services
    ensures TouchOk(s, StepFailRetire(s, a, q), a, q)
  {
    hide TouchOk;
    hide Inv;
    if Registered(s, q) {
      RegisteredLives(s, q);
      TakenTouch(s, a, q);
    } else {
      LeftTouch(s, a, q);
    }
  }

  /** The table's reference goes to the launcher. */
  lemma TakenTouch(s: State, a: Aid, q: Handle)
    requires Inv(s) && ActOf(s, a) == FailRetire(q) && Registered(s, q)
    ensures TouchOk(s, SetAct(Unregister(s, a, q), a, Rel(q, KMqRelease(q))), a, q)
  {
    hide Inv;
    hide RolesInv;
    hide NoDup;
    hide SameRole;
    hide ActInv;
    RegisteredLives(s, q);
    Facts(s, a, q);
  }

  /** Someone else retired the handle. */
  lemma LeftTouch(s: State, a: Aid, q: Handle)
    requires Inv(s) && ActOf(s, a) == FailRetire(q) && q in s.services && !Registered(s, q)
    ensures TouchOk(s, SetAct(s, a, MqRelease(q, KIdle)), a, q)
  {
    hide Inv;
    hide RolesInv;
    hide NoDup;
    hide SameRole;
    hide ActInv;
    hide ContextInv;
    Facts(s, a, q);
    assert ContextInv(s.services[q]);
  }

  lemma FailRetireKeeps(s: State, a: Aid, q: Handle)
    requires Inv(s) && ActOf(s, a) == FailRetire(q)
    ensures Inv(StepFailRetire(s, a, q))
  {
    hide SameRole;
    hide ActInv;
    hide QueueInv;
    hide Inv;
    hide RolesInv;
    hide TouchOk;
    hide ContextInv;
    hide NoDup;
    hide OnlyAt;
    hide InHand;
    hide Msgs;
    ActFacts(s, a);
    AboutRoles(s, FailRetire(q), Rel(q, KMqRelease(q)), q);
    AboutRoles(s, FailRetire(q), MqRelease(q, KIdle), q);
    OwnedFacts(s, a, q);
    if Registered(s, q) { RegisteredLives(s, q); }
    FailRetireTouch(s, a, q);
    if Registered(s, q) {
      var v := s.services[q];
      OnlySet(s, q, v.(registered := false, holders := v.holders + {a}));
      KeptAt(s, Unregister(s, a, q), a, Rel(q, KMqRelease(q)), q);
    } else {
      OnlySet(s, q, s.services[q]);
      assert SetSvc(s, q, s.services[q]) == s;
      KeptAt(s, s, a, MqRelease(q, KIdle), q);
    }
  }

  /** Taking the head of the global list: its owner becomes the taker. */
  lemma DelistTouch(s: State, a: Aid, y: Act)
    requires Inv(s) && s.global != [] && s.global[0] in s.services
    requires Owns(y, s.global[0]) && !Holds(ActOf(s, a), s.global[0]) && !Holds(y, s.global[0])
    requires !Deletes(ActOf(s, a), s.global[0]) && !Deletes(y, s.global[0])
    requires !Deallocs(ActOf(s, a), s.global[0]) && !Deallocs(y, s.global[0])
    requires InHandOf(y, s.global[0]) == [] && !y.Drain? && !y.Free?
    ensures TouchOk(s, SetAct(Delist(s, a), a, y), a, s.global[0])
  {
    hide Inv;
    hide RolesInv;
    hide NoDup;
    ActFacts(s, a);
    Facts(s, a, s.global[0]);
    assert s.global[0] !in s.global[1..];
  }

  lemma PopNextKeeps(s: State, a: Aid)
    requires Inv(s) && ActOf(s, a) == PopNext
    ensures Inv(StepPopNext(s, a))
  {
    hide Inv;
    hide RolesInv;
    hide TouchOk;
    hide ContextInv;
    hide InHand;
    hide Msgs;
    ActFacts(s, a);
    if s.global == [] {
      Unchanged(s, a, Idle);
    } else {
      var h := s.global[0];
      Facts(s, a, h);
      assert ActInv(s, ActOf(s, a)) && h in s.services;
      DelistTouch(s, a, Own(h));
      Kept(s, StepPopNext(s, a), a, h, h);
    }
  }

  lemma DoneTouch(s: State, a: Aid, q: Handle)
    requires Inv(s) && ActOf(s, a) == Done(q) && s.global != [] && q in s.services && s.global[0] != q
    ensures TouchOk(s, StepDone(s, a, q), a, q)
  {
    hide Inv;
    hide RolesInv;
    ActFacts(s, a);
    Facts(s, a, q);
    Facts(s, a, s.global[0]);
  }

  lemma DoneKeeps(s: State, a: Aid, q: Handle)
    requires Inv(s) && ActOf(s, a) == Done(q)
    ensures Inv(StepDone(s, a, q))
  {
    hide Inv;
    hide RolesInv;
    hide TouchOk;
    hide ContextInv;
    hide QueueInv;
    hide InHand;
    hide Msgs;
    hide SameRole;
    hide ActInv;
    ActFacts(s, a);
    OwnedFacts(s, a, q);
    if s.global == [] {
      DoneSame(s, q);
      Unchanged(s, a, Rel(q, KOwn(q)));
    } else {
      var h := s.global[0];
      HeadFacts(s, a);
      assert h != q;
      DoneRoles(StepDone(s, a, q), q, h);
      DelistTouch(s, a, PushBack(q, h));
      DoneTouch(s, a, q);
      Kept(s, StepDone(s, a, q), a, h, q);
    }
  }

  lemma DoneSame(s: State, q: Handle)
    requires q in s.services
    ensures ActInv(s, Rel(q, KOwn(q)))
    ensures forall k {:trigger SameRole(Done(q), Rel(q, KOwn(q)), k)} :: SameRole(Done(q), Rel(q, KOwn(q)), k)
  {
  }

  lemma DoneRoles(s: State, q: Handle, h: Handle)
    requires q in s.services && h in s.services && h != q
    ensures ActInv(s, PushBack(q, h))
    ensures forall k {:trigger SameRole(Done(q), PushBack(q, h), k)} ::
              k != h && k != q ==> SameRole(Done(q), PushBack(q, h), k)
  {
  }

  /** The first queue of the global list. */
  lemma HeadFacts(s: State, a: Aid)
    requires Inv(s) && s.global != []
    ensures var h := s.global[0];
            h in s.services && h in s.global && !s.services[h].freed && !Owns(ActOf(s, a), h)
  {
    hide RolesInv;
    Facts(s, a, s.global[0]);
  }

  /** A step that only moves the activity between places with the same part. */
  lemma Unchanged(s: State, a: Aid, y: Act)
    requires Inv(s) && ActInv(s, y)
    requires forall k {:trigger SameRole(ActOf(s, a), y, k)} :: SameRole(ActOf(s, a), y, k)
    ensures Inv(SetAct(s, a, y))
  {
    hide RolesInv;
    var s' := SetAct(s, a, y);
    forall k {:trigger RolesInv(s', k)} | k in s'.services ensures RolesInv(s', k) {
      assert RolesInv(s, k) && SameRole(ActOf(s, a), y, k);
      Framed(s, s', a, k);
    }
    forall b {:trigger ActOf(s', b)} ensures ActInv(s', ActOf(s', b)) {
      assert b != a ==> ActOf(s', b) == ActOf(s, b);
    }
  }

  lemma SendGrabKeeps(s: State, a: Aid, h: Handle, m: Message)
    requires Inv(s) && ActOf(s, a) == SendGrab(h, m)
    ensures Inv(StepSendGrab(s, a, h, m))
  {
    hide Inv;
    hide RolesInv;
    hide TouchOk;
    hide ContextInv;
    hide NoDup;
    hide OnlyAt;
    hide InHand;
    hide Msgs;
    ActFacts(s, a);
    AboutRoles(s, SendGrab(h, m), SendPush(h, m), h);
    if Registered(s, h) {
      SendGrabTouch(s, a, h, m);
      RegisteredLives(s, h);
      var v := s.services[h];
      OnlySet(s, h, v.(ref := v.ref + 1, holders := v.holders + {a}));
      KeptAt(s, Grab(s, a, h), a, SendPush(h, m), h);
    } else {
      Unchanged(s, a, Idle);
    }
  }

  lemma SendGrabTouch(s: State, a: Aid, h: Handle, m: Message)
    requires Inv(s) && ActOf(s, a) == SendGrab(h, m) && Registered(s, h)
    ensures TouchOk(s, StepSendGrab(s, a, h, m), a, h)
  {
    hide Inv;
    hide RolesInv;
    hide NoDup;
    ActFacts(s, a);
    Facts(s, a, h);
  }

  lemma RetireReqKeeps(s: State, a: Aid, h: Handle)
    requires Inv(s) && ActOf(s, a) == RetireReq(h)
    ensures Inv(StepRetireReq(s, a, h))
  {
    hide Inv;
    hide RolesInv;
    hide TouchOk;
    hide ContextInv;
    hide NoDup;
    hide OnlyAt;
    hide InHand;
    hide Msgs;
    ActFacts(s, a);
    if Registered(s, h) { AboutRoles(s, RetireReq(h), Rel(h, KIdle), h); }
    AboutRoles(s, RetireReq(h), Idle, h);
    if Registered(s, h) {
      RetireReqTouch(s, a, h);
      RegisteredLives(s, h);
      var v := s.services[h];
      OnlySet(s, h, v.(registered := false, holders := v.holders + {a}));
      KeptAt(s, Unregister(s, a, h), a, Rel(h, KIdle), h);
    } else {
      Unchanged(s, a, Idle);
    }
  }

  lemma RetireReqTouch(s: State, a: Aid, h: Handle)
    requires Inv(s) && ActOf(s, a) == RetireReq(h) && Registered(s, h)
    ensures TouchOk(s, StepRetireReq(s, a, h), a, h)
  {
    hide Inv;
    hide RolesInv;
    hide NoDup;
    ActFacts(s, a);
    Facts(s, a, h);
  }

  /** Nobody plays a part for a service that does not exist yet. */
  lemma LaunchKeeps(s: State, a: Aid)
    requires Inv(s) && ActOf(s, a) == Idle
    ensures Inv(Launch(s, a))
  {
    hide RolesInv;
    var n, s' := s.next, Launch(s, a);
    assert n !in s.services && n !in s.global;
    forall k {:trigger RolesInv(s', k)} | k in s'.services ensures RolesInv(s', k) {
      if k == n {
        LaunchRoles(s, a);
      } else {
        assert RolesInv(s, k);
        Framed(s, s', a, k);
      }
    }
    forall b {:trigger ActOf(s', b)} ensures ActInv(s', ActOf(s', b)) {
      assert b != a ==> ActOf(s', b) == ActOf(s, b) && ActInv(s, ActOf(s, b));
    }
  }

  lemma LaunchRoles(s: State, a: Aid)
    requires Inv(s) && ActOf(s, a) == Idle
    ensures s.next in Launch(s, a).services && RolesInv(Launch(s, a), s.next)
  {
    var n, s' := s.next, Launch(s, a);
    assert n !in s.services && n !in s.global;
    forall b {:trigger ActOf(s', b)}
      ensures var x := ActOf(s', b);
              && (b == a <==> Owns(x, n)) && (b == a <==> Holds(x, n)) && !Deletes(x, n) && !Deallocs(x, n)
              && ((x.Drain? || x.Free?) ==> x.q != n)
    {
      if b != a {
        assert ActOf(s', b) == ActOf(s, b) && ActInv(s, ActOf(s, b));
        var x := ActOf(s, b);
        assert !Owns(x, n) && !Holds(x, n) && !Deletes(x, n) && !Deallocs(x, n);
      }
    }
  }

  lemma IdleKeeps(s: State, a: Aid, c: Choice)
    requires Inv(s) && ActOf(s, a) == Idle
    ensures Inv(StepIdle(s, a, c))
  {
    match c
    case Create => LaunchKeeps(s, a);
    case Dispatch => Unchanged(s, a, PopNext);
    case Send(h, m) => Unchanged(s, a, SendGrab(h, m));
    case Retire(h) => Unchanged(s, a, RetireReq(h));
    case _ =>
  }

  /** Every step of every activity keeps the invariant, a fault aside, and faults only by the use of
      a freed context by its launcher, or by sending to a service that has no queue yet. */
  lemma StepKeeps(s: State, a: Aid, c: Choice)
    requires Inv(s)
    ensures Inv(Clear(Step(s, a, c)))
    ensures Step(s, a, c).fault <==> UsesFreed(s, a, c) || SendsEarly(s, a)
  {
    hide *;
    var x := ActOf(s, a);
    NoFault(s);
    if x.SetInit? || x.Report? || x.Reply? {
      UseIs(s, a, c);
      match x
      case SetInit(h) => SetInitKeeps(s, a, h);
      case Report(h) => ReportKeeps(s, a, h, c);
      case Reply(h) => ReplyKeeps(s, a, h);
    } else if SendsEarly(s, a) {
      EarlyIs(s, a, c);
    } else {
      OtherKeeps(s, a, c);
      NoFault(Step(s, a, c));
      NoUse(s, a, c);
    }
  }

  lemma EarlyIs(s: State, a: Aid, c: Choice)
    requires !s.fault && SendsEarly(s, a)
    ensures Step(s, a, c).fault && Clear(Step(s, a, c)) == s && !UsesFreed(s, a, c)
  {
  }

  lemma UseIs(s: State, a: Aid, c: Choice)
    requires !s.fault && var x := ActOf(s, a); x.SetInit? || x.Report? || x.Reply?
    ensures var x, t := ActOf(s, a), Step(s, a, c);
            && (x.SetInit? ==> t == StepSetInit(s, a, x.h)) && (x.Report? ==> t == StepReport(s, a, x.h, c))
            && (x.Reply? ==> t == StepReply(s, a, x.h)) && (t.fault <==> UsesFreed(s, a, c)) && !SendsEarly(s, a)
  {
  }

  lemma NoUse(s: State, a: Aid, c: Choice)
    requires !Step(s, a, c).fault && var x := ActOf(s, a); !x.SetInit? && !x.Report? && !x.Reply?
    ensures !UsesFreed(s, a, c) && Clear(Step(s, a, c)) == Step(s, a, c)
  {
    hide Step;
  }

  lemma NoFault(s: State)
    requires Inv(s)
    ensures !s.fault
  {
  }

  lemma OtherKeeps(s: State, a: Aid, c: Choice)
    requires Inv(s)
    requires !SendsEarly(s, a) && var x := ActOf(s, a); !x.SetInit? && !x.Report? && !x.Reply?
    ensures Inv(Step(s, a, c))
  {
    hide Inv;
    match ActOf(s, a)
    case Idle => IdleKeeps(s, a, c);
    case PopNext => PopNextKeeps(s, a);
    case Own(q) => OwnKeeps(s, a, q);
    case MqRelease(q, k) => MqReleaseKeeps(s, a, q, k);
    case Drain(q, k) => DrainKeeps(s, a, q, k);
    case Free(q, k) => FreeKeeps(s, a, q, k);
    case Loop(q) => LoopKeeps(s, a, q);
    case Busy(q, m) => if c.Return? { BusyKeeps(s, a, q, m, c); }
    case Done(q) => DoneKeeps(s, a, q);
    case PushBack(q, nq) => PushBackKeeps(s, a, q, nq);
    case SendGrab(h, m) => SendGrabKeeps(s, a, h, m);
    case SendPush(h, m) => SendPushKeeps(s, a, h, m);
    case RetireReq(h) => RetireReqKeeps(s, a, h);
    case Make(h) => MakeKeeps(s, a, h);
    case Init(h) => if c.InitReturns? { InitKeeps(s, a, h, c); }
    case Publish(q, ret) => PublishKeeps(s, a, q, ret);
    case FailRetire(q) => FailRetireKeeps(s, a, q);
    case Rel(h, k) => RelKeeps(s, a, h, k);
    case Del(h, k) => DelKeeps(s, a, h, k);
    case Dealloc(h, k) => DeallocKeeps(s, a, h, k);
  }

  lemma RolesClear(s: State, h: Handle)
    requires h in s.services && RolesInv(Clear(s), h)
    ensures RolesInv(s, h)
  {
    var t, v := Clear(s), s.services[h];
    forall b {:trigger ActOf(s, b)}
      ensures v.owner == By(b) <==> Owns(ActOf(s, b), h)
      ensures b in v.holders <==> Holds(ActOf(s, b), h)
      ensures v.phase == Deleting(b) <==> Deletes(ActOf(s, b), h)
      ensures v.phase == Marked(b) <==> Deallocs(ActOf(s, b), h)
      ensures var x := ActOf(s, b);
              && ((x.Drain? || x.Free?) && x.q == h ==> v.queue.release)
              && (x.Free? && x.q == h ==> v.queue.msgs == [])
              && (Works(x, h) ==> v.init)
    {
      assert ActOf(t, b) == ActOf(s, b);
    }
  }

  lemma SoundClear(s: State)
    requires Inv(Clear(s))
    ensures Sound(s)
  {
    hide RolesInv;
    var t := Clear(s);
    forall h {:trigger RolesInv(s, h)} | h in s.services ensures RolesInv(s, h) {
      assert RolesInv(t, h);
      RolesClear(s, h);
    }
    forall h {:trigger s.services[h]} | h in s.services ensures ContextInv(s.services[h]) && QueueInv(s.services[h]) {
      assert t.services[h] == s.services[h];
    }
    forall a {:trigger ActOf(s, a)} ensures ActInv(s, ActOf(s, a)) { assert ActInv(t, ActOf(t, a)); }
  }

  lemma StartKeeps()
    ensures Sound(Start()) && !Start().fault
  {
    var s := Start();
    forall b {:trigger ActOf(s, b)} ensures ActInv(s, ActOf(s, b)) { }
  }

  /** A launcher is about to use a freed context, or an activity to send to a service without queue. */
  ghost predicate AnyFaults(s: State) { exists a, c :: UsesFreed(s, a, c) || SendsEarly(s, a) }

  lemma FollowsKeeps(s: State, t: State)
    requires Follows(s, t) && Inv(s)
    ensures Sound(t) && (t.fault ==> AnyFaults(s))
  {
    hide Inv;
    hide Step;
    hide UsesFreed;
    hide SendsEarly;
    var a, c :| t == Step(s, a, c);
    StepKeeps(s, a, c);
    SoundClear(t);
    if t.fault { assert UsesFreed(s, a, c) || SendsEarly(s, a); }
  }

  lemma RunFollows(run: seq<State>, n: nat)
    requires IsRun(run) && n < |run|
    ensures n == 0 ==> run[n] == Start()
    ensures n > 0 ==> Follows(run[n - 1], run[n])
    ensures n < |run| - 1 ==> !run[n].fault
  {
    hide Step;
    hide Start;
    var k := n - 1;
    if n > 0 { assert Follows(run[k], run[k + 1]); }
    if n < |run| - 1 { assert Follows(run[n], run[n + 1]); }
  }

  /** The invariant holds in every state of every run; a run faults only where a launcher uses the
      freed context of the service that it launched, or a message meets a service without queue. */
  lemma {:induction false} RunKeeps(run: seq<State>, n: nat)
    requires IsRun(run) && n < |run|
    ensures Sound(run[n]) && (!run[n].fault ==> Inv(run[n]))
    ensures run[n].fault ==> n == |run| - 1 && n > 0 && AnyFaults(run[n - 1])
  {
    hide *;
    RunFollows(run, n);
    if n > 0 {
      RunKeeps(run, n - 1);
      FollowsKeeps(run[n - 1], run[n]);
    } else {
      StartKeeps();
    }
    InvIs(run[n]);
  }

  lemma InvIs(s: State)
    requires Sound(s)
    ensures !s.fault ==> Inv(s)
  {
  }
}
