/** What the wheel holds, stated against the list of all requests ever made. */
module TimerSpec {
  import opened TimerWheel

  /** The events of the nodes with expiry `e`, in list order. */
  function Expiring(l: seq<Node>, e: nat): seq<Event> {
    if l == [] then []
    else Expiring(l[..|l| - 1], e) + (if l[|l| - 1].expire == e then [l[|l| - 1].event] else [])
  }

  /** The events requested for tick `due`, in the order of the requests. */
  function Requested(rs: seq<Timeout>, due: nat): seq<Event> {
    if rs == [] then []
    else Requested(rs[..|rs| - 1], due) + (if rs[|rs| - 1].due == due then [rs[|rs| - 1].event] else [])
  }

  /** Every request has its own place in what fires at its deadline, after the requests
      made before it. */
  lemma {:induction false} RequestFires(rs: seq<Timeout>, i: nat)
    requires i < |rs|
    ensures var fired, before := Requested(rs, rs[i].due), Requested(rs[..i], rs[i].due);
            before + [rs[i].event] <= fired
  {
    if i < |rs| - 1 {
      RequestFires(rs[..|rs| - 1], i);
      assert rs[..|rs| - 1][..i] == rs[..i];
    }
  }

  /** The nodes that belong at place `p` when the clock shows `time`. */
  function At(l: seq<Node>, p: nat, time: nat): seq<Node> {
    if l == [] then []
    else At(l[..|l| - 1], p, time) + (if PlaceOf(l[|l| - 1].expire, time) == p then [l[|l| - 1]] else [])
  }

  /** Every node is where `add_node` would put it now and is due in [first, now + 2^31). */
  ghost predicate Placed(w: Wheel, now: nat, first: nat)
    requires w.Valid()
  {
    forall p, k :: 0 <= p < PLACES && 0 <= k < |w.List(p)| ==>
      var n := w.List(p)[k];
      n.expire < WRAP && PlaceOf(n.expire, now % WRAP) == p && first - now <= Left(n.expire, now % WRAP) < HORIZON
  }

  /** The wheel holds exactly the requests that are due at tick `first` or later. */
  ghost predicate Holds(w: Wheel, now: nat, rs: seq<Timeout>, first: nat) {
    && w.Valid() && now <= first <= now + 1
    && Placed(w, now, first)
    && (forall r :: r in rs ==> r.due < now + HORIZON)
    && (forall d: nat :: first <= d < now + HORIZON ==>
          Expiring(w.List(PlaceOf(d % WRAP, now % WRAP)), d % WRAP) == Requested(rs, d))
  }

  lemma {:induction false} ExpiringNone(l: seq<Node>, e: nat)
    requires forall k :: 0 <= k < |l| ==> l[k].expire != e
    ensures Expiring(l, e) == []
  {
    if l != [] { ExpiringNone(l[..|l| - 1], e); }
  }

  lemma {:induction false} ExpiringAll(l: seq<Node>, e: nat)
    requires forall k :: 0 <= k < |l| ==> l[k].expire == e
    ensures Expiring(l, e) == Events(l)
  {
    if l != [] { ExpiringAll(l[..|l| - 1], e); }
  }

  lemma {:induction false} RequestedNone(rs: seq<Timeout>, due: nat)
    requires forall r :: r in rs ==> r.due != due
    ensures Requested(rs, due) == []
  {
    if rs != [] {
      assert rs[|rs| - 1] in rs;
      RequestedNone(rs[..|rs| - 1], due);
    }
  }

  function Events(l: seq<Node>): seq<Event> { seq(|l|, i requires 0 <= i < |l| => l[i].event) }

  lemma {:induction false} ExpiringCat(l: seq<Node>, m: seq<Node>, e: nat)
    ensures Expiring(l + m, e) == Expiring(l, e) + Expiring(m, e)
  {
    if m == [] {
      assert l + m == l;
    } else {
      assert (l + m)[..|l + m| - 1] == l + m[..|m| - 1];
      ExpiringCat(l, m[..|m| - 1], e);
    }
  }

  /** Selecting by place loses no node of that place. */
  lemma {:induction false} ExpiringAt(l: seq<Node>, p: nat, time: nat, e: nat)
    ensures Expiring(At(l, p, time), e) == if PlaceOf(e, time) == p then Expiring(l, e) else []
  {
    if l != [] {
      var n := l[|l| - 1];
      ExpiringAt(l[..|l| - 1], p, time, e);
      ExpiringCat(At(l[..|l| - 1], p, time), if PlaceOf(n.expire, time) == p then [n] else [], e);
    }
  }

  lemma {:induction false} AtFrom(l: seq<Node>, p: nat, time: nat)
    ensures forall n :: n in At(l, p, time) ==> n in l && PlaceOf(n.expire, time) == p
  {
    if l != [] { AtFrom(l[..|l| - 1], p, time); }
  }

  /** `w'` is `w` after `n` was added at its place. */
  ghost predicate Added(w: Wheel, w': Wheel, n: Node, time: nat)
    requires w.Valid() && w'.Valid()
  {
    forall p :: 0 <= p < PLACES ==>
      w'.List(p) == if p == PlaceOf(n.expire, time) then w.List(p) + [n] else w.List(p)
  }

  /** `w'` is `w` after the list at `c` was emptied and the nodes of `l` were added. */
  ghost predicate Moved(w: Wheel, w': Wheel, c: nat, l: seq<Node>, time: nat)
    requires w.Valid() && w'.Valid()
  {
    forall p :: 0 <= p < PLACES ==> w'.List(p) == (if p == c then [] else w.List(p)) + At(l, p, time)
  }

  lemma MovedSnoc(w: Wheel, w1: Wheel, w2: Wheel, c: nat, l: seq<Node>, n: Node, time: nat)
    requires w.Valid() && w1.Valid() && w2.Valid()
    requires Moved(w, w1, c, l, time) && Added(w1, w2, n, time)
    ensures Moved(w, w2, c, l + [n], time)
  {
    hide PlaceOf;
    assert (l + [n])[..|l|] == l;
  }

  lemma MovedNone(w: Wheel, w': Wheel, c: nat, time: nat)
    requires w.Valid() && w'.Valid() && c < PLACES
    requires forall p :: 0 <= p < PLACES ==> w'.List(p) == if p == c then [] else w.List(p)
    ensures Moved(w, w', c, [], time)
  {
  }

  /** The wheel after the list at `c` was emptied and its nodes were added again. */
  ghost predicate Redistributed(w: Wheel, w': Wheel, c: nat, time: nat)
    requires w.Valid() && w'.Valid() && c < PLACES
  {
    Moved(w, w', c, w.List(c), time)
  }

  lemma LeftOf(d: nat, now: nat)
    requires now <= d < now + WRAP
    ensures Left(d % WRAP, now % WRAP) == d - now
  {
  }

  /** Deadlines in the window are told apart by their low 32 bits. */
  lemma Distinct(d: nat, f: nat, now: nat)
    requires now <= d < now + WRAP && now <= f < now + WRAP
    ensures d % WRAP == f % WRAP <==> d == f
  {
    LeftOf(d, now);
    LeftOf(f, now);
  }

  /** Adding a node keeps all that the wheel holds and adds the request. */
  lemma AddHolds(w: Wheel, w': Wheel, now: nat, rs: seq<Timeout>, first: nat, r: Timeout)
    requires Holds(w, now, rs, first) && w'.Valid() && first <= r.due < now + HORIZON
    requires Added(w, w', Node(r.event, r.due % WRAP), now % WRAP)
    ensures Holds(w', now, rs + [r], first)
  {
    hide PlaceOf;
    hide Left;
    hide Wheel.Valid;
    var n := Node(r.event, r.due % WRAP);
    var q := PlaceOf(n.expire, now % WRAP);
    LeftOf(r.due, now);
    forall d: nat | first <= d < now + HORIZON
      ensures Expiring(w'.List(PlaceOf(d % WRAP, now % WRAP)), d % WRAP) == Requested(rs + [r], d)
    {
      var p := PlaceOf(d % WRAP, now % WRAP);
      Distinct(d, r.due, now);
      assert (rs + [r])[..|rs|] == rs;
      if p == q {
        assert (w.List(p) + [n])[..|w.List(p)|] == w.List(p);
        assert n.expire == d % WRAP <==> r.due == d;
      } else {
        assert d != r.due;
      }
    }
  }

  /** Firing: the near list of the present tick is exactly what is due. */
  lemma FireEvents(w: Wheel, now: nat, rs: seq<Timeout>)
    requires Holds(w, now, rs, now)
    ensures Events(w.List(now % WRAP % TIME_NEAR)) == Requested(rs, now)
  {
    hide PlaceOf;
    var i := now % WRAP % TIME_NEAR;
    var l := w.List(i);
    forall k | 0 <= k < |l| ensures l[k].expire == now % WRAP { DueNowIsNear(l[k].expire, now % WRAP); }
    ExpiringAll(l, now % WRAP);
    DueNowIsNear(now % WRAP, now % WRAP);
    assert Requested(rs, now) == Expiring(l, now % WRAP);
  }

  /** What is not due now is in another list. */
  lemma NotNear(d: nat, now: nat)
    requires now + 1 <= d < now + WRAP
    ensures PlaceOf(d % WRAP, now % WRAP) != now % WRAP % TIME_NEAR
  {
    DueNowIsNear(d % WRAP, now % WRAP);
    Distinct(d, now, now);
  }

  lemma FirePlaced(w: Wheel, w': Wheel, now: nat)
    requires w.Valid() && w'.Valid() && Placed(w, now, now)
    requires forall p :: 0 <= p < PLACES ==> w'.List(p) == if p == now % WRAP % TIME_NEAR then [] else w.List(p)
    ensures Placed(w', now, now + 1)
  {
    hide PlaceOf;
    forall p, k | 0 <= p < PLACES && 0 <= k < |w'.List(p)|
      ensures var n := w'.List(p)[k];
              n.expire < WRAP && PlaceOf(n.expire, now % WRAP) == p && 1 <= Left(n.expire, now % WRAP) < HORIZON
    {
      var n := w.List(p)[k];
      assert n.expire < WRAP && PlaceOf(n.expire, now % WRAP) == p && 0 <= Left(n.expire, now % WRAP) < HORIZON;
      DueNowIsNear(n.expire, now % WRAP);
    }
  }

  lemma FireHolds(w: Wheel, w': Wheel, now: nat, rs: seq<Timeout>)
    requires Holds(w, now, rs, now) && w'.Valid()
    requires forall p :: 0 <= p < PLACES ==> w'.List(p) == if p == now % WRAP % TIME_NEAR then [] else w.List(p)
    ensures Holds(w', now, rs, now + 1)
    ensures Events(w.List(now % WRAP % TIME_NEAR)) == Requested(rs, now)
  {
    FireEvents(w, now, rs);
    FirePlaced(w, w', now);
    hide PlaceOf;
    hide Placed;
    hide Expiring;
    hide Requested;
    forall d: nat | now + 1 <= d < now + HORIZON
      ensures Expiring(w'.List(PlaceOf(d % WRAP, now % WRAP)), d % WRAP) == Requested(rs, d)
    {
      NotNear(d, now);
    }
  }

  lemma TickIsNext(now: nat)
    ensures Tick(now % WRAP) == (now + 1) % WRAP
  {
  }

  /** The clock goes on by one and one list is redistributed: nothing is lost. */
  lemma ShiftHolds(w: Wheel, w': Wheel, now: nat, rs: seq<Timeout>)
    requires Holds(w, now, rs, now + 1) && w'.Valid()
    requires var c := CascadeOf(Tick(now % WRAP));
             if c < PLACES then Redistributed(w, w', c, Tick(now % WRAP)) else w' == w
    ensures Holds(w', now + 1, rs, now + 1)
  {
    TickIsNext(now);
    var c := CascadeOf(Tick(now % WRAP));
    var time := (now + 1) % WRAP;
    forall p, k | 0 <= p < PLACES && 0 <= k < |w'.List(p)|
      ensures var n := w'.List(p)[k];
              n.expire < WRAP && PlaceOf(n.expire, time) == p && 0 <= Left(n.expire, time) < HORIZON
    {
      ShiftPlaces(w, w', now, rs, p, k);
    }
    forall d: nat | now + 1 <= d < now + 1 + HORIZON
      ensures Expiring(w'.List(PlaceOf(d % WRAP, time)), d % WRAP) == Requested(rs, d)
    {
      ShiftExpiring(w, w', now, rs, d);
    }
  }

  lemma LeftShrinks(e: nat, now: nat)
    requires e < WRAP && 1 <= Left(e, now % WRAP) < HORIZON
    ensures Left(e, (now + 1) % WRAP) == Left(e, now % WRAP) - 1
  {
    TickIsNext(now);
  }

  lemma PlacedNode(w: Wheel, now: nat, first: nat, p: nat, n: Node)
    requires w.Valid() && Placed(w, now, first) && p < PLACES && n in w.List(p)
    ensures n.expire < WRAP && PlaceOf(n.expire, now % WRAP) == p
    ensures first - now <= Left(n.expire, now % WRAP) < HORIZON
  {
    var j :| 0 <= j < |w.List(p)| && w.List(p)[j] == n;
  }

  lemma ShiftPlaces(w: Wheel, w': Wheel, now: nat, rs: seq<Timeout>, p: nat, k: nat)
    requires Holds(w, now, rs, now + 1) && w'.Valid() && p < PLACES && k < |w'.List(p)|
    requires var c := CascadeOf(Tick(now % WRAP));
             if c < PLACES then Redistributed(w, w', c, Tick(now % WRAP)) else w' == w
    ensures var n := w'.List(p)[k];
            n.expire < WRAP && PlaceOf(n.expire, (now + 1) % WRAP) == p &&
                0 <= Left(n.expire, (now + 1) % WRAP) < HORIZON
  {
    hide PlaceOf;
    hide CascadeOf;
    hide Left;
    hide Tick;
    hide Placed;
    TickIsNext(now);
    var n, c := w'.List(p)[k], CascadeOf(Tick(now % WRAP));
    if c < PLACES { AtFrom(w.List(c), p, Tick(now % WRAP)); }
    if c < PLACES && n in At(w.List(c), p, Tick(now % WRAP)) {
      PlacedNode(w, now, now + 1, c, n);
      LeftShrinks(n.expire, now);
    } else {
      assert n in w.List(p) && p != c;
      PlacedNode(w, now, now + 1, p, n);
      LeftShrinks(n.expire, now);
      OneCascadeIsEnough(n.expire, now % WRAP);
    }
  }

  lemma ShiftExpiring(w: Wheel, w': Wheel, now: nat, rs: seq<Timeout>, d: nat)
    requires Holds(w, now, rs, now + 1) && w'.Valid() && now + 1 <= d < now + 1 + HORIZON
    requires var c := CascadeOf(Tick(now % WRAP));
             if c < PLACES then Redistributed(w, w', c, Tick(now % WRAP)) else w' == w
    ensures Expiring(w'.List(PlaceOf(d % WRAP, (now + 1) % WRAP)), d % WRAP) == Requested(rs, d)
  {
    TickIsNext(now);
    LeftOf(d, now);
    hide PlaceOf;
    hide CascadeOf;
    hide Left;
    hide Tick;
    var e, c, time := d % WRAP, CascadeOf(Tick(now % WRAP)), Tick(now % WRAP);
    var p, q := PlaceOf(e, now % WRAP), PlaceOf(e, time);
    // what the wheel held for this deadline before
    if d == now + HORIZON {
      RequestedNone(rs, d);
      forall k | 0 <= k < |w.List(p)| ensures w.List(p)[k].expire != e { }
      ExpiringNone(w.List(p), e);
    }
    assert Expiring(w.List(p), e) == Requested(rs, d);
    forall r | 0 <= r < PLACES && r != p ensures Expiring(w.List(r), e) == [] {
      forall k | 0 <= k < |w.List(r)| ensures w.List(r)[k].expire != e { }
      ExpiringNone(w.List(r), e);
    }
    if c < PLACES {
      ExpiringCat(if q == c then [] else w.List(q), At(w.List(c), q, time), e);
      ExpiringAt(w.List(c), q, time, e);
    }
    if p != c && d < now + HORIZON { OneCascadeIsEnough(e, now % WRAP); }
  }
}
