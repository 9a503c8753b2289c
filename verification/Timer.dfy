/** skynet_timer.c: struct timer. */
module Timers {
  import opened Arith
  import opened TimerWheel
  import opened TimerSpec

  /** A call of skynet_timeout by another thread. */
  datatype Request = Request(event: Event, time: int)

  /** A request and the tick at which it was made. */
  datatype Call = Call(tick: nat, request: Request)

  /** Requests made during one tick. */
  function Calls(window: seq<Request>, now: nat): seq<Call> {
    seq(|window|, k requires 0 <= k < |window| => Call(now, window[k]))
  }

  /** What calls leave in the wheel: those without delay do not wait. */
  function Waits(calls: seq<Call>): seq<Timeout> {
    if calls == [] then []
    else Waits(calls[..|calls| - 1]) + Wait(calls[|calls| - 1])
  }

  function Wait(c: Call): seq<Timeout> {
    if c.request.time > 0 then [Timeout(c.request.event, c.tick + c.request.time)] else []
  }

  /** `at` lists, in order, the calls that are due at tick `d`. */
  ghost predicate DueCalls(calls: seq<Call>, d: nat, at: seq<nat>) {
    && (forall i, j :: 0 <= i < j < |at| ==> at[i] < at[j])
    && (forall k: nat :: k in at <==>
          k < |calls| && calls[k].request.time > 0 && calls[k].tick + calls[k].request.time == d)
  }

  /** What is requested for a tick is, one for one, what the calls ask for then. */
  lemma {:induction false} RequestedByCalls(calls: seq<Call>, d: nat) returns (at: seq<nat>)
    ensures DueCalls(calls, d, at) && |Requested(Waits(calls), d)| == |at|
    ensures forall j :: 0 <= j < |at| ==> at[j] < |calls| && Requested(Waits(calls), d)[j] == calls[at[j]].request.event
  {
    at := [];
    if calls != [] {
      var n, c := |calls| - 1, calls[|calls| - 1];
      at := RequestedByCalls(calls[..n], d);
      var ws := Waits(calls[..n]);
      RequestedSnoc(ws, Wait(c), d);
      forall j | 0 <= j < |at| ensures at[j] < n { assert at[j] in at; }
      if c.request.time > 0 && c.tick + c.request.time == d { at := at + [n]; }
      forall k: nat
        ensures k in at <==> k < |calls| && calls[k].request.time > 0 && calls[k].tick + calls[k].request.time == d
      {
        assert k < n ==> calls[..n][k] == calls[k];
      }
    }
  }

  lemma RequestedSnoc(rs: seq<Timeout>, r: seq<Timeout>, d: nat)
    requires |r| <= 1
    ensures Requested(rs + r, d) == Requested(rs, d) + (if r != [] && r[0].due == d then [r[0].event] else [])
  {
    if r == [] { assert rs + r == rs; } else { assert (rs + r)[..|rs|] == rs; }
  }

  lemma NoCascade(ct: nat)
    ensures ct == 0 ==> CascadeOf(ct) == TIME_NEAR + 3 * TIME_LEVEL
    ensures ct % Width(0) != 0 ==> CascadeOf(ct) == PLACES
    ensures Block(ct, 0) == ct / TIME_NEAR && Width(0) == TIME_NEAR
  {
  }

  lemma HoldsWindow(w: Wheel, now: nat, rs: seq<Timeout>, first: nat)
    requires Holds(w, now, rs, first)
    ensures now <= first <= now + 1 && w.Valid() && Placed(w, now, first)
  {
  }

  lemma WaitsSnoc(calls: seq<Call>, c: Call)
    ensures Waits(calls + [c]) == Waits(calls) + Wait(c)
  {
    assert (calls + [c])[..|calls|] == calls;
  }

  lemma MetLater(log: seq<seq<Event>>, rs: seq<Timeout>, rs': seq<Timeout>, now: nat, fired: seq<Event>)
    requires |log| == now && (forall d :: 0 <= d < now ==> log[d] == Requested(rs, d)) && fired == Requested(rs, now)
    requires forall d :: 0 <= d <= now ==> Requested(rs', d) == Requested(rs, d)
    ensures forall d :: 0 <= d <= now ==> (log + [fired])[d] == Requested(rs', d)
  {
    hide Requested;
  }

  lemma CallsNone(window: seq<Request>, now: nat)
    ensures Calls(window[..0], now) == []
  {
  }

  lemma CallsSnoc(window: seq<Request>, k: nat, now: nat)
    requires k < |window|
    ensures Calls(window[..k + 1], now) == Calls(window[..k], now) + [Call(now, window[k])]
  {
  }

  /** A cascade reaches level `i + 1` only through a zero digit at level `i`. */
  lemma NextLevel(ct: nat, i: nat)
    requires 0 < ct < WRAP && i <= 3 && ct % Width(i) == 0 && Slot(ct, i) == 0
    ensures i < 3 && ct % Width(i + 1) == 0 && Block(ct, i) / TIME_LEVEL == Block(ct, i + 1)
    ensures Width(i + 1) == Width(i) * TIME_LEVEL
  {
    assert Block(ct, 4) == 0;
    SplitDigit(ct, i);
    var k := Block(ct, i + 1);
    assert ct == Width(i) * Block(ct, i) == Width(i) * (TIME_LEVEL * k) == Width(i + 1) * k;
    Quotient(ct, Width(i + 1), k, 0);
    DivDiv(ct, Width(i), Width(i + 1));
  }

  lemma NonzeroAbove(ct: nat, i: nat)
    requires i <= 3 && Slot(ct, i) != 0
    ensures ct % Width(i + 1) != 0
  {
    if ct % Width(i + 1) == 0 {
      var k := ct / Width(i + 1);
      assert ct == Width(i + 1) * k == Width(i) * (TIME_LEVEL * k);
      Quotient(ct, Width(i), TIME_LEVEL * k, 0);
    }
  }

  lemma CascadeAt(ct: nat, i: nat)
    requires 0 < ct < WRAP && i <= 3 && ct % Width(i) == 0 && Slot(ct, i) != 0
    ensures CascadeOf(ct) == TIME_NEAR + i * TIME_LEVEL + Slot(ct, i)
  {
    hide Slot;
    hide Width;
    NonzeroAbove(ct, i);
    if i >= 1 { ZerosBelow(ct, i - 1); }
    if i >= 2 { ZerosBelow(ct, i - 2); }
    if i >= 3 { ZerosBelow(ct, i - 3); }
  }

  lemma ChosenLevel(e: nat, time: nat, i: nat)
    requires i <= 3 && (i == 3 || e / Width(i + 1) == time / Width(i + 1))
    requires forall j :: 0 <= j <= i ==> e / Width(j) != time / Width(j)
    ensures PlaceOf(e, time) == TIME_NEAR + i * TIME_LEVEL + e / Width(i) % TIME_LEVEL
  {
    assert e / Width(0) != time / Width(0);
    assert i >= 1 ==> e / Width(1) != time / Width(1);
    assert i >= 2 ==> e / Width(2) != time / Width(2);
    assert i >= 3 ==> e / Width(3) != time / Width(3);
  }

  ghost predicate InRange(w: Wheel)
    requires w.Valid()
  {
    forall p, n :: 0 <= p < PLACES && n in w.List(p) ==> n.expire < WRAP
  }

  lemma PlacedInRange(w: Wheel, now: nat, first: nat)
    requires w.Valid() && Placed(w, now, first)
    ensures InRange(w)
  {
    forall p, n | 0 <= p < PLACES && n in w.List(p) ensures n.expire < WRAP { PlacedNode(w, now, first, p, n); }
  }

  class Timer {
    const near: array<seq<Node>>
    const t: array<seq<Node>>
    var time: nat
    var current: nat
    var currentPoint: nat
    ghost var now: nat                 // ticks since the start, without wrapping
    ghost var calls: seq<Call>         // all requests so far
    ghost var requests: seq<Timeout>   // those that waited or wait
    ghost var log: seq<seq<Event>>     // what was fired at each tick

    ghost predicate Shape()
      reads this
    {
      near.Length == TIME_NEAR && t.Length == 4 * TIME_LEVEL && near != t && time == now % WRAP
    }

    ghost function Lists(): (w: Wheel)
      reads this, near, t
      requires Shape()
      ensures w.Valid()
    {
      Wheel(near[..], t[..])
    }

    /** All that is due at `first` or later is waiting, and nothing else. */
    ghost predicate Holding(first: nat)
      reads this, near, t
    {
      Shape() && Holds(Lists(), now, requests, first) && requests == Waits(calls)
    }

    /** Every deadline up to `until` was met at its very tick. */
    ghost predicate Met(until: nat)
      reads this
    {
      |log| == until + 1 && forall d :: 0 <= d <= until ==> log[d] == Requested(requests, d)
    }

    /** Between two ticks. */
    ghost predicate Valid()
      reads this, near, t
    {
      Holding(now + 1) && Met(now)
    }

    constructor (start: nat, cp: nat)
      ensures Valid() && now == 0 && calls == [] && current == start && currentPoint == cp && fresh(near) && fresh(t)
    {
      near := new seq<Node>[TIME_NEAR](_ => []);
      t := new seq<Node>[4 * TIME_LEVEL](_ => []);
      time, current, currentPoint := 0, start, cp;
      now, calls, requests, log := 0, [], [], [[]];
    }

    method Link(p: nat, node: Node)
      requires Shape() && p < PLACES
      modifies near, t
      ensures Shape()
      ensures forall q :: 0 <= q < PLACES ==>
                Lists().List(q) == if q == p then old(Lists()).List(q) + [node] else old(Lists()).List(q)
    {
      if p < TIME_NEAR { near[p] := near[p] + [node]; } else { t[p - TIME_NEAR] := t[p - TIME_NEAR] + [node]; }
    }

    method AddNode(node: Node)
      requires Shape() && node.expire < WRAP
      modifies near, t
      ensures Shape()
      ensures Added(old(Lists()), Lists(), node, time)
    {
      var e := node.expire;
      if e / TIME_NEAR == time / TIME_NEAR {
        Link(e % TIME_NEAR, node);
      } else {
        var i, mask := 0, TIME_NEAR * TIME_LEVEL;
        while i < 3 && e / mask != time / mask
          invariant i <= 3 && mask == Width(i + 1)
          invariant forall j :: 0 <= j <= i ==> e / Width(j) != time / Width(j)
        {
          mask := mask * TIME_LEVEL;
          i := i + 1;
        }
        ChosenLevel(e, time, i);
        Link(TIME_NEAR + i * TIME_LEVEL + e / Width(i) % TIME_LEVEL, node);
      }
    }

    method TimerAdd(event: Event, delay: nat, ghost first: nat)
      requires Holding(first) && 1 <= delay < HORIZON
      modifies near, t, this`calls, this`requests
      ensures Holding(first) && requests == old(requests) + [Timeout(event, now + delay)]
      ensures calls == old(calls) + [Call(now, Request(event, delay))]
    {
      hide PlaceOf;
      hide Holds;
      hide Waits;
      ghost var w := Lists();
      assert (delay + time) % WRAP == (now + delay) % WRAP;
      AddNode(Node(event, (delay + time) % WRAP));
      WaitsSnoc(calls, Call(now, Request(event, delay)));
      calls, requests := calls + [Call(now, Request(event, delay))], requests + [Timeout(event, now + delay)];
      HoldsWindow(w, now, old(requests), first);
      AddHolds(w, Lists(), now, old(requests), first, Timeout(event, now + delay));
    }

    /** skynet_timeout: a request without delay is answered at once. */
    method SkynetTimeout(r: Request, ghost first: nat) returns (atOnce: bool)
      requires Holding(first) && r.time < HORIZON
      modifies near, t, this`calls, this`requests
      ensures Holding(first) && calls == old(calls) + [Call(now, r)]
      ensures requests == if r.time > 0 then old(requests) + [Timeout(r.event, now + r.time)] else old(requests)
      ensures atOnce <==> r.time <= 0
    {
      if r.time <= 0 {
        WaitsSnoc(calls, Call(now, r));
        calls := calls + [Call(now, r)];
        return true;
      }
      TimerAdd(r.event, r.time, first);
      return false;
    }

    /** Empties one list and adds its nodes again, in order. */
    method MoveList(level: nat, idx: nat)
      requires Shape() && level < 4 && idx < TIME_LEVEL
      requires InRange(Lists())
      modifies near, t
      ensures Shape() && Redistributed(old(Lists()), Lists(), TIME_NEAR + level * TIME_LEVEL + idx, time)
    {
      hide PlaceOf;
      hide Moved;
      hide Added;
      ghost var w, c := Lists(), TIME_NEAR + level * TIME_LEVEL + idx;
      var current := t[level * TIME_LEVEL + idx];
      t[level * TIME_LEVEL + idx] := [];
      var k := 0;
      assert current == w.List(c);
      MovedNone(w, Lists(), c, time);
      while k < |current|
        invariant k <= |current| && Shape()
        invariant Moved(w, Lists(), c, current[..k], time)
      {
        ghost var u := Lists();
        AddNode(current[k]);
        MovedSnoc(w, u, Lists(), c, current[..k], current[k], time);
        assert current[..k + 1] == current[..k] + [current[k]];
        k := k + 1;
      }
      assert current[..k] == current;
    }

    /** Redistributes the one list whose turn it is when the clock shows `ct`. */
    method Cascade(ct: nat)
      requires Shape() && InRange(Lists()) && 0 < ct == time < WRAP
      modifies near, t
      ensures Shape()
      ensures var c := CascadeOf(ct);
              if c < PLACES then Redistributed(old(Lists()), Lists(), c, ct) else Lists() == old(Lists())
    {
      hide InRange;
      hide CascadeOf;
      hide Redistributed;
      NoCascade(ct);
      hide Width;
      hide Block;
      var mask, rest, i := TIME_NEAR, ct / TIME_NEAR, 0;
      while ct % mask == 0
        invariant i <= 3 && mask == Width(i) && rest == Block(ct, i) && (i > 0 ==> ct % mask == 0)
        invariant Shape() && Lists() == old(Lists())
        decreases 4 - i
      {
        var idx := rest % TIME_LEVEL;
        if idx != 0 {
          CascadeAt(ct, i);
          MoveList(i, idx);
          return;
        }
        NextLevel(ct, i);
        mask := mask * TIME_LEVEL;
        rest := rest / TIME_LEVEL;
        i := i + 1;
      }
    }

    method TimerShift()
      requires Holding(now + 1)
      modifies near, t, this`time, this`now
      ensures now == old(now) + 1 && Holding(now)
    {
      hide Holds;
      hide CascadeOf;
      hide Redistributed;
      ghost var w := Lists();
      HoldsWindow(w, now, requests, now + 1);
      PlacedInRange(w, now, now + 1);
      TickIsNext(now);
      NoCascade(Tick(time));
      hide InRange;
      time := (time + 1) % WRAP;
      now := now + 1;
      if time == 0 { MoveList(3, 0); } else { Cascade(time); }
      ShiftHolds(w, Lists(), now - 1, requests);
    }

    /** Before the tick's deadlines have fired, or when nothing is due, the near list tells. */
    lemma NearIsDue(first: nat)
      requires Holding(first)
      ensures first == now ==> Events(near[time % TIME_NEAR]) == Requested(requests, now)
      ensures first == now + 1 ==> near[time % TIME_NEAR] == []
      ensures near[time % TIME_NEAR] == [] ==> Holding(now + 1)
    {
      var w, i := Lists(), time % TIME_NEAR;
      assert w.List(i) == near[i];
      if first == now {
        if near[i] == [] { FireHolds(w, w, now, requests); }
        FireHolds(w, Wheel(w.near[i := []], w.t), now, requests);
      } else if near[i] != [] {
        PlacedNode(w, now, first, i, near[i][0]);
        DueNowIsNear(near[i][0].expire, time);
      }
    }

    /** Fires what is due. The lock is open while the events of a list are delivered:
        other threads then make the requests of `window`. */
    method TimerExecute(window: seq<Request>, ghost first: nat) returns (fired: seq<Event>)
      requires Holding(first)
      requires forall r :: r in window ==> r.time < HORIZON
      modifies near, t, this`calls, this`requests
      ensures Holding(now + 1)
      ensures fired == if first == now then Requested(old(requests), now) else []
      ensures calls == if fired != [] then old(calls) + Calls(window, now) else old(calls)
    {
      hide Holds;
      hide Requested;
      hide Waits;
      hide Calls;
      hide DueCalls;
      var idx := time % TIME_NEAR;
      fired := [];
      HoldsWindow(Lists(), now, requests, first);
      NearIsDue(first);
      var rest := window;
      ghost var from: nat := first;
      while near[idx] != []
        invariant Holding(from) && (near[idx] == [] ==> Holding(now + 1))
        invariant from == first ==>
                    && calls == old(calls) && requests == old(requests) && rest == window && fired == []
                    && near[idx] == old(near[idx])
        invariant from != first ==>
                    && first == now && near[idx] == [] && fired == Requested(old(requests), now)
                    && fired != [] && calls == old(calls) + Calls(window, now)
        decreases if near[idx] == [] then 0 else 1
      {
        var current := near[idx];
        ghost var w := Lists();
        near[idx] := [];
        assert Lists() == Wheel(w.near[idx := []], w.t);
        FireHolds(w, Lists(), now, requests);
        from := now + 1;
        fired := fired + Events(current);
        Deliver(rest);
        rest := [];
        NearIsDue(from);
      }
    }

    /** The requests that other threads make while the lock is open. */
    method Deliver(window: seq<Request>)
      requires Holding(now + 1)
      requires forall r :: r in window ==> r.time < HORIZON
      modifies near, t, this`calls, this`requests
      ensures Holding(now + 1) && calls == old(calls) + Calls(window, now)
    {
      hide Holds;
      hide Waits;
      hide Requested;
      hide Calls;
      CallsNone(window, now);
      var k := 0;
      while k < |window|
        invariant k <= |window| && Holding(now + 1) && calls == old(calls) + Calls(window[..k], now)
      {
        var _ := SkynetTimeout(window[k], now + 1);
        CallsSnoc(window, k, now);
        k := k + 1;
      }
      assert window[..k] == window;
    }

    /** One tick: what fires is exactly what was requested for it, in the order of the requests. */
    method TimerUpdate(before: seq<Request>, window: seq<Request>) returns (fired: seq<Event>)
      requires Valid()
      requires forall r :: r in before || r in window ==> r.time < HORIZON
      modifies near, t, this`time, this`now, this`calls, this`requests, this`log
      ensures Valid() && now == old(now) + 1
      ensures fired == Requested(old(requests), now) && log == old(log) + [fired]
      ensures calls == if fired != [] then old(calls) + Calls(window, now) else old(calls)
    {
      hide Holds;
      hide Requested;
      hide Waits;
      hide Calls;
      ghost var rs := requests;
      var none := TimerExecute(before, now + 1);
      assert requests == rs;
      TimerShift();
      fired := TimerExecute(window, now);
      if fired != [] { CallsLater(old(calls), window, now); }
      MetLater(log, rs, requests, now, fired);
      log := log + [fired];
    }

    /** What fires at a tick is, in order, the events of the calls made that many ticks before it. */
    lemma FiresExactly(d: nat) returns (at: seq<nat>)
      requires Valid() && d <= now
      ensures DueCalls(calls, d, at) && |log[d]| == |at|
      ensures forall j :: 0 <= j < |at| ==> at[j] < |calls| && log[d][j] == calls[at[j]].request.event
    {
      at := RequestedByCalls(calls, d);
    }

    /** A request with delay that was made `request.time` ticks ago or earlier has been answered at its tick. */
    lemma Answered(k: nat)
      requires Valid() && k < |calls| && calls[k].request.time > 0 && calls[k].tick + calls[k].request.time <= now
      ensures calls[k].request.event in log[calls[k].tick + calls[k].request.time]
    {
      var at := FiresExactly(calls[k].tick + calls[k].request.time);
      assert k in at;
    }

    /** How many ticks a reading of the clock asks for. */
    function Ticks(cp: nat): nat
      reads this
    {
      if cp < currentPoint then 0 else (cp - currentPoint) % WRAP
    }

    /** skynet_updatetime, when the clock reads `cp`. */
    method Updatetime(cp: nat, windows: seq<seq<Request>>)
      requires Valid() && |windows| == Ticks(cp)
      requires forall k, r :: 0 <= k < |windows| && r in windows[k] ==> r.time < HORIZON
      modifies near, t, this
      ensures Valid() && currentPoint == cp && old(calls) <= calls
      ensures now == old(now) + |windows| && current == old(current) + |windows|
    {
      hide Holds;
      hide Requested;
      if cp < currentPoint {
        currentPoint := cp;
      } else if cp != currentPoint {
        var diff := (cp - currentPoint) % WRAP;
        currentPoint := cp;
        current := current + diff;
        for i := 0 to diff
          invariant Valid() && currentPoint == cp && current == old(current) + diff
          invariant now == old(now) + i && old(calls) <= calls
        {
          var _ := TimerUpdate([], windows[i]);
        }
      }
    }
  }

  /** New calls never touch a deadline that has passed. */
  lemma {:induction false} CallsLater(calls: seq<Call>, window: seq<Request>, now: nat)
    ensures forall d :: 0 <= d <= now ==> Requested(Waits(calls + Calls(window, now)), d) == Requested(Waits(calls), d)
  {
    if window == [] {
      assert calls + Calls(window, now) == calls;
    } else {
      var n, r := |window| - 1, window[|window| - 1];
      CallsLater(calls, window[..n], now);
      CallsSnoc(window, n, now);
      assert window[..n + 1] == window;
      var front := calls + Calls(window[..n], now);
      assert calls + Calls(window, now) == front + [Call(now, r)];
      WaitsSnoc(front, Call(now, r));
      forall d | 0 <= d <= now ensures Requested(Waits(calls + Calls(window, now)), d) == Requested(Waits(calls), d) {
        RequestedSnoc(Waits(front), Wait(Call(now, r)), d);
      }
    }
  }
}
