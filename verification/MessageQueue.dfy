/** Message queues of services: the abstract queue that the scheduler model uses, and
    the ring buffer of skynet_mq.c that implements it. */
module Queues {

  /** A queue as seen by its users. `inGlobal`: it is in the global list or being
      dispatched; `release`: its context is gone. */
  datatype Queue<T> = Queue(msgs: seq<T>, inGlobal: bool, release: bool) {

    /** skynet_mq_push: the caller also puts the queue into the global list when `Enlists`. */
    function Push(m: T): Queue<T> { Queue(msgs + [m], true, release) }

    predicate Enlists() { !inGlobal }

    /** skynet_mq_pop: an empty queue leaves the hands of its dispatcher. */
    function Pop(): Queue<T> {
      if msgs == [] then this.(inGlobal := false) else this.(msgs := msgs[1..])
    }

    /** skynet_mq_mark_release: the caller puts the queue into the global list when `Enlists`. */
    function MarkRelease(): Queue<T> { this.(release := true) }
  }
}

/** skynet_mq.c: message_queue and global_queue. Each method is one critical section. */
module MessageQueues {
  import opened Arith
  import opened Queues

  const DEFAULT_QUEUE_SIZE := 64
  const MQ_OVERLOAD := 1024

  datatype Message = Message(source: nat, session: int, data: seq<int>, sz: nat)

  class GlobalQueue {
    var list: seq<MessageQueue>

    constructor ()
      ensures list == []
    {
      list := [];
    }

    method Push(q: MessageQueue)
      modifies this
      ensures list == old(list) + [q]
    {
      list := list + [q];
    }

    method Pop() returns (q: MessageQueue?)
      modifies this
      ensures old(list) == [] ==> q == null && list == []
      ensures old(list) != [] ==> q == old(list)[0] && list == old(list)[1..]
    {
      if list == [] { return null; }
      q := list[0];
      list := list[1..];
    }
  }

  // The ring

  /** What a ring holds from `head` up to `tail`. */
  function Ring<T>(s: seq<T>, head: nat, tail: nat): seq<T>
    requires head <= |s| && tail <= |s|
  {
    if head <= tail then s[head..tail] else s[head..] + s[..tail]
  }

  lemma RingPop<T>(s: seq<T>, head: nat, tail: nat)
    requires head < |s| && tail < |s| && head != tail
    ensures var h, r := if head + 1 >= |s| then 0 else head + 1, Ring(s, head, tail);
            && r != [] && r[0] == s[head] && Ring(s, h, tail) == r[1..]
            && |r| - 1 == if tail < h then tail - h + |s| else tail - h
  {
  }

  lemma RingPush<T>(s: seq<T>, head: nat, tail: nat, x: T)
    requires head < |s| && tail < |s|
    ensures var t, u, r := if tail + 1 >= |s| then 0 else tail + 1, s[tail := x], Ring(s, head, tail) + [x];
            if head == t then u[head..] + u[..head] == r else Ring(u, head, t) == r
  {
  }

  class MessageQueue {
    const handle: nat
    var cap: nat
    var head: nat
    var tail: nat
    var release: bool
    var inGlobal: bool
    var overload: nat
    var overloadThreshold: nat
    var queue: array<Message>

    ghost predicate Valid()
      reads this, queue
    {
      queue.Length == cap && head < cap && tail < cap && overloadThreshold > 0
    }

    /** What the ring holds, oldest first; head == tail means empty. */
    ghost function Contents(): seq<Message>
      requires Valid()
      reads this, queue
    {
      Ring(queue[..], head, tail)
    }

    ghost function Abs(): Queue<Message>
      requires Valid()
      reads this, queue
    {
      Queue(Contents(), inGlobal, release)
    }

    constructor (handle: nat)
      ensures Valid() && fresh(queue) && this.handle == handle
      ensures Abs() == Queue([], true, false)
    {
      this.handle := handle;
      cap := DEFAULT_QUEUE_SIZE;
      head, tail := 0, 0;
      inGlobal, release := true, false;
      overload, overloadThreshold := 0, MQ_OVERLOAD;
      queue := new Message[DEFAULT_QUEUE_SIZE](_ => Message(0, 0, [], 0));
    }

    method Length() returns (n: nat)
      requires Valid()
      ensures n == |Contents()|
    {
      if head <= tail {
        return tail - head;
      }
      return tail + cap - head;
    }

    /** The doubling of the threshold in skynet_mq_pop. */
    method NoteOverload(length: nat)
      requires overloadThreshold > 0
      modifies this`overload, this`overloadThreshold
      ensures length <= overloadThreshold
      ensures if length <= old(overloadThreshold)
              then overload == old(overload) && overloadThreshold == old(overloadThreshold)
              else overload == length && overloadThreshold < 2 * length
    {
      ghost var threshold := overloadThreshold;
      while length > overloadThreshold
        invariant overloadThreshold >= threshold > 0
        invariant if length <= threshold then overload == old(overload) && overloadThreshold == threshold
                  else overloadThreshold == threshold || (overload == length && overloadThreshold < 2 * length)
        decreases length - overloadThreshold
      {
        overload := length;
        overloadThreshold := overloadThreshold * 2;
      }
    }

    /** skynet_mq_pop. The empty result stands for the return value 1. The overload mark is the
        length left, once it exceeds a threshold that doubles until it does not. */
    method Pop() returns (r: seq<Message>)
      requires Valid()
      modifies this
      ensures Valid() && queue == old(queue) && queue[..] == old(queue[..])
      ensures Abs() == old(Abs()).Pop()
      ensures r == if old(Contents()) == [] then [] else [old(Contents())[0]]
      ensures r == [] ==> overloadThreshold == MQ_OVERLOAD && overload == old(overload)
      ensures r != [] ==> |Contents()| <= overloadThreshold
      ensures r != [] ==> if |Contents()| <= old(overloadThreshold)
                          then overload == old(overload) && overloadThreshold == old(overloadThreshold)
                          else overload == |Contents()| && overloadThreshold < 2 * |Contents()|
    {
      if head != tail {
        hide Ring;
        RingPop(queue[..], head, tail);
        r := [queue[head]];
        head := head + 1;
        if head >= cap {
          head := 0;
        }
        var length := tail - head;
        if length < 0 {
          length := length + cap;
        }
        NoteOverload(length);
      } else {
        r := [];
        overloadThreshold := MQ_OVERLOAD;
        inGlobal := false;
      }
    }

    /** expand_queue: the ring is full, head == tail. */
    method Expand()
      requires Valid() && head == tail
      modifies this
      ensures Valid() && fresh(queue) && cap == 2 * old(cap)
      ensures Contents() == old(queue[..][head..] + queue[..][..head])
      ensures inGlobal == old(inGlobal) && release == old(release)
    {
      var new_queue := new Message[cap * 2](_ => Message(0, 0, [], 0));
      ghost var full := queue[..][head..] + queue[..][..head];
      var i := 0;
      while i < cap
        invariant 0 <= i <= cap && new_queue.Length == cap * 2
        invariant new_queue[..i] == full[..i]
        modifies new_queue
      {
        RingIndex(head, i, cap);
        new_queue[i] := queue[(head + i) % cap];
        i := i + 1;
      }
      assert full[..cap] == full;
      head := 0;
      tail := cap;
      cap := cap * 2;
      queue := new_queue;
    }

    /** skynet_mq_push */
    method Push(message: Message, g: GlobalQueue)
      requires Valid()
      modifies this, queue, g
      ensures Valid() && (queue == old(queue) || fresh(queue))
      ensures Abs() == old(Abs()).Push(message)
      ensures g.list == old(g.list) + if old(Abs()).Enlists() then [this] else []
    {
      hide Ring;
      RingPush(queue[..], head, tail, message);
      ghost var s := queue[..][tail := message];
      queue[tail] := message;
      assert queue[..] == s;
      tail := tail + 1;
      if tail >= cap {
        tail := 0;
      }
      if head == tail {
        Expand();
      }
      if !inGlobal {
        inGlobal := true;
        g.Push(this);
      }
    }

    /** skynet_mq_mark_release */
    method MarkRelease(g: GlobalQueue)
      requires Valid() && !release
      modifies this, g
      ensures Valid() && queue == old(queue)
      ensures Abs() == old(Abs()).MarkRelease()
      ensures g.list == old(g.list) + if old(Abs()).Enlists() then [this] else []
    {
      release := true;
      if !inGlobal {
        g.Push(this);
      }
    }

    /** _drop_queue: take every message out, oldest first. */
    method DropAll() returns (dropped: seq<Message>)
      requires Valid()
      modifies this
      ensures Valid() && release == old(release)
      ensures dropped == old(Contents()) && Contents() == []
    {
      hide Contents;
      ghost var all := Contents();
      dropped := [];
      var msg := Pop();
      while msg != []
        invariant Valid() && release == old(release)
        invariant msg == [] ==> Contents() == [] && dropped == all
        invariant msg != [] ==> |msg| == 1 && dropped + msg + Contents() == all
        decreases if msg == [] then 0 else 1 + |Contents()|
      {
        ghost var rest := Contents();
        dropped := dropped + msg;
        msg := Pop();
        if rest != [] { assert rest == msg + Contents(); }
      }
    }

    /** skynet_mq_release: drop a marked queue's messages, or hand the queue back. */
    method Release(g: GlobalQueue) returns (freed: bool, dropped: seq<Message>)
      requires Valid()
      modifies this, g
      ensures Valid() && freed == old(release) && release == old(release)
      ensures freed ==> dropped == old(Contents()) && Contents() == [] && g.list == old(g.list)
      ensures !freed ==> dropped == [] && Abs() == old(Abs()) && g.list == old(g.list) + [this]
    {
      if release {
        freed := true;
        dropped := DropAll();
      } else {
        freed, dropped := false, [];
        g.Push(this);
      }
    }
  }
}
