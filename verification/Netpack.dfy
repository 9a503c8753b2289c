/** lua-netpack.c: packets with a two-byte length, cut out of streams that arrive in pieces. */
module Netpack {
  import opened Arith

  type Byte = i: int | 0 <= i < 256

  type Fd = nat

  datatype Pack = Pack(fd: Fd, data: seq<Byte>)

  // The meaning of a stream

  /** The complete packets of a stream and the unfinished rest. */
  datatype Parsed = Parsed(packets: seq<seq<Byte>>, rest: seq<Byte>)

  function Size(s: seq<Byte>): nat
    requires |s| >= 2
  {
    s[0] as int * 256 + s[1]
  }

  function Parse(s: seq<Byte>): Parsed
    decreases |s|
  {
    if |s| < 2 || |s| - 2 < Size(s) then Parsed([], s)
    else
      var n := 2 + Size(s);
      var p := Parse(s[n..]);
      Parsed([s[2..n]] + p.packets, p.rest)
  }

  predicate Starts(s: seq<Byte>) { |s| >= 2 && |s| - 2 >= Size(s) }

  lemma ParseRest(s: seq<Byte>)
    requires !Starts(s)
    ensures Parse(s) == Parsed([], s)
  {
  }

  lemma ParseFirst(s: seq<Byte>)
    requires Starts(s)
    ensures var n := 2 + Size(s);
            Parse(s) == Parsed([s[2..n]] + Parse(s[n..]).packets, Parse(s[n..]).rest)
  {
  }

  /** The rest of a stream is all that is needed to go on. */
  lemma {:induction false} ParseAppend(a: seq<Byte>, b: seq<Byte>)
    ensures var p := Parse(a); var q := Parse(p.rest + b);
            Parse(a + b) == Parsed(p.packets + q.packets, q.rest)
    decreases |a|
  {
    hide Parse;
    if Starts(a) {
      var n := 2 + Size(a);
      ParseFirst(a);
      ParseFirst(a + b);
      assert (a + b)[2..n] == a[2..n] && (a + b)[n..] == a[n..] + b;
      ParseAppend(a[n..], b);
      var p := Parse(a[n..]);
      var q := Parse(p.rest + b);
      assert [a[2..n]] + (p.packets + q.packets) == [a[2..n]] + p.packets + q.packets;
    } else {
      ParseRest(a);
    }
  }

  /** The length bytes of a packet. */
  function Header(n: nat): (h: seq<Byte>)
    requires n < 0x1_0000
    ensures |h| == 2
  {
    [n / 256, n % 256]
  }

  lemma HeaderIs(s: seq<Byte>)
    requires |s| >= 2
    ensures Size(s) < 0x1_0000 && s == Header(Size(s)) + s[2..]
  {
  }

  lemma ParseShort(n: nat, data: seq<Byte>)
    requires n < 0x1_0000 && |data| < n
    ensures var s := Header(n) + data; Parse(s) == Parsed([], s)
  {
    var s := Header(n) + data;
    assert s[0] == n / 256 && s[1] == n % 256;
  }

  lemma ParseOne(n: nat, packet: seq<Byte>, rest: seq<Byte>)
    requires n < 0x1_0000 && |packet| == n
    ensures var s := Header(n) + packet + rest;
            Parse(s) == Parsed([packet] + Parse(rest).packets, Parse(rest).rest)
  {
    var s := Header(n) + packet + rest;
    assert s[0] == n / 256 && s[1] == n % 256;
    assert s[2..2 + n] == packet && s[2 + n..] == rest;
  }

  lemma ParseNothing()
    ensures Parse([]) == Parsed([], [])
  {
  }

  lemma ParseByte(b: Byte)
    ensures Parse([b]) == Parsed([], [b])
  {
  }

  function Tagged(fd: Fd, packets: seq<seq<Byte>>): seq<Pack> {
    seq(|packets|, i requires 0 <= i < |packets| => Pack(fd, packets[i]))
  }

  lemma TaggedFirst(fd: Fd, d: seq<Byte>, packets: seq<seq<Byte>>)
    ensures Tagged(fd, [d] + packets) == [Pack(fd, d)] + Tagged(fd, packets)
  {
  }

  // Unfinished packets

  /** struct uncomplete: with `read` -1 only the first length byte is here, as `header`. */
  datatype Uncomplete = Uncomplete(fd: Fd, read: int, header: Byte, size: nat, buffer: seq<Byte>)

  predicate Fine(uc: Uncomplete) {
    uc.read == -1 || (0 <= uc.read < uc.size < 0x1_0000 && |uc.buffer| == uc.read)
  }

  /** The bytes of the stream that an unfinished packet stands for. */
  function Held(uc: Uncomplete): seq<Byte>
    requires Fine(uc)
  {
    if uc.read == -1 then [uc.header] else Header(uc.size) + uc.buffer
  }

  /** The first entry for `fd` in a hash chain; |l| if there is none. */
  function Index(l: seq<Uncomplete>, fd: Fd): (i: nat)
    ensures i <= |l| && (i < |l| ==> l[i].fd == fd) && forall j :: 0 <= j < i ==> l[j].fd != fd
  {
    if l == [] then 0 else if l[0].fd == fd then 0 else 1 + Index(l[1..], fd)
  }

  predicate ChainOk(l: seq<Uncomplete>) {
    && (forall i :: 0 <= i < |l| ==> Fine(l[i]))
    && (forall i, j :: 0 <= i < j < |l| ==> l[i].fd != l[j].fd)
  }

  function HeldFor(l: seq<Uncomplete>, fd: Fd): seq<Byte>
    requires ChainOk(l)
  {
    var i := Index(l, fd);
    if i < |l| then Held(l[i]) else []
  }

  lemma IndexIs(l: seq<Uncomplete>, fd: Fd, i: nat)
    requires i <= |l| && (i < |l| ==> l[i].fd == fd) && forall j :: 0 <= j < i ==> l[j].fd != fd
    ensures Index(l, fd) == i
  {
  }

  /** Taking an entry out leaves the others. */
  lemma Removed(l: seq<Uncomplete>, i: nat)
    requires ChainOk(l) && i < |l|
    ensures var l' := l[..i] + l[i + 1..];
            ChainOk(l') && forall fd :: HeldFor(l', fd) == if fd == l[i].fd then [] else HeldFor(l, fd)
  {
    hide Held;
    hide Index;
    var l' := l[..i] + l[i + 1..];
    forall fd ensures HeldFor(l', fd) == if fd == l[i].fd then [] else HeldFor(l, fd) {
      if fd == l[i].fd {
        IndexIs(l', fd, |l'|);
      } else {
        var j := Index(l, fd);
        IndexIs(l', fd, if j < i then j else j - 1);
      }
    }
  }

  /** Putting an entry in front. */
  lemma Added(l: seq<Uncomplete>, uc: Uncomplete)
    requires ChainOk(l) && Fine(uc) && Index(l, uc.fd) == |l|
    ensures var l' := [uc] + l;
            ChainOk(l') && forall fd :: HeldFor(l', fd) == if fd == uc.fd then Held(uc) else HeldFor(l, fd)
  {
    hide Held;
    hide Index;
    var l' := [uc] + l;
    assert forall i :: 1 <= i < |l'| ==> l'[i] == l[i - 1];
    forall fd ensures HeldFor(l', fd) == if fd == uc.fd then Held(uc) else HeldFor(l, fd) {
      IndexIs(l', fd, if fd == uc.fd then 0 else Index(l, fd) + 1);
    }
  }

  const QUEUESIZE := 1024
  const HASHSIZE := 4096

  function HashFd(fd: Fd): (h: nat)
    ensures h < HASHSIZE
  {
    (fd / 0x100_0000 + fd / 0x1000 + fd) % HASHSIZE
  }

  /** The buckets of the hash table. */
  predicate TableOk(t: seq<seq<Uncomplete>>) { |t| == HASHSIZE && forall h :: 0 <= h < HASHSIZE ==> ChainOk(t[h]) }

  /** What the table holds for a stream. */
  function PendingIn(t: seq<seq<Uncomplete>>, fd: Fd): seq<Byte>
    requires TableOk(t)
  {
    HeldFor(t[HashFd(fd)], fd)
  }

  lemma BucketChanged(t: seq<seq<Uncomplete>>, h: nat, l: seq<Uncomplete>)
    requires TableOk(t) && h < HASHSIZE && ChainOk(l)
    ensures var t' := t[h := l];
            && TableOk(t')
            && (forall fd :: HashFd(fd) == h ==> PendingIn(t', fd) == HeldFor(l, fd))
            && (forall fd :: HashFd(fd) != h ==> PendingIn(t', fd) == PendingIn(t, fd))
  {
  }

  /** What filter_data_ returns to its caller. */
  datatype Outcome = Nothing | Data(fd: Fd, data: seq<Byte>) | More

  class PackQueue {
    const hash: array<seq<Uncomplete>>
    var queue: array<Pack>          // cap == queue.Length
    var head: nat
    var tail: nat

    ghost predicate Valid()
      reads this, hash, queue
    {
      && hash.Length == HASHSIZE && TableOk(hash[..])
      && head < queue.Length && tail < queue.Length
    }

    ghost function Pending(fd: Fd): seq<Byte>
      reads this, hash, queue
      requires Valid()
    {
      PendingIn(hash[..], fd)
    }

    /** The packets in the ring, oldest first. */
    ghost function Contents(): seq<Pack>
      reads this, hash, queue
      requires Valid()
    {
      if head <= tail then queue[head..tail] else queue[head..] + queue[..tail]
    }

    constructor ()
      ensures Valid() && Contents() == [] && (forall fd :: Pending(fd) == []) && fresh(hash) && fresh(queue)
    {
      hash := new seq<Uncomplete>[HASHSIZE](_ => []);
      queue := new Pack[QUEUESIZE](_ => Pack(0, []));
      head, tail := 0, 0;
    }

    /** find_uncomplete: takes the entry out of its chain. */
    method FindUncomplete(fd: Fd) returns (found: bool, uc: Uncomplete)
      requires Valid()
      modifies hash
      ensures Valid() && Contents() == old(Contents())
      ensures forall f :: Pending(f) == if f == fd then [] else old(Pending(f))
      ensures found ==> uc.fd == fd && Fine(uc) && Held(uc) == old(Pending(fd))
      ensures !found ==> old(Pending(fd)) == []
    {
      ghost var t := hash[..];
      var h := HashFd(fd);
      var l := hash[h];
      assert l == t[h] && ChainOk(l);
      uc := Uncomplete(fd, -1, 0, 0, []);
      var i := 0;
      while i < |l|
        invariant i <= |l| && forall j :: 0 <= j < i ==> l[j].fd != fd
      {
        if l[i].fd == fd {
          IndexIs(l, fd, i);
          Removed(l, i);
          BucketChanged(t, h, l[..i] + l[i + 1..]);
          hash[h] := l[..i] + l[i + 1..];
          assert hash[..] == t[h := l[..i] + l[i + 1..]];
          return true, l[i];
        }
        i := i + 1;
      }
      IndexIs(l, fd, |l|);
      found := false;
    }

    /** save_uncomplete, with the fields that its callers fill in. */
    method SaveUncomplete(uc: Uncomplete)
      requires Valid() && Fine(uc) && Pending(uc.fd) == []
      modifies hash
      ensures Valid() && Contents() == old(Contents())
      ensures forall f :: Pending(f) == if f == uc.fd then Held(uc) else old(Pending(f))
    {
      ghost var t := hash[..];
      var h := HashFd(uc.fd);
      assert Index(t[h], uc.fd) == |t[h]|;
      Added(t[h], uc);
      BucketChanged(t, h, [uc] + t[h]);
      ghost var t' := t[h := [uc] + t[h]];
      hash[h] := [uc] + hash[h];
      assert hash[..] == t';
    }

    /** expand_queue: the ring is full, head == tail. */
    method ExpandQueue()
      requires Valid() && head == tail
      modifies this
      ensures Valid() && fresh(queue) && Contents() == old(queue[head..] + queue[..head])
      ensures forall f :: Pending(f) == old(Pending(f))
    {
      var cap := queue.Length;
      ghost var full := queue[head..] + queue[..head];
      var q := new Pack[cap + QUEUESIZE](_ => Pack(0, []));
      var i := 0;
      while i < cap
        invariant i <= cap && q[..i] == full[..i]
        modifies q
      {
        RingIndex(head, i, cap);
        q[i] := queue[(head + i) % cap];
        i := i + 1;
      }
      assert full[..cap] == full;
      head, tail := 0, cap;
      queue := q;
    }

    method PushData(p: Pack)
      requires Valid()
      modifies this, queue
      ensures Valid() && Contents() == old(Contents()) + [p] && (queue == old(queue) || fresh(queue))
      ensures forall f :: Pending(f) == old(Pending(f))
    {
      ghost var before := Contents();
      queue[tail] := p;
      tail := tail + 1;
      if tail >= queue.Length { tail := tail - queue.Length; }
      if head == tail {
        assert queue[head..] + queue[..head] == before + [p];
        ExpandQueue();
      }
    }

    /** lpop */
    method Pop() returns (p: seq<Pack>)
      requires Valid()
      modifies this`head
      ensures Valid() && p + Contents() == old(Contents())
      ensures if old(Contents()) == [] then p == [] else |p| == 1
      ensures forall f :: Pending(f) == old(Pending(f))
    {
      if head == tail { return []; }
      p := [queue[head]];
      ghost var h := head;
      head := head + 1;
      if head >= queue.Length { head := 0; }
      if h <= tail {
        assert queue[h..tail] == [queue[h]] + queue[h + 1..tail];
      } else {
        assert queue[h..] + queue[..tail] == [queue[h]] + (queue[h + 1..] + queue[..tail]);
      }
    }

    /** push_more: the stream goes on with `buffer`, and nothing of it is pending. */
    method PushMore(fd: Fd, buffer: seq<Byte>)
      requires Valid() && buffer != [] && Pending(fd) == []
      modifies this, queue, hash
      ensures Valid() && (queue == old(queue) || fresh(queue))
      ensures Contents() == old(Contents()) + Tagged(fd, Parse(buffer).packets)
      ensures forall f :: Pending(f) == if f == fd then Parse(buffer).rest else old(Pending(f))
      decreases |buffer|
    {
      hide Parse;
      hide Size;
      hide Contents;
      hide Pending;
      if |buffer| == 1 {
        ParseByte(buffer[0]);
        assert buffer == [buffer[0]];
        SaveUncomplete(Uncomplete(fd, -1, buffer[0], 0, []));
        return;
      }
      HeaderIs(buffer);
      var packSize := Size(buffer);
      var data := buffer[2..];
      if |data| < packSize {
        ParseShort(packSize, data);
        SaveUncomplete(Uncomplete(fd, |data|, 0, packSize, data));
        return;
      }
      var packet, rest := data[..packSize], data[packSize..];
      assert Header(packSize) + data == Header(packSize) + packet + rest;
      ParseOne(packSize, packet, rest);
      PushData(Pack(fd, packet));
      TaggedFirst(fd, packet, Parse(rest).packets);
      ParseNothing();
      if |rest| > 0 { PushMore(fd, rest); } else { assert rest == []; }
    }

    /** filter_data_ when a packet of the stream is unfinished. */
    method FillUncomplete(uc0: Uncomplete, buffer0: seq<Byte>) returns (r: Outcome)
      requires Valid() && Fine(uc0) && buffer0 != [] && Pending(uc0.fd) == []
      modifies this, queue, hash
      ensures Valid() && (queue == old(queue) || fresh(queue))
      ensures Filtered(uc0.fd, Parse(Held(uc0) + buffer0), r, old(Contents()), Contents())
      ensures forall f :: Pending(f) == if f == uc0.fd then Parse(Held(uc0) + buffer0).rest else old(Pending(f))
    {
      hide Parse;
      hide Size;
      hide Contents;
      hide Pending;
      if uc0.read < 0 {
        var size := uc0.header as int * 256 + buffer0[0];
        HeaderIs([uc0.header] + buffer0);
        HeaderOf(uc0.header, buffer0[0]);
        assert Held(uc0) + buffer0 == Header(size) + [] + buffer0[1..];
        r := FillSized(Uncomplete(uc0.fd, 0, uc0.header, size, []), buffer0[1..]);
      } else {
        r := FillSized(uc0, buffer0);
      }
    }

    /** filter_data_ when the size of the unfinished packet is known. */
    method FillSized(uc: Uncomplete, buffer: seq<Byte>) returns (r: Outcome)
      requires Valid() && 0 <= uc.read <= uc.size < 0x1_0000 && |uc.buffer| == uc.read && Pending(uc.fd) == []
      modifies this, queue, hash
      ensures Valid() && (queue == old(queue) || fresh(queue))
      ensures var p := Parse(Header(uc.size) + uc.buffer + buffer);
              && Filtered(uc.fd, p, r, old(Contents()), Contents())
              && forall f :: Pending(f) == if f == uc.fd then p.rest else old(Pending(f))
    {
      hide Parse;
      hide Size;
      hide Contents;
      hide Pending;
      ghost var stream := Header(uc.size) + uc.buffer + buffer;
      var need := uc.size - uc.read;
      if |buffer| < need {
        ParseShort(uc.size, uc.buffer + buffer);
        assert stream == Header(uc.size) + (uc.buffer + buffer);
        SaveUncomplete(uc.(buffer := uc.buffer + buffer, read := uc.read + |buffer|));
        return Nothing;
      }
      var packet, rest := uc.buffer + buffer[..need], buffer[need..];
      assert stream == Header(uc.size) + packet + rest;
      ParseOne(uc.size, packet, rest);
      ParseNothing();
      if |rest| == 0 {
        assert rest == [];
        return Data(uc.fd, packet);
      }
      NotAlone(uc.fd, packet, rest);
      PushData(Pack(uc.fd, packet));
      PushMore(uc.fd, rest);
      r := More;
    }

    /** filter_data_ at the start of a packet. */
    method FilterFresh(fd: Fd, buffer: seq<Byte>) returns (r: Outcome)
      requires Valid() && buffer != [] && Pending(fd) == []
      modifies this, queue, hash
      ensures Valid() && (queue == old(queue) || fresh(queue))
      ensures Filtered(fd, Parse(buffer), r, old(Contents()), Contents())
      ensures forall f :: Pending(f) == if f == fd then Parse(buffer).rest else old(Pending(f))
    {
      hide Parse;
      hide Size;
      hide Contents;
      hide Pending;
      if |buffer| == 1 {
        ParseByte(buffer[0]);
        assert buffer == [buffer[0]];
        SaveUncomplete(Uncomplete(fd, -1, buffer[0], 0, []));
        return Nothing;
      }
      HeaderIs(buffer);
      var packSize := Size(buffer);
      var data := buffer[2..];
      if |data| < packSize {
        ParseShort(packSize, data);
        SaveUncomplete(Uncomplete(fd, |data|, 0, packSize, data));
        return Nothing;
      }
      var packet, rest := data[..packSize], data[packSize..];
      assert Header(packSize) + data == Header(packSize) + packet + rest;
      ParseOne(packSize, packet, rest);
      ParseNothing();
      if |data| == packSize {
        assert packet == data && rest == [];
        return Data(fd, data);
      }
      NotAlone(fd, packet, rest);
      PushData(Pack(fd, packet));
      PushMore(fd, rest);
      r := More;
    }

    /** filter_data_: the next piece of a stream. */
    method FilterData(fd: Fd, buffer: seq<Byte>) returns (r: Outcome)
      requires Valid() && buffer != []
      modifies this, queue, hash
      ensures Valid() && (queue == old(queue) || fresh(queue))
      ensures Filtered(fd, Parse(old(Pending(fd)) + buffer), r, old(Contents()), Contents())
      ensures forall f :: Pending(f) == if f == fd then Parse(old(Pending(fd)) + buffer).rest else old(Pending(f))
    {
      var found, uc := FindUncomplete(fd);
      if found {
        r := FillUncomplete(uc, buffer);
      } else {
        assert [] + buffer == buffer;
        r := FilterFresh(fd, buffer);
      }
    }
  }

  // Whole streams

  /** A non-empty piece of one of the streams. */
  type Piece = p: (Fd, seq<Byte>) | p.1 != [] witness (0, [0])

  /** The stream of `fd`, put together again. */
  function Stream(pieces: seq<Piece>, fd: Fd): seq<Byte> {
    if pieces == [] then []
    else
      var p := pieces[|pieces| - 1];
      Stream(pieces[..|pieces| - 1], fd) + (if p.0 == fd then p.1 else [])
  }

  /** What was delivered for `fd`. */
  function For(ps: seq<Pack>, fd: Fd): seq<seq<Byte>> {
    if ps == [] then []
    else
      var p := ps[|ps| - 1];
      For(ps[..|ps| - 1], fd) + (if p.fd == fd then [p.data] else [])
  }

  lemma {:induction false} ForCat(a: seq<Pack>, b: seq<Pack>, fd: Fd)
    ensures For(a + b, fd) == For(a, fd) + For(b, fd)
  {
    if b == [] {
      assert a + b == a;
    } else {
      assert (a + b)[..|a + b| - 1] == a + b[..|b| - 1];
      ForCat(a, b[..|b| - 1], fd);
    }
  }

  lemma {:induction false} ForTagged(packets: seq<seq<Byte>>, fd: Fd, f: Fd)
    ensures For(Tagged(fd, packets), f) == if f == fd then packets else []
  {
    if packets != [] {
      var n := |packets| - 1;
      ForTagged(packets[..n], fd, f);
      assert Tagged(fd, packets)[..n] == Tagged(fd, packets[..n]);
      assert packets == packets[..n] + [packets[n]];
    }
  }

  /** A caller that pops whenever it is told that there is more. */
  method Feed(q: PackQueue, fd: Fd, buffer: seq<Byte>) returns (delivered: seq<Pack>)
    requires q.Valid() && buffer != [] && q.Contents() == []
    modifies q, q.queue, q.hash
    ensures q.Valid() && q.Contents() == [] && (q.queue == old(q.queue) || fresh(q.queue))
    ensures var p := Parse(old(q.Pending(fd)) + buffer);
            && delivered == Tagged(fd, p.packets)
            && forall f :: q.Pending(f) == if f == fd then p.rest else old(q.Pending(f))
  {
    hide Parse;
    hide PackQueue.Contents;
    hide PackQueue.Pending;
    ghost var p := Parse(q.Pending(fd) + buffer);
    var r := q.FilterData(fd, buffer);
    match r
    case Nothing => delivered := [];
    case Data(f, d) => delivered := [Pack(f, d)];
    case More =>
      delivered := [];
      ghost var all := q.Contents();
      assert all == Tagged(fd, p.packets);
      while true
        invariant q.Valid() && delivered + q.Contents() == all
        invariant forall f :: q.Pending(f) == if f == fd then p.rest else old(q.Pending(f))
        modifies q`head
        decreases |q.Contents()|
      {
        ghost var left := q.Contents();
        var next := q.Pop();
        if next == [] { break; }
        assert left == next + q.Contents();
        delivered := delivered + next;
      }
  }

  /** However the streams are cut and mixed, what is delivered for each of them are the
      packets of the whole stream, in order, and its unfinished rest is kept. */
  method FragmentationIndependence(pieces: seq<Piece>) returns (q: PackQueue, delivered: seq<Pack>)
    ensures q.Valid() && q.Contents() == []
    ensures forall fd :: For(delivered, fd) == Parse(Stream(pieces, fd)).packets
    ensures forall fd :: q.Pending(fd) == Parse(Stream(pieces, fd)).rest
  {
    q := new PackQueue();
    delivered := [];
    ParseNothing();
    hide *;
    StartsEmpty();
    var i := 0;
    assert pieces[..0] == [];
    while i < |pieces|
      invariant i <= |pieces| && q.Valid() && q.Contents() == [] && fresh(q) && fresh(q.queue) && fresh(q.hash)
      invariant Delivered(delivered, pieces[..i])
      invariant forall fd :: q.Pending(fd) == Parse(Stream(pieces[..i], fd)).rest
    {
      var fd, buffer := pieces[i].0, pieces[i].1;
      var more := Feed(q, fd, buffer);
      DeliveredMore(delivered, pieces[..i], pieces[i]);
      assert pieces[..i + 1] == pieces[..i] + [pieces[i]];
      delivered := delivered + more;
      i := i + 1;
    }
    assert pieces[..i] == pieces;
    DeliveredAll(delivered, pieces);
  }

  ghost predicate Delivered(delivered: seq<Pack>, pieces: seq<Piece>) {
    forall fd {:trigger Stream(pieces, fd)} :: For(delivered, fd) == Parse(Stream(pieces, fd)).packets
  }

  lemma StartsEmpty()
    ensures Delivered([], [])
    ensures forall fd :: Parse(Stream([], fd)).rest == []
  {
  }

  lemma DeliveredAll(delivered: seq<Pack>, pieces: seq<Piece>)
    requires Delivered(delivered, pieces)
    ensures forall fd :: For(delivered, fd) == Parse(Stream(pieces, fd)).packets
  {
    forall fd ensures For(delivered, fd) == Parse(Stream(pieces, fd)).packets { var _ := Stream(pieces, fd); }
  }

  /** One more piece: of its stream only the rest matters, of the others nothing changes. */
  lemma DeliveredMore(delivered: seq<Pack>, pieces: seq<Piece>, piece: Piece)
    requires Delivered(delivered, pieces)
    ensures var p := Parse(Parse(Stream(pieces, piece.0)).rest + piece.1);
            && Delivered(delivered + Tagged(piece.0, p.packets), pieces + [piece])
            && forall fd {:trigger Stream(pieces + [piece], fd)} ::
                 Parse(Stream(pieces + [piece], fd)).rest == if fd == piece.0 then p.rest
                     else Parse(Stream(pieces, fd)).rest
  {
    var p := Parse(Parse(Stream(pieces, piece.0)).rest + piece.1);
    forall fd {:trigger Stream(pieces + [piece], fd)}
      ensures For(delivered + Tagged(piece.0, p.packets), fd) == Parse(Stream(pieces + [piece], fd)).packets
      ensures Parse(Stream(pieces + [piece], fd)).rest == if fd == piece.0 then p.rest
                else Parse(Stream(pieces, fd)).rest
    {
      assert For(delivered, fd) == Parse(Stream(pieces, fd)).packets;
      StreamMore(pieces, piece, fd);
      ForCat(delivered, Tagged(piece.0, p.packets), fd);
      ForTagged(p.packets, piece.0, fd);
      ParseAppend(Stream(pieces, fd), piece.1);
      hide Parse;
      hide For;
      hide Stream;
      if fd != piece.0 { assert Stream(pieces, fd) + [] == Stream(pieces, fd); }
    }
  }

  lemma StreamMore(pieces: seq<Piece>, piece: Piece, fd: Fd)
    ensures Stream(pieces + [piece], fd) == Stream(pieces, fd) + (if piece.0 == fd then piece.1 else [])
  {
    assert (pieces + [piece])[..|pieces|] == pieces;
  }

  /** A single packet that ends with the piece is returned at once; more go to the ring. */
  ghost predicate Filtered(fd: Fd, p: Parsed, r: Outcome, before: seq<Pack>, after: seq<Pack>) {
    if p.packets == [] then r == Nothing && after == before
    else if |p.packets| == 1 && p.rest == [] then r == Data(fd, p.packets[0]) && after == before
    else r == More && after == before + Tagged(fd, p.packets)
  }

  lemma HeaderOf(a: Byte, b: Byte)
    ensures var n := a as int * 256 + b; 0 <= n < 0x1_0000 && Header(n) == [a, b]
  {
  }

  /** After a packet and something more, there is more than one packet or a rest. */
  lemma NotAlone(fd: Fd, packet: seq<Byte>, rest: seq<Byte>)
    requires rest != []
    ensures var p := Parse(rest);
            !(|[packet] + p.packets| == 1 && p.rest == [])
            && Tagged(fd, [packet] + p.packets) == [Pack(fd, packet)] + Tagged(fd, p.packets)
  {
    TaggedFirst(fd, packet, Parse(rest).packets);
  }

}
