/** What every run of the socket's threads keeps. */
module SocketProof {
  import opened Socket
  import opened Wrappers

  // Who holds the lock, and which buffers are sent in part

  predicate AllWhole(bs: seq<Buffer>) { forall i :: 0 <= i < |bs| ==> bs[i].off == 0 }

  /** Only the first buffer may be sent in part. */
  predicate TailWhole(bs: seq<Buffer>) { forall i :: 1 <= i < |bs| ==> bs[i].off == 0 }

  /** A buffer that is sent in part has more to send. */
  predicate Unfinished(b: Buffer) { b.off == 0 || b.off < |b.pkg.bytes| }

  predicate InBounds(bs: seq<Buffer>) { forall i :: 0 <= i < |bs| ==> Unfinished(bs[i]) }

  predicate OnlyLow(bs: seq<Buffer>) { forall i :: 0 <= i < |bs| ==> !bs[i].pkg.high }

  ghost predicate LockInv(s: State) {
    && (forall t {:trigger SenderOf(s, t)} :: s.lock == BySender(t) <==> SenderOf(s, t).Direct?)
    && (s.lock.ByServer? <==> s.server.SendHigh? || s.server.SendLow?)
    && (s.lock.BySender? || s.lock.ByServer? ==> s.status.Connected? && s.dw.None?)
    && (s.server.SendLow? ==> s.high == [])
    && (s.freed.Some? ==> s.server.Closing? || s.status.Closed?)
    && (s.server.Closing? ==> s.freed.Some? && !s.status.Closed?)
    && (forall t {:trigger SenderOf(s, t)} :: !SenderOf(s, t).Idle? ==> SenderOf(s, t).pkg.sender == t)
  }

  /** Only direct writes finish packages after the lists were freed, and none if a direct buffer
      was there. */
  ghost predicate FreedOk(s: State)
    requires s.freed.Some?
  {
    var f := s.freed.value;
    && f.done <= s.done
    && (f.part.Some? ==> Unfinished(f.part.value) && !f.direct && f.gone != [] && f.part.value.pkg == f.gone[0])
    && (f.direct ==> s.done == f.done && (!s.status.Closed? ==> s.dw.Some?))
  }

  ghost predicate ListInv(s: State) {
    && InBounds(s.high) && (s.dw.Some? ==> Unfinished(s.dw.value))
    && TailWhole(s.high) && (s.dw.Some? || s.lock.BySender? ==> AllWhole(s.high))
    && AllWhole(s.low) && OnlyLow(s.low)
    && (s.status.Closed? || s.server.Closing? ==> s.high == [] && s.low == [])
    && (s.status.Closed? ==> s.dw.None? && (s.cut.Some? ==> Unfinished(s.cut.value)))
    && (s.freed.Some? ==> FreedOk(s))
  }

  // Counters

  function Unsent(bs: seq<Buffer>): int { if bs == [] then 0 else Unsent(bs[..|bs| - 1]) + Rest(bs[|bs| - 1]) }

  function PipingSet(s: State): set<Thread> { set t | t in s.senders && s.senders[t].Piping? }

  /** The socket is not closed, and no close is under way. */
  predicate Open(s: State) { !s.status.Closed? && !s.server.Closing? }

  /** wb_size is what both lists still have to send; `sending` counts the requests that
      are between a sender and the lists. */
  ghost predicate CountInv(s: State) {
    && (Open(s) ==> s.wbSize == Unsent(s.high) + Unsent(s.low))
    && s.sending == |PipingSet(s)| + |s.pipe| + (if s.server.Decrement? then 1 else 0)
  }

  ghost predicate Sound(s: State) { !s.fault && LockInv(s) && ListInv(s) && CountInv(s) }

  lemma UnsentSnoc(bs: seq<Buffer>, b: Buffer)
    ensures Unsent(bs + [b]) == Unsent(bs) + Rest(b)
  {
    assert (bs + [b])[..|bs|] == bs;
  }

  lemma {:induction false} UnsentCons(b: Buffer, bs: seq<Buffer>)
    ensures Unsent([b] + bs) == Rest(b) + Unsent(bs)
  {
    if bs == [] {
      assert [b] + bs == [] + [b];
      UnsentSnoc([], b);
    } else {
      UnsentCons(b, bs[..|bs| - 1]);
      assert [b] + bs == [b] + bs[..|bs| - 1] + [bs[|bs| - 1]];
      UnsentSnoc([b] + bs[..|bs| - 1], bs[|bs| - 1]);
    }
  }

  lemma UnsentHead(bs: seq<Buffer>)
    requires bs != []
    ensures Unsent(bs) == Rest(bs[0]) + Unsent(bs[1..])
  {
    UnsentCons(bs[0], bs[1..]);
    assert [bs[0]] + bs[1..] == bs;
  }

  lemma PipingSame(s: State, t: Thread, x: Sender)
    ensures PipingSet(SetSender(s, t, x)) == if x.Piping? then PipingSet(s) + {t} else PipingSet(s) - {t}
  {
  }

  lemma CallSound(s: State, t: Thread, high: bool, bytes: Bytes, direct: bool)
    requires Sound(s)
    ensures Sound(StepCall(s, t, high, bytes, direct))
  {
    var s' := StepCall(s, t, high, bytes, direct);
    PipingSame(s, t, SenderOf(s', t));
    hide Unsent;
    assert forall u {:trigger SenderOf(s', u)} :: u != t ==> SenderOf(s', u) == SenderOf(s, u);
    assert t !in PipingSet(s) || SenderOf(s, t).Piping?;
  }

  lemma DirectWriteSound(s: State, t: Thread, r: Result)
    requires Sound(s)
    ensures Sound(StepDirectWrite(s, t, r))
  {
    hide Unsent;
    var s' := StepDirectWrite(s, t, r);
    PipingSame(s, t, Idle);
    assert SenderOf(s, t).Direct? ==> t !in PipingSet(s);
    assert forall u {:trigger SenderOf(s', u)} :: u != t ==> SenderOf(s', u) == SenderOf(s, u);
  }

  lemma PipeWriteSound(s: State, t: Thread)
    requires Sound(s)
    ensures Sound(StepPipeWrite(s, t))
  {
    var s' := StepPipeWrite(s, t);
    PipingSame(s, t, Idle);
    assert SenderOf(s, t).Piping? ==> t in PipingSet(s);
    assert forall u {:trigger SenderOf(s', u)} :: u != t ==> SenderOf(s', u) == SenderOf(s, u);
  }

  /** Steps of the socket thread leave the senders alone. */
  lemma SendersSame(s: State, s': State)
    requires s'.senders == s.senders
    ensures PipingSet(s') == PipingSet(s)
    ensures forall u {:trigger SenderOf(s', u)} :: SenderOf(s', u) == SenderOf(s, u)
    ensures forall u {:trigger SenderOf(s, u)} :: SenderOf(s', u) == SenderOf(s, u)
  {
  }

  lemma CommandSound(s: State)
    requires Sound(s)
    ensures Sound(StepCommand(s))
  {
    SendersSame(s, StepCommand(s));
    CommandLists(s);
    CommandCounts(s);
    CommandLocks(s);
    hide *;
    SoundIs(StepCommand(s));
  }

  lemma SoundIs(s: State)
    requires !s.fault && LockInv(s) && ListInv(s) && CountInv(s)
    ensures Sound(s)
  {
  }

  lemma CommandLocks(s: State)
    requires Sound(s)
    ensures LockInv(StepCommand(s)) && !StepCommand(s).fault
  {
    SendersSame(s, StepCommand(s));
    hide ListInv;
    hide CountInv;
  }

  lemma CommandLists(s: State)
    requires Sound(s)
    ensures ListInv(StepCommand(s))
  {
    hide CountInv;
  }

  lemma CommandCounts(s: State)
    requires CountInv(s)
    ensures CountInv(StepCommand(s))
  {
    CommandUnsent(s);
    CommandSending(s);
    hide PipingSet;
    hide Unsent;
    hide StepCommand;
  }

  lemma CommandSending(s: State)
    ensures var s' := StepCommand(s);
            && PipingSet(s') == PipingSet(s) && s'.sending == s.sending && (Open(s') ==> Open(s) && !s'.status.Closed?)
            && |s'.pipe| + (if s'.server.Decrement? then 1 else 0) == |s.pipe| + (if s.server.Decrement? then 1 else 0)
  {
    SendersSame(s, StepCommand(s));
    hide PipingSet;
  }

  lemma CommandUnsent(s: State)
    ensures var s' := StepCommand(s);
            !s'.status.Closed? ==>
              s'.wbSize - s.wbSize == Unsent(s'.high) + Unsent(s'.low) - Unsent(s.high) - Unsent(s.low)
  {
    hide Unsent;
    if s.pipe != [] {
      UnsentSnoc(s.high, Whole(s.pipe[0]));
      UnsentSnoc(s.low, Whole(s.pipe[0]));
      assert Rest(Whole(s.pipe[0])) == |s.pipe[0].bytes|;
    }
  }

  lemma WritableSound(s: State)
    requires Sound(s)
    ensures Sound(StepWritable(s))
  {
    SendersSame(s, StepWritable(s));
    if s.dw.Some? { UnsentCons(s.dw.value, s.high); }
  }

  // What one write of send_buffer_ makes of a sound state

  /** The head of the high list is sent. */
  function HighDone(s: State): State
    requires s.high != [] && Fits(s.high[0])
  {
    var b := s.high[0];
    s.(wire := s.wire + Slice(b.pkg, b.off, |b.pkg.bytes|), wbSize := s.wbSize - Rest(b),
       high := s.high[1..], done := s.done + [b.pkg])
  }

  /** n more bytes of it are sent. */
  function HighPart(s: State, n: nat): State
    requires s.high != [] && n < Rest(s.high[0])
  {
    var b := s.high[0];
    Unlock(s.(wire := s.wire + Slice(b.pkg, b.off, b.off + n), wbSize := s.wbSize - n,
              high := [b.(off := b.off + n)] + s.high[1..]))
  }

  /** The head of the low list is sent. */
  function LowDone(s: State): State
    requires s.low != []
  {
    var b := s.low[0];
    s.(wire := s.wire + Slice(b.pkg, 0, |b.pkg.bytes|), wbSize := s.wbSize - |b.pkg.bytes|,
       low := s.low[1..], done := s.done + [b.pkg])
  }

  /** n bytes of it are sent, and it is raised to the high list. */
  function LowPart(s: State, n: nat): State
    requires s.low != [] && n < |s.low[0].pkg.bytes|
  {
    var b := s.low[0];
    Unlock(s.(wire := s.wire + Slice(b.pkg, 0, n), wbSize := s.wbSize - n, high := [b.(off := n)], low := s.low[1..]))
  }

  lemma HighTurn(s: State, r: Result) returns (n: nat)
    requires Sound(s) && s.server.SendHigh?
    ensures var t := StepWriteHigh(s, r);
            || t == s || t == Unlock(s) || t == TurnedOff(s) || t == ForceClose(s)
            || (s.high == [] && t == s.(server := SendLow))
            || (s.high != [] && Fits(s.high[0]) && (t == HighDone(s) || (n < Rest(s.high[0]) && t == HighPart(s, n))))
  {
    n := 0;
    LockFacts(s);
    if s.high == [] && s.low == [] { NothingUnsent(s); }
    hide Unsent;
    hide PipingSet;
    hide LockInv;
    if s.high != [] {
      var b := s.high[0];
      n := Count(r, Rest(b));
    }
  }

  lemma NothingUnsent(s: State)
    requires CountInv(s) && s.high == [] && s.low == [] && Open(s)
    ensures s.wbSize == 0
  {
  }

  lemma LowTurn(s: State, r: Result) returns (n: nat)
    requires Sound(s) && s.server.SendLow?
    ensures s.high == []
    ensures var t := StepWriteLow(s, r);
            || t == s || t == Unlock(s) || t == TurnedOff(s) || t == ForceClose(s)
            || (s.low != [] && (t == LowDone(s) || (0 < n < |s.low[0].pkg.bytes| && t == LowPart(s, n))))
  {
    n := 0;
    LockFacts(s);
    if s.low == [] { NothingUnsent(s); }
    LowHead(s);
    hide Unsent;
    hide PipingSet;
    if s.low != [] {
      var b := s.low[0];
      n := Count(r, Rest(b));
      assert ([b.(off := n)] + s.low[1..])[1..] == s.low[1..];
      if n == 0 { assert [b] + s.low[1..] == s.low && s.wire + [] == s.wire; }
    }
  }

  lemma UnlockSound(s: State)
    requires Sound(s) && s.lock.ByServer?
    ensures Sound(Unlock(s)) && Sound(TurnedOff(s))
  {
    SendersSame(s, Unlock(s));
    SendersSame(s, TurnedOff(s));
  }

  lemma CloseSound(s: State)
    requires Sound(s) && !s.lock.BySender? && !s.server.Decrement?
    ensures Sound(ForceClose(s))
  {
    SendersSame(s, ForceClose(s));
    hide PipingSet;
  }

  lemma ToLowSound(s: State)
    requires Sound(s) && s.server.SendHigh? && s.high == []
    ensures Sound(s.(server := SendLow))
  {
    SendersSame(s, s.(server := SendLow));
  }

  lemma HighDoneSound(s: State)
    requires Sound(s) && s.server.SendHigh? && s.high != []
    ensures Fits(s.high[0]) && Sound(HighDone(s))
  {
    SendersSame(s, HighDone(s));
    UnsentHead(s.high);
    hide Unsent;
    hide PipingSet;
  }

  lemma HighPartSound(s: State, n: nat)
    requires Sound(s) && s.server.SendHigh? && s.high != [] && n < Rest(s.high[0])
    ensures Sound(HighPart(s, n))
  {
    var b := s.high[0];
    SendersSame(s, HighPart(s, n));
    UnsentHead(s.high);
    UnsentCons(b.(off := b.off + n), s.high[1..]);
    hide Unsent;
    hide PipingSet;
  }

  lemma LowDoneSound(s: State)
    requires Sound(s) && s.server.SendLow? && s.low != []
    ensures Sound(LowDone(s))
  {
    SendersSame(s, LowDone(s));
    UnsentHead(s.low);
    LowHead(s);
    hide Unsent;
    hide PipingSet;
  }

  lemma LowPartSound(s: State, n: nat)
    requires Sound(s) && s.server.SendLow? && s.low != [] && n < |s.low[0].pkg.bytes|
    ensures Sound(LowPart(s, n))
  {
    var b := s.low[0].(off := n);
    SendersSame(s, LowPart(s, n));
    UnsentHead(s.low);
    LowHead(s);
    UnsentCons(b, []);
    assert [b] + [] == [b] && Unsent([]) == 0;
    hide Unsent;
    hide PipingSet;
  }

  lemma WriteHighSound(s: State, r: Result)
    requires Sound(s) && s.server.SendHigh?
    ensures Sound(StepWriteHigh(s, r))
  {
    var n := HighTurn(s, r);
    assert s.lock.ByServer?;
    hide *;
    UnlockSound(s);
    CloseSound(s);
    if s.high == [] {
      ToLowSound(s);
    } else {
      HighDoneSound(s);
      if n < Rest(s.high[0]) { HighPartSound(s, n); }
    }
  }

  lemma WriteLowSound(s: State, r: Result)
    requires Sound(s) && s.server.SendLow?
    ensures Sound(StepWriteLow(s, r))
  {
    var n := LowTurn(s, r);
    assert s.lock.ByServer?;
    hide *;
    UnlockSound(s);
    CloseSound(s);
    if s.low != [] {
      LowDoneSound(s);
      if n < |s.low[0].pkg.bytes| { LowPartSound(s, n); }
    }
  }

  lemma LowHead(s: State)
    requires ListInv(s)
    ensures s.low != [] ==> s.low[0].off == 0
  {
  }

  predicate Other(x: Step) { x.Connect? || x.Report? || x.TurnOff? || x.Close? || x.CloseLocked? || x.Decrease? }

  lemma OtherSound(s: State, x: Step)
    requires Sound(s) && Other(x)
    ensures Sound(Next(s, x))
  {
    hide *;
    OtherLocks(s, x);
    OtherLists(s, x);
    OtherCounts(s, x);
    SoundIs(Next(s, x));
  }

  lemma OtherLocks(s: State, x: Step)
    requires Sound(s) && Other(x)
    ensures LockInv(Next(s, x)) && !Next(s, x).fault
  {
    SendersSame(s, Next(s, x));
    hide ListInv;
    hide PipingSet;
    hide Unsent;
  }

  lemma OtherLists(s: State, x: Step)
    requires Sound(s) && Other(x)
    ensures ListInv(Next(s, x))
  {
    hide CountInv;
  }

  lemma OtherCounts(s: State, x: Step)
    requires Sound(s) && Other(x)
    ensures CountInv(Next(s, x))
  {
    SendersSame(s, Next(s, x));
    hide ListInv;
    hide PipingSet;
    hide Unsent;
  }

  /** Every step keeps the invariant, and no assertion fails. */
  lemma NextSound(s: State, x: Step)
    requires Sound(s)
    ensures Sound(Next(s, x))
  {
    hide Sound;
    match x
    case Call(t, high, bytes, direct) => CallSound(s, t, high, bytes, direct);
    case DirectWrite(t, r) => DirectWriteSound(s, t, r);
    case PipeWrite(t) => PipeWriteSound(s, t);
    case Command => CommandSound(s);
    case Writable => WritableSound(s);
    case Write(r) => if s.server.SendHigh? { WriteHighSound(s, r); } else if s.server.SendLow? { WriteLowSound(s, r); }
    case _ => OtherSound(s, x);
  }

  // The wire

  function Concat(ps: seq<Package>): seq<Octet> {
    if ps == [] then [] else var p := ps[|ps| - 1]; Concat(ps[..|ps| - 1]) + Slice(p, 0, |p.bytes|)
  }

  lemma ConcatSnoc(ps: seq<Package>, p: Package)
    ensures Concat(ps + [p]) == Concat(ps) + Slice(p, 0, |p.bytes|)
  {
    assert (ps + [p])[..|ps|] == ps;
  }

  /** The one buffer that may be sent in part. */
  function Current(s: State): Option<Buffer> {
    if s.status.Closed? then s.cut
    else if s.dw.Some? then s.dw
    else if s.high != [] then Some(s.high[0])
    else None
  }

  predicate Fits(b: Buffer) { b.off <= |b.pkg.bytes| }

  function Sent(o: Option<Buffer>): seq<Octet> {
    if o.Some? && Fits(o.value) then Slice(o.value.pkg, 0, o.value.off) else []
  }

  /** What was on the wire when the lists were freed, without a direct buffer. */
  function Base(s: State): seq<Octet> {
    if s.freed.None? then [] else Concat(s.freed.value.done) + Sent(s.freed.value.part)
  }

  /** The packages finished since then. */
  function Late(s: State): seq<Package> {
    if s.freed.None? then s.done
    else if |s.freed.value.done| <= |s.done| then s.done[|s.freed.value.done|..] else []
  }

  function Front(s: State): seq<Octet> { Base(s) + Concat(Late(s)) }

  /** The bytes on the wire are those of the finished packages, one after the other, and then the
      part that was sent of a single further one; if the lists were freed, twice. */
  ghost predicate WireInv(s: State) { s.wire == Front(s) + Sent(Current(s)) }

  lemma NextWire(s: State, x: Step)
    requires Sound(s) && WireInv(s)
    ensures WireInv(Next(s, x))
  {
    hide CountInv;
    hide Concat;
    match x
    case DirectWrite(t, r) => DirectWire(s, t, r);
    case Write(r) => if s.server.SendHigh? { HighWire(s, r); } else if s.server.SendLow? { LowWire(s, r); }
    case _ => OtherWire(s, x);
  }

  lemma OtherWire(s: State, x: Step)
    requires Sound(s) && WireInv(s) && !x.DirectWrite? && !x.Write?
    ensures WireInv(Next(s, x))
  {
    hide CountInv;
    hide WireInv;
    if Next(s, x) == FreeLists(s) && s.server.Ready? && !s.status.Closed? {
      CloseWire(s);
    } else {
      StillWire(s, x);
    }
  }

  lemma StillWire(s: State, x: Step)
    requires Sound(s) && WireInv(s) && !x.DirectWrite? && !x.Write?
    requires Next(s, x) != FreeLists(s) || !s.server.Ready? || s.status.Closed?
    ensures WireInv(Next(s, x))
  {
    StillSame(s, x);
    FrontSame(s, Next(s, x));
    hide Next;
    hide Front;
    hide Sound;
    hide Sent;
  }

  lemma StillSame(s: State, x: Step)
    requires Sound(s) && !x.DirectWrite? && !x.Write?
    requires Next(s, x) != FreeLists(s) || !s.server.Ready? || s.status.Closed?
    ensures var u := Next(s, x);
            u.wire == s.wire && u.freed == s.freed && u.done == s.done && Sent(Current(u)) == Sent(Current(s))
  {
    hide StepDirectWrite;
    hide StepWrite;
    hide CountInv;
    hide PipingSet;
    if x.Call? {
      CallStill(s, x);
    } else if x.Command? {
      CommandStill(s);
    }
  }

  lemma CallStill(s: State, x: Step)
    requires x.Call?
    ensures var u := Next(s, x);
            && u.wire == s.wire && u.freed == s.freed && u.done == s.done && u.status == s.status && u.dw == s.dw
            && u.high == s.high && u.cut == s.cut
  {
  }

  lemma CommandStill(s: State)
    requires Sound(s)
    ensures var u := StepCommand(s);
            && u.wire == s.wire && u.freed == s.freed && u.done == s.done && u.status == s.status && u.dw == s.dw
            && u.cut == s.cut && (s.high != [] ==> u.high != [] && u.high[0] == s.high[0])
            && (s.high == [] && u.high != [] ==> u.high[0].off == 0)
  {
    hide Sound;
  }

  /** Freeing the lists moves no bytes. */
  lemma CloseWire(s: State)
    requires Sound(s) && WireInv(s) && s.server.Ready? && !s.status.Closed?
    ensures WireInv(FreeLists(s))
  {
    hide Sound;
    hide Concat;
    CloseFront(s);
    hide Front;
    var t := FreeLists(s);
    assert Front(t) + Sent(Current(t)) == Front(s) + Sent(Current(s));
  }

  lemma CloseFront(s: State)
    requires Sound(s) && s.server.Ready? && !s.status.Closed?
    ensures var t := FreeLists(s);
            && Front(s) == Concat(s.done)
            && (if s.dw.Some? then Front(t) == Concat(s.done) && Current(t) == Current(s)
                else Front(t) == Concat(s.done) + Sent(Current(s)) && Sent(Current(t)) == [])
  {
    hide CountInv;
    hide ListInv;
    assert s.freed.None?;
    assert Concat([]) == [];
  }

  lemma FrontSnoc(s: State, s': State, p: Package)
    requires s'.freed == s.freed && s'.done == s.done + [p] && (s.freed.Some? ==> s.freed.value.done <= s.done)
    ensures Front(s') == Front(s) + Slice(p, 0, |p.bytes|)
  {
    if s.freed.Some? {
      var k := |s.freed.value.done|;
      assert (s.done + [p])[k..] == s.done[k..] + [p];
    }
    assert Late(s') == Late(s) + [p];
    ConcatSnoc(Late(s), p);
  }

  lemma FrontSame(s: State, s': State)
    requires s'.freed == s.freed && s'.done == s.done
    ensures Front(s') == Front(s)
  {
  }

  lemma DirectWire(s: State, t: Thread, r: Result)
    requires Sound(s) && WireInv(s)
    ensures WireInv(StepDirectWrite(s, t, r))
  {
    hide Concat;
    hide ListInv;
    hide CountInv;
    if SenderOf(s, t).Direct? {
      var s', pkg := StepDirectWrite(s, t, r), SenderOf(s, t).pkg;
      DirectCurrent(s, t, r);
      if s'.done == s.done { FrontSame(s, s'); } else { FrontSnoc(s, s', pkg); }
    }
    hide Sound;
    hide Front;
  }

  lemma DirectCurrent(s: State, t: Thread, r: Result)
    requires Sound(s) && SenderOf(s, t).Direct?
    ensures var s', pkg := StepDirectWrite(s, t, r), SenderOf(s, t).pkg;
            var n := Count(r, |pkg.bytes|);
            && s'.wire == s.wire + Slice(pkg, 0, n) && s'.freed == s.freed
            && Sent(Current(s)) == [] && (s.freed.Some? ==> s.freed.value.done <= s.done)
            && (if n == |pkg.bytes| then s'.done == s.done + [pkg] && Sent(Current(s')) == []
                else s'.done == s.done && Sent(Current(s')) == Slice(pkg, 0, n))
  {
    hide CountInv;
  }

  lemma HighWire(s: State, r: Result)
    requires Sound(s) && WireInv(s) && s.server.SendHigh?
    ensures WireInv(StepWriteHigh(s, r))
  {
    var n := HighTurn(s, r);
    assert s.status.Connected? && s.dw.None?;
    hide *;
    QuietWire(s);
    if s.high != [] { HighTurnWire(s, n); }
  }

  /** What moves no bytes and no buffers. */
  lemma QuietWire(s: State)
    requires WireInv(s) && s.status.Connected?
    ensures WireInv(Unlock(s)) && WireInv(ForceClose(s)) && WireInv(s.(server := SendLow))
  {
    hide Concat;
    FrontSame(s, Unlock(s));
    FrontSame(s, ForceClose(s));
    FrontSame(s, s.(server := SendLow));
    hide Front;
  }

  lemma HighTurnWire(s: State, n: nat)
    requires Sound(s) && WireInv(s) && s.server.SendHigh? && s.high != [] && Fits(s.high[0])
    ensures WireInv(HighDone(s)) && (n < Rest(s.high[0]) ==> WireInv(HighPart(s, n)))
  {
    hide CountInv;
    hide LockInv;
    hide Front;
    assert s.status.Connected? && s.dw.None? && s.freed.None? by { LockFacts(s); }
    var b := s.high[0];
    FrontSnoc(s, HighDone(s), b.pkg);
    SliceGrows(Front(s), b.pkg, b.off, |b.pkg.bytes|);
    assert |s.high| > 1 ==> s.high[1..][0].off == 0;
    if n < Rest(b) {
      FrontSame(s, HighPart(s, n));
      SliceGrows(Front(s), b.pkg, b.off, b.off + n);
    }
  }

  lemma LockFacts(s: State)
    requires LockInv(s) && (s.server.SendHigh? || s.server.SendLow?)
    ensures s.lock.ByServer? && s.status.Connected? && s.dw.None? && (s.server.SendLow? ==> s.high == [])
    ensures s.freed.None?
  {
  }

  lemma SliceGrows(front: seq<Octet>, pkg: Package, off: nat, to: nat)
    requires off <= to <= |pkg.bytes|
    ensures front + Slice(pkg, 0, off) + Slice(pkg, off, to) == front + Slice(pkg, 0, to)
  {
    assert Slice(pkg, 0, off) + Slice(pkg, off, to) == Slice(pkg, 0, to);
  }

  lemma LowWire(s: State, r: Result)
    requires Sound(s) && WireInv(s) && s.server.SendLow?
    ensures WireInv(StepWriteLow(s, r))
  {
    var n := LowTurn(s, r);
    assert s.status.Connected?;
    hide *;
    QuietWire(s);
    if s.low != [] { LowTurnWire(s, n); }
  }

  lemma LowTurnWire(s: State, n: nat)
    requires Sound(s) && WireInv(s) && s.server.SendLow? && s.low != []
    ensures WireInv(LowDone(s)) && (n < |s.low[0].pkg.bytes| ==> WireInv(LowPart(s, n)))
  {
    hide CountInv;
    hide LockInv;
    hide Front;
    LockFacts(s);
    FrontSnoc(s, LowDone(s), s.low[0].pkg);
    if n < |s.low[0].pkg.bytes| { FrontSame(s, LowPart(s, n)); }
  }

  // The order of packages

  /** The packages of one sender and one priority, in order. */
  function Of(ps: seq<Package>, t: Thread, high: bool): seq<Package> {
    if ps == [] then []
    else
      var p := ps[|ps| - 1];
      Of(ps[..|ps| - 1], t, high) + (if p.sender == t && p.high == high then [p] else [])
  }

  lemma {:induction false} OfCat(ps: seq<Package>, qs: seq<Package>, t: Thread, high: bool)
    ensures Of(ps + qs, t, high) == Of(ps, t, high) + Of(qs, t, high)
  {
    if qs == [] {
      assert ps + qs == ps;
    } else {
      assert (ps + qs)[..|ps + qs| - 1] == ps + qs[..|qs| - 1];
      OfCat(ps, qs[..|qs| - 1], t, high);
    }
  }

  lemma {:induction false} OfNone(ps: seq<Package>, t: Thread, high: bool)
    requires forall p :: p in ps ==> p.sender != t || p.high != high
    ensures Of(ps, t, high) == []
  {
    if ps != [] {
      assert ps[|ps| - 1] in ps;
      OfNone(ps[..|ps| - 1], t, high);
    }
  }

  function DirectPart(s: State): seq<Package> { if s.dw.Some? then [s.dw.value.pkg] else [] }

  /** What is accepted and not finished, oldest first. */
  function Waiting(s: State): seq<Package> { DirectPart(s) + Packages(s.high) + Packages(s.low) + s.pipe }

  function Own(s: State, t: Thread): seq<Package> {
    if SenderOf(s, t).Idle? then [] else [SenderOf(s, t).pkg]
  }

  /** Of a sender's packages of one priority, those in `line` and then those in its hands
      are what was called, in that order. */
  ghost predicate InOrder(called: seq<Package>, line: seq<Package>, own: seq<Package>, t: Thread, high: bool) {
    Of(called, t, high) == Of(line + own, t, high)
  }

  /** What is finished, then what is waiting; what was freed comes where it would have. */
  function Line(s: State): seq<Package> {
    if s.freed.None? then s.done + Waiting(s)
    else
      var f := s.freed.value;
      if f.direct then f.done + DirectPart(s) + f.gone + s.pipe else f.done + f.gone + Late(s) + DirectPart(s) + s.pipe
  }

  ghost predicate Ordered(s: State) {
    forall t, high {:trigger InOrder(s.called, Line(s), Own(s, t), t, high)} ::
      InOrder(s.called, Line(s), Own(s, t), t, high)
  }

  /** What is finished when the socket is closed, with what was freed where it would have come. */
  function Stopped(s: State): seq<Package> {
    if s.freed.None? || s.freed.value.direct then s.done else s.freed.value.done + s.freed.value.gone + Late(s)
  }

  ghost predicate Finished(s: State) {
    forall t, high {:trigger Of(Stopped(s), t, high)} :: Of(Stopped(s), t, high) <= Of(s.called, t, high)
  }

  predicate Numbered(called: seq<Package>) { forall k :: 0 <= k < |called| ==> called[k].id == k }

  /** A sender that writes directly has nothing else under way. */
  ghost predicate DirectAlone(s: State) {
    forall t {:trigger SenderOf(s, t)} :: SenderOf(s, t).Direct? ==> Absent(Waiting(s), t)
  }

  predicate Absent(ps: seq<Package>, t: Thread) { forall p :: p in ps ==> p.sender != t }

  ghost predicate OrderInv(s: State) {
    Numbered(s.called) && (if s.status.Closed? then Finished(s) else Ordered(s)) && DirectAlone(s)
  }

  /** A package may move past those of other senders or of the other priority. */
  lemma OfMove(a: seq<Package>, p: Package, b: seq<Package>, c: seq<Package>, t: Thread, high: bool)
    requires forall q :: q in b ==> q.sender != p.sender || q.high != p.high
    ensures Of(a + [p] + b + c, t, high) == Of(a + b + [p] + c, t, high)
  {
    OfCat(a + [p] + b, c, t, high);
    OfCat(a + [p], b, t, high);
    OfCat(a, [p], t, high);
    OfCat(a + b + [p], c, t, high);
    OfCat(a + b, [p], t, high);
    OfCat(a, b, t, high);
    if p.sender == t && p.high == high { OfNone(b, t, high); } else { OfNone([p], t, high); }
    hide Of;
    var x, y, z, w := Of(a, t, high), Of([p], t, high), Of(b, t, high), Of(c, t, high);
    assert y == [] || z == [];
    assert x + y + z == x + z + y;
  }

  /** Packages of other senders do not count. */
  lemma OfSkip(a: seq<Package>, p: Package, b: seq<Package>, t: Thread, high: bool)
    requires p.sender != t
    ensures Of(a + [p] + b, t, high) == Of(a + b, t, high)
  {
    OfCat(a + [p], b, t, high);
    OfCat(a, [p], t, high);
    OfCat(a, b, t, high);
    OfNone([p], t, high);
  }

  lemma OfPrefix(a: seq<Package>, b: seq<Package>, t: Thread, high: bool)
    ensures Of(a, t, high) <= Of(a + b, t, high)
  {
    OfCat(a, b, t, high);
  }

  /** A call: the package is in the hands of its sender. */
  lemma InOrderCall(called: seq<Package>, line: seq<Package>, pkg: Package, own: seq<Package>, t: Thread, high: bool)
    requires InOrder(called, line, if t == pkg.sender then [] else own, t, high)
    ensures InOrder(called + [pkg], line, if t == pkg.sender then [pkg] else own, t, high)
  {
    OfCat(called, [pkg], t, high);
    OfCat(line, [pkg], t, high);
    assert line + [] == line;
    if t != pkg.sender {
      OfNone([pkg], t, high);
    }
  }

  /** A package leaves its sender's hands and overtakes `b`, where there is none of the same sender. */
  lemma InOrderHand(called: seq<Package>, a: seq<Package>, b: seq<Package>, pkg: Package, own: seq<Package>, t: Thread,
                    high: bool)
    requires Absent(b, pkg.sender)
    requires InOrder(called, a + b, if t == pkg.sender then [pkg] else own, t, high)
    ensures InOrder(called, a + [pkg] + b, if t == pkg.sender then [] else own, t, high)
  {
    var o := if t == pkg.sender then [] else own;
    OfMove(a, pkg, b, o, t, high);
    if t == pkg.sender {
      assert a + b + [pkg] + o == a + b + [pkg];
    } else {
      OfSkip(a + b, pkg, own, t, high);
    }
  }

  /** A package overtakes those of the other priority. */
  lemma InOrderOvertake(called: seq<Package>, a: seq<Package>, b: seq<Package>, pkg: Package, c: seq<Package>,
                        own: seq<Package>, t: Thread, high: bool)
    requires forall q :: q in b ==> q.high != pkg.high
    requires InOrder(called, a + b + [pkg] + c, own, t, high)
    ensures InOrder(called, a + [pkg] + b + c, own, t, high)
  {
    OfMove(a, pkg, b, c + own, t, high);
    assert a + b + [pkg] + c + own == a + b + [pkg] + (c + own);
    assert a + [pkg] + b + c + own == a + [pkg] + b + (c + own);
  }

  /** The senders of `s'` are those of `s`, but for `t`. */
  ghost predicate OthersSame(s: State, s': State, t: Thread) {
    forall u {:trigger SenderOf(s', u)} :: u != t ==> SenderOf(s', u) == SenderOf(s, u)
  }

  lemma CallOrder(s: State, t: Thread, high: bool, bytes: Bytes, direct: bool)
    requires Sound(s) && Ordered(s) && DirectAlone(s)
    ensures Ordered(StepCall(s, t, high, bytes, direct)) && DirectAlone(StepCall(s, t, high, bytes, direct))
  {
    var s', pkg := StepCall(s, t, high, bytes, direct), Package(t, high, bytes, |s.called|);
    if s' != s {
      var line := Line(s);
      assert s'.called == s.called + [pkg] && Line(s') == line;
      assert Own(s, t) == [] && Own(s', t) == [pkg] && OthersSame(s, s', t);
      if SenderOf(s', t).Direct? {
        assert s.sending == |PipingSet(s)| + |s.pipe| + (if s.server.Decrement? then 1 else 0);
        assert Waiting(s) == [];
      }
      hide StepCall;
      hide Waiting;
      hide Line;
      hide InOrder;
      forall u, h ensures InOrder(s'.called, Line(s'), Own(s', u), u, h) {
        assert InOrder(s.called, line, Own(s, u), u, h);
        InOrderCall(s.called, line, pkg, Own(s, u), u, h);
        assert u != t ==> SenderOf(s', u) == SenderOf(s, u);
      }
      hide Ordered;
    }
  }

  /** What a direct write goes before, and what it goes behind. */
  function Behind(s: State): seq<Package> { if s.freed.None? then Waiting(s) else s.pipe }

  function Ahead(s: State): seq<Package> {
    if s.freed.None? then s.done else s.freed.value.done + s.freed.value.gone + Late(s)
  }

  lemma DirectWriteLine(s: State, t: Thread, r: Result)
    requires Sound(s) && SenderOf(s, t).Direct?
    ensures var s', pkg := StepDirectWrite(s, t, r), SenderOf(s, t).pkg;
            && Line(s) == Ahead(s) + Behind(s) && Line(s') == Ahead(s) + [pkg] + Behind(s) && s'.called == s.called
            && Own(s, t) == [pkg] && Own(s', t) == [] && OthersSame(s, s', t) && pkg.sender == t
            && (forall u {:trigger SenderOf(s', u)} :: !SenderOf(s', u).Direct?)
            && (Absent(Waiting(s), t) ==> Absent(Behind(s), t)) && s'.status == s.status && !s.status.Closed?
  {
    hide CountInv;
    var s', pkg := StepDirectWrite(s, t, r), SenderOf(s, t).pkg;
    assert s.dw.None? && !s.status.Closed? && (s.freed.Some? ==> !s.freed.value.direct);
    assert s.freed.Some? ==> s.high == [] && s.low == [] && s.freed.value.done <= s.done;
    hide ListInv;
    DirectLine(s, s', pkg);
    hide Line;
    hide Ahead;
  }

  /** A package is finished, or becomes the direct buffer. */
  lemma DirectLine(s: State, s': State, pkg: Package)
    requires s.dw.None? && (s.freed.Some? ==> !s.freed.value.direct && s.high == [] && s.low == [])
    requires s.freed.Some? ==> s.freed.value.done <= s.done
    requires s'.high == s.high && s'.low == s.low && s'.pipe == s.pipe && s'.freed == s.freed
    requires (s'.dw.None? && s'.done == s.done + [pkg]) || (s'.dw.Some? && s'.dw.value.pkg == pkg && s'.done == s.done)
    ensures Line(s) == Ahead(s) + Behind(s) && Line(s') == Ahead(s) + [pkg] + Behind(s)
  {
    if s.freed.Some? {
      var k := |s.freed.value.done|;
      assert DirectPart(s) == [] && (s.done + [pkg])[k..] == s.done[k..] + [pkg];
    }
  }

  lemma DirectWriteOrder(s: State, t: Thread, r: Result)
    requires Sound(s) && Ordered(s) && DirectAlone(s)
    ensures Ordered(StepDirectWrite(s, t, r)) && DirectAlone(StepDirectWrite(s, t, r))
  {
    var s' := StepDirectWrite(s, t, r);
    if SenderOf(s, t).Direct? {
      var pkg := SenderOf(s, t).pkg;
      DirectWriteLine(s, t, r);
      assert Absent(Behind(s), t);
      hide StepDirectWrite;
      hide Waiting;
      hide Line;
      hide Ahead;
      hide Behind;
      hide InOrder;
      hide Sound;
      forall u, high ensures InOrder(s'.called, Line(s'), Own(s', u), u, high) {
        assert InOrder(s.called, Line(s), Own(s, u), u, high);
        InOrderHand(s.called, Ahead(s), Behind(s), pkg, Own(s, u), u, high);
        assert u != t ==> SenderOf(s', u) == SenderOf(s, u);
      }
    }
  }

  lemma PipeWriteLine(s: State, t: Thread)
    requires Sound(s) && SenderOf(s, t).Piping?
    ensures var s', pkg := StepPipeWrite(s, t), SenderOf(s, t).pkg;
            && Line(s') == Line(s) + [pkg] + [] && s'.called == s.called
            && Waiting(s') == Waiting(s) + [pkg]
            && Own(s, t) == [pkg] && Own(s', t) == [] && OthersSame(s, s', t) && pkg.sender == t
  {
  }

  lemma PipeWriteOrder(s: State, t: Thread)
    requires Sound(s) && Ordered(s) && DirectAlone(s)
    ensures Ordered(StepPipeWrite(s, t)) && DirectAlone(StepPipeWrite(s, t))
  {
    var s' := StepPipeWrite(s, t);
    if SenderOf(s, t).Piping? {
      var pkg := SenderOf(s, t).pkg;
      PipeWriteLine(s, t);
      hide StepPipeWrite;
      hide Waiting;
      hide Line;
      hide InOrder;
      hide Sound;
      forall u, high ensures InOrder(s'.called, Line(s'), Own(s', u), u, high) {
        assert InOrder(s.called, Line(s), Own(s, u), u, high);
        assert Line(s) + [] == Line(s);
        InOrderHand(s.called, Line(s), [], pkg, Own(s, u), u, high);
        assert u != t ==> SenderOf(s', u) == SenderOf(s, u);
      }
    }
  }

  /** Where a request of the pipe goes: to the end of the high list, past the low one, or
      to the end of the low list. */
  lemma CommandLine(s: State)
    requires Sound(s) && s.server.Ready? && s.pipe != [] && !s.status.Closed?
    ensures var s', pkg, rest := StepCommand(s), s.pipe[0], s.pipe[1..];
            var h, l := DirectPart(s) + Packages(s.high), Packages(s.low);
            && Waiting(s) == h + l + [pkg] + rest
            && s'.called == s.called && s'.senders == s.senders && s'.done == s.done && !s'.status.Closed?
            && (Waiting(s') == h + l + [pkg] + rest
                || (Waiting(s') == h + [pkg] + l + rest && forall q :: q in l ==> q.high != pkg.high))
  {
    hide CountInv;
    hide LockInv;
    var pkg := s.pipe[0];
    assert s.pipe == [pkg] + s.pipe[1..];
    PackagesSnoc(s.high, Whole(pkg));
    PackagesSnoc(s.low, Whole(pkg));
    assert OnlyLow(s.low);
    hide ListInv;
    var h, l, p, rest := DirectPart(s) + Packages(s.high), Packages(s.low), [pkg], s.pipe[1..];
    if s.low == [] { assert l == []; } else { assert forall q :: q in l ==> !q.high; }
    hide Packages;
    assert h + l + (p + rest) == h + l + p + rest;
    assert DirectPart(s) + (Packages(s.high) + p) == h + p;
    assert h + (l + p) + rest == h + l + p + rest;
  }

  /** The first package may be gone. */
  predicate Shorter(ps: seq<Package>, qs: seq<Package>) { ps == qs || (qs != [] && ps == qs[1..]) }

  lemma PackagesCons(b: Buffer, bs: seq<Buffer>)
    ensures Packages([b] + bs) == [b.pkg] + Packages(bs) && Packages([]) == []
  {
  }

  lemma PackagesSnoc(bs: seq<Buffer>, b: Buffer)
    ensures Packages(bs + [b]) == Packages(bs) + [b.pkg]
  {
  }

  lemma CommandOrder(s: State)
    requires Sound(s) && OrderInv(s)
    ensures OrderInv(StepCommand(s))
  {
    var s' := StepCommand(s);
    if s.status.Closed? {
      SendersSame(s, s');
      assert Stopped(s') == Stopped(s) && s'.called == s.called;
      assert DirectAlone(s') by { assert forall t {:trigger SenderOf(s', t)} :: !SenderOf(s', t).Direct?; }
    } else if s.server.Ready? && s.pipe != [] {
      CommandLine(s);
      CommandPlaces(s);
    }
  }

  lemma Regroup(d: seq<Package>, h: seq<Package>, l: seq<Package>, p: seq<Package>, r: seq<Package>)
    ensures d + (h + l + p + r) == d + h + l + p + r
  {
  }

  lemma CommandPlaces(s: State)
    requires Sound(s) && Ordered(s) && DirectAlone(s) && s.server.Ready? && s.pipe != [] && !s.status.Closed?
    ensures Ordered(StepCommand(s)) && DirectAlone(StepCommand(s))
  {
    var s' := StepCommand(s);
    CommandLine(s);
    assert s.freed.None? && s'.freed.None?;
    assert Line(s) == s.done + Waiting(s) && Line(s') == s'.done + Waiting(s');
    SendersSame(s, s');
    hide Sound;
    hide StepCommand;
    hide Waiting;
    hide Line;
    hide InOrder;
    hide Packages;
    hide DirectPart;
    var pkg, rest := s.pipe[0], s.pipe[1..];
    var h, l := DirectPart(s) + Packages(s.high), Packages(s.low);
    forall u, high ensures InOrder(s'.called, Line(s'), Own(s', u), u, high) {
      assert Own(s', u) == Own(s, u);
      assert InOrder(s.called, Line(s), Own(s, u), u, high);
      if Waiting(s') != Waiting(s) {
        Regroup(s.done, h, l, [pkg], rest);
        Regroup(s.done, h, [pkg], l, rest);
        InOrderOvertake(s.called, s.done + h, l, pkg, rest, Own(s, u), u, high);
      }
    }
    forall t {:trigger SenderOf(s', t)} | SenderOf(s', t).Direct? ensures Absent(Waiting(s'), t) {
      assert Absent(Waiting(s), t);
      forall p | p in Waiting(s') ensures p in Waiting(s) { }
    }
  }

  predicate Same(b: Buffer, b': Buffer) { b.pkg == b'.pkg }

  /** What one turn over the high list makes of its head. */
  lemma HighOutcome(s: State, r: Result)
    requires Sound(s) && s.server.SendHigh? && s.high != [] && !StepWriteHigh(s, r).status.Closed?
    ensures var s', b, rest := StepWriteHigh(s, r), s.high[0], s.high[1..];
            && s'.dw == s.dw == None && s'.low == s.low && s'.pipe == s.pipe
            && ((s'.done == s.done + [b.pkg] && s'.high == rest)
                || (exists b' :: Same(b, b') && s'.done == s.done && s'.high == [b'] + rest))
  {
    var n := HighTurn(s, r);
    LockFacts(s);
    hide Sound;
    hide StepWriteHigh;
    var b := s.high[0];
    var b' := b.(off := b.off + n);
    assert s.high == [b] + s.high[1..] && Same(b, b') && Same(b, b);
  }

  lemma LineIs(s: State)
    requires s.dw.None?
    ensures Waiting(s) == Packages(s.high) + Packages(s.low) + s.pipe
  {
  }

  /** The socket thread's other steps move nothing past anything else: a buffer goes from
      the direct one to the high list, from the low list to the high one or to the wire. */
  lemma HighLine(s: State, r: Result)
    requires Sound(s) && s.server.SendHigh? && s.high != [] && !StepWriteHigh(s, r).status.Closed?
    ensures var s' := StepWriteHigh(s, r);
            && s'.done + Waiting(s') == s.done + Waiting(s)
            && Shorter(Waiting(s'), Waiting(s))
  {
    hide *;
    HighOutcome(s, r);
    var s', b, rest := StepWriteHigh(s, r), s.high[0], s.high[1..];
    LineIs(s);
    LineIs(s');
    PackagesCons(b, rest);
    assert s.high == [b] + rest;
    HeadGone(s.done, [b.pkg], Packages(rest), Packages(s.low), s.pipe);
    if !(s'.done == s.done + [b.pkg] && s'.high == rest) {
      var b' :| Same(b, b') && s'.high == [b'] + rest;
      SameIs(b, b');
      PackagesCons(b', rest);
    }
  }

  lemma HeadGone(d: seq<Package>, p: seq<Package>, h: seq<Package>, l: seq<Package>, pipe: seq<Package>)
    requires |p| == 1
    ensures (d + p) + (h + l + pipe) == d + (p + h + l + pipe)
    ensures Shorter(h + l + pipe, p + h + l + pipe) && Shorter(p + h + l + pipe, p + h + l + pipe)
  {
    assert p + h + l + pipe == p + (h + l + pipe);
    assert (p + (h + l + pipe))[1..] == h + l + pipe;
  }

  /** What one turn over the low list makes of its head. */
  lemma LowOutcome(s: State, r: Result)
    requires Sound(s) && s.server.SendLow? && s.low != [] && !StepWriteLow(s, r).status.Closed?
    ensures var s', b, rest := StepWriteLow(s, r), s.low[0], s.low[1..];
            && s'.dw == s.dw == None && s.high == [] && s'.pipe == s.pipe
            && ((s'.done == s.done + [b.pkg] && s'.high == [] && s'.low == rest)
                || (exists b' :: Same(b, b') && s'.done == s.done && s'.high == [b'] && s'.low == rest)
                || (exists b' :: Same(b, b') && s'.done == s.done && s'.high == [] && s'.low == [b'] + rest))
  {
    var n := LowTurn(s, r);
    LockFacts(s);
    hide Sound;
    hide StepWriteLow;
    var b := s.low[0];
    var b' := b.(off := n);
    assert s.low == [b] + s.low[1..] && Same(b, b') && Same(b, b);
  }

  lemma LowLine(s: State, r: Result)
    requires Sound(s) && s.server.SendLow? && s.low != [] && !StepWriteLow(s, r).status.Closed?
    ensures var s' := StepWriteLow(s, r);
            && s'.done + Waiting(s') == s.done + Waiting(s)
            && Shorter(Waiting(s'), Waiting(s))
  {
    hide *;
    LowOutcome(s, r);
    var s', b, rest := StepWriteLow(s, r), s.low[0], s.low[1..];
    LineIs(s);
    LineIs(s');
    PackagesCons(b, rest);
    assert s.low == [b] + rest;
    LowShift(s.done, [b.pkg], Packages(rest), s.pipe);
    if !(s'.done == s.done + [b.pkg] && s'.high == [] && s'.low == rest) {
      var b' :| Same(b, b') && ((s'.high == [b'] && s'.low == rest) || (s'.high == [] && s'.low == [b'] + rest));
      SameIs(b, b');
      PackagesCons(b', rest);
      PackagesOne(b');
    }
  }

  lemma SameIs(b: Buffer, b': Buffer)
    requires Same(b, b')
    ensures b.pkg == b'.pkg
  {
  }

  lemma PackagesOne(b: Buffer)
    ensures Packages([b]) == [b.pkg]
  {
  }

  lemma LowShift(d: seq<Package>, p: seq<Package>, l: seq<Package>, pipe: seq<Package>)
    requires |p| == 1
    ensures var w := Packages([]) + (p + l) + pipe;
            && (d + p) + (Packages([]) + l + pipe) == d + w && Shorter(Packages([]) + l + pipe, w)
            && p + l + pipe == w && Shorter(w, w)
  {
    assert Packages([]) == [];
    HeadGone(d, p, [], l, pipe);
    assert p + [] + l + pipe == [] + (p + l) + pipe == p + l + pipe;
  }

  lemma WritableLine(s: State)
    requires Sound(s)
    ensures Waiting(StepWritable(s)) == Waiting(s) && Line(StepWritable(s)) == Line(s)
  {
    assert s.server.Ready? && !s.status.Closed? ==> s.freed.None?;
    if s.dw.Some? { assert Packages([s.dw.value] + s.high) == [s.dw.value.pkg] + Packages(s.high); }
  }

  /** The same line of packages, perhaps with the first one finished. */
  lemma LineKeeps(s: State, s': State)
    requires Sound(s) && Sound(s') && OrderInv(s) && s'.called == s.called && s'.senders == s.senders
    requires !s.status.Closed? && !s'.status.Closed?
    requires Line(s') == Line(s) && forall p :: p in Waiting(s') ==> p in Waiting(s)
    ensures OrderInv(s')
  {
    SendersSame(s, s');
    hide Sound;
    hide Waiting;
    hide Line;
    hide InOrder;
    forall u, high ensures InOrder(s'.called, Line(s'), Own(s', u), u, high) {
      assert Own(s', u) == Own(s, u);
      assert InOrder(s.called, Line(s), Own(s, u), u, high);
    }
    forall t {:trigger SenderOf(s', t)} | SenderOf(s', t).Direct? ensures Absent(Waiting(s'), t) {
      assert Absent(Waiting(s), t);
    }
  }

  /** The lists are freed where they stand in the line. */
  lemma FreeLine(s: State)
    requires Sound(s) && s.server.Ready? && !s.status.Closed?
    ensures Line(FreeLists(s)) == Line(s) && forall p :: p in Waiting(FreeLists(s)) ==> p in Waiting(s)
  {
    hide CountInv;
    assert s.freed.None? && Late(FreeLists(s)) == [];
    assert Packages([]) == [];
    var d, h, l, p := DirectPart(s), Packages(s.high), Packages(s.low), s.pipe;
    assert s.done + (d + h + l + p) == s.done + d + (h + l) + p;
    assert d == [] ==> s.done + d + (h + l) + p == s.done + (h + l) + [] + d + p;
  }

  /** The end of a close: what stays of the line is a part of what was called, from its start. */
  lemma StoppedOrder(s: State, s': State, rest: seq<Package>)
    requires Numbered(s.called) && Ordered(s) && s'.called == s.called && Line(s) == Stopped(s') + rest
    ensures Finished(s')
  {
    hide Line;
    hide Stopped;
    forall t, high {:trigger Of(Stopped(s'), t, high)} ensures Of(Stopped(s'), t, high) <= Of(s'.called, t, high) {
      assert InOrder(s.called, Line(s), Own(s, t), t, high);
      assert Stopped(s') + rest + Own(s, t) == Stopped(s') + (rest + Own(s, t));
      OfPrefix(Stopped(s'), rest + Own(s, t), t, high);
    }
  }

  lemma NoDirect(s: State, s': State)
    requires Sound(s) && !s.lock.BySender? && s'.senders == s.senders
    ensures DirectAlone(s')
  {
    forall t {:trigger SenderOf(s', t)} ensures !SenderOf(s', t).Direct? {
      assert SenderOf(s', t) == SenderOf(s, t);
    }
  }

  lemma CloseOrder(s: State)
    requires Sound(s) && OrderInv(s) && s.lock.ByServer?
    ensures OrderInv(ForceClose(s))
  {
    var s' := ForceClose(s);
    assert s.freed.None? && Stopped(s') == s.done && !s.status.Closed?;
    NoDirect(s, s');
    StoppedOrder(s, s', Waiting(s));
    hide Sound;
    hide Finished;
    hide Ordered;
    hide DirectAlone;
  }

  lemma CloseLockedOrder(s: State)
    requires Sound(s) && OrderInv(s) && s.server.Closing? && s.lock.Free?
    ensures OrderInv(StepCloseLocked(s))
  {
    var s' := StepCloseLocked(s);
    NoDirect(s, s');
    ClosedLine(s);
    var f := s.freed.value;
    var rest := if f.direct then DirectPart(s) + f.gone + s.pipe else DirectPart(s) + s.pipe;
    StoppedOrder(s, s', rest);
    hide Sound;
    hide Finished;
    hide Ordered;
    hide DirectAlone;
  }

  lemma ClosedLine(s: State)
    requires Sound(s) && s.server.Closing? && s.lock.Free?
    ensures s.freed.Some? && !s.status.Closed?
    ensures var f, s' := s.freed.value, StepCloseLocked(s);
            Line(s) == Stopped(s') + (if f.direct then DirectPart(s) + f.gone + s.pipe else DirectPart(s) + s.pipe)
  {
    hide CountInv;
  }

  /** A closed socket finishes nothing more. */
  lemma ClosedOrder(s: State, x: Step)
    requires Sound(s) && OrderInv(s) && s.status.Closed? && !x.Command?
    ensures OrderInv(Next(s, x))
  {
    var s' := Next(s, x);
    assert s'.done == s.done && s'.called == s.called && s'.freed == s.freed && s'.status.Closed?;
    assert Stopped(s') == Stopped(s);
    forall t {:trigger SenderOf(s', t)} ensures !SenderOf(s', t).Direct? {
      assert !SenderOf(s, t).Direct?;
    }
    hide Sound;
    hide Stopped;
    hide Next;
  }

  lemma NextOrder(s: State, x: Step)
    requires Sound(s) && OrderInv(s)
    ensures OrderInv(Next(s, x))
  {
    NextSound(s, x);
    if x.Command? {
      CommandOrder(s);
    } else if s.status.Closed? {
      ClosedOrder(s, x);
    } else {
      OpenOrder(s, x);
    }
  }

  lemma OpenOrder(s: State, x: Step)
    requires Sound(s) && Sound(Next(s, x)) && OrderInv(s) && !s.status.Closed? && !x.Command?
    ensures OrderInv(Next(s, x))
  {
    hide Sound;
    hide StepWriteHigh;
    hide StepWriteLow;
    hide FreeLists;
    hide Line;
    hide Waiting;
    hide Ordered;
    hide Finished;
    hide DirectAlone;
    var s' := Next(s, x);
    match x
    case Call(t, high, bytes, direct) => CallOrder(s, t, high, bytes, direct); assert !s'.status.Closed?;
    case DirectWrite(t, r) => DirectWriteOrder(s, t, r); assert !s'.status.Closed?;
    case PipeWrite(t) => PipeWriteOrder(s, t); assert !s'.status.Closed?;
    case Writable => WritableLine(s); LineKeeps(s, s');
    case Connect(ok) =>
      if s' != s && !ok { CloseStartOrder(s); } else { SameLine(s, s'); LineKeeps(s, s'); }
    case Close => if s' != s { CloseStartOrder(s); }
    case CloseLocked => if s' != s { CloseLockedOrder(s); }
    case Decrease => OtherLine(s, x); LineKeeps(s, s');
    case Report => OtherLine(s, x); LineKeeps(s, s');
    case TurnOff => OtherLine(s, x); LineKeeps(s, s');
    case Write(r) => WriteOrder(s, r);
  }

  lemma OtherLine(s: State, x: Step)
    requires x.Decrease? || x.Report? || x.TurnOff?
    ensures var s' := Next(s, x);
            && Line(s') == Line(s) && Waiting(s') == Waiting(s) && s'.called == s.called && s'.senders == s.senders
            && s'.freed == s.freed && s'.status == s.status && s'.lock == s.lock && s'.done == s.done
            && s'.high == s.high && s'.dw == s.dw
  {
    SameLine(s, Next(s, x));
    hide Line;
    hide Waiting;
  }

  lemma SameLine(s: State, s': State)
    requires s'.dw == s.dw && s'.high == s.high && s'.low == s.low && s'.pipe == s.pipe
    requires s'.done == s.done && s'.freed == s.freed
    ensures Line(s') == Line(s) && Waiting(s') == Waiting(s)
  {
  }

  lemma CloseStartOrder(s: State)
    requires Sound(s) && Sound(FreeLists(s)) && OrderInv(s) && s.server.Ready? && !s.status.Closed?
    ensures OrderInv(FreeLists(s))
  {
    FreeLine(s);
    LineKeeps(s, FreeLists(s));
  }

  lemma WriteOrder(s: State, r: Result)
    requires Sound(s) && Sound(StepWrite(s, r)) && OrderInv(s) && !s.status.Closed?
    ensures OrderInv(StepWrite(s, r))
  {
    if s.server.SendHigh? || s.server.SendLow? {
      LockFacts(s);
      if StepWrite(s, r).status.Closed? {
        WriteCloses(s, r);
        hide StepWrite;
        CloseOrder(s);
      } else {
        WriteLine(s, r);
        WriteOnly(s, r);
        hide StepWrite;
        hide Line;
        hide Waiting;
        hide Sound;
        LineKeeps(s, StepWrite(s, r));
      }
    }
  }

  lemma WriteCloses(s: State, r: Result)
    requires !s.status.Closed? && StepWrite(s, r).status.Closed?
    ensures StepWrite(s, r) == ForceClose(s)
  {
    hide Slice;
    hide Count;
    if s.server.SendHigh? {
      assert s.high != [] && r.Error?;
    } else {
      assert s.low != [] && r.Error?;
    }
  }

  lemma WriteLine(s: State, r: Result)
    requires Sound(s) && (s.server.SendHigh? || s.server.SendLow?) && !StepWrite(s, r).status.Closed?
    requires !s.status.Closed?
    ensures var s' := StepWrite(s, r);
            Line(s') == Line(s) && forall p :: p in Waiting(s') ==> p in Waiting(s)
  {
    LockFacts(s);
    if s.server.SendHigh? && s.high != [] {
      HighLine(s, r);
    } else if s.server.SendLow? && s.low != [] {
      LowLine(s, r);
    } else {
      EmptyLine(s, r);
    }
  }

  lemma EmptyLine(s: State, r: Result)
    requires (s.server.SendHigh? && s.high == []) || (s.server.SendLow? && s.low == [])
    ensures var s' := StepWrite(s, r); Line(s') == Line(s) && Waiting(s') == Waiting(s)
  {
    SameLine(s, StepWrite(s, r));
    hide Line;
    hide Waiting;
  }

  ghost predicate Extends(s: State, s': State) { s.wire <= s'.wire && s.done <= s'.done && s.called <= s'.called }

  predicate Untouched(s: State, s': State) {
    s'.called == s.called && s'.senders == s.senders && s'.freed == s.freed
  }

  lemma WriteOnly(s: State, r: Result)
    requires Sound(s)
    ensures var t := StepWrite(s, r); Untouched(s, t) && Extends(s, t)
  {
    if s.server.SendHigh? { HighOnly(s, r); } else if s.server.SendLow? { LowOnly(s, r); }
    hide StepWriteHigh;
    hide StepWriteLow;
  }

  lemma HighOnly(s: State, r: Result)
    requires Sound(s) && s.server.SendHigh?
    ensures var t := StepWriteHigh(s, r); Untouched(s, t) && Extends(s, t)
  {
    var n := HighTurn(s, r);
    hide Sound;
    hide StepWriteHigh;
  }

  lemma LowOnly(s: State, r: Result)
    requires Sound(s) && s.server.SendLow?
    ensures var t := StepWriteLow(s, r); Untouched(s, t) && Extends(s, t)
  {
    var n := LowTurn(s, r);
    hide Sound;
    hide StepWriteLow;
  }

  // Runs

  ghost predicate Inv(s: State) { Sound(s) && WireInv(s) && OrderInv(s) }

  lemma StartInv(status: Status)
    requires !status.Closed?
    ensures Inv(Start(status))
  {
    EmptyInv(Start(status));
  }

  lemma EmptyInv(s: State)
    requires s == Start(s.status) && !s.status.Closed?
    ensures Inv(s)
  {
    EmptySound(s);
    EmptyAlone(s);
    EmptyWire(s);
    EmptyOrdered(s);
    hide Sound;
    hide WireInv;
    hide Ordered;
    hide DirectAlone;
  }

  lemma EmptyWire(s: State)
    requires s == Start(s.status) && !s.status.Closed?
    ensures WireInv(s)
  {
  }

  lemma EmptyOrdered(s: State)
    requires s == Start(s.status)
    ensures Ordered(s)
  {
    hide InOrder;
    hide Line;
    hide Own;
    forall t, high ensures InOrder(s.called, Line(s), Own(s, t), t, high) { EmptyOrder(s, t, high); }
  }

  lemma EmptySound(s: State)
    requires s == Start(s.status) && !s.status.Closed?
    ensures Sound(s)
  {
    assert PipingSet(s) == {};
  }

  lemma EmptyAlone(s: State)
    requires s == Start(s.status)
    ensures DirectAlone(s)
  {
    assert forall t {:trigger SenderOf(s, t)} :: SenderOf(s, t).Idle?;
  }

  lemma EmptyOrder(s: State, t: Thread, high: bool)
    requires s == Start(s.status)
    ensures InOrder(s.called, Line(s), Own(s, t), t, high)
  {
    assert Line(s) + Own(s, t) == [];
  }

  lemma FollowsInv(s: State, t: State)
    requires Inv(s) && Follows(s, t)
    ensures Inv(t)
  {
    hide Next;
    hide Sound;
    hide WireInv;
    hide OrderInv;
    var x :| t == Next(s, x);
    NextSound(s, x);
    NextWire(s, x);
    NextOrder(s, x);
  }

  lemma {:induction false} RunInv(run: seq<State>, n: nat)
    requires IsRun(run) && n < |run|
    ensures Inv(run[n])
  {
    hide Inv;
    hide Follows;
    if n == 0 {
      StartInv(run[0].status);
    } else {
      RunInv(run, n - 1);
      assert Follows(run[n - 1], run[n - 1 + 1]);
      FollowsInv(run[n - 1], run[n]);
    }
  }

  lemma NextGrows(s: State, x: Step)
    requires Inv(s)
    ensures Extends(s, Next(s, x))
    ensures s.status.Closed? ==> Next(s, x).wire == s.wire
  {
    hide StepWriteHigh;
    hide StepWriteLow;
    hide ForceClose;
    hide Extends;
    match x
    case DirectWrite(t, r) => DirectExtends(s, t, r);
    case Write(r) => WriteExtends(s, r);
    case _ => OthersExtend(s, x);
  }

  lemma DirectExtends(s: State, t: Thread, r: Result)
    requires Inv(s)
    ensures Extends(s, StepDirectWrite(s, t, r)) && (s.status.Closed? ==> StepDirectWrite(s, t, r).wire == s.wire)
  {
    hide WireInv;
    hide OrderInv;
    hide ListInv;
    hide CountInv;
    if s.status.Closed? { assert !SenderOf(s, t).Direct?; }
    DirectAppends(s, t, r);
    hide StepDirectWrite;
    hide LockInv;
  }

  lemma DirectAppends(s: State, t: Thread, r: Result)
    ensures Extends(s, StepDirectWrite(s, t, r)) && (!SenderOf(s, t).Direct? ==> StepDirectWrite(s, t, r) == s)
  {
    hide Slice;
  }

  lemma WriteExtends(s: State, r: Result)
    requires Inv(s)
    ensures Extends(s, StepWrite(s, r)) && (s.status.Closed? ==> StepWrite(s, r).wire == s.wire)
  {
    if s.status.Closed? { assert !s.server.SendHigh? && !s.server.SendLow?; }
    WriteOnly(s, r);
    hide Inv;
  }

  /** Steps that write nothing. */
  lemma OthersExtend(s: State, x: Step)
    requires !x.DirectWrite? && !x.Write?
    ensures Extends(s, Next(s, x)) && Next(s, x).wire == s.wire
  {
    hide StepWriteHigh;
    hide StepWriteLow;
    hide StepDirectWrite;
  }

  lemma ExtendsOnce(run: seq<State>, n: nat)
    requires IsRun(run) && n + 1 < |run|
    ensures Extends(run[n], run[n + 1])
  {
    RunInv(run, n);
    assert 0 <= n < |run| - 1;
    var x :| run[n + 1] == Next(run[n], x);
    NextGrows(run[n], x);
    hide Next;
    hide Inv;
  }

  lemma ExtendsBoth(s: State, s': State, s'': State)
    ensures Extends(s, s)
    ensures Extends(s, s') && Extends(s', s'') ==> Extends(s, s'')
  {
  }

  /** What is on the wire stays there. */
  lemma {:induction false} WireOnlyGrows(run: seq<State>, m: nat, n: nat)
    requires IsRun(run) && m <= n < |run|
    ensures Extends(run[m], run[n])
  {
    hide *;
    ExtendsBoth(run[m], run[m], run[m]);
    if m < n {
      WireOnlyGrows(run, m, n - 1);
      ExtendsOnce(run, n - 1);
      ExtendsBoth(run[m], run[n - 1], run[n]);
    }
  }
}
