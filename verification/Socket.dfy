/** Sending on one TCP socket of socket_server.c as a state machine: any number of sender
    threads, and the socket thread. A step is one system call or one access to what the
    threads share; any thread may step next. */
module Socket {
  import opened Wrappers

  type Thread = nat
  type Bytes = seq<nat>

  /** `id`: how many packages calls have accepted before it. */
  datatype Package = Package(sender: Thread, high: bool, bytes: Bytes, id: nat)

  /** A byte on the wire: byte `at` of a package. */
  datatype Octet = Octet(pkg: Package, at: nat)

  /** Bytes `from` up to `to` of a package. */
  function Slice(pkg: Package, from: nat, to: nat): seq<Octet>
    requires from <= to <= |pkg.bytes|
  {
    seq(to - from, i requires 0 <= i < to - from => Octet(pkg, from + i))
  }

  /** write_buffer: `off` bytes are already sent (ptr - buffer). */
  datatype Buffer = Buffer(pkg: Package, off: nat)

  datatype Status = Connecting | Connected | Closed

  /** Where a sender is: between calls; past the second can_direct_write, with the lock; or
      counted in `sending` and about to write its request into the pipe. */
  datatype Sender = Idle | Direct(pkg: Package) | Piping(pkg: Package)

  /** Where the socket thread is. While it sends, it holds the lock. Reporting: report_connect is about
      to look whether there is anything to send, TurningOff: it has found nothing. Closing: force_close,
      called without the lock, has freed the lists and is about to take the lock. */
  datatype Server = Ready | Decrement | SendHigh | SendLow | Reporting | TurningOff | Closing

  /** What force_close without the lock found: the packages finished until then, the head of the
      high list if no direct buffer goes before it, and the packages that it freed. */
  datatype Freed = Freed(done: seq<Package>, part: Option<Buffer>, gone: seq<Package>, direct: bool)

  datatype Lock = Free | BySender(t: Thread) | ByServer

  /** `event`: the poll tells when the socket can be written.
      `called` lists the packages that calls have accepted, `done` those that were sent
      completely, `cut` the one that a close interrupted; `fault` is a failed assertion. */
  datatype State = State(
    status: Status, high: seq<Buffer>, low: seq<Buffer>, wbSize: int, sending: int, dw: Option<Buffer>,
    lock: Lock, pipe: seq<Package>, senders: map<Thread, Sender>, server: Server, event: bool,
    wire: seq<Octet>, called: seq<Package>, done: seq<Package>, cut: Option<Buffer>, freed: Option<Freed>, fault: bool)

  /** The result of a write of `size` bytes: interrupted, would block, an error, or a count. */
  datatype Result = Interrupted | WouldBlock | Error | Wrote(n: nat)

  datatype Step =
    | Call(t: Thread, high: bool, bytes: Bytes, direct: bool) // direct: tries the lock and gets it if free
    | DirectWrite(t: Thread, r: Result)
    | PipeWrite(t: Thread)
    | Connect(ok: bool) | Report | TurnOff        // report_connect
    | Command | Decrease
    | Writable                                    // the event: trylock, then the direct buffer
    | Write(r: Result)                            // one turn of the loop of send_list_tcp
    | Close | CloseLocked                         // force_close without the lock, up to taking it and from there

  function SenderOf(s: State, t: Thread): Sender { if t in s.senders then s.senders[t] else Idle }

  function SetSender(s: State, t: Thread, x: Sender): State { s.(senders := s.senders[t := x]) }

  function Fault(s: State): State { s.(fault := true) }

  predicate NoMoreSendingData(s: State) { s.high == [] && s.low == [] && s.dw.None? && s.sending == 0 }

  predicate CanDirectWrite(s: State) { NoMoreSendingData(s) && s.status.Connected? }

  function Whole(pkg: Package): Buffer { Buffer(pkg, 0) }

  function Rest(b: Buffer): int { |b.pkg.bytes| - b.off }

  /** The count that a write reports never exceeds the request. */
  function Count(r: Result, size: int): nat
    requires size >= 0
  {
    if r.Wrote? then (if r.n <= size then r.n else size) else 0
  }

  /** socket_server_send and socket_server_send_lowpriority. A counter that is full makes
      inc_sending_ref spin: no step. */
  function StepCall(s: State, t: Thread, high: bool, bytes: Bytes, direct: bool): State
  {
    var pkg := Package(t, high, bytes, |s.called|);
    if !SenderOf(s, t).Idle? || s.status.Closed? then s
    else if pkg.high && direct && CanDirectWrite(s) && s.lock.Free? then
      SetSender(s, t, Direct(pkg)).(lock := BySender(t), called := s.called + [pkg])
    else if s.sending == 0xffff then s
    else SetSender(s, t, Piping(pkg)).(sending := s.sending + 1, called := s.called + [pkg])
  }

  function StepDirectWrite(s: State, t: Thread, r: Result): State
  {
    if !SenderOf(s, t).Direct? then s
    else
      var pkg := SenderOf(s, t).pkg;
      var n := Count(r, |pkg.bytes|);
      var s' := SetSender(s, t, Idle).(lock := Free, wire := s.wire + Slice(pkg, 0, n));
      if n == |pkg.bytes| then s'.(done := s.done + [pkg]) else s'.(dw := Some(Buffer(pkg, n)), event := true)
  }

  function StepPipeWrite(s: State, t: Thread): State
  {
    if !SenderOf(s, t).Piping? then s
    else SetSender(s, t, Idle).(pipe := s.pipe + [SenderOf(s, t).pkg])
  }

  /** force_close with the lock in hand. */
  function ForceClose(s: State): State
  {
    var part := if s.dw.Some? then s.dw else if s.high != [] then Some(s.high[0]) else None;
    s.(status := Closed, high := [], low := [], dw := None, lock := Free, server := Ready, cut := part)
  }

  function Packages(bs: seq<Buffer>): seq<Package> { seq(|bs|, i requires 0 <= i < |bs| => bs[i].pkg) }

  /** force_close without the lock: the lists are freed first. (The high one before the low one; in
      between the low one keeps senders from writing directly, or is empty.) */
  function FreeLists(s: State): State
  {
    var part := if s.dw.None? && s.high != [] then Some(s.high[0]) else None;
    s.(high := [], low := [], server := Closing,
       freed := Some(Freed(s.done, part, Packages(s.high) + Packages(s.low), s.dw.Some?)))
  }

  /** Then it waits for the lock, and closes. */
  function StepCloseLocked(s: State): State
  {
    if !s.server.Closing? || !s.lock.Free? then s
    else s.(status := Closed, dw := None, server := Ready, cut := s.dw)
  }

  function StepConnect(s: State, ok: bool): State
  {
    if !s.server.Ready? || !s.status.Connecting? then s else if ok then s.(status := Connected, server := Reporting)
    else FreeLists(s)
  }

  function StepReport(s: State): State
  {
    if !s.server.Reporting? then s else s.(server := if NoMoreSendingData(s) then TurningOff else Ready)
  }

  function StepTurnOff(s: State): State
  {
    if !s.server.TurningOff? then s else s.(event := false, server := Ready)
  }

  /** send_socket for the next request of the pipe. */
  function StepCommand(s: State): State
  {
    if !s.server.Ready? || s.pipe == [] then s
    else
      var pkg := s.pipe[0];
      var s' := s.(pipe := s.pipe[1..], server := Decrement);
      if s.status.Closed? then s'
      else
        var s2 := s'.(wbSize := s.wbSize + |pkg.bytes|);
        var empty := s.high == [] && s.low == [] && s.status.Connected?;
        if empty || pkg.high then s2.(high := s.high + [Whole(pkg)], event := empty || s.event)
        else s2.(low := s.low + [Whole(pkg)])
  }

  /** dec_sending_ref */
  function StepDecrease(s: State): State
  {
    if !s.server.Decrement? then s
    else if s.sending == 0 then Fault(s)
    else s.(sending := s.sending - 1, server := Ready)
  }

  /** The poll tells that the socket can be written: send_buffer up to its loops. */
  function StepWritable(s: State): State
  {
    if !s.server.Ready? || !s.event || !s.status.Connected? || !s.lock.Free? then s
    else
      var s' := s.(lock := ByServer, server := SendHigh);
      if s.low != [] && s.low[0].off != 0 then Fault(s')
      else if s.dw.Some? then
        s'.(high := [s.dw.value] + s.high, wbSize := s.wbSize + Rest(s.dw.value), dw := None)
      else s'
  }

  function Unlock(s: State): State { s.(lock := Free, server := Ready) }

  /** Step 4 of send_buffer_. */
  function TurnedOff(s: State): State { Unlock(s).(event := false) }

  function Finish(s: State): State { if s.high == [] && s.low == [] && s.wbSize == 0 then TurnedOff(s) else Fault(s) }

  function StepWrite(s: State, r: Result): State
  {
    if s.server.SendHigh? then StepWriteHigh(s, r) else if s.server.SendLow? then StepWriteLow(s, r) else s
  }

  function StepWriteHigh(s: State, r: Result): State
  {
    if s.high == [] then (if s.low != [] then s.(server := SendLow) else Finish(s))
    else
      var b := s.high[0];
      if Rest(b) < 0 then Fault(s)
      else
        var n := Count(r, Rest(b));
        match r
        case Interrupted => s
        case WouldBlock => Unlock(s)
        case Error => ForceClose(s)
        case Wrote(_) =>
          var s' := s.(wire := s.wire + Slice(b.pkg, b.off, b.off + n), wbSize := s.wbSize - n);
          if n == Rest(b) then s'.(high := s.high[1..], done := s.done + [b.pkg])
          else Unlock(s'.(high := [b.(off := b.off + n)] + s.high[1..]))
  }

  /** raise_uncomplete */
  function Raise(s: State): State
    requires s.low != []
  {
    if s.high != [] then Fault(s) else s.(high := [s.low[0]], low := s.low[1..])
  }

  /** Step 3 of send_buffer_: a buffer that was sent in part is raised. */
  function Blocked(s: State): State
    requires s.low != []
  {
    Unlock(if s.low[0].off != 0 then Raise(s) else s)
  }

  function StepWriteLow(s: State, r: Result): State
  {
    if s.low == [] then Finish(s)
    else
      var b := s.low[0];
      if Rest(b) < 0 then Fault(s)
      else
        var n := Count(r, Rest(b));
        match r
        case Interrupted => s
        case WouldBlock => Blocked(s)
        case Error => ForceClose(s)
        case Wrote(_) =>
          var s' := s.(wire := s.wire + Slice(b.pkg, b.off, b.off + n), wbSize := s.wbSize - n);
          if n == Rest(b) then s'.(low := s.low[1..], done := s.done + [b.pkg])
          else Blocked(s'.(low := [b.(off := b.off + n)] + s.low[1..]))
  }

  /** force_close for an end of file, an error that the poll reports, or a request to close. */
  function StepClose(s: State): State { if !s.server.Ready? || s.status.Closed? then s else FreeLists(s) }

  function Next(s: State, x: Step): State
  {
    match x
    case Call(t, high, bytes, direct) => StepCall(s, t, high, bytes, direct)
    case DirectWrite(t, r) => StepDirectWrite(s, t, r)
    case PipeWrite(t) => StepPipeWrite(s, t)
    case Connect(ok) => StepConnect(s, ok)
    case Report => StepReport(s)
    case TurnOff => StepTurnOff(s)
    case Command => StepCommand(s)
    case Decrease => StepDecrease(s)
    case Writable => StepWritable(s)
    case Write(r) => StepWrite(s, r)
    case Close => StepClose(s)
    case CloseLocked => StepCloseLocked(s)
  }

  function Start(status: Status): State {
    State(status, [], [], 0, 0, None, Free, [], map[], Ready, status.Connecting?, [], [], [], None, None, false)
  }

  ghost predicate Follows(s: State, t: State) { exists x :: t == Next(s, x) }

  ghost predicate IsRun(run: seq<State>) {
    && |run| > 0 && (run[0] == Start(Connecting) || run[0] == Start(Connected))
    && forall k {:trigger run[k]} :: 0 <= k < |run| - 1 ==> Follows(run[k], run[k + 1])
  }
}
