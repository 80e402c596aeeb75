/** The TCP connection on values: what each entry point does to the connection's fields and
    which callbacks and system calls it makes, recorded as a trace. Callbacks do not re-enter. */
module ConnectionModel {
  import opened Bytes
  import opened Channels

  datatype ConnState = Connecting | Connected | Disconnecting | Disconnected

  /** One call of send: who made it, which of that thread's calls it is, and what it sends. */
  datatype Message = Message(producer: nat, index: nat, bytes: seq<Byte>)

  datatype Event =
    | Accepted(m: Message)        // sendInLoop took it on
    | Faulted(m: Message)         // dropped: the peer is gone
    | GivenUp(m: Message)         // dropped: already disconnected
    | Wrote(bytes: seq<Byte>)     // write(2) took these
    | WriteCompleted              // writeCompleteCallback
    | HighWater(len: nat)         // highWaterMarkCallback
    | WriteShutdown               // Socket::shutdownWrite
    | Received(bytes: seq<Byte>)  // messageCallback after a read
    | Established
    | Closed

  /** write(2): a count, EWOULDBLOCK, EPIPE or ECONNRESET, any other error. */
  datatype WriteResult = Took(n: nat) | WouldBlock | PeerGone | OtherError

  predicate LegalWrite(w: WriteResult, len: nat) {
    w.Took? ==> w.n <= len
  }

  datatype Options = Options(highWaterMark: nat, onWriteComplete: bool, onHighWater: bool)

  /** `registered`: the poller knows the channel. The buffers are the byte sequences they hold. */
  datatype Conn = Conn(
    state: ConnState,
    events: bv8,
    registered: bool,
    out: seq<Byte>,
    input: seq<Byte>,
    trace: seq<Event>,
    options: Options)
  {
    predicate IsWriting() {
      Has(events, CHANNEL_WRITE)
    }

    function Buffered(): nat {
      |out|
    }
  }

  function New(options: Options): Conn {
    Conn(Connecting, 0, false, [], [], [], options)
  }

  function Emit(c: Conn, e: Event): Conn {
    c.(trace := c.trace + [e])
  }

  // ---- The entry points ----

  /** The end of sendInLoop: what write did not take goes to the output buffer. */
  function Queue(c: Conn, rest: seq<Byte>): Conn {
    if rest == [] then c else
      var len := c.Buffered() + |rest|;
      if c.options.onHighWater && c.Buffered() < c.options.highWaterMark <= len
      then Stored(Emit(c, HighWater(len)), rest)
      else Stored(c, rest)
  }

  function Stored(c: Conn, rest: seq<Byte>): Conn {
    c.(out := c.out + rest,
       events := c.events | CHANNEL_WRITE,
       registered := c.registered || !c.IsWriting())
  }

  function SendInLoop(c: Conn, m: Message, w: WriteResult): Conn
    requires LegalWrite(w, |m.bytes|)
  {
    if c.state == Disconnected then Emit(c, GivenUp(m))
    else if WritesDirectly(c) then WriteDirectly(c, m, w)
    else Queue(Emit(c, Accepted(m)), m.bytes)
  }

  /** Nothing is waiting, so sendInLoop tries to write at once. */
  predicate WritesDirectly(c: Conn) {
    !c.IsWriting() && c.Buffered() == 0
  }

  /** Nothing is waiting: the write comes first, and `w` is its result. */
  function WriteDirectly(c: Conn, m: Message, w: WriteResult): Conn
    requires LegalWrite(w, |m.bytes|)
  {
    match w
    case PeerGone => Emit(c, Faulted(m))
    case Took(n) => AfterWrite(Emit(c, Accepted(m)), m.bytes, n)
    case _ => Queue(Emit(c, Accepted(m)), m.bytes)
  }

  function AfterWrite(c: Conn, bytes: seq<Byte>, n: nat): Conn
    requires n <= |bytes|
  {
    var d := Emit(c, Wrote(bytes[..n]));
    if n < |bytes| then Queue(d, bytes[n..])
    else if c.options.onWriteComplete then Emit(d, WriteCompleted)
    else d
  }

  function Send(c: Conn, m: Message, w: WriteResult): Conn
    requires LegalWrite(w, |m.bytes|)
  {
    if c.state == Connected then SendInLoop(c, m, w) else c
  }

  function ShutdownInLoop(c: Conn): Conn {
    if c.IsWriting() then c else Emit(c, WriteShutdown)
  }

  function Shutdown(c: Conn): Conn {
    if c.state == Connected then ShutdownInLoop(c.(state := Disconnecting)) else c
  }

  /** The mask after a drain, as the code has it: a logical, not a bitwise, complement. */
  function DrainMask(events: bv8): bv8 {
    events & LogicalNot(CHANNEL_WRITE)
  }

  function Drained(c: Conn): Conn {
    var d := c.(events := DrainMask(c.events), registered := true);
    var e := if c.options.onWriteComplete then Emit(d, WriteCompleted) else d;
    if c.state == Disconnecting then ShutdownInLoop(e) else e
  }

  function HandleWrite(c: Conn, w: WriteResult): Conn
    requires LegalWrite(w, c.Buffered())
  {
    if !c.IsWriting() || !w.Took? || w.n == 0 then c
    else
      var d := Emit(c, Wrote(c.out[..w.n])).(out := c.out[w.n..]);
      if w.n == c.Buffered() then Drained(d) else d
  }

  function HandleClose(c: Conn): Conn
    requires c.state == Connected || c.state == Disconnecting
  {
    Emit(c.(state := Disconnected, registered := false), Closed)
  }

  /** handleRead when readv delivers `bytes`, of which none means end of file, and the message
      callback then retrieves `taken` bytes of the input buffer. */
  function HandleRead(c: Conn, bytes: seq<Byte>, taken: nat): Conn
    requires (bytes == [] ==> c.state == Connected || c.state == Disconnecting)
    requires taken <= |c.input| + |bytes|
  {
    if bytes == [] then HandleClose(c)
    else Emit(c.(input := (c.input + bytes)[taken..]), Received(bytes))
  }

  function ConnectEstablished(c: Conn): Conn
    requires c.state == Connecting
  {
    Emit(c.(state := Connected, events := CHANNEL_READ, registered := true), Established)
  }

  // ---- What a trace says ----

  /** The bytes handed to the socket. */
  function WireOf(t: seq<Event>): seq<Byte> {
    if t == [] then [] else
      var e := t[|t| - 1];
      WireOf(t[..|t| - 1]) + (if e.Wrote? then e.bytes else [])
  }

  /** The accepted messages, whole, in the order sendInLoop executed them. */
  function AcceptedBytes(t: seq<Event>): seq<Byte> {
    if t == [] then [] else
      var e := t[|t| - 1];
      AcceptedBytes(t[..|t| - 1]) + (if e.Accepted? then e.m.bytes else [])
  }

  /** Every message that reached sendInLoop, whatever became of it. */
  function Executed(t: seq<Event>): seq<Message> {
    if t == [] then [] else
      var e := t[|t| - 1];
      Executed(t[..|t| - 1]) + (if e.Accepted? || e.Faulted? || e.GivenUp? then [e.m] else [])
  }

  function HighWaterReports(t: seq<Event>): seq<nat> {
    if t == [] then [] else
      var e := t[|t| - 1];
      HighWaterReports(t[..|t| - 1]) + (if e.HighWater? then [e.len] else [])
  }

  lemma TraceSnoc(t: seq<Event>, e: Event)
    ensures WireOf(t + [e]) == WireOf(t) + (if e.Wrote? then e.bytes else [])
    ensures AcceptedBytes(t + [e]) == AcceptedBytes(t) + (if e.Accepted? then e.m.bytes else [])
  {
    assert (t + [e])[..|t|] == t;
  }

  lemma ExecutedSnoc(t: seq<Event>, e: Event)
    ensures Executed(t + [e]) == Executed(t) + (if e.Accepted? || e.Faulted? || e.GivenUp? then [e.m] else [])
  {
    assert (t + [e])[..|t|] == t;
  }

  lemma ReportsSnoc(t: seq<Event>, e: Event)
    ensures HighWaterReports(t + [e]) == HighWaterReports(t) + (if e.HighWater? then [e.len] else [])
  {
    assert (t + [e])[..|t|] == t;
  }

  // ---- The output path ----

  /** Everything accepted is on the wire, then in the output buffer, then, inside sendInLoop,
      still with the caller. */
  ghost predicate Owes(c: Conn, rest: seq<Byte>) {
    WireOf(c.trace) + c.out + rest == AcceptedBytes(c.trace)
  }

  /** Each write-complete notification and each half-close came when all that had been
      accepted was with the socket. */
  ghost predicate Quiet(t: seq<Event>) {
    forall i :: 0 <= i < |t| && (t[i].WriteCompleted? || t[i].WriteShutdown?) ==>
      WireOf(t[..i]) == AcceptedBytes(t[..i])
  }

  ghost predicate OutputInv(c: Conn) {
    && (c.IsWriting() <==> c.Buffered() > 0)
    && Owes(c, [])
    && Quiet(c.trace)
  }

  lemma QuietSnoc(t: seq<Event>, e: Event)
    requires Quiet(t)
    requires e.WriteCompleted? || e.WriteShutdown? ==> WireOf(t) == AcceptedBytes(t)
    ensures Quiet(t + [e])
  {
    var u := t + [e];
    forall i | 0 <= i < |u| && (u[i].WriteCompleted? || u[i].WriteShutdown?)
      ensures WireOf(u[..i]) == AcceptedBytes(u[..i])
    {
      assert u[..i] == t[..i];
      if i == |t| {
        assert t[..i] == t;
      } else {
        assert t[i] == u[i];
      }
    }
  }

  /** An event that neither writes nor accepts leaves the account as it is. */
  lemma EmitNeutral(c: Conn, e: Event)
    requires OutputInv(c) && !e.Wrote? && !e.Accepted?
    requires e.WriteCompleted? || e.WriteShutdown? ==> c.Buffered() == 0
    ensures OutputInv(Emit(c, e))
  {
    TraceSnoc(c.trace, e);
    QuietSnoc(c.trace, e);
  }

  lemma WriteBit(events: bv8)
    ensures Has(events | CHANNEL_WRITE, CHANNEL_WRITE)
    ensures !Has(DrainMask(events), CHANNEL_WRITE)
    ensures DrainMask(events) == 0
  {
  }

  lemma StoredKeeps(c: Conn, rest: seq<Byte>)
    requires Owes(c, rest) && Quiet(c.trace) && rest != []
    ensures OutputInv(Stored(c, rest))
    ensures Stored(c, rest).Buffered() == c.Buffered() + |rest|
  {
    WriteBit(c.events);
    assert WireOf(c.trace) + (c.out + rest) + [] == WireOf(c.trace) + c.out + rest;
  }

  lemma EmitHighWater(c: Conn, rest: seq<Byte>, len: nat)
    requires Owes(c, rest) && Quiet(c.trace)
    ensures var d := Emit(c, HighWater(len));
            Owes(d, rest) && Quiet(d.trace)
  {
    TraceSnoc(c.trace, HighWater(len));
    QuietSnoc(c.trace, HighWater(len));
  }

  lemma QueueKeeps(c: Conn, rest: seq<Byte>)
    requires Owes(c, rest) && Quiet(c.trace) && (c.IsWriting() <==> c.Buffered() > 0)
    ensures OutputInv(Queue(c, rest))
    ensures Queue(c, rest).Buffered() == c.Buffered() + |rest|
  {
    if rest != [] {
      var len := c.Buffered() + |rest|;
      EmitHighWater(c, rest, len);
      StoredKeeps(c, rest);
      StoredKeeps(Emit(c, HighWater(len)), rest);
    }
  }

  lemma AcceptOwes(c: Conn, m: Message)
    requires OutputInv(c)
    ensures var d := Emit(c, Accepted(m));
            Owes(d, m.bytes) && Quiet(d.trace)
  {
    TraceSnoc(c.trace, Accepted(m));
    QuietSnoc(c.trace, Accepted(m));
  }

  lemma AfterWriteKeeps(c: Conn, bytes: seq<Byte>, n: nat)
    requires n <= |bytes| && c.Buffered() == 0 && !c.IsWriting()
    requires Owes(c, bytes) && Quiet(c.trace)
    ensures OutputInv(AfterWrite(c, bytes, n))
    ensures AfterWrite(c, bytes, n).Buffered() == |bytes| - n
  {
    var d := Emit(c, Wrote(bytes[..n]));
    TraceSnoc(c.trace, Wrote(bytes[..n]));
    QuietSnoc(c.trace, Wrote(bytes[..n]));
    assert bytes == bytes[..n] + bytes[n..];
    assert Owes(d, bytes[n..]);
    if n < |bytes| {
      QueueKeeps(d, bytes[n..]);
    } else {
      assert bytes[n..] == [];
      EmitNeutral(d, WriteCompleted);
    }
  }

  /** How much of a message a direct write leaves over. */
  function LeftOver(m: Message, w: WriteResult): nat
    requires LegalWrite(w, |m.bytes|)
  {
    match w
    case PeerGone => 0
    case Took(n) => |m.bytes| - n
    case _ => |m.bytes|
  }

  lemma WriteDirectlyKeeps(c: Conn, m: Message, w: WriteResult)
    requires OutputInv(c) && LegalWrite(w, |m.bytes|) && !c.IsWriting()
    ensures OutputInv(WriteDirectly(c, m, w))
    ensures WriteDirectly(c, m, w).Buffered() == LeftOver(m, w)
  {
    AcceptOwes(c, m);
    match w
    case PeerGone => EmitNeutral(c, Faulted(m));
    case Took(n) => AfterWriteKeeps(Emit(c, Accepted(m)), m.bytes, n);
    case _ => QueueKeeps(Emit(c, Accepted(m)), m.bytes);
  }

  /** The length of the output buffer after sendInLoop. */
  function BufferedAfterSend(c: Conn, m: Message, w: WriteResult): nat
    requires LegalWrite(w, |m.bytes|)
  {
    if c.state == Disconnected then c.Buffered()
    else if c.IsWriting() || c.Buffered() > 0 then c.Buffered() + |m.bytes|
    else LeftOver(m, w)
  }

  lemma SendInLoopKeeps(c: Conn, m: Message, w: WriteResult)
    requires OutputInv(c) && LegalWrite(w, |m.bytes|)
    ensures OutputInv(SendInLoop(c, m, w))
    ensures SendInLoop(c, m, w).Buffered() == BufferedAfterSend(c, m, w)
  {
    if c.state == Disconnected {
      EmitNeutral(c, GivenUp(m));
    } else if c.IsWriting() || c.Buffered() > 0 {
      AcceptOwes(c, m);
      QueueKeeps(Emit(c, Accepted(m)), m.bytes);
    } else {
      WriteDirectlyKeeps(c, m, w);
    }
  }

  lemma ShutdownInLoopKeeps(c: Conn)
    requires OutputInv(c)
    ensures OutputInv(ShutdownInLoop(c)) && ShutdownInLoop(c).out == c.out
  {
    if !c.IsWriting() {
      EmitNeutral(c, WriteShutdown);
    }
  }

  lemma DrainedKeeps(c: Conn)
    requires c.Buffered() == 0 && Owes(c, []) && Quiet(c.trace)
    ensures OutputInv(Drained(c)) && Drained(c).out == c.out
  {
    var d := c.(events := DrainMask(c.events), registered := true);
    WriteBit(c.events);
    EmitNeutral(d, WriteCompleted);
    ShutdownInLoopKeeps(if c.options.onWriteComplete then Emit(d, WriteCompleted) else d);
  }

  lemma SplitAccount(wire: seq<Byte>, buffered: seq<Byte>, n: nat)
    requires n <= |buffered|
    ensures wire + buffered[..n] + buffered[n..] + [] == wire + buffered + []
  {
    assert buffered == buffered[..n] + buffered[n..];
  }

  lemma TookKeeps(c: Conn, n: nat)
    requires OutputInv(c) && n <= c.Buffered()
    ensures var d := Emit(c, Wrote(c.out[..n])).(out := c.out[n..]);
            Owes(d, []) && Quiet(d.trace)
  {
    TraceSnoc(c.trace, Wrote(c.out[..n]));
    QuietSnoc(c.trace, Wrote(c.out[..n]));
    SplitAccount(WireOf(c.trace), c.out, n);
  }

  lemma HandleWriteKeeps(c: Conn, w: WriteResult)
    requires OutputInv(c) && LegalWrite(w, c.Buffered())
    ensures OutputInv(HandleWrite(c, w))
    ensures HandleWrite(c, w).Buffered() <= c.Buffered()
  {
    if c.IsWriting() && w.Took? && w.n > 0 {
      TookKeeps(c, w.n);
      if w.n == c.Buffered() {
        DrainedKeeps(Emit(c, Wrote(c.out[..w.n])).(out := c.out[w.n..]));
      }
    }
  }

  lemma HandleReadKeeps(c: Conn, bytes: seq<Byte>, taken: nat)
    requires OutputInv(c) && (bytes == [] ==> c.state == Connected || c.state == Disconnecting)
    requires taken <= |c.input| + |bytes|
    ensures OutputInv(HandleRead(c, bytes, taken)) && HandleRead(c, bytes, taken).out == c.out
  {
    if bytes == [] {
      EmitNeutral(c.(state := Disconnected, registered := false), Closed);
    } else {
      EmitNeutral(c.(input := (c.input + bytes)[taken..]), Received(bytes));
    }
  }
}
