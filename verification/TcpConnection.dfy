/** The TCP connection as the class it is: its methods update the state, the event mask and the
    two buffers step by step. `w` is what write(2) answers; `trace` records the callbacks and
    system calls, which are not seen to re-enter. */
module TcpConnections {
  import opened Bytes
  import opened Channels
  import opened NetBuffer
  import B = BufferModel
  import E = ConnectionEvents
  import M = ConnectionModel
  import R = ConnectionRuns

  /** How much of the message sendInLoop's first half gets rid of. */
  function Taken(c: M.Conn, w: M.WriteResult): nat {
    if M.WritesDirectly(c) && w.Took? then w.n else 0
  }

  /** The connection after the first half, in which a direct write is made if nothing is waiting. */
  ghost function FirstHalf(c: M.Conn, m: M.Message, w: M.WriteResult): M.Conn
    requires M.LegalWrite(w, |m.bytes|)
  {
    if M.WritesDirectly(c) && w.PeerGone? then M.Emit(c, M.Faulted(m))
    else if M.WritesDirectly(c) && w.Took? then
      var d := M.Emit(M.Emit(c, M.Accepted(m)), M.Wrote(m.bytes[..w.n]));
      if w.n == |m.bytes| && c.options.onWriteComplete then M.Emit(d, M.WriteCompleted) else d
    else M.Emit(c, M.Accepted(m))
  }

  lemma FirstThenQueue(c: M.Conn, m: M.Message, w: M.WriteResult)
    requires M.LegalWrite(w, |m.bytes|) && c.state != M.Disconnected
    ensures M.SendInLoop(c, m, w)
         == if (M.WritesDirectly(c) && w.PeerGone?) || Taken(c, w) == |m.bytes| then FirstHalf(c, m, w)
            else M.Queue(FirstHalf(c, m, w), m.bytes[Taken(c, w)..])
  {
    assert m.bytes[0..] == m.bytes;
  }

  lemma Draining(c: M.Conn, w: M.WriteResult)
    requires M.LegalWrite(w, c.Buffered())
    ensures E.Drains(c, w) ==>
              && M.HandleWrite(c, w).out == [] && M.HandleWrite(c, w).state == c.state
              && M.HandleWrite(c, w).trace == c.trace + [M.Wrote(c.out)]
                 + (if c.options.onWriteComplete then [M.WriteCompleted] else [])
                 + (if c.state == M.Disconnecting then [M.WriteShutdown] else [])
  {
    if E.Drains(c, w) {
      E.CompletionBeforeHalfClose(c, w);
    }
  }

  lemma AlreadyWriting(events: bv8)
    requires Has(events, CHANNEL_WRITE)
    ensures events | CHANNEL_WRITE == events
  {
  }

  class TcpConnection {
    var state: M.ConnState
    var events: bv8
    var registered: bool
    const outputBuffer: Buffer
    const inputBuffer: Buffer
    const options: M.Options
    var trace: seq<M.Event>

    ghost predicate Valid()
      reads this, outputBuffer, inputBuffer, outputBuffer.buffer, inputBuffer.buffer
    {
      && outputBuffer != inputBuffer && outputBuffer.buffer != inputBuffer.buffer
      && outputBuffer.Valid() && inputBuffer.Valid()
    }

    ghost function View(): M.Conn
      requires Valid()
      reads this, outputBuffer, inputBuffer, outputBuffer.buffer, inputBuffer.buffer
    {
      M.Conn(state, events, registered, outputBuffer.Content(), inputBuffer.Content(), trace, options)
    }

    constructor (options: M.Options)
      ensures Valid() && View() == M.New(options)
      ensures fresh(outputBuffer) && fresh(inputBuffer) && fresh(outputBuffer.buffer) && fresh(inputBuffer.buffer)
    {
      state, events, registered, trace := M.Connecting, 0, false, [];
      this.options := options;
      outputBuffer := new Buffer();
      inputBuffer := new Buffer();
    }

    predicate IsWriting()
      reads this
    {
      Has(events, CHANNEL_WRITE)
    }

    method Log(e: M.Event)
      modifies `trace
      ensures trace == old(trace) + [e]
    {
      trace := trace + [e];
    }

    method SetEvent(events: bv8)
      modifies `events, `registered
      ensures this.events == events && registered
    {
      this.events := events;
      registered := true;
    }

    method ConnectEstablished()
      requires Valid() && state == M.Connecting
      modifies `state, `events, `registered, `trace
      ensures Valid() && View() == M.ConnectEstablished(old(View()))
    {
      state := M.Connected;
      SetEvent(CHANNEL_READ);
      Log(M.Established);
    }

    method SendInLoop(m: M.Message, w: M.WriteResult)
      requires Valid() && M.LegalWrite(w, |m.bytes|)
      modifies `events, `registered, `trace, outputBuffer, outputBuffer.buffer
      ensures Valid() && View() == M.SendInLoop(old(View()), m, w)
      ensures outputBuffer.buffer == old(outputBuffer.buffer) || fresh(outputBuffer.buffer)
    {
      if state == M.Disconnected {
        Log(M.GivenUp(m));
        return;
      }
      FirstThenQueue(View(), m, w);
      var nwrote, remaining, faultError := WriteFirst(m, w);
      if !faultError && remaining > 0 {
        QueueRest(m.bytes[nwrote..]);
      }
    }

    /** The first half of sendInLoop: the direct write, if nothing is waiting, and its error cases. */
    method WriteFirst(m: M.Message, w: M.WriteResult) returns (nwrote: nat, remaining: nat, faultError: bool)
      requires Valid() && M.LegalWrite(w, |m.bytes|)
      modifies `trace
      ensures nwrote == Taken(old(View()), w) && remaining == |m.bytes| - nwrote
      ensures faultError <==> M.WritesDirectly(old(View())) && w.PeerGone?
      ensures Valid() && View() == FirstHalf(old(View()), m, w)
    {
      nwrote, remaining, faultError := 0, |m.bytes|, false;
      if !IsWriting() && outputBuffer.ReadableBytes() == 0 && w.Took? {
        nwrote := w.n;
        remaining := |m.bytes| - nwrote;
        Log(M.Accepted(m));
        Log(M.Wrote(m.bytes[..w.n]));
        if remaining == 0 && options.onWriteComplete {
          Log(M.WriteCompleted);
        }
      } else if !IsWriting() && outputBuffer.ReadableBytes() == 0 && w.PeerGone? {
        faultError := true;
        Log(M.Faulted(m));
      } else {
        Log(M.Accepted(m));
      }
    }

    /** The end of sendInLoop. */
    method QueueRest(rest: seq<Byte>)
      requires Valid() && rest != []
      modifies `events, `registered, `trace, outputBuffer, outputBuffer.buffer
      ensures Valid() && View() == M.Queue(old(View()), rest)
      ensures outputBuffer.buffer == old(outputBuffer.buffer) || fresh(outputBuffer.buffer)
    {
      var oldLen := outputBuffer.ReadableBytes();
      if oldLen + |rest| >= options.highWaterMark && oldLen < options.highWaterMark && options.onHighWater {
        Log(M.HighWater(oldLen + |rest|));
      }
      StoreRest(rest);
    }

    method StoreRest(rest: seq<Byte>)
      requires Valid()
      modifies `events, `registered, outputBuffer, outputBuffer.buffer
      ensures Valid() && View() == M.Stored(old(View()), rest)
      ensures outputBuffer.buffer == old(outputBuffer.buffer) || fresh(outputBuffer.buffer)
    {
      outputBuffer.Append(rest);
      WantWrite();
    }

    method WantWrite()
      modifies `events, `registered
      ensures events == old(events) | CHANNEL_WRITE
      ensures registered == (old(registered) || !old(IsWriting()))
    {
      if !IsWriting() {
        SetEvent(events | CHANNEL_WRITE);
      } else {
        AlreadyWriting(events);
      }
    }

    /** send: at once on the loop thread, otherwise as a call to be queued, with its own copy. */
    method Send(m: M.Message, isLoopThread: bool, w: M.WriteResult) returns (task: Option<R.Task>)
      requires Valid() && M.LegalWrite(w, |m.bytes|)
      modifies `events, `registered, `trace, outputBuffer, outputBuffer.buffer
      ensures Valid()
      ensures isLoopThread ==> View() == M.Send(old(View()), m, w) && task == None
      ensures !isLoopThread ==>
                View() == old(View()) && task == if state == M.Connected then Some(R.SendTask(m)) else None
    {
      task := None;
      if state == M.Connected {
        if isLoopThread {
          SendInLoop(m, w);
        } else {
          task := Some(R.SendTask(m));
        }
      }
    }

    /** The overloads that take a Buffer empty it exactly when the message is sent. It may be the
        input buffer, which the message callback is handed. */
    method SendBuffer(buf: Buffer, producer: nat, index: nat, isLoopThread: bool, w: M.WriteResult)
      returns (task: Option<R.Task>)
      requires Valid() && buf.Valid() && buf != outputBuffer && buf.buffer != outputBuffer.buffer
      requires buf != inputBuffer ==> buf.buffer != inputBuffer.buffer
      requires M.LegalWrite(w, |buf.Content()|)
      modifies `events, `registered, `trace, outputBuffer, outputBuffer.buffer, buf
      ensures Valid() && buf.Valid()
      ensures isLoopThread ==>
                View() == Emptied(M.Send(old(View()), M.Message(producer, index, old(buf.Content())), w), buf)
      ensures !isLoopThread ==> View() == Emptied(old(View()), buf)
      ensures task == if !isLoopThread && state == M.Connected
                      then Some(R.SendTask(M.Message(producer, index, old(buf.Content())))) else None
      ensures buf.Content() == if state == M.Connected then [] else old(buf.Content())
    {
      task := None;
      if state == M.Connected {
        if isLoopThread {
          SendInLoop(M.Message(producer, index, buf.Content()), w);
          assert buf.Valid() && buf.Content() == old(buf.Content());
          buf.RetrieveAll();
        } else {
          var copy := buf.RetrieveAsString(buf.ReadableBytes());
          assert buf.Content() == [] && copy + [] == copy;
          task := Some(R.SendTask(M.Message(producer, index, copy)));
        }
      }
    }

    /** The connection once `buf` has been emptied, if it was sent. */
    ghost function Emptied(c: M.Conn, buf: Buffer): M.Conn {
      if buf == inputBuffer && c.state == M.Connected then c.(input := []) else c
    }

    method ShutdownInLoop()
      requires Valid()
      modifies `trace
      ensures Valid() && View() == M.ShutdownInLoop(old(View()))
    {
      if !IsWriting() {
        Log(M.WriteShutdown);
      }
    }

    /** `closes`: on a foreign thread, whether the loop closes the connection after the test. */
    method Shutdown(isLoopThread: bool, closes: bool) returns (task: Option<R.Task>)
      requires Valid()
      modifies `state, `registered, `trace
      ensures Valid()
      ensures isLoopThread ==> View() == M.Shutdown(old(View())) && task == None
      ensures !isLoopThread && old(state) == M.Connected ==>
                && View() == (if closes then M.HandleClose(old(View())) else old(View())).(state := M.Disconnecting)
                && task == Some(R.ShutdownTask)
      ensures !isLoopThread && old(state) != M.Connected ==> View() == old(View()) && task == None
    {
      task := None;
      if state == M.Connected {
        if !isLoopThread && closes {
          HandleClose();
        }
        state := M.Disconnecting;
        if isLoopThread {
          ShutdownInLoop();
        } else {
          task := Some(R.ShutdownTask);
        }
      }
    }

    method HandleWrite(w: M.WriteResult)
      requires Valid() && M.LegalWrite(w, outputBuffer.ReadableBytes())
      modifies `events, `registered, `trace, outputBuffer
      ensures Valid() && View() == M.HandleWrite(old(View()), w)
      ensures old(IsWriting()) && w.Took? && w.n > 0 && w.n == |old(outputBuffer.Content())| ==>
                && outputBuffer.Content() == []
                && trace == old(trace) + [M.Wrote(old(outputBuffer.Content()))]
                   + (if options.onWriteComplete then [M.WriteCompleted] else [])
                   + (if state == M.Disconnecting then [M.WriteShutdown] else [])
    {
      Draining(View(), w);
      if IsWriting() && w.Took? && w.n > 0 {
        Log(M.Wrote(outputBuffer.Content()[..w.n]));
        outputBuffer.Retrieve(w.n);
        if outputBuffer.ReadableBytes() == 0 {
          AfterDrain();
        }
      }
    }

    /** What handleWrite does once the output buffer is empty. */
    method AfterDrain()
      requires Valid()
      modifies `events, `registered, `trace
      ensures Valid() && View() == M.Drained(old(View()))
    {
      SetEvent(events & LogicalNot(CHANNEL_WRITE));
      if options.onWriteComplete {
        Log(M.WriteCompleted);
      }
      if state == M.Disconnecting {
        ShutdownInLoop();
      }
    }

    method HandleClose()
      requires Valid() && (state == M.Connected || state == M.Disconnecting)
      modifies `state, `registered, `trace
      ensures Valid() && View() == M.HandleClose(old(View()))
    {
      state := M.Disconnected;
      registered := false;
      Log(M.Closed);
    }

    /** The message callback retrieves `taken` bytes of the input buffer. */
    method OnMessage(bytes: seq<Byte>, taken: nat)
      requires Valid() && taken <= inputBuffer.ReadableBytes()
      modifies `trace, inputBuffer
      ensures Valid() && inputBuffer.buffer == old(inputBuffer.buffer)
      ensures View() == M.Emit(old(View()), M.Received(bytes)).(input := old(View()).input[taken..])
      ensures inputBuffer.Content() == old(inputBuffer.Content())[taken..]
    {
      Log(M.Received(bytes));
      inputBuffer.Retrieve(taken);
    }

    /** `taken` is how much of the input buffer the message callback retrieves. */
    method HandleRead(kernel: ReadResult, taken: nat)
      requires Valid() && (kernel == Delivered([]) ==> state == M.Connected || state == M.Disconnecting)
      requires kernel.Delivered? ==> |kernel.bytes| <= B.ReadRoom(inputBuffer.Value())
      requires kernel.Delivered? ==> taken <= inputBuffer.ReadableBytes() + |kernel.bytes|
      modifies `state, `registered, `trace, inputBuffer, inputBuffer.buffer
      ensures Valid()
      ensures kernel.Delivered? ==> View() == M.HandleRead(old(View()), kernel.bytes, taken)
      ensures kernel.ReadError? ==> View() == old(View())
      ensures kernel.Delivered? && kernel.bytes != [] ==>
                && inputBuffer.Content() == (old(inputBuffer.Content()) + kernel.bytes)[taken..]
                && trace == old(trace) + [M.Received(kernel.bytes)]
      ensures inputBuffer.buffer == old(inputBuffer.buffer) || fresh(inputBuffer.buffer)
    {
      var n, savedErrno := inputBuffer.ReadFd(kernel);
      if n > 0 {
        OnMessage(kernel.bytes, taken);
      } else if n == 0 {
        HandleClose();
      }
    }
  }
}
