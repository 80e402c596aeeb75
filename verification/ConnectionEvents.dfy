/** What happens on a connection, counted over whole runs: notifications, half-closes, the fate of
    each message, what the kernel took, and what the callbacks received. */
module ConnectionEvents {
  import opened Bytes
  import opened Channels
  import opened ConnectionModel
  import opened ConnectionRuns

  // ---- The events of one step ----

  function IfThen(b: bool, e: Event): seq<Event> {
    if b then [e] else []
  }

  function QueueEmits(c: Conn, len: nat): seq<Event> {
    IfThen(len > 0 && c.options.onHighWater && |c.out| < c.options.highWaterMark <= |c.out| + len,
           HighWater(|c.out| + len))
  }

  /** Nothing is waiting to be written. */
  predicate Idle(c: Conn) {
    !c.IsWriting() && c.out == []
  }

  function WriteEmits(c: Conn, bytes: seq<Byte>, n: nat): seq<Event>
    requires n <= |bytes|
  {
    [Wrote(bytes[..n])]
    + if n == |bytes| then IfThen(c.options.onWriteComplete, WriteCompleted) else QueueEmits(c, |bytes| - n)
  }

  function SendEmits(c: Conn, m: Message, w: WriteResult): seq<Event>
    requires LegalWrite(w, |m.bytes|)
  {
    if c.state == Disconnected then [GivenUp(m)]
    else if Idle(c) && w == PeerGone then [Faulted(m)]
    else [Accepted(m)] + if Idle(c) && w.Took? then WriteEmits(c, m.bytes, w.n) else QueueEmits(c, |m.bytes|)
  }

  /** The ready handler empties the output buffer. */
  predicate Drains(c: Conn, w: WriteResult) {
    c.IsWriting() && w.Took? && w.n > 0 && w.n == |c.out|
  }

  /** After a drain the completion is notified first, and then comes the half-close that waited for it. */
  function HandleWriteEmits(c: Conn, w: WriteResult): seq<Event>
    requires LegalWrite(w, |c.out|)
  {
    if !c.IsWriting() || !w.Took? || w.n == 0 then []
    else if w.n < |c.out| then [Wrote(c.out[..w.n])]
    else [Wrote(c.out)] + IfThen(c.options.onWriteComplete, WriteCompleted)
         + IfThen(c.state == Disconnecting, WriteShutdown)
  }

  function Emits(s: System, a: Action): seq<Event>
    requires Enabled(s, a)
  {
    match a
    case Establish => [Established]
    case LoopSend(bytes, w) =>
      if s.c.state == Connected then SendEmits(s.c, NextMessage(s, LOOP_THREAD, bytes), w) else []
    case LoopShutdown => IfThen(s.c.state == Connected && !s.c.IsWriting(), WriteShutdown)
    case RunTask(w) =>
      if s.batch[0].SendTask? then SendEmits(s.c, s.batch[0].m, w) else IfThen(!s.c.IsWriting(), WriteShutdown)
    case WriteReady(w) => HandleWriteEmits(s.c, w)
    case ReadReady(bytes, _) => if bytes == [] then [Closed] else [Received(bytes)]
    case _ => []
  }

  lemma QueueTrace(c: Conn, rest: seq<Byte>)
    ensures Queue(c, rest).trace == c.trace + QueueEmits(c, |rest|)
  {
  }

  lemma AfterWriteTrace(c: Conn, bytes: seq<Byte>, n: nat)
    requires n <= |bytes|
    ensures AfterWrite(c, bytes, n).trace == c.trace + WriteEmits(c, bytes, n)
  {
    QueueTrace(Emit(c, Wrote(bytes[..n])), bytes[n..]);
  }

  lemma SendTrace(c: Conn, m: Message, w: WriteResult)
    requires LegalWrite(w, |m.bytes|)
    ensures SendInLoop(c, m, w).trace == c.trace + SendEmits(c, m, w)
  {
    var d := Emit(c, Accepted(m));
    if c.state != Disconnected {
      if Idle(c) && w.Took? {
        AfterWriteTrace(d, m.bytes, w.n);
        assert WriteEmits(d, m.bytes, w.n) == WriteEmits(c, m.bytes, w.n);
      } else {
        QueueTrace(d, m.bytes);
      }
    }
  }

  lemma HandleWriteTrace(c: Conn, w: WriteResult)
    requires LegalWrite(w, |c.out|)
    ensures HandleWrite(c, w).trace == c.trace + HandleWriteEmits(c, w)
  {
    WriteBit(c.events);
    if c.IsWriting() && w.Took? && w.n == |c.out| {
      assert c.out[..w.n] == c.out;
    }
  }

  lemma StepTrace(s: System, a: Action)
    requires Inv(s) && Enabled(s, a)
    ensures Step(s, a).c.trace == s.c.trace + Emits(s, a)
  {
    match a
    case LoopSend(bytes, w) =>
      if s.c.state == Connected {
        SendTrace(s.c, NextMessage(s, LOOP_THREAD, bytes), w);
      }
    case RunTask(w) =>
      if s.batch[0].SendTask? {
        SendTrace(s.c, s.batch[0].m, w);
      }
    case WriteReady(w) => HandleWriteTrace(s.c, w);
    case _ =>
  }

  // ---- How often something happens ----

  function Times(t: seq<Event>, e: Event): nat {
    if t == [] then 0 else Times(t[..|t| - 1], e) + (if t[|t| - 1] == e then 1 else 0)
  }

  lemma {:induction false} TimesConcat(t: seq<Event>, u: seq<Event>, e: Event)
    ensures Times(t + u, e) == Times(t, e) + Times(u, e)
    decreases |u|
  {
    if u == [] {
      assert t + u == t;
    } else {
      SplitLast(t, u);
      TimesConcat(t, u[..|u| - 1], e);
    }
  }

  lemma TimesOne(d: Event, e: Event)
    ensures Times([d], e) == if d == e then 1 else 0
  {
    assert [d][..0] == [];
  }

  lemma TimesIf(b: bool, d: Event, e: Event)
    ensures Times(IfThen(b, d), e) == if b && d == e then 1 else 0
  {
    TimesOne(d, e);
  }

  /** The four events that carry nothing. */
  predicate IsSignal(e: Event) {
    e == WriteCompleted || e == WriteShutdown || e == Established || e == Closed
  }

  /** A send that finds nothing waiting and whose first write takes the whole message. */
  predicate WritesWhole(s: System, a: Action)
    requires Enabled(s, a)
  {
    match a
    case LoopSend(bytes, w) => s.c.state == Connected && Idle(s.c) && w == Took(|bytes|)
    case RunTask(w) =>
      s.batch[0].SendTask? && s.c.state != Disconnected && Idle(s.c) && w == Took(|s.batch[0].m.bytes|)
    case _ => false
  }

  /** A shutdown that finds no write interest, or the drain it was waiting for. */
  predicate HalfCloses(s: System, a: Action)
    requires Enabled(s, a)
  {
    match a
    case LoopShutdown => s.c.state == Connected && !s.c.IsWriting()
    case RunTask(_) => s.batch[0].ShutdownTask? && !s.c.IsWriting()
    case WriteReady(w) => Drains(s.c, w) && s.c.state == Disconnecting
    case _ => false
  }

  /** When each signal is due. */
  predicate IsDue(s: System, a: Action, e: Event)
    requires Enabled(s, a)
  {
    match e
    case WriteCompleted =>
      s.c.options.onWriteComplete && ((a.WriteReady? && Drains(s.c, a.w)) || WritesWhole(s, a))
    case WriteShutdown => HalfCloses(s, a)
    case Established => a.Establish?
    case Closed => Closes(a)
    case _ => false
  }

  lemma QueueTimes(c: Conn, len: nat, e: Event)
    requires IsSignal(e)
    ensures Times(QueueEmits(c, len), e) == 0
  {
    TimesOne(HighWater(|c.out| + len), e);
  }

  lemma TimesThen(d: Event, rest: seq<Event>, e: Event)
    requires d != e
    ensures Times([d] + rest, e) == Times(rest, e)
  {
    TimesOne(d, e);
    TimesConcat([d], rest, e);
  }

  lemma SendTimes(c: Conn, m: Message, w: WriteResult, e: Event)
    requires LegalWrite(w, |m.bytes|) && IsSignal(e)
    ensures Times(SendEmits(c, m, w), e)
         == if e == WriteCompleted && c.options.onWriteComplete && c.state != Disconnected && Idle(c)
               && w == Took(|m.bytes|)
            then 1 else 0
  {
    if c.state == Disconnected {
      TimesOne(GivenUp(m), e);
    } else if Idle(c) && w == PeerGone {
      TimesOne(Faulted(m), e);
    } else if Idle(c) && w.Took? {
      WriteTimes(c, m.bytes, w.n, e);
      TimesThen(Accepted(m), WriteEmits(c, m.bytes, w.n), e);
    } else {
      QueueTimes(c, |m.bytes|, e);
      TimesThen(Accepted(m), QueueEmits(c, |m.bytes|), e);
    }
  }

  lemma WriteTimes(c: Conn, bytes: seq<Byte>, n: nat, e: Event)
    requires n <= |bytes| && IsSignal(e)
    ensures Times(WriteEmits(c, bytes, n), e)
         == if e == WriteCompleted && c.options.onWriteComplete && n == |bytes| then 1 else 0
  {
    var rest := if n == |bytes| then IfThen(c.options.onWriteComplete, WriteCompleted) else QueueEmits(c, |bytes| - n);
    TimesOne(Wrote(bytes[..n]), e);
    TimesConcat([Wrote(bytes[..n])], rest, e);
    TimesIf(c.options.onWriteComplete, WriteCompleted, e);
    if n < |bytes| {
      QueueTimes(c, |bytes| - n, e);
    }
  }

  lemma HandleWriteTimes(c: Conn, w: WriteResult, e: Event)
    requires LegalWrite(w, |c.out|) && IsSignal(e)
    ensures Times(HandleWriteEmits(c, w), e)
         == if !Drains(c, w) then 0
            else if e == WriteCompleted && c.options.onWriteComplete then 1
            else if e == WriteShutdown && c.state == Disconnecting then 1 else 0
  {
    if c.IsWriting() && w.Took? && w.n > 0 {
      var done := IfThen(c.options.onWriteComplete, WriteCompleted);
      var last := IfThen(c.state == Disconnecting, WriteShutdown);
      TimesOne(Wrote(c.out[..w.n]), e);
      TimesOne(Wrote(c.out), e);
      TimesIf(c.options.onWriteComplete, WriteCompleted, e);
      TimesIf(c.state == Disconnecting, WriteShutdown, e);
      TimesConcat([Wrote(c.out)], done, e);
      TimesConcat([Wrote(c.out)] + done, last, e);
    }
  }

  lemma LoopSendTimes(s: System, bytes: seq<Byte>, w: WriteResult, e: Event)
    requires Enabled(s, LoopSend(bytes, w)) && IsSignal(e)
    ensures Times(Emits(s, LoopSend(bytes, w)), e) == if IsDue(s, LoopSend(bytes, w), e) then 1 else 0
  {
    if s.c.state == Connected {
      SendTimes(s.c, NextMessage(s, LOOP_THREAD, bytes), w, e);
    }
  }

  lemma RunTaskTimes(s: System, w: WriteResult, e: Event)
    requires Enabled(s, RunTask(w)) && IsSignal(e)
    ensures Times(Emits(s, RunTask(w)), e) == if IsDue(s, RunTask(w), e) then 1 else 0
  {
    if s.batch[0].SendTask? {
      SendTimes(s.c, s.batch[0].m, w, e);
    } else {
      TimesIf(!s.c.IsWriting(), WriteShutdown, e);
    }
  }

  lemma WriteReadyTimes(s: System, w: WriteResult, e: Event)
    requires Enabled(s, WriteReady(w)) && IsSignal(e)
    ensures Times(Emits(s, WriteReady(w)), e) == if IsDue(s, WriteReady(w), e) then 1 else 0
  {
    HandleWriteTimes(s.c, w, e);
  }

  lemma StepTimes(s: System, a: Action, e: Event)
    requires Inv(s) && Enabled(s, a) && IsSignal(e)
    ensures Times(Emits(s, a), e) == if IsDue(s, a, e) then 1 else 0
  {
    match a
    case Establish => TimesOne(Established, e);
    case LoopSend(bytes, w) => LoopSendTimes(s, bytes, w, e);
    case LoopShutdown => TimesIf(s.c.state == Connected && !s.c.IsWriting(), WriteShutdown, e);
    case RunTask(w) => RunTaskTimes(s, w, e);
    case WriteReady(w) => WriteReadyTimes(s, w, e);
    case ReadReady(bytes, _) =>
      TimesOne(Closed, e);
      TimesOne(Received(bytes), e);
    case _ =>
  }

  function TimesDue(s: System, run: seq<Action>, e: Event): nat
    requires Inv(s) && EnabledRun(s, run)
    decreases run
  {
    if run == [] then 0
    else (StepInv(s, run[0]); (if IsDue(s, run[0], e) then 1 else 0) + TimesDue(Step(s, run[0]), run[1..], e))
  }

  lemma {:induction false} RunTimes(s: System, run: seq<Action>, e: Event)
    requires Inv(s) && EnabledRun(s, run) && IsSignal(e)
    ensures Times(Run(s, run).c.trace, e) == Times(s.c.trace, e) + TimesDue(s, run, e)
    decreases run
  {
    if run != [] {
      StepInv(s, run[0]);
      StepTrace(s, run[0]);
      StepTimes(s, run[0], e);
      TimesConcat(s.c.trace, Emits(s, run[0]), e);
      RunTimes(Step(s, run[0]), run[1..], e);
    }
  }

  /** In every run: the write-complete callback is called once for each drain in the ready handler
      and once for each send whose first write takes the whole message, if it is set, and else
      never; the socket is half-closed once for each shutdown that finds no write interest and
      for each drain while disconnecting; and there is one connection callback for each
      establishment and one close callback for each close. */
  lemma SignalsAreCounted(options: Options, run: seq<Action>, e: Event)
    requires Possible(options, run) && IsSignal(e)
    ensures (StartInv(options); Times(After(options, run).c.trace, e) == TimesDue(Start(options), run, e))
  {
    StartInv(options);
    RunTimes(Start(options), run, e);
  }

  /** A drain that ends in a half-close has notified the completion before it. */
  lemma CompletionBeforeHalfClose(c: Conn, w: WriteResult)
    requires LegalWrite(w, |c.out|) && Drains(c, w)
    ensures HandleWrite(c, w).trace
         == c.trace + [Wrote(c.out)] + (if c.options.onWriteComplete then [WriteCompleted] else [])
            + (if c.state == Disconnecting then [WriteShutdown] else [])
    ensures HandleWrite(c, w).out == []
  {
    HandleWriteTrace(c, w);
    assert HandleWriteEmits(c, w) == [Wrote(c.out)]
        + (if c.options.onWriteComplete then [WriteCompleted] else [])
        + (if c.state == Disconnecting then [WriteShutdown] else []);
  }

  // ---- The fate of each message ----

  predicate IsFate(e: Event) {
    e.Accepted? || e.Faulted? || e.GivenUp?
  }

  function Fates(t: seq<Event>): seq<Event> {
    if t == [] then [] else
      Fates(t[..|t| - 1]) + (if IsFate(t[|t| - 1]) then [t[|t| - 1]] else [])
  }

  lemma {:induction false} FatesConcat(t: seq<Event>, u: seq<Event>)
    ensures Fates(t + u) == Fates(t) + Fates(u)
    decreases |u|
  {
    if u == [] {
      assert t + u == t;
    } else {
      SplitLast(t, u);
      FatesConcat(t, u[..|u| - 1]);
    }
  }

  lemma FatesOne(e: Event)
    ensures Fates([e]) == if IsFate(e) then [e] else []
  {
    assert [e][..0] == [];
  }

  /** Given up on a closed connection; faulted if nothing is waiting and the peer is gone; else accepted. */
  function Fate(c: Conn, m: Message, w: WriteResult): Event {
    if c.state == Disconnected then GivenUp(m)
    else if Idle(c) && w == PeerGone then Faulted(m)
    else Accepted(m)
  }

  function StepFate(s: System, a: Action): seq<Event>
    requires Enabled(s, a)
  {
    match a
    case LoopSend(bytes, w) =>
      if s.c.state == Connected then [Fate(s.c, NextMessage(s, LOOP_THREAD, bytes), w)] else []
    case RunTask(w) => if s.batch[0].SendTask? then [Fate(s.c, s.batch[0].m, w)] else []
    case _ => []
  }

  lemma QueueFates(c: Conn, len: nat)
    ensures Fates(QueueEmits(c, len)) == []
  {
    FatesOne(HighWater(|c.out| + len));
  }

  lemma IfFates(b: bool, e: Event)
    requires !IsFate(e)
    ensures Fates(IfThen(b, e)) == []
  {
    FatesOne(e);
  }

  lemma WriteFates(c: Conn, bytes: seq<Byte>, n: nat)
    requires n <= |bytes|
    ensures Fates(WriteEmits(c, bytes, n)) == []
  {
    var rest := if n == |bytes| then IfThen(c.options.onWriteComplete, WriteCompleted) else QueueEmits(c, |bytes| - n);
    FatesOne(Wrote(bytes[..n]));
    FatesConcat([Wrote(bytes[..n])], rest);
    IfFates(c.options.onWriteComplete, WriteCompleted);
    if n < |bytes| {
      QueueFates(c, |bytes| - n);
    }
  }

  lemma FateThen(e: Event, rest: seq<Event>)
    requires IsFate(e) && Fates(rest) == []
    ensures Fates([e] + rest) == [e]
  {
    FatesOne(e);
    FatesConcat([e], rest);
  }

  lemma SendFate(c: Conn, m: Message, w: WriteResult)
    requires LegalWrite(w, |m.bytes|)
    ensures Fates(SendEmits(c, m, w)) == [Fate(c, m, w)]
  {
    if c.state == Disconnected {
      FatesOne(GivenUp(m));
    } else if Idle(c) && w == PeerGone {
      FatesOne(Faulted(m));
    } else if Idle(c) && w.Took? {
      WriteFates(c, m.bytes, w.n);
      FateThen(Accepted(m), WriteEmits(c, m.bytes, w.n));
    } else {
      QueueFates(c, |m.bytes|);
      FateThen(Accepted(m), QueueEmits(c, |m.bytes|));
    }
  }

  lemma HandleWriteFates(c: Conn, w: WriteResult)
    requires LegalWrite(w, |c.out|)
    ensures Fates(HandleWriteEmits(c, w)) == []
  {
    if c.IsWriting() && w.Took? && w.n > 0 {
      var done := IfThen(c.options.onWriteComplete, WriteCompleted);
      var last := IfThen(c.state == Disconnecting, WriteShutdown);
      FatesOne(Wrote(c.out[..w.n]));
      FatesOne(Wrote(c.out));
      IfFates(c.options.onWriteComplete, WriteCompleted);
      IfFates(c.state == Disconnecting, WriteShutdown);
      FatesConcat([Wrote(c.out)], done);
      FatesConcat([Wrote(c.out)] + done, last);
    }
  }

  lemma StepFates(s: System, a: Action)
    requires Inv(s) && Enabled(s, a)
    ensures Fates(Emits(s, a)) == StepFate(s, a)
  {
    match a
    case Establish => FatesOne(Established);
    case LoopSend(bytes, w) =>
      if s.c.state == Connected {
        SendFate(s.c, NextMessage(s, LOOP_THREAD, bytes), w);
      }
    case LoopShutdown => IfFates(s.c.state == Connected && !s.c.IsWriting(), WriteShutdown);
    case RunTask(w) => TaskFates(s, w);
    case WriteReady(w) => HandleWriteFates(s.c, w);
    case ReadReady(bytes, _) =>
      FatesOne(Closed);
      FatesOne(Received(bytes));
    case _ =>
  }

  lemma TaskFates(s: System, w: WriteResult)
    requires Enabled(s, RunTask(w))
    ensures Fates(Emits(s, RunTask(w))) == StepFate(s, RunTask(w))
  {
    if s.batch[0].SendTask? {
      SendFate(s.c, s.batch[0].m, w);
    } else {
      IfFates(!s.c.IsWriting(), WriteShutdown);
    }
  }

  function RunFate(s: System, run: seq<Action>): seq<Event>
    requires Inv(s) && EnabledRun(s, run)
    decreases run
  {
    if run == [] then [] else (StepInv(s, run[0]); StepFate(s, run[0]) + RunFate(Step(s, run[0]), run[1..]))
  }

  lemma {:induction false} RunFates(s: System, run: seq<Action>)
    requires Inv(s) && EnabledRun(s, run)
    ensures Fates(Run(s, run).c.trace) == Fates(s.c.trace) + RunFate(s, run)
    decreases run
  {
    if run != [] {
      var s' := Step(s, run[0]);
      StepInv(s, run[0]);
      StepTrace(s, run[0]);
      StepFates(s, run[0]);
      FatesConcat(s.c.trace, Emits(s, run[0]));
      RunFates(s', run[1..]);
      Associate(Fates(s.c.trace), StepFate(s, run[0]), RunFate(s', run[1..]));
    }
  }

  lemma Associate<T>(a: seq<T>, b: seq<T>, c: seq<T>)
    ensures a + b + c == a + (b + c)
  {
  }

  /** In every run each message that reaches sendInLoop is given up exactly if the connection is then
      closed, faulted exactly if nothing was waiting and its write found the peer gone, and else
      accepted, whatever other error the write had. */
  lemma EveryFate(options: Options, run: seq<Action>)
    requires Possible(options, run)
    ensures (StartInv(options); Fates(After(options, run).c.trace) == RunFate(Start(options), run))
  {
    StartInv(options);
    RunFates(Start(options), run);
  }

  // ---- What the kernel took ----

  lemma {:induction false} WireConcat(t: seq<Event>, u: seq<Event>)
    ensures |WireOf(t + u)| == |WireOf(t)| + |WireOf(u)|
    decreases |u|
  {
    if u == [] {
      assert t + u == t;
    } else {
      SplitLast(t, u);
      WireConcat(t, u[..|u| - 1]);
    }
  }

  lemma WireOne(e: Event)
    ensures |WireOf([e])| == if e.Wrote? then |e.bytes| else 0
  {
    assert [e][..0] == [];
  }

  lemma WireIf(b: bool, e: Event)
    requires !e.Wrote?
    ensures WireOf(IfThen(b, e)) == []
  {
    WireOne(e);
  }

  function CountOf(w: WriteResult): nat {
    if w.Took? then w.n else 0
  }

  /** How many bytes the kernel takes in the step, if it is asked. */
  function KernelTakes(s: System, a: Action): nat
    requires Enabled(s, a)
  {
    match a
    case LoopSend(_, w) => if s.c.state == Connected && Idle(s.c) then CountOf(w) else 0
    case RunTask(w) => if s.batch[0].SendTask? && s.c.state != Disconnected && Idle(s.c) then CountOf(w) else 0
    case WriteReady(w) => if s.c.IsWriting() then CountOf(w) else 0
    case _ => 0
  }

  lemma QueueWire(c: Conn, len: nat)
    ensures |WireOf(QueueEmits(c, len))| == 0
  {
    WireOne(HighWater(|c.out| + len));
  }

  lemma WriteWire(c: Conn, bytes: seq<Byte>, n: nat)
    requires n <= |bytes|
    ensures |WireOf(WriteEmits(c, bytes, n))| == n
  {
    var rest := if n == |bytes| then IfThen(c.options.onWriteComplete, WriteCompleted) else QueueEmits(c, |bytes| - n);
    WireOne(Wrote(bytes[..n]));
    WireConcat([Wrote(bytes[..n])], rest);
    WireIf(c.options.onWriteComplete, WriteCompleted);
    if n < |bytes| {
      QueueWire(c, |bytes| - n);
    }
  }

  lemma SendWire(c: Conn, m: Message, w: WriteResult)
    requires LegalWrite(w, |m.bytes|)
    ensures |WireOf(SendEmits(c, m, w))| == if c.state != Disconnected && Idle(c) then CountOf(w) else 0
  {
    WireOne(GivenUp(m));
    WireOne(Faulted(m));
    WireOne(Accepted(m));
    QueueWire(c, |m.bytes|);
    WireConcat([Accepted(m)], QueueEmits(c, |m.bytes|));
    if w.Took? {
      WriteWire(c, m.bytes, w.n);
      WireConcat([Accepted(m)], WriteEmits(c, m.bytes, w.n));
    }
  }

  lemma HandleWriteWire(c: Conn, w: WriteResult)
    requires LegalWrite(w, |c.out|)
    ensures |WireOf(HandleWriteEmits(c, w))| == if c.IsWriting() then CountOf(w) else 0
  {
    if c.IsWriting() && w.Took? && w.n > 0 {
      var done := IfThen(c.options.onWriteComplete, WriteCompleted);
      var last := IfThen(c.state == Disconnecting, WriteShutdown);
      WireOne(Wrote(c.out[..w.n]));
      WireOne(Wrote(c.out));
      WireIf(c.options.onWriteComplete, WriteCompleted);
      WireIf(c.state == Disconnecting, WriteShutdown);
      WireConcat([Wrote(c.out)], done);
      WireConcat([Wrote(c.out)] + done, last);
    }
  }

  lemma StepWire(s: System, a: Action)
    requires Inv(s) && Enabled(s, a)
    ensures |WireOf(Emits(s, a))| == KernelTakes(s, a)
  {
    match a
    case Establish => WireOne(Established);
    case LoopSend(bytes, w) =>
      if s.c.state == Connected {
        SendWire(s.c, NextMessage(s, LOOP_THREAD, bytes), w);
      }
    case LoopShutdown => WireIf(s.c.state == Connected && !s.c.IsWriting(), WriteShutdown);
    case RunTask(w) =>
      if s.batch[0].SendTask? {
        SendWire(s.c, s.batch[0].m, w);
      } else {
        WireIf(!s.c.IsWriting(), WriteShutdown);
      }
    case WriteReady(w) => HandleWriteWire(s.c, w);
    case ReadReady(bytes, _) =>
      WireOne(Closed);
      WireOne(Received(bytes));
    case _ =>
  }

  function KernelTook(s: System, run: seq<Action>): nat
    requires Inv(s) && EnabledRun(s, run)
    decreases run
  {
    if run == [] then 0 else (StepInv(s, run[0]); KernelTakes(s, run[0]) + KernelTook(Step(s, run[0]), run[1..]))
  }

  lemma {:induction false} RunWire(s: System, run: seq<Action>)
    requires Inv(s) && EnabledRun(s, run)
    ensures |WireOf(Run(s, run).c.trace)| == |WireOf(s.c.trace)| + KernelTook(s, run)
    decreases run
  {
    if run != [] {
      StepInv(s, run[0]);
      StepTrace(s, run[0]);
      StepWire(s, run[0]);
      WireConcat(s.c.trace, Emits(s, run[0]));
      RunWire(Step(s, run[0]), run[1..]);
    }
  }

  /** In every run the bytes counted as written are as many as the kernel took; being the first of
      the accepted ones, they are exactly those. */
  lemma WireIsWhatTheKernelTook(options: Options, run: seq<Action>)
    requires Possible(options, run)
    ensures (StartInv(options); |WireOf(After(options, run).c.trace)| == KernelTook(Start(options), run))
  {
    StartInv(options);
    RunWire(Start(options), run);
  }

  // ---- What the callbacks received ----

  /** What the step delivers, and what its callback retrieves. */
  function StepDelivers(a: Action): seq<Byte> {
    if a.ReadReady? then a.bytes else []
  }

  function StepRetrieves(a: Action): nat {
    if a.ReadReady? && a.bytes != [] then a.taken else 0
  }

  /** The bytes that readv delivers in the run. */
  function DeliveredIn(run: seq<Action>): seq<Byte> {
    if run == [] then [] else StepDelivers(run[0]) + DeliveredIn(run[1..])
  }

  /** How many of them the message callbacks retrieve; there is no callback at end of file. */
  function RetrievedIn(run: seq<Action>): nat {
    if run == [] then 0 else StepRetrieves(run[0]) + RetrievedIn(run[1..])
  }

  function ReceivedBytes(t: seq<Event>): seq<Byte> {
    if t == [] then [] else
      ReceivedBytes(t[..|t| - 1]) + (if t[|t| - 1].Received? then t[|t| - 1].bytes else [])
  }

  lemma {:induction false} ReceivedConcat(t: seq<Event>, u: seq<Event>)
    ensures ReceivedBytes(t + u) == ReceivedBytes(t) + ReceivedBytes(u)
    decreases |u|
  {
    if u == [] {
      assert t + u == t;
    } else {
      SplitLast(t, u);
      ReceivedConcat(t, u[..|u| - 1]);
    }
  }

  predicate NoneReceived(t: seq<Event>) {
    forall i :: 0 <= i < |t| ==> !t[i].Received?
  }

  lemma {:induction false} ReceivedNone(t: seq<Event>)
    requires NoneReceived(t)
    ensures ReceivedBytes(t) == []
  {
    if t != [] {
      ReceivedNone(t[..|t| - 1]);
    }
  }

  lemma SendNoneReceived(c: Conn, m: Message, w: WriteResult)
    requires LegalWrite(w, |m.bytes|)
    ensures NoneReceived(SendEmits(c, m, w))
  {
  }

  lemma HandleWriteNoneReceived(c: Conn, w: WriteResult)
    requires LegalWrite(w, |c.out|)
    ensures NoneReceived(HandleWriteEmits(c, w))
  {
  }

  lemma StepReceived(s: System, a: Action)
    requires Inv(s) && Enabled(s, a)
    ensures ReceivedBytes(Emits(s, a)) == StepDelivers(a)
  {
    match a
    case ReadReady(bytes, _) =>
      assert [Received(bytes)] == [] + [Received(bytes)];
      ReceivedNone([Closed]);
    case LoopSend(bytes, w) =>
      if s.c.state == Connected {
        SendNoneReceived(s.c, NextMessage(s, LOOP_THREAD, bytes), w);
      }
      ReceivedNone(Emits(s, a));
    case RunTask(w) =>
      if s.batch[0].SendTask? {
        SendNoneReceived(s.c, s.batch[0].m, w);
      }
      ReceivedNone(Emits(s, a));
    case WriteReady(w) =>
      HandleWriteNoneReceived(s.c, w);
      ReceivedNone(Emits(s, a));
    case _ => ReceivedNone(Emits(s, a));
  }

  lemma QueueInput(c: Conn, rest: seq<Byte>)
    ensures Queue(c, rest).input == c.input
  {
  }

  lemma SendInLoopInput(c: Conn, m: Message, w: WriteResult)
    requires LegalWrite(w, |m.bytes|)
    ensures SendInLoop(c, m, w).input == c.input
  {
  }

  /** Only a read changes the input buffer: it gains what is delivered and then loses from its front
      what the callback retrieves. */
  lemma StepInput(s: System, a: Action)
    requires Inv(s) && Enabled(s, a)
    ensures Step(s, a).c.input
         == if a.ReadReady? && a.bytes != [] then (s.c.input + a.bytes)[a.taken..] else s.c.input
  {
    match a
    case LoopSend(bytes, w) => SendInLoopInput(s.c, NextMessage(s, LOOP_THREAD, bytes), w);
    case RunTask(w) =>
      if s.batch[0].SendTask? {
        SendInLoopInput(s.c, s.batch[0].m, w);
      }
    case _ =>
  }

  /** `gone` of the bytes in `all` have been retrieved and the rest is `left`. */
  ghost predicate Remaining(all: seq<Byte>, gone: nat, left: seq<Byte>) {
    gone <= |all| && left == all[gone..]
  }

  lemma MoreRemaining(all: seq<Byte>, gone: nat, left: seq<Byte>, more: seq<Byte>, taken: nat)
    requires Remaining(all, gone, left) && taken <= |left| + |more|
    ensures Remaining(all + more, gone + taken, (left + more)[taken..])
  {
    assert left + more == (all + more)[gone..];
  }

  /** All that was delivered has been received, and what is not retrieved is in the input buffer. */
  ghost predicate InputInv(c: Conn, all: seq<Byte>, gone: nat) {
    ReceivedBytes(c.trace) == all && Remaining(all, gone, c.input)
  }

  lemma StepAllReceived(s: System, a: Action)
    requires Inv(s) && Enabled(s, a)
    ensures ReceivedBytes(Step(s, a).c.trace) == ReceivedBytes(s.c.trace) + StepDelivers(a)
  {
    StepTrace(s, a);
    StepReceived(s, a);
    ReceivedConcat(s.c.trace, Emits(s, a));
  }

  lemma StepInputInv(s: System, a: Action, all: seq<Byte>, gone: nat)
    requires Inv(s) && Enabled(s, a) && InputInv(s.c, all, gone)
    ensures InputInv(Step(s, a).c, all + StepDelivers(a), gone + StepRetrieves(a))
  {
    StepAllReceived(s, a);
    StepInput(s, a);
    MoreRemaining(all, gone, s.c.input, StepDelivers(a), StepRetrieves(a));
    assert s.c.input + [] == s.c.input;
  }

  lemma {:induction false} RunInput(s: System, run: seq<Action>, all: seq<Byte>, gone: nat)
    requires Inv(s) && EnabledRun(s, run) && InputInv(s.c, all, gone)
    ensures InputInv(Run(s, run).c, all + DeliveredIn(run), gone + RetrievedIn(run))
    decreases run
  {
    if run == [] {
      assert all + [] == all;
    } else {
      StepInv(s, run[0]);
      StepInputInv(s, run[0], all, gone);
      RunInput(Step(s, run[0]), run[1..], all + StepDelivers(run[0]), gone + StepRetrieves(run[0]));
      Associate(all, StepDelivers(run[0]), DeliveredIn(run[1..]));
    }
  }

  /** In every run the callbacks received all the bytes that were delivered, in order; and the input
      buffer holds those of them that no callback has retrieved. */
  lemma InputAccounted(options: Options, run: seq<Action>)
    requires Possible(options, run)
    ensures var c, all := After(options, run).c, DeliveredIn(run);
            && ReceivedBytes(c.trace) == all
            && RetrievedIn(run) <= |all| && c.input == all[RetrievedIn(run)..]
  {
    StartInv(options);
    RunInput(Start(options), run, [], 0);
    assert [] + DeliveredIn(run) == DeliveredIn(run);
  }

  // ---- Registration ----

  /** Unless a close is overtaken by a foreign shutdown, the poller knows the channel exactly while
      the connection is up. */
  lemma {:induction false} RegisteredWhileUp(s: System, run: seq<Action>)
    requires Inv(s) && EnabledRun(s, run) && Forward(s, run)
    requires s.c.registered <==> s.c.state == Connected || s.c.state == Disconnecting
    ensures var c := Run(s, run).c;
            c.registered <==> c.state == Connected || c.state == Disconnecting
    decreases run
  {
    if run != [] {
      StepInv(s, run[0]);
      StepForward(s, run[0]);
      StepRegistered(s, run[0]);
      RegisteredWhileUp(Step(s, run[0]), run[1..]);
    }
  }

  lemma StepRegistered(s: System, a: Action)
    requires Inv(s) && Enabled(s, a) && Rank(s.c.state) <= Rank(Step(s, a).c.state)
    requires s.c.registered <==> s.c.state == Connected || s.c.state == Disconnecting
    ensures var c := Step(s, a).c;
            c.registered <==> c.state == Connected || c.state == Disconnecting
  {
    StepInv(s, a);
    match a
    case LoopSend(bytes, w) => LoopSendInv(s.c, NextMessage(s, LOOP_THREAD, bytes), w);
    case RunTask(w) => RunOneStates(s.c, s.batch[0], w);
    case WriteReady(w) => HandleWriteStates(s.c, w);
    case _ =>
  }
}
