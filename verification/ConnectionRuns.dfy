/** One connection in its event loop, over whole runs: sends and shutdowns from the loop thread
    and from foreign threads, queued calls, readiness events, and any behaviour of the kernel. */
module ConnectionRuns {
  import opened Bytes
  import opened Channels
  import opened ConnectionModel

  /** What a foreign thread hands to the loop. */
  datatype Task = SendTask(m: Message) | ShutdownTask

  /** A foreign thread in the middle of a call, its test of the state having succeeded: it is to
      queue its message, or to set the state, or, having set it, to queue the half-close. */
  datatype Pc = ToSend(m: Message) | ToSet | ToPush

  /** `sent` counts the calls of send that each thread has made; the loop thread is number 0. */
  datatype System = System(
    c: Conn,
    pending: seq<Task>,
    batch: seq<Task>,
    sent: map<nat, nat>,
    between: map<nat, Pc>)

  const LOOP_THREAD: nat := 0

  /** A foreign call starts with its test and goes on, in one or two more steps, by Resume; other
      threads run in between. A step of the loop thread reads the state at most once before it
      acts, or again when only a foreign set can have come between, so it is one action. */
  datatype Action =
    | Establish
    | LoopSend(bytes: seq<Byte>, w: WriteResult)
    | ForeignSend(p: nat, bytes: seq<Byte>)
    | LoopShutdown
    | ForeignShutdown(p: nat)
    | Resume(p: nat)
    | SwapQueue
    | RunTask(w: WriteResult)
    | WriteReady(w: WriteResult)
    | ReadReady(bytes: seq<Byte>, taken: nat)
    | ReadFails

  function Start(options: Options): System {
    System(New(options), [], [], map[], map[])
  }

  function Count(sent: map<nat, nat>, p: nat): nat {
    if p in sent then sent[p] else 0
  }

  function CountOne(sent: map<nat, nat>, p: nat): map<nat, nat> {
    sent[p := Count(sent, p) + 1]
  }

  function NextMessage(s: System, p: nat, bytes: seq<Byte>): Message {
    Message(p, Count(s.sent, p), bytes)
  }

  /** Readiness is reported only for a registered channel; the kernel's answers are legal. */
  predicate Enabled(s: System, a: Action) {
    match a
    case Establish => s.c.state == Connecting
    case LoopSend(bytes, w) => LegalWrite(w, |bytes|)
    case ForeignSend(p, _) => p != LOOP_THREAD && p !in s.between
    case ForeignShutdown(p) => p != LOOP_THREAD && p !in s.between
    case Resume(p) => p in s.between
    case SwapQueue => s.batch == []
    case RunTask(w) => s.batch != [] && (s.batch[0].SendTask? ==> LegalWrite(w, |s.batch[0].m.bytes|))
    case WriteReady(w) => s.c.registered && LegalWrite(w, s.c.Buffered())
    case ReadReady(bytes, taken) => s.c.registered && taken <= |s.c.input| + |bytes|
    case ReadFails => s.c.registered
    case LoopShutdown => true
  }

  /** A channel that the poller knows belongs to a connection that is up, which is what the
      assertion in handleClose relies on. */
  ghost predicate StateInv(c: Conn) {
    && (c.registered ==> c.state == Connected || c.state == Disconnecting)
    && (c.state == Connected ==> c.registered)
    && (c.state == Connecting ==> !c.IsWriting())
  }

  ghost predicate Inv(s: System) {
    && OutputInv(s.c)
    && StateInv(s.c)
    && (s.c.state == Connecting ==> s.pending == [] && s.batch == [] && s.between == map[])
  }

  function RunOne(c: Conn, t: Task, w: WriteResult): Conn
    requires (t.SendTask? ==> LegalWrite(w, |t.m.bytes|))
  {
    if t.SendTask? then SendInLoop(c, t.m, w) else ShutdownInLoop(c)
  }

  /** What is left of a foreign call after its test. */
  function Resumed(s: System, p: nat): System
    requires p in s.between
  {
    match s.between[p]
    case ToSend(m) => s.(pending := s.pending + [SendTask(m)], between := s.between - {p})
    case ToSet => s.(c := s.c.(state := Disconnecting), between := s.between[p := ToPush])
    case ToPush => s.(pending := s.pending + [ShutdownTask], between := s.between - {p})
  }

  function Step(s: System, a: Action): System
    requires Inv(s) && Enabled(s, a)
  {
    match a
    case Establish => s.(c := ConnectEstablished(s.c))
    case LoopSend(bytes, w) =>
      s.(c := Send(s.c, NextMessage(s, LOOP_THREAD, bytes), w), sent := CountOne(s.sent, LOOP_THREAD))
    case ForeignSend(p, bytes) =>
      s.(sent := CountOne(s.sent, p),
         between := if s.c.state == Connected then s.between[p := ToSend(NextMessage(s, p, bytes))] else s.between)
    case LoopShutdown => s.(c := Shutdown(s.c))
    case ForeignShutdown(p) => if s.c.state == Connected then s.(between := s.between[p := ToSet]) else s
    case Resume(p) => Resumed(s, p)
    case SwapQueue => s.(batch := s.pending, pending := [])
    case RunTask(w) => s.(c := RunOne(s.c, s.batch[0], w), batch := s.batch[1..])
    case WriteReady(w) => s.(c := HandleWrite(s.c, w))
    case ReadReady(bytes, taken) => s.(c := HandleRead(s.c, bytes, taken))
    case ReadFails => s
  }

  // ---- One step ----

  lemma QueueStates(c: Conn, rest: seq<Byte>)
    requires StateInv(c) && (c.state == Connected || c.state == Disconnecting)
    ensures StateInv(Queue(c, rest)) && Queue(c, rest).state == c.state
  {
  }

  /** sendInLoop and the queued calls leave the state alone. */
  lemma RunOneStates(c: Conn, t: Task, w: WriteResult)
    requires StateInv(c) && (t.SendTask? ==> LegalWrite(w, |t.m.bytes|))
    requires c.state != Connecting
    ensures StateInv(RunOne(c, t, w)) && RunOne(c, t, w).state == c.state
  {
    if t.SendTask? && c.state != Disconnected {
      var d := Emit(c, Accepted(t.m));
      QueueStates(d, t.m.bytes);
      if w.Took? && w.n < |t.m.bytes| {
        QueueStates(Emit(d, Wrote(t.m.bytes[..w.n])), t.m.bytes[w.n..]);
      }
    }
  }

  lemma RunOneInv(c: Conn, t: Task, w: WriteResult)
    requires OutputInv(c) && (t.SendTask? ==> LegalWrite(w, |t.m.bytes|))
    ensures OutputInv(RunOne(c, t, w))
  {
    if t.SendTask? {
      SendInLoopKeeps(c, t.m, w);
    } else {
      ShutdownInLoopKeeps(c);
    }
  }

  lemma LoopSendInv(c: Conn, m: Message, w: WriteResult)
    requires OutputInv(c) && StateInv(c) && LegalWrite(w, |m.bytes|)
    ensures OutputInv(Send(c, m, w)) && StateInv(Send(c, m, w)) && Send(c, m, w).state == c.state
  {
    if c.state == Connected {
      RunOneInv(c, SendTask(m), w);
      RunOneStates(c, SendTask(m), w);
    }
  }

  lemma ShutdownInv(c: Conn)
    requires OutputInv(c) && StateInv(c)
    ensures OutputInv(Shutdown(c)) && StateInv(Shutdown(c))
    ensures Shutdown(c).state == if c.state == Connected then Disconnecting else c.state
  {
    if c.state == Connected {
      ShutdownInLoopKeeps(c.(state := Disconnecting));
    }
  }

  lemma HandleWriteStates(c: Conn, w: WriteResult)
    requires StateInv(c) && c.registered && LegalWrite(w, c.Buffered())
    ensures StateInv(HandleWrite(c, w)) && HandleWrite(c, w).state == c.state
  {
  }

  lemma EstablishInv(c: Conn)
    requires OutputInv(c) && StateInv(c) && c.state == Connecting
    ensures OutputInv(ConnectEstablished(c)) && StateInv(ConnectEstablished(c))
  {
    var d := c.(state := Connected, events := CHANNEL_READ, registered := true);
    assert !Has(CHANNEL_READ, CHANNEL_WRITE);
    EmitNeutral(d, Established);
  }

  /** Every step of every thread keeps the invariant. */
  lemma StepInv(s: System, a: Action)
    requires Inv(s) && Enabled(s, a)
    ensures Inv(Step(s, a))
  {
    match a
    case Establish => EstablishInv(s.c);
    case LoopSend(bytes, w) => LoopSendInv(s.c, NextMessage(s, LOOP_THREAD, bytes), w);
    case LoopShutdown => ShutdownInv(s.c);
    case RunTask(w) =>
      RunOneInv(s.c, s.batch[0], w);
      RunOneStates(s.c, s.batch[0], w);
    case WriteReady(w) =>
      HandleWriteKeeps(s.c, w);
      HandleWriteStates(s.c, w);
    case ReadReady(bytes, taken) => HandleReadKeeps(s.c, bytes, taken);
    case _ =>
  }

  // ---- Whole runs ----

  predicate EnabledRun(s: System, run: seq<Action>)
    requires Inv(s)
    decreases run
  {
    run == [] || (Enabled(s, run[0]) && (StepInv(s, run[0]); EnabledRun(Step(s, run[0]), run[1..])))
  }

  function Run(s: System, run: seq<Action>): System
    requires Inv(s) && EnabledRun(s, run)
    decreases run
  {
    if run == [] then s else (StepInv(s, run[0]); Run(Step(s, run[0]), run[1..]))
  }

  lemma {:induction false} RunInv(s: System, run: seq<Action>)
    requires Inv(s) && EnabledRun(s, run)
    ensures Inv(Run(s, run))
    decreases run
  {
    if run != [] {
      StepInv(s, run[0]);
      RunInv(Step(s, run[0]), run[1..]);
    }
  }

  lemma RunCons(s: System, a: Action, rest: seq<Action>)
    requires Inv(s) && Enabled(s, a) && Inv(Step(s, a)) && EnabledRun(Step(s, a), rest)
    ensures EnabledRun(s, [a] + rest) && Run(s, [a] + rest) == Run(Step(s, a), rest)
  {
    assert ([a] + rest)[1..] == rest;
  }

  lemma {:induction false} RunConcat(s: System, a: seq<Action>, b: seq<Action>)
    requires Inv(s) && EnabledRun(s, a) && Inv(Run(s, a)) && EnabledRun(Run(s, a), b)
    ensures EnabledRun(s, a + b) && Run(s, a + b) == Run(Run(s, a), b)
    decreases a
  {
    if a == [] {
      assert a + b == b;
    } else {
      StepInv(s, a[0]);
      RunConcat(Step(s, a[0]), a[1..], b);
      SplitHead(a, b);
    }
  }

  lemma SplitHead(a: seq<Action>, b: seq<Action>)
    requires a != []
    ensures (a + b)[0] == a[0] && (a + b)[1..] == a[1..] + b
  {
  }

  lemma StartInv(options: Options)
    ensures Inv(Start(options))
  {
  }

  predicate Possible(options: Options, run: seq<Action>) {
    StartInv(options); EnabledRun(Start(options), run)
  }

  /** The system after the run. */
  function After(options: Options, run: seq<Action>): System
    requires Possible(options, run)
  {
    StartInv(options); Run(Start(options), run)
  }

  /** In every run: the bytes written and then those buffered are the accepted messages, whole
      and in execution order; write interest is set exactly while something is buffered; and
      each write-complete and each half-close found everything accepted already written. */
  lemma OutputAlwaysAccounted(options: Options, run: seq<Action>)
    requires Possible(options, run)
    ensures var c := After(options, run).c;
            && WireOf(c.trace) + c.out == AcceptedBytes(c.trace)
            && (c.IsWriting() <==> c.Buffered() > 0)
            && Quiet(c.trace)
  {
    StartInv(options);
    RunInv(Start(options), run);
    var c := After(options, run).c;
    assert WireOf(c.trace) + c.out + [] == WireOf(c.trace) + c.out;
  }

  // ---- Which way the state moves ----

  function Rank(state: ConnState): nat {
    match state
    case Connecting => 0
    case Connected => 1
    case Disconnecting => 2
    case Disconnected => 3
  }

  /** The state never goes back during the run. */
  ghost predicate Forward(s: System, run: seq<Action>)
    requires Inv(s) && EnabledRun(s, run)
    decreases run
  {
    run == [] ||
    (StepInv(s, run[0]);
     Rank(s.c.state) <= Rank(Step(s, run[0]).c.state) && Forward(Step(s, run[0]), run[1..]))
  }

  /** A read that finds the end of the file closes the connection. */
  predicate Closes(a: Action) {
    a.ReadReady? && a.bytes == []
  }

  predicate ActsFor(a: Action, p: nat) {
    (a.ForeignSend? || a.ForeignShutdown? || a.Resume?) && a.p == p
  }

  /** In what follows a test by `p`, a close comes before the set: `closed` if one has come. */
  predicate ClosedBeforeSet(run: seq<Action>, p: nat, closed: bool)
    decreases run
  {
    run != [] &&
    if run[0] == Resume(p) then closed
    else !ActsFor(run[0], p) && ClosedBeforeSet(run[1..], p, closed || Closes(run[0]))
  }

  /** Somewhere in the run a close lies between the test and the set of one foreign shutdown. */
  predicate Overtaken(run: seq<Action>)
    decreases run
  {
    run != [] &&
    ((run[0].ForeignShutdown? && ClosedBeforeSet(run[1..], run[0].p, false)) || Overtaken(run[1..]))
  }

  /** A thread that is in no call starts one before it can resume one. */
  lemma {:induction false} NotInCall(s: System, run: seq<Action>, p: nat, closed: bool)
    requires Inv(s) && EnabledRun(s, run) && p !in s.between
    ensures !ClosedBeforeSet(run, p, closed)
    decreases run
  {
    if run != [] && !ActsFor(run[0], p) {
      StepInv(s, run[0]);
      NotInCall(Step(s, run[0]), run[1..], p, closed || Closes(run[0]));
    }
  }

  /** Some thread is to set the state and will find the connection closed by then. */
  ghost predicate SomeoneOvertaken(s: System, run: seq<Action>) {
    exists p :: p in s.between && s.between[p] == ToSet && ClosedBeforeSet(run, p, s.c.state == Disconnected)
  }

  /** One step goes back exactly when it sets the state of a closed connection. */
  lemma StepForward(s: System, a: Action)
    requires Inv(s) && Enabled(s, a)
    ensures Rank(s.c.state) <= Rank(Step(s, a).c.state)
       <==> !(a.Resume? && s.between[a.p] == ToSet && s.c.state == Disconnected)
    ensures !(a.Resume? && s.between[a.p] == ToSet) ==>
              (Step(s, a).c.state == Disconnected <==> s.c.state == Disconnected || Closes(a))
  {
    match a
    case LoopSend(bytes, w) => LoopSendInv(s.c, NextMessage(s, LOOP_THREAD, bytes), w);
    case LoopShutdown => ShutdownInv(s.c);
    case RunTask(w) =>
      RunOneInv(s.c, s.batch[0], w);
      RunOneStates(s.c, s.batch[0], w);
    case WriteReady(w) => HandleWriteStates(s.c, w);
    case _ =>
  }

  /** A thread that is to set the state stays so, until it does so in time. */
  lemma StillToSet(s: System, run: seq<Action>, p: nat)
    requires Inv(s) && EnabledRun(s, run) && run != []
    requires Rank(s.c.state) <= Rank(Step(s, run[0]).c.state)
    requires p in s.between && s.between[p] == ToSet
    ensures var s' := Step(s, run[0]);
            (ClosedBeforeSet(run, p, s.c.state == Disconnected)
             <==> (p in s'.between && s'.between[p] == ToSet
                   && ClosedBeforeSet(run[1..], p, s'.c.state == Disconnected)))
  {
    StepForward(s, run[0]);
  }

  lemma NowToSet(s: System, a: Action, p: nat)
    requires Inv(s) && Enabled(s, a) && p in Step(s, a).between && Step(s, a).between[p] == ToSet
    ensures a == ForeignShutdown(p) || (p in s.between && s.between[p] == ToSet)
    ensures a == ForeignShutdown(p) ==> Step(s, a).c.state == Connected
  {
  }

  lemma OvertakenLater(s: System, run: seq<Action>)
    requires Inv(s) && EnabledRun(s, run) && run != []
    requires Rank(s.c.state) <= Rank(Step(s, run[0]).c.state)
    ensures SomeoneOvertaken(s, run) || (run[0].ForeignShutdown? && ClosedBeforeSet(run[1..], run[0].p, false))
       <==> SomeoneOvertaken(Step(s, run[0]), run[1..])
  {
    var a, rest, s' := run[0], run[1..], Step(s, run[0]);
    if SomeoneOvertaken(s, run) {
      var p :| p in s.between && s.between[p] == ToSet && ClosedBeforeSet(run, p, s.c.state == Disconnected);
      StillToSet(s, run, p);
    }
    if a.ForeignShutdown? && ClosedBeforeSet(rest, a.p, false) {
      StartedInTime(s, run);
    }
    if SomeoneOvertaken(s', rest) {
      var p :| p in s'.between && s'.between[p] == ToSet && ClosedBeforeSet(rest, p, s'.c.state == Disconnected);
      NowToSet(s, a, p);
      if a != ForeignShutdown(p) {
        StillToSet(s, run, p);
      }
    }
  }

  /** A test that is overtaken later succeeded. */
  lemma StartedInTime(s: System, run: seq<Action>)
    requires Inv(s) && EnabledRun(s, run) && run != []
    requires run[0].ForeignShutdown? && ClosedBeforeSet(run[1..], run[0].p, false)
    ensures SomeoneOvertaken(Step(s, run[0]), run[1..])
  {
    var p, s' := run[0].p, Step(s, run[0]);
    StepInv(s, run[0]);
    if s.c.state == Connected {
      assert p in s'.between && s'.between[p] == ToSet;
    } else {
      NotInCall(s', run[1..], p, false);
    }
  }

  lemma {:induction false} ForwardFrom(s: System, run: seq<Action>)
    requires Inv(s) && EnabledRun(s, run)
    ensures Forward(s, run) <==> !SomeoneOvertaken(s, run) && !Overtaken(run)
    decreases run
  {
    if run != [] {
      StepInv(s, run[0]);
      StepForward(s, run[0]);
      if Rank(s.c.state) <= Rank(Step(s, run[0]).c.state) {
        OvertakenLater(s, run);
        ForwardFrom(Step(s, run[0]), run[1..]);
      } else {
        assert ClosedBeforeSet(run, run[0].p, true);
      }
    }
  }

  /** The state only advances exactly when no close falls between the test and the set of a
      shutdown from a foreign thread. */
  lemma ForwardUnlessOvertaken(options: Options, run: seq<Action>)
    requires Possible(options, run)
    ensures (StartInv(options); Forward(Start(options), run) <==> !Overtaken(run))
  {
    StartInv(options);
    ForwardFrom(Start(options), run);
  }

  /** And such a run exists: the connection is closed and then counts as disconnecting again. */
  lemma ClosedThenDisconnecting(options: Options)
    ensures var run := [Establish, ForeignShutdown(1), ReadReady([], 0), Resume(1)];
            && Possible(options, run)
            && Overtaken(run)
            && After(options, run).c.state == Disconnecting
  {
    StartInv(options);
    var s, rest := Start(options), [ForeignShutdown(1), ReadReady([], 0), Resume(1)];
    StepInv(s, Establish);
    CloseInBetween(Step(s, Establish), 1);
    RunCons(s, Establish, rest);
    assert [Establish] + rest == [Establish, ForeignShutdown(1), ReadReady([], 0), Resume(1)];
    assert ([Establish] + rest)[1..] == rest;
  }

  lemma CloseInBetween(s: System, p: nat)
    requires Inv(s) && s.c.state == Connected && Enabled(s, ForeignShutdown(p))
    ensures var run := [ForeignShutdown(p), ReadReady([], 0), Resume(p)];
            EnabledRun(s, run) && Overtaken(run) && Run(s, run).c.state == Disconnecting
  {
    var rest := [ReadReady([], 0), Resume(p)];
    StepInv(s, ForeignShutdown(p));
    CloseThenSet(Step(s, ForeignShutdown(p)), p);
    RunCons(s, ForeignShutdown(p), rest);
    assert [ForeignShutdown(p)] + rest == [ForeignShutdown(p), ReadReady([], 0), Resume(p)];
    assert ([ForeignShutdown(p)] + rest)[1..] == rest;
  }

  lemma CloseThenSet(s: System, p: nat)
    requires Inv(s) && s.c.state == Connected && p in s.between && s.between[p] == ToSet
    ensures var run := [ReadReady([], 0), Resume(p)];
            EnabledRun(s, run) && ClosedBeforeSet(run, p, false) && Run(s, run).c.state == Disconnecting
  {
    StepInv(s, ReadReady([], 0));
    var s' := Step(s, ReadReady([], 0));
    StepInv(s', Resume(p));
    RunCons(s', Resume(p), []);
    RunCons(s, ReadReady([], 0), [Resume(p)]);
    assert [ReadReady([], 0)] + [Resume(p)] == [ReadReady([], 0), Resume(p)];
    assert [ReadReady([], 0), Resume(p)][1..] == [Resume(p)];
    assert ClosedBeforeSet([Resume(p)], p, true);
  }
}
