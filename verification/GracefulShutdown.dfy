/** What a call of shutdown can rely on: when the half-close it asks for is sure to be the end. */
module GracefulShutdown {
  import opened Bytes
  import opened Channels
  import opened ConnectionModel
  import opened ConnectionRuns
  import opened HalfClose

  // ---- On the loop thread ----

  predicate OnLoopThread(a: Action) {
    !a.ForeignSend? && !a.ForeignShutdown? && !a.Resume?
  }

  /** Nothing is due that could spoil the half-close, be it done or still waiting for a drain. */
  ghost predicate Winding(s: System) {
    && Inv(s) && ClosingInv(s) && ShutdownIsLast(s.c.trace)
    && !ShutdownDue(s) && !SendDue(s)
    && (HasShutdown(s.c.trace) ==> !s.c.IsWriting())
  }

  lemma LoopAddsNothing(s: System, a: Action)
    requires Inv(s) && Enabled(s, a) && OnLoopThread(a)
    ensures ShutdownDue(Step(s, a)) ==> ShutdownDue(s)
    ensures SendDue(Step(s, a)) ==> SendDue(s)
  {
    if SendDue(Step(s, a)) {
      var m: Message :| m.bytes != [] && Due(Step(s, a), SendTask(m));
      assert Due(s, SendTask(m));
    }
  }

  lemma NothingDue(s: System, a: Action)
    requires Winding(s) && Enabled(s, a) && (OnLoopThread(a) || Rank(s.c.state) >= 2)
    ensures !ShutdownDue(Step(s, a)) && !SendDue(Step(s, a))
  {
    if OnLoopThread(a) {
      LoopAddsNothing(s, a);
    } else {
      NothingNew(s, a);
    }
  }

  /** A step on such a connection is not late, and after a half-close nothing is buffered. */
  lemma StepWindsUp(s: System, a: Action)
    requires Winding(s) && Enabled(s, a)
    ensures !Late(s, a)
    ensures HasShutdown(Step(s, a).c.trace) ==> !Step(s, a).c.IsWriting()
  {
    match a
    case Establish => EmitFinal(s.c, Established);
    case LoopSend(bytes, w) => SendInLoopFinal(s.c, NextMessage(s, LOOP_THREAD, bytes), w);
    case LoopShutdown => EmitFinal(s.c.(state := Disconnecting), WriteShutdown);
    case RunTask(w) =>
      assert Due(s, s.batch[0]);
      EmptySend(s.c, s.batch[0].m, w);
      RunOneFinal(s.c, s.batch[0], w);
    case WriteReady(w) =>
      HandleWriteFinal(s.c, w);
      HandleWriteDrains(s.c, w);
    case ReadReady(bytes, _) =>
      EmitFinal(s.c, Received(bytes));
      EmitFinal(s.c, Closed);
    case _ =>
  }

  lemma StepWinding(s: System, a: Action)
    requires Winding(s) && Enabled(s, a) && (OnLoopThread(a) || Rank(s.c.state) >= 2)
    ensures Winding(Step(s, a))
  {
    StepInv(s, a);
    StepClosing(s, a);
    StepFinal(s, a);
    StepWindsUp(s, a);
    NothingDue(s, a);
  }

  lemma {:induction false} RunWinding(s: System, run: seq<Action>)
    requires Winding(s) && EnabledRun(s, run)
    requires Rank(s.c.state) >= 2 || forall i :: 0 <= i < |run| ==> OnLoopThread(run[i])
    ensures Winding(Run(s, run))
    decreases run
  {
    if run != [] {
      StepInv(s, run[0]);
      StepWinding(s, run[0]);
      StaysClosing(s, run[0]);
      RunWinding(Step(s, run[0]), run[1..]);
    }
  }

  /** When sends and shutdowns all come from the loop thread, the socket is half-closed at most
      once and nothing is written afterwards. */
  lemma HalfCloseIsFinal(options: Options, run: seq<Action>)
    requires Possible(options, run) && forall i :: 0 <= i < |run| ==> OnLoopThread(run[i])
    ensures ShutdownIsLast(After(options, run).c.trace)
  {
    StartInv(options);
    RunWinding(Start(options), run);
  }

  /** What may go wrong after a step may go wrong before it. */
  lemma NotFinalBefore(s: System, a: Action)
    requires Inv(s) && Enabled(s, a) && Inv(Step(s, a)) && !AlwaysFinal(Step(s, a))
    ensures !AlwaysFinal(s)
  {
    var run :| EnabledRun(Step(s, a), run) && !ShutdownIsLast(Run(Step(s, a), run).c.trace);
    RunCons(s, a, run);
    assert EnabledRun(s, [a] + run);
  }

  lemma NotFinalAfterRun(s: System, run: seq<Action>)
    requires Inv(s) && EnabledRun(s, run) && Inv(Run(s, run)) && !AlwaysFinal(Run(s, run))
    ensures !AlwaysFinal(s)
  {
    var s' := Run(s, run);
    var more :| EnabledRun(s', more) && !ShutdownIsLast(Run(s', more).c.trace);
    RunConcat(s, run, more);
    assert EnabledRun(s, run + more);
  }

  /** The drain of a disconnecting connection half-closes; if anything is due, that is not the end. */
  lemma DrainThenDue(s: System)
    requires Inv(s) && ClosingInv(s) && s.c.state == Disconnecting && s.c.IsWriting() && s.c.registered
    requires ShutdownDue(s) || SendDue(s)
    ensures !AlwaysFinal(s)
  {
    var a := WriteReady(Took(s.c.Buffered()));
    var s' := Step(s, a);
    StepInv(s, a);
    StepClosing(s, a);
    HandleWriteFinal(s.c, a.w);
    HandleWriteDrains(s.c, a.w);
    SameDue(s, s');
    Unsettled(s');
    NotFinalBefore(s, a);
  }

  lemma SameDue(s: System, s': System)
    requires s'.batch == s.batch && s'.pending == s.pending && s'.between == s.between
    ensures ShutdownDue(s') <==> ShutdownDue(s)
    ensures SendDue(s') <==> SendDue(s)
  {
    if SendDue(s) {
      var m: Message :| m.bytes != [] && Due(s, SendTask(m));
      assert Due(s', SendTask(m));
    }
    if SendDue(s') {
      var m: Message :| m.bytes != [] && Due(s', SendTask(m));
      assert Due(s, SendTask(m));
    }
  }

  /** After a shutdown on the loop thread of a connected connection, the half-close is the end in
      every continuation exactly when no foreign shutdown and no send of any byte is due. */
  lemma LoopShutdownIsFinal(s: System)
    requires Inv(s) && ClosingInv(s) && s.c.state == Connected
    ensures Inv(Step(s, LoopShutdown))
    ensures AlwaysFinal(Step(s, LoopShutdown)) <==> !ShutdownDue(s) && !SendDue(s)
  {
    var s' := Step(s, LoopShutdown);
    StepInv(s, LoopShutdown);
    StepClosing(s, LoopShutdown);
    EmitFinal(s.c.(state := Disconnecting), WriteShutdown);
    SameDue(s, s');
    NotYet(s.c.trace);
    if !ShutdownDue(s) && !SendDue(s) {
      forall run | EnabledRun(s', run) ensures ShutdownIsLast(Run(s', run).c.trace) {
        RunWinding(s', run);
      }
    } else if s.c.IsWriting() {
      DrainThenDue(s');
    } else {
      Unsettled(s');
    }
  }

  // ---- On a foreign thread ----

  /** No thread but `p` is in the middle of a shutdown. */
  ghost predicate NoOther(s: System, p: nat) {
    forall q :: q in s.between && q != p ==> s.between[q].ToSend?
  }

  /** The half-close that is due is the only one: `p` is to queue it, or it is queued once. */
  ghost predicate OneShutdown(s: System, p: nat) {
    var tasks := s.batch + s.pending;
    && NoOther(s, p)
    && (p in s.between && !s.between[p].ToSend? ==> s.between[p] == ToPush && ShutdownTask !in tasks)
    && forall i, j :: 0 <= i < j < |tasks| ==> !(tasks[i] == ShutdownTask && tasks[j] == ShutdownTask)
  }

  /** Not yet half-closed, and all that is left to do is that. */
  ghost predicate Before(s: System, p: nat) {
    && Inv(s) && ClosingInv(s) && !HasShutdown(s.c.trace) && Rank(s.c.state) >= 2
    && !s.c.IsWriting() && !SendDue(s) && OneShutdown(s, p)
  }

  lemma QueueOne(tasks: seq<Task>, t: Task)
    requires forall i, j :: 0 <= i < j < |tasks| ==> !(tasks[i] == ShutdownTask && tasks[j] == ShutdownTask)
    requires t == ShutdownTask ==> ShutdownTask !in tasks
    ensures var more := tasks + [t];
            forall i, j :: 0 <= i < j < |more| ==> !(more[i] == ShutdownTask && more[j] == ShutdownTask)
  {
  }

  lemma LoseFirst(tasks: seq<Task>)
    requires tasks != []
    requires forall i, j :: 0 <= i < j < |tasks| ==> !(tasks[i] == ShutdownTask && tasks[j] == ShutdownTask)
    ensures var less := tasks[1..];
            && (forall i, j :: 0 <= i < j < |less| ==> !(less[i] == ShutdownTask && less[j] == ShutdownTask))
            && (ShutdownTask in less ==> ShutdownTask in tasks)
            && (tasks[0] == ShutdownTask ==> ShutdownTask !in less)
  {
  }

  /** Whatever is not the half-close itself leaves it to be done once. */
  lemma StillOne(s: System, a: Action, p: nat)
    requires Before(s, p) && Enabled(s, a) && !(a.RunTask? && s.batch[0] == ShutdownTask)
    ensures OneShutdown(Step(s, a), p)
  {
    var s' := Step(s, a);
    match a
    case Resume(q) =>
      QueueOne(s.batch + s.pending, TaskOf(s.between[q]));
      assert s'.batch + s'.pending == (s.batch + s.pending) + [TaskOf(s.between[q])];
    case RunTask(w) =>
      LoseFirst(s.batch + s.pending);
      assert s'.batch + s'.pending == (s.batch + s.pending)[1..];
    case SwapQueue => assert s'.batch + s'.pending == s.batch + s.pending;
    case _ =>
  }

  lemma StillBefore(s: System, a: Action, p: nat)
    requires Before(s, p) && Enabled(s, a) && !(a.RunTask? && s.batch[0] == ShutdownTask)
    ensures Before(Step(s, a), p)
  {
    StepInv(s, a);
    StepClosing(s, a);
    StaysClosing(s, a);
    NothingNew(s, a);
    StillOne(s, a, p);
    match a
    case RunTask(w) =>
      assert Due(s, s.batch[0]);
      EmptySend(s.c, s.batch[0].m, w);
      RunOneFinal(s.c, s.batch[0], w);
    case WriteReady(w) => HandleWriteFinal(s.c, w);
    case ReadReady(bytes, _) =>
      EmitFinal(s.c, Received(bytes));
      EmitFinal(s.c, Closed);
    case _ =>
  }

  lemma OnceAndOver(s: System, w: WriteResult, p: nat)
    requires Before(s, p) && Enabled(s, RunTask(w)) && s.batch[0] == ShutdownTask
    ensures Over(Step(s, RunTask(w)))
  {
    var a := RunTask(w);
    StepInv(s, a);
    StepClosing(s, a);
    NotYet(s.c.trace);
    StepFinal(s, a);
    RunOneFinal(s.c, ShutdownTask, w);
    NothingNew(s, a);
    LoseFirst(s.batch + s.pending);
    assert (s.batch + s.pending)[1..] == s.batch[1..] + s.pending;
  }

  lemma {:induction false} RunBefore(s: System, run: seq<Action>, p: nat)
    requires Before(s, p) && EnabledRun(s, run)
    ensures ShutdownIsLast(Run(s, run).c.trace)
    decreases run
  {
    if run == [] {
      NotYet(s.c.trace);
    } else {
      StepInv(s, run[0]);
      if run[0].RunTask? && s.batch[0] == ShutdownTask {
        OnceAndOver(s, run[0].w, p);
        RunOver(Step(s, run[0]), run[1..]);
      } else {
        StillBefore(s, run[0], p);
        RunBefore(Step(s, run[0]), run[1..], p);
      }
    }
  }

  lemma RefusedSendQueues(c: Conn, m: Message)
    requires m.bytes != [] && c.state == Disconnecting && WritesDirectly(c)
    ensures var d := SendInLoop(c, m, WouldBlock);
            d.IsWriting() && d.registered && d.state == Disconnecting
  {
    WriteBit(c.events);
    assert SendInLoop(c, m, WouldBlock) == Queue(Emit(c, Accepted(m)), m.bytes);
  }

  /** A send that the socket refuses leaves the connection writing. */
  lemma RefusedSend(s: System, m: Message)
    requires Inv(s) && s.batch != [] && s.batch[0] == SendTask(m) && m.bytes != []
    requires s.c.state == Disconnecting && !s.c.IsWriting()
    ensures var s' := Step(s, RunTask(WouldBlock));
            s'.c.IsWriting() && s'.c.registered && s'.c.state == Disconnecting && s'.between == s.between
  {
    RefusedSendQueues(s.c, m);
  }

  lemma {:induction false} RunClosing(s: System, run: seq<Action>)
    requires Inv(s) && ClosingInv(s) && EnabledRun(s, run)
    ensures ClosingInv(Run(s, run))
    decreases run
  {
    if run != [] {
      StepInv(s, run[0]);
      StepClosing(s, run[0]);
      RunClosing(Step(s, run[0]), run[1..]);
    }
  }

  /** Every reachable state meets what the theorems here ask of a state. */
  lemma EveryRunClosing(options: Options, run: seq<Action>)
    requires Possible(options, run)
    ensures Inv(After(options, run)) && ClosingInv(After(options, run))
  {
    StartInv(options);
    RunInv(Start(options), run);
    RunClosing(Start(options), run);
  }

  lemma SendSpoils(s: System, p: nat)
    requires Inv(s) && ClosingInv(s) && s.c.state == Disconnecting && !s.c.IsWriting() && SendDue(s)
    requires p in s.between && s.between[p] == ToPush
    ensures !AlwaysFinal(s)
  {
    var m: Message :| m.bytes != [] && Due(s, SendTask(m));
    var run := FetchDue(s, SendTask(m));
    var s1 := Run(s, run);
    RunClosing(s, run);
    RefusedSend(s1, m);
    StepInv(s1, RunTask(WouldBlock));
    StepClosing(s1, RunTask(WouldBlock));
    assert Underway(Step(s1, RunTask(WouldBlock)).between, TaskOf(s.between[p]));
    DrainThenDue(Step(s1, RunTask(WouldBlock)));
    NotFinalBefore(s1, RunTask(WouldBlock));
    NotFinalAfterRun(s, run);
  }

  /** Another half-close is due and one is about to run. */
  lemma SecondComes(s: System, q: nat)
    requires Inv(s) && ClosingInv(s) && !s.c.IsWriting() && s.batch != [] && s.batch[0] == ShutdownTask
    requires q in s.between && !s.between[q].ToSend?
    ensures !AlwaysFinal(s)
  {
    var a := RunTask(WouldBlock);
    RunOneFinal(s.c, ShutdownTask, WouldBlock);
    StepInv(s, a);
    StepClosing(s, a);
    assert Underway(Step(s, a).between, TaskOf(s.between[q]));
    Unsettled(Step(s, a));
    NotFinalBefore(s, a);
  }

  lemma SecondSpoils(s: System, p: nat, q: nat)
    requires Inv(s) && ClosingInv(s) && !s.c.IsWriting()
    requires p in s.between && s.between[p] == ToPush
    requires q in s.between && q != p && !s.between[q].ToSend?
    ensures !AlwaysFinal(s)
  {
    var run := FetchUnderway(s, p);
    RunClosing(s, run);
    SecondComes(Run(s, run), q);
    NotFinalAfterRun(s, run);
  }

  /** The step in which `p` sets the state changes neither what it has buffered nor which sends are due. */
  lemma SetState(s: System, p: nat)
    requires Inv(s) && ClosingInv(s) && s.c.state == Connected && p in s.between && s.between[p] == ToSet
    ensures var s' := Step(s, Resume(p));
            && Inv(s') && ClosingInv(s') && s'.between == s.between[p := ToPush]
            && s'.c == s.c.(state := Disconnecting) && ShutdownDue(s')
            && (SendDue(s') <==> SendDue(s))
            && (NoOther(s', p) <==> NoOther(s, p))
  {
    var s' := Step(s, Resume(p));
    StepInv(s, Resume(p));
    StepClosing(s, Resume(p));
    assert Underway(s'.between, TaskOf(s'.between[p]));
    SetStateSends(s, p);
    assert forall q :: q != p ==> (q in s'.between <==> q in s.between);
    assert forall q :: q != p && q in s.between ==> s'.between[q] == s.between[q];
  }

  lemma SetStateSends(s: System, p: nat)
    requires Inv(s) && p in s.between && s.between[p] == ToSet
    ensures SendDue(Step(s, Resume(p))) <==> SendDue(s)
  {
    var s' := Step(s, Resume(p));
    forall m: Message ensures Due(s', SendTask(m)) <==> Due(s, SendTask(m)) {
      if Underway(s.between, SendTask(m)) {
        var q :| q in s.between && TaskOf(s.between[q]) == SendTask(m);
        assert q in s'.between && TaskOf(s'.between[q]) == SendTask(m);
      }
      if Underway(s'.between, SendTask(m)) {
        var q :| q in s'.between && TaskOf(s'.between[q]) == SendTask(m);
        assert q in s.between && TaskOf(s.between[q]) == SendTask(m);
      }
    }
  }

  /** When a foreign thread that shuts a connected connection down sets the state, the half-close
      is the end in every continuation exactly when nothing is buffered, no send of any byte is
      due, and no other thread is shutting down as well. */
  lemma ForeignShutdownIsFinal(s: System, p: nat)
    requires Inv(s) && ClosingInv(s) && s.c.state == Connected && p in s.between && s.between[p] == ToSet
    ensures Inv(Step(s, Resume(p)))
    ensures AlwaysFinal(Step(s, Resume(p))) <==> !s.c.IsWriting() && !SendDue(s) && NoOther(s, p)
  {
    var s' := Step(s, Resume(p));
    SetState(s, p);
    if s.c.IsWriting() {
      DrainThenDue(s');
    } else if SendDue(s) {
      SendSpoils(s', p);
    } else if !NoOther(s, p) {
      var q :| q in s.between && q != p && !s.between[q].ToSend?;
      SecondSpoils(s', p, q);
    } else {
      forall run | EnabledRun(s', run) ensures ShutdownIsLast(Run(s', run).c.trace) {
        RunBefore(s', run, p);
      }
    }
  }

  /** A reachable instance: one byte that the socket refuses is enough. */
  lemma ForeignShutdownRepeats(options: Options, b: Byte)
    ensures var run := [Establish, LoopSend([b], WouldBlock), ForeignShutdown(1)];
            && Possible(options, run)
            && var s := After(options, run);
               && Inv(s) && s.c.state == Connected && s.c.IsWriting()
               && Enabled(s, Resume(1)) && s.between[1] == ToSet
               && Inv(Step(s, Resume(1))) && !AlwaysFinal(Step(s, Resume(1)))
  {
    StartInv(options);
    var s, rest := Start(options), [LoopSend([b], WouldBlock), ForeignShutdown(1)];
    StepInv(s, Establish);
    EmitFinal(s.c, Established);
    StepClosing(s, Establish);
    BlockedThenTested(Step(s, Establish), b);
    RunCons(s, Establish, rest);
    assert [Establish] + rest == [Establish, LoopSend([b], WouldBlock), ForeignShutdown(1)];
    ForeignShutdownIsFinal(After(options, [Establish] + rest), 1);
  }

  lemma BlockedThenTested(s: System, b: Byte)
    requires Inv(s) && ClosingInv(s) && s.c.state == Connected && s.c.Buffered() == 0 && s.between == map[]
    ensures var run := [LoopSend([b], WouldBlock), ForeignShutdown(1)];
            && EnabledRun(s, run)
            && var s' := Run(s, run);
               && Inv(s') && ClosingInv(s') && s'.c.state == Connected && s'.c.IsWriting()
               && 1 in s'.between && s'.between[1] == ToSet
  {
    var send, test := LoopSend([b], WouldBlock), ForeignShutdown(1);
    StepInv(s, send);
    StepClosing(s, send);
    LoopSendInv(s.c, NextMessage(s, LOOP_THREAD, [b]), WouldBlock);
    SendInLoopKeeps(s.c, NextMessage(s, LOOP_THREAD, [b]), WouldBlock);
    var s1 := Step(s, send);
    StepInv(s1, test);
    StepClosing(s1, test);
    RunCons(s1, test, []);
    RunCons(s, send, [test]);
    assert [send] + [test] == [send, test];
  }
}
