/** When a half-close is the end: at most one of them, and nothing written afterwards. */
module HalfClose {
  import opened Bytes
  import opened Channels
  import opened ConnectionModel
  import opened ConnectionRuns

  ghost predicate HasShutdown(t: seq<Event>) {
    exists i :: 0 <= i < |t| && t[i].WriteShutdown?
  }

  predicate Puts(e: Event) {
    e.Wrote? && e.bytes != []
  }

  /** After a half-close there is neither another one nor any byte written. */
  ghost predicate ShutdownIsLast(t: seq<Event>) {
    forall i, j :: 0 <= i < j < |t| && t[i].WriteShutdown? ==> !t[j].WriteShutdown? && !Puts(t[j])
  }

  lemma NotYet(t: seq<Event>)
    requires !HasShutdown(t)
    ensures ShutdownIsLast(t)
  {
  }

  // ---- What each operation does to it ----

  lemma EmitFinal(c: Conn, e: Event)
    ensures ShutdownIsLast(Emit(c, e).trace)
       <==> ShutdownIsLast(c.trace) && !(HasShutdown(c.trace) && (e.WriteShutdown? || Puts(e)))
    ensures HasShutdown(Emit(c, e).trace) <==> HasShutdown(c.trace) || e.WriteShutdown?
  {
    var t, u := c.trace, Emit(c, e).trace;
    assert u[|t|] == e && forall i :: 0 <= i < |t| ==> u[i] == t[i];
    if HasShutdown(t) {
      var i :| 0 <= i < |t| && t[i].WriteShutdown?;
      assert u[i].WriteShutdown?;
    }
    if ShutdownIsLast(u) {
      forall i, j | 0 <= i < j < |t| && t[i].WriteShutdown? ensures !t[j].WriteShutdown? && !Puts(t[j]) {
        assert u[i] == t[i] && u[j] == t[j];
      }
    }
  }

  lemma QueueFinal(c: Conn, rest: seq<Byte>)
    ensures ShutdownIsLast(Queue(c, rest).trace) <==> ShutdownIsLast(c.trace)
    ensures HasShutdown(Queue(c, rest).trace) <==> HasShutdown(c.trace)
  {
    EmitFinal(c, HighWater(c.Buffered() + |rest|));
  }

  lemma AfterWriteFinal(c: Conn, bytes: seq<Byte>, n: nat)
    requires n <= |bytes|
    ensures ShutdownIsLast(AfterWrite(c, bytes, n).trace)
       <==> ShutdownIsLast(c.trace) && !(HasShutdown(c.trace) && n > 0)
    ensures HasShutdown(AfterWrite(c, bytes, n).trace) <==> HasShutdown(c.trace)
  {
    var d := Emit(c, Wrote(bytes[..n]));
    EmitFinal(c, Wrote(bytes[..n]));
    EmitFinal(d, WriteCompleted);
    QueueFinal(d, bytes[n..]);
  }

  /** sendInLoop gets bytes past the output buffer. */
  predicate WritesNow(c: Conn, w: WriteResult) {
    c.state != Disconnected && !c.IsWriting() && c.Buffered() == 0 && w.Took? && w.n > 0
  }

  lemma SendInLoopFinal(c: Conn, m: Message, w: WriteResult)
    requires LegalWrite(w, |m.bytes|)
    ensures ShutdownIsLast(SendInLoop(c, m, w).trace)
       <==> ShutdownIsLast(c.trace) && !(HasShutdown(c.trace) && WritesNow(c, w))
    ensures HasShutdown(SendInLoop(c, m, w).trace) <==> HasShutdown(c.trace)
  {
    var d := Emit(c, Accepted(m));
    EmitFinal(c, GivenUp(m));
    EmitFinal(c, Accepted(m));
    EmitFinal(c, Faulted(m));
    QueueFinal(d, m.bytes);
    if w.Took? {
      AfterWriteFinal(d, m.bytes, w.n);
    }
  }

  lemma DrainedFinal(c: Conn)
    ensures ShutdownIsLast(Drained(c).trace) ==> ShutdownIsLast(c.trace)
    ensures ShutdownIsLast(c.trace) && !HasShutdown(c.trace) ==> ShutdownIsLast(Drained(c).trace)
    ensures HasShutdown(Drained(c).trace) <==> HasShutdown(c.trace) || c.state == Disconnecting
  {
    var d := c.(events := DrainMask(c.events), registered := true);
    var e := if c.options.onWriteComplete then Emit(d, WriteCompleted) else d;
    WriteBit(c.events);
    EmitFinal(d, WriteCompleted);
    EmitFinal(e, WriteShutdown);
  }

  /** handleWrite gets bytes out. */
  predicate Flushes(c: Conn, w: WriteResult) {
    c.IsWriting() && w.Took? && w.n > 0
  }

  predicate Drains(c: Conn, w: WriteResult) {
    Flushes(c, w) && w.n == c.Buffered()
  }

  lemma HandleWriteFinal(c: Conn, w: WriteResult)
    requires LegalWrite(w, c.Buffered())
    ensures ShutdownIsLast(HandleWrite(c, w).trace)
       <==> ShutdownIsLast(c.trace) && !(HasShutdown(c.trace) && Flushes(c, w))
    ensures HasShutdown(HandleWrite(c, w).trace)
       <==> HasShutdown(c.trace) || (Drains(c, w) && c.state == Disconnecting)
  {
    if Flushes(c, w) {
      var taken := c.out[..w.n];
      EmitFinal(c, Wrote(taken));
      DrainedFinal(Emit(c, Wrote(taken)).(out := c.out[w.n..]));
    }
  }

  /** The drain itself, seen from the outside. */
  lemma HandleWriteDrains(c: Conn, w: WriteResult)
    requires OutputInv(c) && LegalWrite(w, c.Buffered())
    ensures Drains(c, w) ==> !HandleWrite(c, w).IsWriting()
    ensures !Drains(c, w) ==> HandleWrite(c, w).IsWriting() == c.IsWriting()
    ensures HandleWrite(c, w).state == c.state
  {
    WriteBit(c.events);
  }

  lemma RunOneFinal(c: Conn, t: Task, w: WriteResult)
    requires (t.SendTask? ==> LegalWrite(w, |t.m.bytes|))
    ensures ShutdownIsLast(RunOne(c, t, w).trace)
       <==> ShutdownIsLast(c.trace)
            && !(HasShutdown(c.trace) && if t.SendTask? then WritesNow(c, w) else !c.IsWriting())
    ensures HasShutdown(RunOne(c, t, w).trace) <==> HasShutdown(c.trace) || (t.ShutdownTask? && !c.IsWriting())
  {
    if t.SendTask? {
      SendInLoopFinal(c, t.m, w);
    } else {
      EmitFinal(c, WriteShutdown);
    }
  }

  // ---- What is still to come ----

  /** What a foreign thread in the middle of a call is going to queue. */
  function TaskOf(pc: Pc): Task {
    if pc.ToSend? then SendTask(pc.m) else ShutdownTask
  }

  ghost predicate Underway(between: map<nat, Pc>, t: Task) {
    exists p :: p in between && TaskOf(between[p]) == t
  }

  /** The call is queued, or a foreign thread is about to queue it. */
  ghost predicate Due(s: System, t: Task) {
    t in s.batch || t in s.pending || Underway(s.between, t)
  }

  ghost predicate ShutdownDue(s: System) {
    Due(s, ShutdownTask)
  }

  /** A send of at least one byte is due. */
  ghost predicate SendDue(s: System) {
    exists m: Message :: m.bytes != [] && Due(s, SendTask(m))
  }

  /** Nobody half-closes, or queues a half-close, before the state says so. */
  ghost predicate ClosingInv(s: System) {
    && (HasShutdown(s.c.trace) || ShutdownTask in s.batch || ShutdownTask in s.pending ==> Rank(s.c.state) >= 2)
    && forall p :: p in s.between && s.between[p] == ToPush ==> Rank(s.c.state) >= 2
  }

  /** Once the state has left Connected, nothing new becomes due and it never comes back. */
  lemma DueShrinks(s: System, a: Action, t: Task)
    requires Inv(s) && Enabled(s, a) && Rank(s.c.state) >= 2 && Due(Step(s, a), t)
    ensures Due(s, t)
  {
    var s' := Step(s, a);
    if Underway(s'.between, t) {
      var p :| p in s'.between && TaskOf(s'.between[p]) == t;
      assert p in s.between && TaskOf(s.between[p]) == t;
    } else if a.Resume? && t == TaskOf(s.between[a.p]) {
      assert Underway(s.between, t);
    }
  }

  lemma StaysClosing(s: System, a: Action)
    requires Inv(s) && Enabled(s, a)
    ensures Rank(s.c.state) >= 2 ==> Rank(Step(s, a).c.state) >= 2
  {
    StepForward(s, a);
  }

  /** A step half-closes only when the state has left Connected. */
  lemma StepShutdown(s: System, a: Action)
    requires Inv(s) && ClosingInv(s) && Enabled(s, a)
    ensures HasShutdown(s.c.trace) ==> HasShutdown(Step(s, a).c.trace)
    ensures HasShutdown(Step(s, a).c.trace) ==> HasShutdown(s.c.trace) || Rank(Step(s, a).c.state) >= 2
  {
    match a
    case Establish => EmitFinal(s.c, Established);
    case LoopSend(bytes, w) => SendInLoopFinal(s.c, NextMessage(s, LOOP_THREAD, bytes), w);
    case LoopShutdown => EmitFinal(s.c.(state := Disconnecting), WriteShutdown);
    case RunTask(w) =>
      RunOneFinal(s.c, s.batch[0], w);
      StaysClosing(s, a);
    case WriteReady(w) =>
      HandleWriteFinal(s.c, w);
      StaysClosing(s, a);
    case ReadReady(bytes, _) =>
      EmitFinal(s.c, Received(bytes));
      EmitFinal(s.c, Closed);
    case _ =>
  }

  lemma StepClosing(s: System, a: Action)
    requires Inv(s) && ClosingInv(s) && Enabled(s, a)
    ensures ClosingInv(Step(s, a))
  {
    StepShutdown(s, a);
    StaysClosing(s, a);
  }

  /** The step acts on a socket that is already half-closed. */
  ghost predicate Late(s: System, a: Action)
    requires Enabled(s, a)
  {
    HasShutdown(s.c.trace) &&
    match a
    case RunTask(w) => if s.batch[0].SendTask? then WritesNow(s.c, w) else !s.c.IsWriting()
    case WriteReady(w) => Flushes(s.c, w)
    case _ => false
  }

  lemma StepFinal(s: System, a: Action)
    requires Inv(s) && ClosingInv(s) && Enabled(s, a)
    ensures ShutdownIsLast(Step(s, a).c.trace) <==> ShutdownIsLast(s.c.trace) && !Late(s, a)
  {
    match a
    case Establish => EmitFinal(s.c, Established);
    case LoopSend(bytes, w) => SendInLoopFinal(s.c, NextMessage(s, LOOP_THREAD, bytes), w);
    case LoopShutdown => EmitFinal(s.c.(state := Disconnecting), WriteShutdown);
    case RunTask(w) => RunOneFinal(s.c, s.batch[0], w);
    case WriteReady(w) => HandleWriteFinal(s.c, w);
    case ReadReady(bytes, _) =>
      EmitFinal(s.c, Received(bytes));
      EmitFinal(s.c, Closed);
    case _ =>
  }

  // ---- Every continuation ----

  ghost predicate AlwaysFinal(s: System)
    requires Inv(s)
  {
    forall run :: EnabledRun(s, run) ==> ShutdownIsLast(Run(s, run).c.trace)
  }

  // ---- From a half-close on ----

  /** The bytes that are buffered can never be flushed, or nothing that is due can reach the socket. */
  ghost predicate Settled(s: System) {
    if s.c.IsWriting() then !s.c.registered
    else !ShutdownDue(s) && (s.c.state == Disconnected || !SendDue(s))
  }

  /** What is kept in every continuation once the half-close is settled. */
  ghost predicate Over(s: System) {
    Inv(s) && ClosingInv(s) && HasShutdown(s.c.trace) && ShutdownIsLast(s.c.trace) && Settled(s)
  }

  lemma EmptySend(c: Conn, m: Message, w: WriteResult)
    requires OutputInv(c) && LegalWrite(w, |m.bytes|) && m.bytes == []
    ensures var d := SendInLoop(c, m, w);
            d.events == c.events && d.registered == c.registered && d.state == c.state
  {
  }

  lemma BlockedStays(c: Conn, t: Task, w: WriteResult)
    requires (t.SendTask? ==> LegalWrite(w, |t.m.bytes|)) && c.IsWriting() && !c.registered
    ensures RunOne(c, t, w).IsWriting() && !RunOne(c, t, w).registered
  {
    WriteBit(c.events);
  }

  lemma RunTaskSettled(s: System, w: WriteResult)
    requires Over(s) && Enabled(s, RunTask(w))
    ensures !Late(s, RunTask(w)) && Settled(Step(s, RunTask(w)))
  {
    var t, s' := s.batch[0], Step(s, RunTask(w));
    if s.c.IsWriting() {
      BlockedStays(s.c, t, w);
    } else {
      assert Due(s, t);
      if s.c.state != Disconnected {
        EmptySend(s.c, t.m, w);
      }
      NothingNew(s, RunTask(w));
    }
  }

  /** Once closing, a step makes neither a half-close nor a send due. */
  lemma NothingNew(s: System, a: Action)
    requires Inv(s) && Enabled(s, a) && Rank(s.c.state) >= 2
    ensures ShutdownDue(Step(s, a)) ==> ShutdownDue(s)
    ensures SendDue(Step(s, a)) ==> SendDue(s)
  {
    var s' := Step(s, a);
    if ShutdownDue(s') {
      DueShrinks(s, a, ShutdownTask);
    }
    if SendDue(s') {
      var m: Message :| m.bytes != [] && Due(s', SendTask(m));
      DueShrinks(s, a, SendTask(m));
    }
  }

  lemma StepSettled(s: System, a: Action)
    requires Over(s) && Enabled(s, a)
    ensures !Late(s, a) && Settled(Step(s, a))
  {
    match a
    case RunTask(w) => RunTaskSettled(s, w);
    case Resume(p) =>
      NothingNew(s, a);
      assert Underway(s.between, TaskOf(s.between[p]));
    case _ => NothingNew(s, a);
  }

  lemma StepOver(s: System, a: Action)
    requires Over(s) && Enabled(s, a)
    ensures Over(Step(s, a))
  {
    StepInv(s, a);
    StepClosing(s, a);
    StepShutdown(s, a);
    StepSettled(s, a);
    StepFinal(s, a);
  }

  lemma {:induction false} RunOver(s: System, run: seq<Action>)
    requires Over(s) && EnabledRun(s, run)
    ensures Over(Run(s, run))
    decreases run
  {
    if run != [] {
      StepOver(s, run[0]);
      RunOver(Step(s, run[0]), run[1..]);
    }
  }

  // ---- Reaching what is due ----

  /** The same connection but for its trace, which shows a half-close if it did. */
  ghost predicate Alike(c: Conn, d: Conn) {
    d == c.(trace := d.trace) && (HasShutdown(c.trace) ==> HasShutdown(d.trace))
  }

  /** With nothing buffered, a queued call can be got out of the way by a peer that is gone. */
  lemma SkipOne(s: System)
    requires Inv(s) && s.batch != [] && !s.c.IsWriting()
    ensures var s' := Step(s, RunTask(PeerGone));
            && s' == s.(c := s'.c, batch := s.batch[1..])
            && Alike(s.c, s'.c)
            && (s.batch[0] == ShutdownTask ==> HasShutdown(s'.c.trace))
  {
    RunOneFinal(s.c, s.batch[0], PeerGone);
  }

  lemma {:induction false} Skip(s: System, n: nat) returns (run: seq<Action>)
    requires Inv(s) && n <= |s.batch| && !s.c.IsWriting()
    ensures EnabledRun(s, run)
    ensures var s' := Run(s, run);
            Inv(s') && s' == s.(c := s'.c, batch := s.batch[n..]) && Alike(s.c, s'.c)
    decreases n
  {
    run := [];
    if n > 0 {
      SkipOne(s);
      StepInv(s, RunTask(PeerGone));
      var rest := Skip(Step(s, RunTask(PeerGone)), n - 1);
      RunCons(s, RunTask(PeerGone), rest);
      run := [RunTask(PeerGone)] + rest;
    }
  }

  lemma TakeQueue(s: System) returns (run: seq<Action>)
    requires Inv(s) && !s.c.IsWriting()
    ensures EnabledRun(s, run)
    ensures var s' := Run(s, run);
            Inv(s') && s' == s.(c := s'.c, batch := s.pending, pending := []) && Alike(s.c, s'.c)
  {
    var skip := Skip(s, |s.batch|);
    var s1 := Run(s, skip);
    StepInv(s1, SwapQueue);
    RunCons(s1, SwapQueue, []);
    RunConcat(s, skip, [SwapQueue]);
    run := skip + [SwapQueue];
  }

  /** A queued call can be made the next one to run. */
  lemma Fetch(s: System, t: Task) returns (run: seq<Action>)
    requires Inv(s) && !s.c.IsWriting() && (t in s.batch || t in s.pending)
    ensures EnabledRun(s, run)
    ensures var s' := Run(s, run);
            Inv(s') && s'.between == s.between && Alike(s.c, s'.c) && s'.batch != [] && s'.batch[0] == t
  {
    if t in s.batch {
      var k :| 0 <= k < |s.batch| && s.batch[k] == t;
      run := Skip(s, k);
    } else {
      var take := TakeQueue(s);
      var s1 := Run(s, take);
      var k :| 0 <= k < |s1.batch| && s1.batch[k] == t;
      var skip := Skip(s1, k);
      RunConcat(s, take, skip);
      run := take + skip;
    }
  }

  /** One step of a foreign call whose message or half-close is to be queued. */
  lemma Queues(s: System, p: nat)
    requires Inv(s) && p in s.between && s.between[p] != ToSet
    ensures var s' := Step(s, Resume(p));
            && Inv(s') && s'.c == s.c && s'.between == s.between - {p}
            && TaskOf(s.between[p]) in s'.pending
  {
    StepInv(s, Resume(p));
  }

  /** And so can a call that is only due; at most the state becomes Disconnecting on the way. */
  lemma FetchDue(s: System, t: Task) returns (run: seq<Action>)
    requires Inv(s) && !s.c.IsWriting() && Due(s, t)
    ensures EnabledRun(s, run)
    ensures var s' := Run(s, run);
            && Inv(s') && s'.batch != [] && s'.batch[0] == t
            && (Alike(s.c, s'.c) || Alike(s.c.(state := Disconnecting), s'.c))
            && forall q :: q in s.between && TaskOf(s.between[q]) != t ==>
                 q in s'.between && s'.between[q] == s.between[q]
  {
    if t in s.batch || t in s.pending {
      run := Fetch(s, t);
    } else {
      var p :| p in s.between && TaskOf(s.between[p]) == t;
      if s.between[p] == ToSet {
        StepInv(s, Resume(p));
        var rest := FetchUnderway(Step(s, Resume(p)), p);
        RunCons(s, Resume(p), rest);
        run := [Resume(p)] + rest;
      } else {
        run := FetchUnderway(s, p);
      }
    }
  }

  lemma FetchUnderway(s: System, p: nat) returns (run: seq<Action>)
    requires Inv(s) && !s.c.IsWriting() && p in s.between && s.between[p] != ToSet
    ensures EnabledRun(s, run)
    ensures var s' := Run(s, run);
            && Inv(s') && s'.between == s.between - {p} && Alike(s.c, s'.c)
            && s'.batch != [] && s'.batch[0] == TaskOf(s.between[p])
  {
    Queues(s, p);
    var rest := Fetch(Step(s, Resume(p)), TaskOf(s.between[p]));
    RunCons(s, Resume(p), rest);
    run := [Resume(p)] + rest;
  }

  /** Runs one more step after a run, and finds the half-close not to be the end. */
  lemma OneMore(s: System, run: seq<Action>, a: Action)
    requires Inv(s) && EnabledRun(s, run) && Inv(Run(s, run)) && Enabled(Run(s, run), a)
    requires !ShutdownIsLast(Step(Run(s, run), a).c.trace)
    ensures !AlwaysFinal(s)
  {
    var s' := Run(s, run);
    StepInv(s', a);
    RunCons(s', a, []);
    RunConcat(s, run, [a]);
    assert EnabledRun(s, run + [a]) && !ShutdownIsLast(Run(s, run + [a]).c.trace);
  }

  /** Whatever is not settled can come to break the half-close. */
  lemma Unsettled(s: System)
    requires Inv(s) && ClosingInv(s) && HasShutdown(s.c.trace) && !Settled(s)
    ensures !AlwaysFinal(s)
  {
    if s.c.IsWriting() {
      var a := WriteReady(Took(1));
      HandleWriteFinal(s.c, Took(1));
      OneMore(s, [], a);
    } else if ShutdownDue(s) {
      var run := FetchDue(s, ShutdownTask);
      RunOneFinal(Run(s, run).c, ShutdownTask, WouldBlock);
      OneMore(s, run, RunTask(WouldBlock));
    } else {
      var m: Message :| m.bytes != [] && Due(s, SendTask(m));
      var run := FetchDue(s, SendTask(m));
      RunInv(s, run);
      RunOneFinal(Run(s, run).c, SendTask(m), Took(|m.bytes|));
      OneMore(s, run, RunTask(Took(|m.bytes|)));
    }
  }

  /** From a state in which the socket is half-closed, that is the end in every continuation
      exactly when it is settled. */
  lemma FinalIffSettled(s: System)
    requires Inv(s) && ClosingInv(s) && HasShutdown(s.c.trace) && ShutdownIsLast(s.c.trace)
    ensures AlwaysFinal(s) <==> Settled(s)
  {
    if Settled(s) {
      forall run | EnabledRun(s, run) ensures ShutdownIsLast(Run(s, run).c.trace) {
        RunOver(s, run);
      }
    } else {
      Unsettled(s);
    }
  }
}
