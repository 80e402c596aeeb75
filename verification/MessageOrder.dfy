/** What becomes of each thread's messages: none is lost, changed, repeated or reordered on its
    way from send through the queue to sendInLoop. */
module MessageOrder {
  import opened Bytes
  import opened ConnectionModel
  import opened ConnectionRuns

  function MessagesOf(tasks: seq<Task>): seq<Message> {
    if tasks == [] then []
    else (if tasks[0].SendTask? then [tasks[0].m] else []) + MessagesOf(tasks[1..])
  }

  /** The messages of one thread, in order. */
  function Of(line: seq<Message>, p: nat): seq<Message> {
    if line == [] then [] else
      var last := line[|line| - 1];
      Of(line[..|line| - 1], p) + (if last.producer == p then [last] else [])
  }

  /** The message that `p` has tested the state for and not yet queued. */
  function Held(s: System, p: nat): seq<Message> {
    if p in s.between && s.between[p].ToSend? then [s.between[p].m] else []
  }

  /** The messages of `p` wherever they are: executed, taken, waiting, or still with `p`. */
  function Everywhere(s: System, p: nat): seq<Message> {
    Of(Executed(s.c.trace), p) + Of(MessagesOf(s.batch), p) + Of(MessagesOf(s.pending), p) + Held(s, p)
  }

  /** What `p` sends by the step: nothing unless the connection is then connected. */
  function Sends(s: System, a: Action, p: nat): seq<Message> {
    if s.c.state == Connected && ((a.LoopSend? && p == LOOP_THREAD) || (a.ForeignSend? && a.p == p))
    then [NextMessage(s, p, a.bytes)]
    else []
  }

  function SentBy(s: System, run: seq<Action>, p: nat): seq<Message>
    requires Inv(s) && EnabledRun(s, run)
    decreases run
  {
    if run == [] then []
    else (StepInv(s, run[0]); Sends(s, run[0], p) + SentBy(Step(s, run[0]), run[1..], p))
  }

  ghost predicate QueueInv(s: System) {
    && Of(MessagesOf(s.batch), LOOP_THREAD) == [] && Of(MessagesOf(s.pending), LOOP_THREAD) == []
    && LOOP_THREAD !in s.between
    && forall p :: p in s.between && s.between[p].ToSend? ==> s.between[p].m.producer == p
  }

  lemma OfSnoc(line: seq<Message>, m: Message, p: nat)
    ensures Of(line + [m], p) == Of(line, p) + (if m.producer == p then [m] else [])
  {
    assert (line + [m])[..|line|] == line;
  }

  lemma {:induction false} OfConcat(a: seq<Message>, b: seq<Message>, p: nat)
    ensures Of(a + b, p) == Of(a, p) + Of(b, p)
    decreases |b|
  {
    if b == [] {
      assert a + b == a;
    } else {
      var init, last := b[..|b| - 1], b[|b| - 1];
      assert a + b == (a + init) + [last] && b == init + [last];
      OfSnoc(a + init, last, p);
      OfSnoc(init, last, p);
      OfConcat(a, init, p);
    }
  }

  lemma {:induction false} MessagesSnoc(tasks: seq<Task>, t: Task)
    ensures MessagesOf(tasks + [t]) == MessagesOf(tasks) + (if t.SendTask? then [t.m] else [])
  {
    if tasks == [] {
      assert tasks + [t] == [t];
      assert [t][1..] == [];
    } else {
      MessagesSnoc(tasks[1..], t);
      assert (tasks + [t])[1..] == tasks[1..] + [t];
    }
  }

  // ---- What each operation executes ----

  lemma QueueExecuted(c: Conn, rest: seq<Byte>)
    ensures Executed(Queue(c, rest).trace) == Executed(c.trace)
  {
    ExecutedSnoc(c.trace, HighWater(c.Buffered() + |rest|));
  }

  lemma AfterWriteExecuted(c: Conn, bytes: seq<Byte>, n: nat)
    requires n <= |bytes|
    ensures Executed(AfterWrite(c, bytes, n).trace) == Executed(c.trace)
  {
    var d := Emit(c, Wrote(bytes[..n]));
    ExecutedSnoc(c.trace, Wrote(bytes[..n]));
    ExecutedSnoc(d.trace, WriteCompleted);
    QueueExecuted(d, bytes[n..]);
  }

  /** sendInLoop decides about its message once: accepted, faulted or given up, always whole. */
  lemma SendInLoopExecuted(c: Conn, m: Message, w: WriteResult)
    requires LegalWrite(w, |m.bytes|)
    ensures Executed(SendInLoop(c, m, w).trace) == Executed(c.trace) + [m]
  {
    if c.state == Disconnected {
      ExecutedSnoc(c.trace, GivenUp(m));
    } else {
      var d := Emit(c, Accepted(m));
      ExecutedSnoc(c.trace, Accepted(m));
      if c.IsWriting() || c.Buffered() > 0 {
        QueueExecuted(d, m.bytes);
      } else {
        WriteDirectlyExecuted(c, m, w);
      }
    }
  }

  lemma WriteDirectlyExecuted(c: Conn, m: Message, w: WriteResult)
    requires LegalWrite(w, |m.bytes|)
    ensures Executed(WriteDirectly(c, m, w).trace) == Executed(c.trace) + [m]
  {
    ExecutedSnoc(c.trace, Accepted(m));
    match w
    case PeerGone => ExecutedSnoc(c.trace, Faulted(m));
    case Took(n) => AfterWriteExecuted(Emit(c, Accepted(m)), m.bytes, n);
    case _ => QueueExecuted(Emit(c, Accepted(m)), m.bytes);
  }

  lemma ShutdownInLoopExecuted(c: Conn)
    ensures Executed(ShutdownInLoop(c).trace) == Executed(c.trace)
  {
    ExecutedSnoc(c.trace, WriteShutdown);
  }

  lemma DrainedExecuted(c: Conn)
    ensures Executed(Drained(c).trace) == Executed(c.trace)
  {
    var d := c.(events := DrainMask(c.events), registered := true);
    ExecutedSnoc(c.trace, WriteCompleted);
    ShutdownInLoopExecuted(if c.options.onWriteComplete then Emit(d, WriteCompleted) else d);
  }

  lemma HandleWriteExecuted(c: Conn, w: WriteResult)
    requires OutputInv(c) && LegalWrite(w, c.Buffered())
    ensures Executed(HandleWrite(c, w).trace) == Executed(c.trace)
  {
    if c.IsWriting() && w.Took? && w.n > 0 {
      var taken := c.out[..w.n];
      ExecutedSnoc(c.trace, Wrote(taken));
      DrainedExecuted(Emit(c, Wrote(taken)).(out := c.out[w.n..]));
    }
  }

  // ---- Nothing is lost ----

  lemma OfSingle(m: Message, p: nat)
    ensures Of([m], p) == if m.producer == p then [m] else []
  {
    assert [m] == [] + [m];
    OfSnoc([], m, p);
  }

  /** Only a send on the loop thread and a queued call execute messages. */
  lemma QuietExecuted(s: System, a: Action)
    requires Inv(s) && Enabled(s, a) && !a.LoopSend? && !a.RunTask?
    ensures Executed(Step(s, a).c.trace) == Executed(s.c.trace)
  {
    match a
    case Establish => ExecutedSnoc(s.c.trace, Established);
    case LoopShutdown => ShutdownInLoopExecuted(s.c.(state := Disconnecting));
    case WriteReady(w) => HandleWriteExecuted(s.c, w);
    case ReadReady(bytes, taken) =>
      ExecutedSnoc(s.c.trace, Received(bytes));
      ExecutedSnoc(s.c.trace, Closed);
    case _ =>
  }

  lemma LoopSendExecuted(s: System, bytes: seq<Byte>, w: WriteResult)
    requires Inv(s) && Enabled(s, LoopSend(bytes, w))
    ensures var a := LoopSend(bytes, w);
            Executed(Step(s, a).c.trace) == Executed(s.c.trace) + Sends(s, a, LOOP_THREAD)
  {
    if s.c.state == Connected {
      SendInLoopExecuted(s.c, NextMessage(s, LOOP_THREAD, bytes), w);
    } else {
      assert Executed(s.c.trace) + [] == Executed(s.c.trace);
    }
  }

  /** The messages of a task list with `t` in front. */
  function MessageOf(t: Task): seq<Message> {
    if t.SendTask? then [t.m] else []
  }

  lemma RunTaskExecuted(s: System, w: WriteResult)
    requires Inv(s) && Enabled(s, RunTask(w))
    ensures Executed(Step(s, RunTask(w)).c.trace) == Executed(s.c.trace) + MessageOf(s.batch[0])
    ensures MessagesOf(s.batch) == MessageOf(s.batch[0]) + MessagesOf(s.batch[1..])
  {
    if s.batch[0].SendTask? {
      SendInLoopExecuted(s.c, s.batch[0].m, w);
    } else {
      ShutdownInLoopExecuted(s.c);
      assert Executed(s.c.trace) + [] == Executed(s.c.trace);
    }
  }

  /** How the four places of one thread's messages change, by the kind of step. */
  ghost predicate Moved(s: System, a: Action, s': System, p: nat) {
    var e, b, w, h := Of(Executed(s.c.trace), p), Of(MessagesOf(s.batch), p), Of(MessagesOf(s.pending), p), Held(s, p);
    var e', b', w', h' :=
      Of(Executed(s'.c.trace), p), Of(MessagesOf(s'.batch), p), Of(MessagesOf(s'.pending), p), Held(s', p);
    match a
    case LoopSend(_, _) =>
      e' == e + Sends(s, a, p) && b' == b && w' == w && h' == h && (p == LOOP_THREAD ==> b + w + h == [])
    case ForeignSend(_, _) => e' == e && b' == b && w' == w && h' == h + Sends(s, a, p)
    case Resume(_) => e' == e && b' == b && w' + h' == w + h
    case SwapQueue => e' == e && b == [] && b' == w && w' == [] && h' == h
    case RunTask(_) => e' + b' == e + b && w' == w && h' == h
    case _ => e' == e && b' == b && w' == w && h' == h
  }

  lemma LoopSendMoves(s: System, bytes: seq<Byte>, w: WriteResult, p: nat)
    requires Inv(s) && QueueInv(s) && Enabled(s, LoopSend(bytes, w))
    ensures Moved(s, LoopSend(bytes, w), Step(s, LoopSend(bytes, w)), p)
  {
    LoopSendExecuted(s, bytes, w);
    OfConcat(Executed(s.c.trace), Sends(s, LoopSend(bytes, w), LOOP_THREAD), p);
    OfSingle(NextMessage(s, LOOP_THREAD, bytes), p);
  }

  lemma ResumeQueues(s: System, q: nat)
    requires Inv(s) && Enabled(s, Resume(q))
    ensures MessagesOf(Step(s, Resume(q)).pending) == MessagesOf(s.pending) + Held(s, q)
  {
    match s.between[q]
    case ToSend(m) => MessagesSnoc(s.pending, SendTask(m));
    case ToSet => assert MessagesOf(s.pending) + [] == MessagesOf(s.pending);
    case ToPush => MessagesSnoc(s.pending, ShutdownTask);
  }

  /** One's own message moves from the thread to the queue; nobody else's is touched. */
  lemma HeldMoves(s: System, q: nat, p: nat)
    requires Inv(s) && QueueInv(s) && Enabled(s, Resume(q))
    ensures Of(Held(s, q), p) + Held(Step(s, Resume(q)), p) == Held(s, p)
  {
    if s.between[q].ToSend? {
      OfSingle(s.between[q].m, p);
    }
  }

  lemma ResumeMoves(s: System, q: nat, p: nat)
    requires Inv(s) && QueueInv(s) && Enabled(s, Resume(q))
    ensures Moved(s, Resume(q), Step(s, Resume(q)), p)
  {
    QuietExecuted(s, Resume(q));
    ResumeQueues(s, q);
    HeldMoves(s, q, p);
    OfConcat(MessagesOf(s.pending), Held(s, q), p);
    Associate(Of(MessagesOf(s.pending), p), Of(Held(s, q), p), Held(Step(s, Resume(q)), p));
  }

  lemma RunTaskMoves(s: System, w: WriteResult, p: nat)
    requires Inv(s) && QueueInv(s) && Enabled(s, RunTask(w))
    ensures Moved(s, RunTask(w), Step(s, RunTask(w)), p)
  {
    var done, now, rest := Executed(s.c.trace), MessageOf(s.batch[0]), MessagesOf(s.batch[1..]);
    RunTaskExecuted(s, w);
    OfConcat(done, now, p);
    OfConcat(now, rest, p);
    Associate(Of(done, p), Of(now, p), Of(rest, p));
    RunTaskStays(s, w, p);
  }

  lemma RunTaskStays(s: System, w: WriteResult, p: nat)
    requires Inv(s) && Enabled(s, RunTask(w))
    ensures var s' := Step(s, RunTask(w));
            s'.batch == s.batch[1..] && s'.pending == s.pending && Held(s', p) == Held(s, p)
  {
  }

  lemma StepMoves(s: System, a: Action, p: nat)
    requires Inv(s) && QueueInv(s) && Enabled(s, a)
    ensures Moved(s, a, Step(s, a), p)
  {
    match a
    case LoopSend(bytes, w) => LoopSendMoves(s, bytes, w, p);
    case Resume(q) => ResumeMoves(s, q, p);
    case RunTask(w) => RunTaskMoves(s, w, p);
    case _ => QuietExecuted(s, a);
  }

  lemma MovedOn(e: seq<Message>, b: seq<Message>, w: seq<Message>, h: seq<Message>, x: seq<Message>)
    ensures b == [] && w == [] && h == [] ==> (e + x) + b + w + h == e + b + w + h + x
    ensures e + b + w + (h + x) == e + b + w + h + x
    ensures b == [] ==> e + w + [] + h == e + b + w + h
    ensures e + b + w + h + [] == e + b + w + h
  {
  }

  lemma Regrouped(e: seq<Message>, b: seq<Message>, w: seq<Message>, h: seq<Message>)
    ensures e + b + w + h == e + b + (w + h)
  {
  }

  /** Whatever moves, the messages of a thread taken together only gain what it sends. */
  lemma MovedTogether(s: System, a: Action, s': System, p: nat)
    requires Moved(s, a, s', p)
    ensures Everywhere(s', p) == Everywhere(s, p) + Sends(s, a, p)
  {
    var e, b, w, h := Of(Executed(s.c.trace), p), Of(MessagesOf(s.batch), p), Of(MessagesOf(s.pending), p), Held(s, p);
    MovedOn(e, b, w, h, Sends(s, a, p));
    match a
    case LoopSend(_, _) => assert p == LOOP_THREAD ==> |b + w + h| == 0;
    case Resume(_) =>
      Regrouped(e, b, w, h);
      Regrouped(e, b, Of(MessagesOf(s'.pending), p), Held(s', p));
    case _ =>
  }

  lemma StepQueueInv(s: System, a: Action)
    requires Inv(s) && QueueInv(s) && Enabled(s, a)
    ensures QueueInv(Step(s, a))
  {
    match a
    case Resume(q) =>
      match s.between[q] {
        case ToSend(m) =>
          MessagesSnoc(s.pending, SendTask(m));
          OfSnoc(MessagesOf(s.pending), m, LOOP_THREAD);
        case ToSet =>
        case ToPush =>
          MessagesSnoc(s.pending, ShutdownTask);
          assert MessagesOf(s.pending) + [] == MessagesOf(s.pending);
      }
    case RunTask(w) => OfConcat(MessageOf(s.batch[0]), MessagesOf(s.batch[1..]), LOOP_THREAD);
    case _ =>
  }

  lemma {:induction false} RunSends(s: System, run: seq<Action>, p: nat)
    requires Inv(s) && QueueInv(s) && EnabledRun(s, run)
    ensures Everywhere(Run(s, run), p) == Everywhere(s, p) + SentBy(s, run, p)
    decreases run
  {
    if run != [] {
      StepInv(s, run[0]);
      StepMoves(s, run[0], p);
      MovedTogether(s, run[0], Step(s, run[0]), p);
      StepQueueInv(s, run[0]);
      RunSends(Step(s, run[0]), run[1..], p);
      Associate(Everywhere(s, p), Sends(s, run[0], p), SentBy(Step(s, run[0]), run[1..], p));
    }
  }

  lemma Associate(a: seq<Message>, b: seq<Message>, c: seq<Message>)
    ensures a + b + c == a + (b + c)
  {
  }

  /** In every run, and for each thread: the messages it sent while connected are, byte for byte
      and in order, those executed, then those taken, then those waiting, then one it may hold. */
  lemma NoMessageLost(options: Options, run: seq<Action>, p: nat)
    requires Possible(options, run)
    ensures (StartInv(options); Everywhere(After(options, run), p) == SentBy(Start(options), run, p))
  {
    StartInv(options);
    RunSends(Start(options), run, p);
  }

  // ---- The order of the messages ----

  ghost predicate Rising(line: seq<Message>) {
    forall i, j :: 0 <= i < j < |line| ==> line[i].index < line[j].index
  }

  /** Each thread's messages keep the order of its calls, none twice. */
  ghost predicate InOrder(line: seq<Message>) {
    forall i, j :: 0 <= i < j < |line| && line[i].producer == line[j].producer ==> line[i].index < line[j].index
  }

  /** All of them numbered at least `n`. */
  ghost predicate From(line: seq<Message>, n: nat) {
    forall i :: 0 <= i < |line| ==> line[i].index >= n
  }

  /** A thread's calls are numbered from its count on. */
  lemma {:induction false} SentRising(s: System, run: seq<Action>, p: nat)
    requires Inv(s) && EnabledRun(s, run)
    ensures Rising(SentBy(s, run, p)) && From(SentBy(s, run, p), Count(s.sent, p))
    decreases run
  {
    if run != [] {
      StepInv(s, run[0]);
      SentRising(Step(s, run[0]), run[1..], p);
      StepCounts(s, run[0], p);
      RisingCons(Sends(s, run[0], p), SentBy(Step(s, run[0]), run[1..], p),
                 Count(s.sent, p), Count(Step(s, run[0]).sent, p));
    }
  }

  lemma StepCounts(s: System, a: Action, p: nat)
    requires Inv(s) && Enabled(s, a)
    ensures Count(Step(s, a).sent, p) >= Count(s.sent, p)
    ensures Sends(s, a, p) != [] ==> Sends(s, a, p)[0].index == Count(s.sent, p) < Count(Step(s, a).sent, p)
  {
  }

  lemma RisingCons(now: seq<Message>, later: seq<Message>, n: nat, n': nat)
    requires |now| <= 1 && n <= n' && Rising(later) && From(later, n')
    requires now != [] ==> now[0].index == n < n'
    ensures Rising(now + later) && From(now + later, n)
  {
  }

  lemma {:induction false} IsAmong(line: seq<Message>, i: nat)
    requires i < |line|
    ensures line[i] in Of(line, line[i].producer)
  {
    if i < |line| - 1 {
      IsAmong(line[..|line| - 1], i);
    }
  }

  lemma {:induction false} RisingIsInOrder(line: seq<Message>)
    requires forall p :: Rising(Of(line, p))
    ensures InOrder(line)
  {
    if line != [] {
      var init, last := line[..|line| - 1], line[|line| - 1];
      forall p ensures Rising(Of(init, p)) {
        RisingPrefix(Of(line, p), Of(init, p));
      }
      RisingIsInOrder(init);
      forall i | 0 <= i < |init| && init[i].producer == last.producer
        ensures init[i].index < last.index
      {
        IsAmong(init, i);
        assert Rising(Of(line, last.producer)) && Of(line, last.producer) == Of(init, last.producer) + [last];
        BeforeLast(Of(init, last.producer), last, init[i]);
      }
    }
  }

  lemma RisingPrefix(line: seq<Message>, part: seq<Message>)
    requires Rising(line) && part <= line
    ensures Rising(part)
  {
  }

  lemma BeforeLast(line: seq<Message>, last: Message, m: Message)
    requires Rising(line + [last]) && m in line
    ensures m.index < last.index
  {
    var i :| 0 <= i < |line| && line[i] == m;
    assert (line + [last])[i] == m && (line + [last])[|line|] == last;
  }

  /** In every run, messages reach sendInLoop at most once each, and those of one thread in
      the order in which it sent them, whether it is the loop thread or a foreign one. */
  lemma PerThreadOrder(options: Options, run: seq<Action>)
    requires Possible(options, run)
    ensures InOrder(Executed(After(options, run).c.trace))
  {
    StartInv(options);
    var done := Executed(After(options, run).c.trace);
    forall p: nat ensures Rising(Of(done, p)) {
      NoMessageLost(options, run, p);
      SentRising(Start(options), run, p);
      RisingPrefix(SentBy(Start(options), run, p), Of(done, p));
    }
    RisingIsInOrder(done);
  }
}
