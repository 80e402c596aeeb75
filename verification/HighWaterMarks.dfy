/** The high-water notifications over whole runs: one for each upward crossing of the mark. */
module HighWaterMarks {
  import opened Bytes
  import opened ConnectionEvents
  import opened ConnectionModel
  import opened ConnectionRuns

  /** The length of the output buffer before the run and after each of its steps. */
  function Lengths(s: System, run: seq<Action>): seq<nat>
    requires Inv(s) && EnabledRun(s, run)
    decreases run
  {
    if run == [] then [s.c.Buffered()]
    else (StepInv(s, run[0]); [s.c.Buffered()] + Lengths(Step(s, run[0]), run[1..]))
  }

  /** The lengths reached from below the mark in one step. */
  function Crossings(lengths: seq<nat>, mark: nat): seq<nat> {
    if |lengths| < 2 then []
    else (if lengths[0] < mark <= lengths[1] then [lengths[1]] else []) + Crossings(lengths[1..], mark)
  }

  /** What one step reports, given the lengths around it. */
  function Crossing(before: nat, after: nat, options: Options): seq<nat> {
    if options.onHighWater && before < options.highWaterMark <= after then [after] else []
  }

  lemma {:induction false} ReportsConcat(t: seq<Event>, u: seq<Event>)
    ensures HighWaterReports(t + u) == HighWaterReports(t) + HighWaterReports(u)
    decreases |u|
  {
    if u == [] {
      assert t + u == t;
    } else {
      SplitLast(t, u);
      ReportsConcat(t, u[..|u| - 1]);
    }
  }

  predicate NoReport(t: seq<Event>) {
    forall i :: 0 <= i < |t| ==> !t[i].HighWater?
  }

  lemma {:induction false} ReportsNone(t: seq<Event>)
    requires NoReport(t)
    ensures HighWaterReports(t) == []
  {
    if t != [] {
      ReportsNone(t[..|t| - 1]);
    }
  }

  lemma NoneThen(t: seq<Event>, rest: seq<Event>)
    requires NoReport(t)
    ensures HighWaterReports(t + rest) == HighWaterReports(rest)
  {
    ReportsConcat(t, rest);
    ReportsNone(t);
  }

  lemma QueueReports(c: Conn, len: nat)
    ensures HighWaterReports(QueueEmits(c, len)) == Crossing(c.Buffered(), c.Buffered() + len, c.options)
  {
    assert [HighWater(|c.out| + len)] == [] + [HighWater(|c.out| + len)];
  }

  lemma SendReports(c: Conn, m: Message, w: WriteResult)
    requires LegalWrite(w, |m.bytes|)
    ensures HighWaterReports(SendEmits(c, m, w)) == Crossing(c.Buffered(), BufferedAfterSend(c, m, w), c.options)
  {
    if c.state == Disconnected {
      ReportsNone([GivenUp(m)]);
    } else if Idle(c) && w == PeerGone {
      ReportsNone([Faulted(m)]);
    } else if Idle(c) && w.Took? {
      WriteReports(c, m.bytes, w.n);
      NoneThen([Accepted(m)], WriteEmits(c, m.bytes, w.n));
    } else {
      QueueReports(c, |m.bytes|);
      NoneThen([Accepted(m)], QueueEmits(c, |m.bytes|));
    }
  }

  lemma WriteReports(c: Conn, bytes: seq<Byte>, n: nat)
    requires n <= |bytes| && c.Buffered() == 0
    ensures HighWaterReports(WriteEmits(c, bytes, n)) == Crossing(0, |bytes| - n, c.options)
  {
    if n == |bytes| {
      NoneThen([Wrote(bytes[..n])], IfThen(c.options.onWriteComplete, WriteCompleted));
      ReportsNone(IfThen(c.options.onWriteComplete, WriteCompleted));
    } else {
      QueueReports(c, |bytes| - n);
      NoneThen([Wrote(bytes[..n])], QueueEmits(c, |bytes| - n));
    }
  }

  lemma HandleWriteReports(c: Conn, w: WriteResult)
    requires LegalWrite(w, c.Buffered())
    ensures NoReport(HandleWriteEmits(c, w))
    ensures HandleWrite(c, w).options == c.options
  {
  }

  lemma SendInLoopOptions(c: Conn, m: Message, w: WriteResult)
    requires LegalWrite(w, |m.bytes|)
    ensures SendInLoop(c, m, w).options == c.options
  {
  }

  lemma LoopSendReports(s: System, bytes: seq<Byte>, w: WriteResult)
    requires Inv(s) && Enabled(s, LoopSend(bytes, w))
    ensures var s' := Step(s, LoopSend(bytes, w));
            && s'.c.options == s.c.options
            && HighWaterReports(Emits(s, LoopSend(bytes, w)))
            == Crossing(s.c.Buffered(), s'.c.Buffered(), s.c.options)
  {
    if s.c.state == Connected {
      var m := NextMessage(s, LOOP_THREAD, bytes);
      SendReports(s.c, m, w);
      SendInLoopOptions(s.c, m, w);
      SendInLoopKeeps(s.c, m, w);
    }
  }

  lemma RunTaskReports(s: System, w: WriteResult)
    requires Inv(s) && Enabled(s, RunTask(w))
    ensures var s' := Step(s, RunTask(w));
            && s'.c.options == s.c.options
            && HighWaterReports(Emits(s, RunTask(w))) == Crossing(s.c.Buffered(), s'.c.Buffered(), s.c.options)
  {
    if s.batch[0].SendTask? {
      SendReports(s.c, s.batch[0].m, w);
      SendInLoopOptions(s.c, s.batch[0].m, w);
      SendInLoopKeeps(s.c, s.batch[0].m, w);
    } else {
      ReportsNone(IfThen(!s.c.IsWriting(), WriteShutdown));
    }
  }

  lemma EmitsReports(s: System, a: Action)
    requires Inv(s) && Enabled(s, a)
    ensures var s' := Step(s, a);
            && s'.c.options == s.c.options
            && HighWaterReports(Emits(s, a)) == Crossing(s.c.Buffered(), s'.c.Buffered(), s.c.options)
  {
    match a
    case LoopSend(bytes, w) => LoopSendReports(s, bytes, w);
    case RunTask(w) => RunTaskReports(s, w);
    case WriteReady(w) =>
      HandleWriteReports(s.c, w);
      HandleWriteKeeps(s.c, w);
      ReportsNone(Emits(s, a));
    case _ => ReportsNone(Emits(s, a));
  }

  lemma StepReports(s: System, a: Action)
    requires Inv(s) && Enabled(s, a)
    ensures var s' := Step(s, a);
            && s'.c.options == s.c.options
            && HighWaterReports(s'.c.trace)
            == HighWaterReports(s.c.trace) + Crossing(s.c.Buffered(), s'.c.Buffered(), s.c.options)
  {
    StepTrace(s, a);
    EmitsReports(s, a);
    ReportsConcat(s.c.trace, Emits(s, a));
  }

  lemma CrossingsCons(first: nat, rest: seq<nat>, mark: nat)
    requires rest != []
    ensures Crossings([first] + rest, mark)
         == (if first < mark <= rest[0] then [rest[0]] else []) + Crossings(rest, mark)
  {
    assert ([first] + rest)[1..] == rest;
  }

  lemma LengthsHead(s: System, run: seq<Action>)
    requires Inv(s) && EnabledRun(s, run)
    ensures |Lengths(s, run)| > 0 && Lengths(s, run)[0] == s.c.Buffered()
  {
  }

  /** What a run is to report: the upward crossings, if the callback is set. */
  function Expected(s: System, run: seq<Action>): seq<nat>
    requires Inv(s) && EnabledRun(s, run)
  {
    if s.c.options.onHighWater then Crossings(Lengths(s, run), s.c.options.highWaterMark) else []
  }

  lemma ExpectedCons(s: System, run: seq<Action>)
    requires Inv(s) && EnabledRun(s, run) && run != []
    requires Inv(Step(s, run[0])) && Step(s, run[0]).c.options == s.c.options
    ensures Expected(s, run)
         == Crossing(s.c.Buffered(), Step(s, run[0]).c.Buffered(), s.c.options) + Expected(Step(s, run[0]), run[1..])
  {
    LengthsHead(Step(s, run[0]), run[1..]);
    CrossingsCons(s.c.Buffered(), Lengths(Step(s, run[0]), run[1..]), s.c.options.highWaterMark);
  }

  /** High-water notifications are edge-triggered over whole runs: with the callback set they
      report exactly the lengths at which the buffer came from below the mark to or above it. */
  lemma {:induction false} HighWaterIsEdgeTriggered(s: System, run: seq<Action>)
    requires Inv(s) && EnabledRun(s, run)
    ensures HighWaterReports(Run(s, run).c.trace)
         == HighWaterReports(s.c.trace)
            + (if s.c.options.onHighWater then Crossings(Lengths(s, run), s.c.options.highWaterMark) else [])
    decreases run
  {
    if run != [] {
      var next := Step(s, run[0]);
      StepInv(s, run[0]);
      StepReports(s, run[0]);
      HighWaterIsEdgeTriggered(next, run[1..]);
      ExpectedCons(s, run);
      Associate(HighWaterReports(s.c.trace), Crossing(s.c.Buffered(), next.c.Buffered(), s.c.options),
                Expected(next, run[1..]));
    }
  }
}
