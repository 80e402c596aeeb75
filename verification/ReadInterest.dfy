/** What the drain's event mask does to the interest in reads. */
module ReadInterest {
  import opened Bytes
  import opened Channels
  import opened ConnectionModel
  import opened ConnectionRuns

  /** The complement that the line in handleWrite means to take. */
  function IntendedMask(events: bv8): bv8 {
    events & !CHANNEL_WRITE
  }

  /** Both forms end the write interest; only the intended one leaves the other bits alone. */
  lemma MasksCompared(events: bv8)
    ensures !Has(DrainMask(events), CHANNEL_WRITE) && !Has(IntendedMask(events), CHANNEL_WRITE)
    ensures !Has(DrainMask(events), CHANNEL_READ)
    ensures Has(IntendedMask(events), CHANNEL_READ) <==> Has(events, CHANNEL_READ)
  {
  }

  lemma ReadBitStays(events: bv8)
    ensures Has(events | CHANNEL_WRITE, CHANNEL_READ) <==> Has(events, CHANNEL_READ)
  {
  }

  predicate Reads(c: Conn) {
    Has(c.events, CHANNEL_READ)
  }

  lemma QueueReads(c: Conn, rest: seq<Byte>)
    ensures Reads(Queue(c, rest)) <==> Reads(c)
  {
    ReadBitStays(c.events);
  }

  lemma SendInLoopReads(c: Conn, m: Message, w: WriteResult)
    requires LegalWrite(w, |m.bytes|)
    ensures Reads(SendInLoop(c, m, w)) <==> Reads(c)
  {
    var d := Emit(c, Accepted(m));
    QueueReads(d, m.bytes);
    if w.Took? {
      QueueReads(Emit(d, Wrote(m.bytes[..w.n])), m.bytes[w.n..]);
    }
  }

  /** The ready handler empties the output buffer. */
  predicate IsDrain(c: Conn, a: Action) {
    a.WriteReady? && c.IsWriting() && a.w.Took? && a.w.n > 0 && a.w.n == c.Buffered()
  }

  lemma HandleWriteReads(c: Conn, w: WriteResult)
    requires LegalWrite(w, c.Buffered())
    ensures Reads(HandleWrite(c, w)) <==> Reads(c) && !IsDrain(c, WriteReady(w))
  {
    MasksCompared(c.events);
  }

  /** On an established connection a step keeps the interest in reads unless it drains. */
  lemma StepReads(s: System, a: Action)
    requires Inv(s) && Enabled(s, a) && s.c.state != Connecting
    ensures Reads(Step(s, a).c) <==> Reads(s.c) && !IsDrain(s.c, a)
    ensures Step(s, a).c.state != Connecting
  {
    StepForward(s, a);
    match a
    case LoopSend(bytes, w) => SendInLoopReads(s.c, NextMessage(s, LOOP_THREAD, bytes), w);
    case RunTask(w) =>
      if s.batch[0].SendTask? {
        SendInLoopReads(s.c, s.batch[0].m, w);
      }
    case WriteReady(w) => HandleWriteReads(s.c, w);
    case _ =>
  }

  predicate NeverDrains(s: System, run: seq<Action>)
    requires Inv(s) && EnabledRun(s, run)
    decreases run
  {
    run == [] || (!IsDrain(s.c, run[0]) && (StepInv(s, run[0]); NeverDrains(Step(s, run[0]), run[1..])))
  }

  lemma {:induction false} RunReads(s: System, run: seq<Action>)
    requires Inv(s) && EnabledRun(s, run) && s.c.state != Connecting
    ensures Reads(Run(s, run).c) <==> Reads(s.c) && NeverDrains(s, run)
    decreases run
  {
    if run != [] {
      StepInv(s, run[0]);
      StepReads(s, run[0]);
      RunReads(Step(s, run[0]), run[1..]);
    }
  }

  /** Before it is established a connection reads nothing and drains nothing. */
  lemma StepConnecting(s: System, a: Action)
    requires Inv(s) && Enabled(s, a) && s.c.state == Connecting && !Reads(s.c)
    ensures !IsDrain(s.c, a)
    ensures a.Establish? ==> Reads(Step(s, a).c) && Step(s, a).c.state == Connected
    ensures !a.Establish? ==> !Reads(Step(s, a).c) && Step(s, a).c.state == Connecting
  {
  }

  lemma {:induction false} RunFromConnecting(s: System, run: seq<Action>)
    requires Inv(s) && EnabledRun(s, run) && s.c.state == Connecting && !Reads(s.c)
    ensures Reads(Run(s, run).c) <==> Run(s, run).c.state != Connecting && NeverDrains(s, run)
    decreases run
  {
    if run != [] {
      StepInv(s, run[0]);
      StepConnecting(s, run[0]);
      if run[0].Establish? {
        RunReads(Step(s, run[0]), run[1..]);
        StaysEstablished(Step(s, run[0]), run[1..]);
      } else {
        RunFromConnecting(Step(s, run[0]), run[1..]);
      }
    }
  }

  lemma {:induction false} StaysEstablished(s: System, run: seq<Action>)
    requires Inv(s) && EnabledRun(s, run) && s.c.state != Connecting
    ensures Run(s, run).c.state != Connecting
    decreases run
  {
    if run != [] {
      StepInv(s, run[0]);
      StepReads(s, run[0]);
      StaysEstablished(Step(s, run[0]), run[1..]);
    }
  }

  /** In every run the channel asks for reads exactly from the establishment of the connection to
      the first time its output buffer drains. */
  lemma ReadsUntilDrain(options: Options, run: seq<Action>)
    requires Possible(options, run)
    ensures (StartInv(options);
             Reads(After(options, run).c)
             <==> After(options, run).c.state != Connecting && NeverDrains(Start(options), run))
  {
    StartInv(options);
    RunFromConnecting(Start(options), run);
  }

  /** So after a drain no continuation ever asks for reads again. */
  lemma NoReadsAfterDrain(s: System, run: seq<Action>)
    requires Inv(s) && EnabledRun(s, run) && run != [] && IsDrain(s.c, run[0])
    ensures !Reads(Run(s, run).c)
  {
    RunReads(s, run);
  }
}
