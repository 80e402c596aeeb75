/** Executions of the logger's backend under a script of the other threads: what happens, action by
    action, why that is a run of the protocol, and what becomes of the scripted lines. */
module AsyncLogScripts {
  import opened Bytes
  import LM = LogModel
  import M = AsyncLogModel

  /** A buffer that `new` yielded, known by its allocation number, with its text. */
  type Owned = M.Cell<nat>

  type State = M.Log<nat>

  /** What another thread may do while the backend is between two steps. */
  datatype Call = CallAppend(line: string) | CallStop

  /** One turn as the other threads make it: their calls before the swap, and before each record. */
  datatype Round = Round(beforeSwap: seq<Call>, beforeRecords: seq<seq<Call>>)

  /** The actions so far, the state they lead to, and how many buffers `new` has yielded. */
  datatype Played = Played(run: seq<M.Action<nat>>, s: State, news: nat)

  predicate Allocates(b: M.Buffers<nat>, line: string, size: nat) {
    size - |b.current.text| <= |line| && b.next.None?
  }

  function Do(h: Played, a: M.Action<nat>, size: nat): Played {
    if M.Enabled(h.s, a) then
      Played(h.run + [a], M.Step(h.s, a, size),
             if a.Append? && Allocates(h.s.b, a.line, size) then h.news + 1 else h.news)
    else h
  }

  /** An append gets the next number if it allocates. */
  function ActionOf(call: Call, news: nat): M.Action<nat> {
    match call
    case CallAppend(line) => M.Append(line, news)
    case CallStop => M.Stop
  }

  function DoCalls(h: Played, calls: seq<Call>, size: nat): Played
    decreases |calls|
  {
    if calls == [] then h else DoCalls(Do(h, ActionOf(calls[0], h.news), size), calls[1..], size)
  }

  function Head(calls: seq<seq<Call>>): seq<Call> {
    if calls == [] then [] else calls[0]
  }

  function Tail(calls: seq<seq<Call>>): seq<seq<Call>> {
    if calls == [] then [] else calls[1..]
  }

  /** The next `n` records of the batch. */
  function DoRecords(h: Played, n: nat, calls: seq<seq<Call>>, size: nat): Played
    decreases n
  {
    if n == 0 then h
    else DoRecords(Do(DoCalls(h, Head(calls), size), M.WriteNext, size), n - 1, Tail(calls), size)
  }

  /** From the lock to the first record: the swap, and the drop when there is overload. */
  function DoTake(h: Played, size: nat): Played {
    Do(Do(h, M.SwapBuffers, size), M.DropOverload, size)
  }

  /** A turn from the wait on. */
  function DoRest(h: Played, round: Round, size: nat): Played {
    var h1 := DoTake(DoCalls(h, round.beforeSwap, size), size);
    Do(DoRecords(h1, |h1.s.b.toWrite|, round.beforeRecords, size), M.Recycle, size)
  }

  function DoTurn(h: Played, round: Round, size: nat): Played {
    var h1 := Do(h, M.TestRunning, size);
    if !h.s.running then h1 else DoRest(h1, round, size)
  }

  function DoThread(h: Played, rounds: seq<Round>, size: nat): Played
    decreases |rounds|
  {
    if rounds == [] || !h.s.phase.Head? then h else DoThread(DoTurn(h, rounds[0], size), rounds[1..], size)
  }

  // ---- Every execution is a run of the protocol ----

  ghost predicate Reaches(h: Played, size: nat) {
    var start := M.Start(0, 1, 2, 3);
    M.EnabledRun(start, h.run, size) && M.Run(start, M.NO_HISTORY, h.run, size).0 == h.s
  }

  /** No buffer numbered `n` or higher is in use. */
  ghost predicate UnusedFrom(b: M.Buffers<nat>, n: nat) {
    forall id: nat :: n <= id ==> M.Owners(b, id) == 0
  }

  /** What holds whenever the backend is between two of its steps. */
  ghost predicate Sound(h: Played, size: nat) {
    size > 0 && Reaches(h, size) && M.Inv(h.s, size) && UnusedFrom(h.s.b, h.news)
  }

  /** `h'` goes on from `h` soundly; and the flag stays set exactly unless somebody stops it. */
  ghost predicate GoesOn(h: Played, h': Played, size: nat) {
    && h.run <= h'.run
    && Sound(h', size)
    && (h'.s.running <==> h.s.running && M.NoStop(h'.run, |h.run|))
  }

  lemma NoStopSplit(h: Played, h1: Played, h2: Played)
    requires h.run <= h1.run <= h2.run
    ensures M.NoStop(h2.run, |h.run|) <==> M.NoStop(h1.run, |h.run|) && M.NoStop(h2.run, |h1.run|)
  {
    forall i | |h.run| <= i < |h1.run| ensures h1.run[i] == h2.run[i] {
    }
  }

  lemma GoesOnThrough(h: Played, h1: Played, h2: Played, size: nat)
    requires GoesOn(h, h1, size) && GoesOn(h1, h2, size)
    ensures GoesOn(h, h2, size)
  {
    NoStopSplit(h, h1, h2);
  }

  /** A number that an append does not use stays free. */
  lemma StillUnused(s: State, a: M.Action<nat>, n: nat, size: nat)
    requires UnusedFrom(s.b, n) && M.Enabled(s, a) && (a.Append? ==> a.extra == n)
    ensures UnusedFrom(M.Step(s, a, size).b, if a.Append? && Allocates(s.b, a.line, size) then n + 1 else n)
  {
    var n' := if a.Append? && Allocates(s.b, a.line, size) then n + 1 else n;
    forall id: nat | n' <= id
      ensures M.Owners(M.Step(s, a, size).b, id) == 0
    {
      M.StepOwners(s, a, size, id);
      if a.Append? && id == n {
        NotTaken(s.b, a.line, size, n);
      }
    }
  }

  lemma NotTaken(b: M.Buffers<nat>, line: string, size: nat, n: nat)
    requires M.Owners(b, n) == 0 && !Allocates(b, line, size)
    ensures M.Owners(M.AppendLine(b, line, size, n), n) == 0
  {
    assert M.AppendLine(b, line, size, n) == M.AppendLine(b, line, size, n + 1);
    M.AppendOwners(b, line, size, n + 1, n);
  }

  lemma DoGoesOn(h: Played, a: M.Action<nat>, size: nat)
    requires Sound(h, size) && (a.Append? ==> a.extra == h.news)
    ensures GoesOn(h, Do(h, a, size), size)
  {
    if M.Enabled(h.s, a) {
      M.StepInv(h.s, a, size);
      M.RunSnoc(M.Start(0, 1, 2, 3), M.NO_HISTORY, h.run, a, size);
      StillUnused(h.s, a, h.news, size);
      assert Do(h, a, size).run[|h.run|] == a;
    }
  }

  /** What the calls of other threads leave alone. */
  ghost predicate Undisturbed(s: State, s': State) {
    s'.phase == s.phase && s'.sink == s.sink && s'.b.toWrite == s.b.toWrite
    && s'.b.spare1 == s.b.spare1 && s'.b.spare2 == s.b.spare2
  }

  /** The accepted lines among some calls. */
  function LinesIn(calls: seq<Call>, size: nat): seq<string> {
    if calls == [] then []
    else (if calls[0].CallAppend? then M.Accepted(calls[0].line, size) else []) + LinesIn(calls[1..], size)
  }

  lemma {:induction false} OfferedSnoc(run: seq<M.Action<nat>>, a: M.Action<nat>, size: nat)
    ensures M.Offered(run + [a], size) == M.Offered(run, size) + (if a.Append? then M.Accepted(a.line, size) else [])
    decreases run
  {
    if run == [] {
      assert run + [a] == [a];
      assert [a][1..] == [];
    } else {
      OfferedSnoc(run[1..], a, size);
      assert (run + [a])[1..] == run[1..] + [a];
    }
  }

  lemma CallGoesOn(h: Played, call: Call, size: nat)
    requires Sound(h, size)
    ensures var h' := Do(h, ActionOf(call, h.news), size);
            && GoesOn(h, h', size) && Undisturbed(h.s, h'.s)
            && M.Offered(h'.run, size)
               == M.Offered(h.run, size) + (if call.CallAppend? then M.Accepted(call.line, size) else [])
  {
    var a := ActionOf(call, h.news);
    assert M.Enabled(h.s, a);
    DoGoesOn(h, a, size);
    OfferedSnoc(h.run, a, size);
  }

  /** Every call takes effect: what is offered is what the script appends, in order. */
  lemma {:induction false} CallsGoOn(h: Played, calls: seq<Call>, size: nat)
    requires Sound(h, size)
    ensures var h' := DoCalls(h, calls, size);
            && GoesOn(h, h', size) && Undisturbed(h.s, h'.s)
            && M.Offered(h'.run, size) == M.Offered(h.run, size) + LinesIn(calls, size)
    decreases |calls|
  {
    if calls == [] {
      assert M.Offered(h.run, size) + [] == M.Offered(h.run, size);
    } else {
      var h1 := Do(h, ActionOf(calls[0], h.news), size);
      var line := if calls[0].CallAppend? then M.Accepted(calls[0].line, size) else [];
      CallGoesOn(h, calls[0], size);
      CallsGoOn(h1, calls[1..], size);
      GoesOnThrough(h, h1, DoCalls(h1, calls[1..], size), size);
      Associate(M.Offered(h.run, size), line, LinesIn(calls[1..], size));
    }
  }

  lemma Associate(a: seq<string>, b: seq<string>, c: seq<string>)
    ensures a + b + c == a + (b + c)
  {
  }

  /** A step of the backend itself offers nothing. */
  lemma OwnStep(h: Played, a: M.Action<nat>, size: nat)
    requires Sound(h, size) && !a.Append?
    ensures GoesOn(h, Do(h, a, size), size)
    ensures M.Offered(Do(h, a, size).run, size) == M.Offered(h.run, size)
  {
    DoGoesOn(h, a, size);
    OfferedSnoc(h.run, a, size);
    assert M.Offered(h.run, size) + [] == M.Offered(h.run, size);
  }

  /** The calls that come before the next `n` records. */
  function RecordCalls(n: nat, calls: seq<seq<Call>>): seq<Call> {
    if n == 0 then [] else Head(calls) + RecordCalls(n - 1, Tail(calls))
  }

  lemma {:induction false} LinesInConcat(a: seq<Call>, b: seq<Call>, size: nat)
    ensures LinesIn(a + b, size) == LinesIn(a, size) + LinesIn(b, size)
    decreases a
  {
    if a == [] {
      assert a + b == b;
    } else {
      LinesInConcat(a[1..], b, size);
      assert (a + b)[0] == a[0] && (a + b)[1..] == a[1..] + b;
    }
  }

  lemma {:induction false} RecordsGoOn(h: Played, n: nat, calls: seq<seq<Call>>, size: nat)
    requires Sound(h, size) && h.s.phase.Writing? && n == |h.s.b.toWrite| - h.s.phase.done
    ensures var h' := DoRecords(h, n, calls, size);
            && GoesOn(h, h', size)
            && h'.s.phase == M.Writing(|h'.s.b.toWrite|)
            && M.Offered(h'.run, size) == M.Offered(h.run, size) + LinesIn(RecordCalls(n, calls), size)
    decreases n
  {
    if n == 0 {
      assert M.Offered(h.run, size) + [] == M.Offered(h.run, size);
    } else {
      var h1 := DoCalls(h, Head(calls), size);
      var h2 := Do(h1, M.WriteNext, size);
      CallsGoOn(h, Head(calls), size);
      OwnStep(h1, M.WriteNext, size);
      GoesOnThrough(h, h1, h2, size);
      RecordsGoOn(h2, n - 1, Tail(calls), size);
      GoesOnThrough(h, h2, DoRecords(h, n, calls, size), size);
      var more := RecordCalls(n - 1, Tail(calls));
      LinesInConcat(Head(calls), more, size);
      Associate(M.Offered(h.run, size), LinesIn(Head(calls), size), LinesIn(more, size));
    }
  }

  lemma TakeGoesOn(h: Played, size: nat)
    requires Sound(h, size) && h.s.phase.Waiting?
    ensures var h' := DoTake(h, size);
            && GoesOn(h, h', size)
            && h'.s.phase == M.Writing(0) && h'.s.b.toWrite != []
            && M.Offered(h'.run, size) == M.Offered(h.run, size)
  {
    var h1 := Do(h, M.SwapBuffers, size);
    OwnStep(h, M.SwapBuffers, size);
    OwnStep(h1, M.DropOverload, size);
    GoesOnThrough(h, h1, Do(h1, M.DropOverload, size), size);
  }

  /** The calls that get their turn in a round. */
  function RoundCalls(h: Played, round: Round, size: nat): seq<Call> {
    if !h.s.running then [] else
      var h2 := DoTake(DoCalls(Do(h, M.TestRunning, size), round.beforeSwap, size), size);
      round.beforeSwap + RecordCalls(|h2.s.b.toWrite|, round.beforeRecords)
  }

  lemma TurnGoesOn(h: Played, round: Round, size: nat)
    requires Sound(h, size) && h.s.phase.Head?
    ensures var h' := DoTurn(h, round, size);
            && GoesOn(h, h', size)
            && (h'.s.phase.Done? <==> !h.s.running) && (h'.s.phase.Head? <==> h.s.running)
            && M.Offered(h'.run, size) == M.Offered(h.run, size) + LinesIn(RoundCalls(h, round, size), size)
  {
    var h1 := Do(h, M.TestRunning, size);
    OwnStep(h, M.TestRunning, size);
    if h.s.running {
      RestOfTurn(h1, round, size);
      GoesOnThrough(h, h1, DoTurn(h, round, size), size);
    } else {
      assert M.Offered(h.run, size) + [] == M.Offered(h.run, size);
    }
  }

  lemma RestOfTurn(h: Played, round: Round, size: nat)
    requires Sound(h, size) && h.s.phase.Waiting?
    ensures var h2 := DoTake(DoCalls(h, round.beforeSwap, size), size);
            var h' := DoRest(h, round, size);
            && GoesOn(h, h', size) && h'.s.phase.Head?
            && M.Offered(h'.run, size) == M.Offered(h.run, size)
               + LinesIn(round.beforeSwap + RecordCalls(|h2.s.b.toWrite|, round.beforeRecords), size)
  {
    var h1 := DoCalls(h, round.beforeSwap, size);
    var h2 := DoTake(h1, size);
    var n := |h2.s.b.toWrite|;
    var h3 := DoRecords(h2, n, round.beforeRecords, size);
    CallsGoOn(h, round.beforeSwap, size);
    TakeGoesOn(h1, size);
    GoesOnThrough(h, h1, h2, size);
    RecordsGoOn(h2, n, round.beforeRecords, size);
    GoesOnThrough(h, h2, h3, size);
    RecycleGoesOn(h3, size);
    GoesOnThrough(h, h3, Do(h3, M.Recycle, size), size);
    LinesInConcat(round.beforeSwap, RecordCalls(n, round.beforeRecords), size);
    Associate(M.Offered(h.run, size), LinesIn(round.beforeSwap, size),
              LinesIn(RecordCalls(n, round.beforeRecords), size));
  }

  lemma RecycleGoesOn(h: Played, size: nat)
    requires Sound(h, size) && h.s.phase == M.Writing(|h.s.b.toWrite|)
    ensures var h' := Do(h, M.Recycle, size);
            GoesOn(h, h', size) && h'.s.phase.Head? && M.Offered(h'.run, size) == M.Offered(h.run, size)
  {
    OwnStep(h, M.Recycle, size);
    M.RecycleInv(h.s.b);
  }

  function ThreadCalls(h: Played, rounds: seq<Round>, size: nat): seq<Call>
    decreases |rounds|
  {
    if rounds == [] || !h.s.phase.Head? then []
    else RoundCalls(h, rounds[0], size) + ThreadCalls(DoTurn(h, rounds[0], size), rounds[1..], size)
  }

  lemma {:induction false} ThreadGoesOn(h: Played, rounds: seq<Round>, size: nat)
    requires Sound(h, size) && (h.s.phase.Head? || h.s.phase.Done?)
    ensures var h' := DoThread(h, rounds, size);
            && GoesOn(h, h', size) && (h'.s.phase.Head? || h'.s.phase.Done?)
            && M.Offered(h'.run, size) == M.Offered(h.run, size) + LinesIn(ThreadCalls(h, rounds, size), size)
            && (h.s.phase.Head? && h'.s.phase.Done? ==> !h'.s.running)
    decreases |rounds|
  {
    if rounds == [] || !h.s.phase.Head? {
      assert M.Offered(h.run, size) + [] == M.Offered(h.run, size);
    } else {
      var h1 := DoTurn(h, rounds[0], size);
      var h2 := DoThread(h1, rounds[1..], size);
      TurnGoesOn(h, rounds[0], size);
      ThreadGoesOn(h1, rounds[1..], size);
      GoesOnThrough(h, h1, h2, size);
      var now, later := RoundCalls(h, rounds[0], size), ThreadCalls(h1, rounds[1..], size);
      LinesInConcat(now, later, size);
      Associate(M.Offered(h.run, size), LinesIn(now, size), LinesIn(later, size));
    }
  }

  lemma {:induction false} ThreadSplit(h: Played, first: seq<Round>, more: seq<Round>, size: nat)
    ensures DoThread(h, first + more, size) == DoThread(DoThread(h, first, size), more, size)
    decreases |first|
  {
    if first == [] {
      assert first + more == more;
    } else {
      assert (first + more)[0] == first[0] && (first + more)[1..] == first[1..] + more;
      if h.s.phase.Head? {
        ThreadSplit(DoTurn(h, first[0], size), first[1..], more, size);
      }
    }
  }

  /** If somebody stops the logger during the first `k` rounds, the thread ends before it takes
      another batch, whatever the script has left. */
  lemma StopEndsScript(rounds: seq<Round>, k: nat, size: nat)
    requires size > 0 && k < |rounds| && !M.NoStop(DoThread(Begin(), rounds[..k], size).run, 0)
    ensures var h1, h2 := DoThread(Begin(), rounds[..k], size), DoThread(Begin(), rounds, size);
            h2.s.phase.Done? && h2.s.sink == h1.s.sink
  {
    BeginSound(size);
    ThreadGoesOn(Begin(), rounds[..k], size);
    assert rounds == rounds[..k] + rounds[k..];
    ThreadSplit(Begin(), rounds[..k], rounds[k..], size);
    var h1 := DoThread(Begin(), rounds[..k], size);
    if h1.s.phase.Head? {
      assert DoThread(h1, rounds[k..], size) == DoThread(DoTurn(h1, rounds[k], size), rounds[k..][1..], size);
    }
  }

  /** The logger when its backend starts: four buffers are allocated. */
  function Begin(): Played {
    Played([], M.Start(0, 1, 2, 3), 4)
  }

  lemma BeginSound(size: nat)
    requires size > 0
    ensures Sound(Begin(), size)
  {
  }

  /** Whatever the other threads do, the execution is a run of the protocol and it ends only if
      somebody stops the logger. The scripted lines that are short enough are, in order, those of
      the batches taken and those still in the shared buffers, and the log file has the batches. */
  lemma ThreadWritesItsScript(rounds: seq<Round>, size: nat)
    requires size > 0
    ensures var h' := DoThread(Begin(), rounds, size);
            && Sound(h', size)
            && (h'.s.running <==> M.NoStop(h'.run, 0))
            && (h'.s.phase.Done? ==> !h'.s.running)
            && var history := M.Run(M.Start(0, 1, 2, 3), M.NO_HISTORY, h'.run, size).1;
               && h'.s.sink == M.RenderedAll(history.taken)
               && LinesIn(ThreadCalls(Begin(), rounds, size), size)
               == M.LinesOf(history.taken) + Flatten(history.full) + history.current
  {
    BeginSound(size);
    ThreadGoesOn(Begin(), rounds, size);
    var h' := DoThread(Begin(), rounds, size);
    M.EveryInterleaving(0, 1, 2, 3, h'.run, size);
    assert M.Offered(h'.run, size) == [] + LinesIn(ThreadCalls(Begin(), rounds, size), size);
  }
}
