/** Executions of the loop under a script of its surroundings: what happens, action by action,
    and why that is a run of the protocol. */
module EventLoopScripts {
  import opened Bytes
  import M = EventLoopModel

  /** One atomic step of a foreign thread, or a quit by a functor or handler on the loop thread. */
  datatype Call<T> = CallPush(p: nat, functor: T) | CallQuit(p: nat) | CallWake(p: nat) | CallQuitInLoop

  /** One turn of the loop as its surroundings make it. */
  datatype Round<T> = Round(
    beforePoll: seq<Call<T>>,
    othersReady: bool,           // some other descriptor is ready
    reportWakeup: bool,          // the eventfd, if ready, is in the report
    handling: seq<Call<T>>,
    calls: seq<seq<Call<T>>>)    // what happens before each functor

  /** The actions so far and the state they lead to. */
  datatype Played<T> = Played(run: seq<M.Action<T>>, s: M.Loop<T>)

  /** An action that its thread is not ready for is skipped. */
  function Do<T>(h: Played<T>, a: M.Action<T>): Played<T> {
    if M.Enabled(h.s, a) then Played(h.run + [a], M.Step(h.s, a)) else h
  }

  function ActionOf<T>(call: Call<T>): M.Action<T> {
    match call
    case CallPush(p, functor) => M.Push(p, functor)
    case CallQuit(p) => M.Quit(p)
    case CallWake(p) => M.Wake(p)
    case CallQuitInLoop => M.QuitInLoop
  }

  function DoCalls<T>(h: Played<T>, calls: seq<Call<T>>): Played<T>
    decreases |calls|
  {
    if calls == [] then h else DoCalls(Do(h, ActionOf(calls[0])), calls[1..])
  }

  function Head<T>(calls: seq<seq<T>>): seq<T> {
    if calls == [] then [] else calls[0]
  }

  function Tail<T>(calls: seq<seq<T>>): seq<seq<T>> {
    if calls == [] then [] else calls[1..]
  }

  function DoBatch<T>(h: Played<T>, n: nat, calls: seq<seq<Call<T>>>): Played<T>
    decreases n
  {
    if n == 0 then h else DoBatch(Do(DoCalls(h, Head(calls)), M.RunOne), n - 1, Tail(calls))
  }

  function DoFunctors<T>(h: Played<T>, calls: seq<seq<Call<T>>>): Played<T> {
    var h' := Do(h, M.SwapQueue);
    Do(DoBatch(h', |h'.s.batch|, calls), M.EndBatch)
  }

  /** The loop stays at the poll when nothing is ready. */
  function DoPoll<T>(h: Played<T>, round: Round<T>): Played<T> {
    var h1 := DoCalls(h, round.beforePoll);
    var wake := round.reportWakeup && h1.s.counter > 0;
    if !round.othersReady && !wake then h1 else
      var h2 := DoCalls(Do(h1, M.PollReturns(wake)), round.handling);
      if wake then Do(h2, M.ReadWakeup) else h2
  }

  function DoTurn<T>(h: Played<T>, round: Round<T>): Played<T> {
    var h1 := Do(h, M.TestRunning);
    if !h.s.running then h1 else
      var h2 := DoPoll(h1, round);
      if h2.s.phase.AtPoll? then h2 else DoFunctors(h2, round.calls)
  }

  function DoRounds<T>(h: Played<T>, rounds: seq<Round<T>>): Played<T>
    decreases |rounds|
  {
    if rounds == [] || !h.s.phase.AtTest? then h else DoRounds(DoTurn(h, rounds[0]), rounds[1..])
  }

  function DoLoop<T>(h: Played<T>, rounds: seq<Round<T>>): Played<T> {
    DoRounds(Do(h, M.StartLoop), rounds)
  }

  // ---- Every execution is a run of the protocol ----

  ghost predicate Reaches<T>(h: Played<T>) {
    M.EnabledRun(M.Initial(), h.run) && M.Run(M.Initial(), h.run) == h.s
  }

  /** `h'` goes on from `h`; and the flag stays set exactly unless somebody quits. */
  ghost predicate GoesOn<T>(h: Played<T>, h': Played<T>) {
    && h.run <= h'.run
    && (Reaches(h) ==> Reaches(h'))
    && (h'.s.running <==> h.s.running && M.NoQuit(h'.run, |h.run|))
  }

  lemma {:induction false} RunSnoc<T>(s: M.Loop<T>, run: seq<M.Action<T>>, a: M.Action<T>)
    requires M.EnabledRun(s, run) && M.Enabled(M.Run(s, run), a)
    ensures M.EnabledRun(s, run + [a]) && M.Run(s, run + [a]) == M.Step(M.Run(s, run), a)
    decreases run
  {
    if run == [] {
      assert run + [a] == [a];
      assert [a][1..] == [];
    } else {
      RunSnoc(M.Step(s, run[0]), run[1..], a);
      assert (run + [a])[1..] == run[1..] + [a];
    }
  }

  lemma NoQuitSplit<T>(h: Played<T>, h1: Played<T>, h2: Played<T>)
    requires h.run <= h1.run <= h2.run
    ensures M.NoQuit(h2.run, |h.run|) <==> M.NoQuit(h1.run, |h.run|) && M.NoQuit(h2.run, |h1.run|)
  {
    forall i | |h.run| <= i < |h1.run| ensures h1.run[i] == h2.run[i] {
    }
  }

  lemma GoesOnThrough<T>(h: Played<T>, h1: Played<T>, h2: Played<T>)
    requires GoesOn(h, h1) && GoesOn(h1, h2)
    ensures GoesOn(h, h2)
  {
    NoQuitSplit(h, h1, h2);
  }

  lemma DoGoesOn<T>(h: Played<T>, a: M.Action<T>)
    requires !a.StartLoop?
    ensures GoesOn(h, Do(h, a))
  {
    if M.Enabled(h.s, a) {
      if Reaches(h) {
        RunSnoc(M.Initial(), h.run, a);
      }
      assert Do(h, a).run[|h.run|] == a;
    }
  }

  /** What steps of other threads leave alone. */
  ghost predicate Undisturbed<T>(s: M.Loop<T>, s': M.Loop<T>) {
    s'.phase == s.phase && s'.batch == s.batch && s'.executed == s.executed && s'.turns == s.turns
  }

  lemma {:induction false} CallsGoOn<T>(h: Played<T>, calls: seq<Call<T>>)
    ensures GoesOn(h, DoCalls(h, calls)) && Undisturbed(h.s, DoCalls(h, calls).s)
    decreases |calls|
  {
    if calls == [] {
      assert M.NoQuit(h.run, |h.run|);
    } else {
      var h1 := Do(h, ActionOf(calls[0]));
      DoGoesOn(h, ActionOf(calls[0]));
      CallsGoOn(h1, calls[1..]);
      GoesOnThrough(h, h1, DoCalls(h1, calls[1..]));
    }
  }

  lemma {:induction false} BatchGoesOn<T>(h: Played<T>, n: nat, calls: seq<seq<Call<T>>>)
    requires h.s.phase.Running? && |h.s.batch| == n
    ensures var h' := DoBatch(h, n, calls);
            GoesOn(h, h') && h'.s.phase.Running? && h'.s.batch == [] && h'.s.turns == h.s.turns
    decreases n
  {
    if n == 0 {
      assert M.NoQuit(h.run, |h.run|);
    } else {
      var h1 := DoCalls(h, Head(calls));
      CallsGoOn(h, Head(calls));
      DoGoesOn(h1, M.RunOne);
      GoesOnThrough(h, h1, Do(h1, M.RunOne));
      BatchGoesOn(Do(h1, M.RunOne), n - 1, Tail(calls));
      GoesOnThrough(h, Do(h1, M.RunOne), DoBatch(h, n, calls));
    }
  }

  lemma FunctorsGoOn<T>(h: Played<T>, calls: seq<seq<Call<T>>>)
    requires h.s.phase == M.Handling(false)
    ensures var h' := DoFunctors(h, calls);
            GoesOn(h, h') && h'.s.phase.AtTest? && h'.s.turns == h.s.turns + 1
  {
    var h1 := Do(h, M.SwapQueue);
    var h2 := DoBatch(h1, |h1.s.batch|, calls);
    DoGoesOn(h, M.SwapQueue);
    BatchGoesOn(h1, |h1.s.batch|, calls);
    DoGoesOn(h2, M.EndBatch);
    GoesOnThrough(h, h1, h2);
    GoesOnThrough(h, h2, Do(h2, M.EndBatch));
  }

  lemma PollGoesOn<T>(h: Played<T>, round: Round<T>)
    requires h.s.phase.AtPoll?
    ensures var h' := DoPoll(h, round);
            GoesOn(h, h') && (h'.s.phase.AtPoll? || h'.s.phase == M.Handling(false)) && h'.s.turns == h.s.turns
  {
    var h1 := DoCalls(h, round.beforePoll);
    CallsGoOn(h, round.beforePoll);
    var wake := round.reportWakeup && h1.s.counter > 0;
    if round.othersReady || wake {
      var h2 := Do(h1, M.PollReturns(wake));
      DoGoesOn(h1, M.PollReturns(wake));
      CallsGoOn(h2, round.handling);
      DoGoesOn(DoCalls(h2, round.handling), M.ReadWakeup);
      GoesOnThrough(h, h1, h2);
      GoesOnThrough(h, h2, DoCalls(h2, round.handling));
      GoesOnThrough(h, DoCalls(h2, round.handling), Do(DoCalls(h2, round.handling), M.ReadWakeup));
    }
  }

  /** A turn completes unless the flag was clear or nothing was ready. */
  lemma TurnGoesOn<T>(h: Played<T>, round: Round<T>)
    requires h.s.phase.AtTest?
    ensures var h' := DoTurn(h, round);
            && GoesOn(h, h')
            && (h'.s.phase.Stopped? <==> !h.s.running)
            && (h'.s.phase.Stopped? || h'.s.phase.AtPoll? || h'.s.phase.AtTest?)
            && h'.s.turns == (if h'.s.phase.AtTest? then h.s.turns + 1 else h.s.turns)
  {
    var h1 := Do(h, M.TestRunning);
    DoGoesOn(h, M.TestRunning);
    if h.s.running {
      var h2 := DoPoll(h1, round);
      PollGoesOn(h1, round);
      GoesOnThrough(h, h1, h2);
      if !h2.s.phase.AtPoll? {
        FunctorsGoOn(h2, round.calls);
        GoesOnThrough(h, h2, DoFunctors(h2, round.calls));
      }
    }
  }

  lemma {:induction false} RoundsGoOn<T>(h: Played<T>, rounds: seq<Round<T>>)
    requires h.s.phase.AtTest? || h.s.phase.AtPoll? || h.s.phase.Stopped?
    ensures var h' := DoRounds(h, rounds);
            && GoesOn(h, h')
            && (h'.s.phase.Stopped? || h'.s.phase.AtPoll? || h'.s.phase.AtTest?)
            && h'.s.turns <= h.s.turns + |rounds|
            && (h.s.phase.AtTest? && h'.s.phase.AtTest? ==> h'.s.turns == h.s.turns + |rounds|)
            && (!h.s.phase.Stopped? && h'.s.phase.Stopped? ==> !h'.s.running)
    decreases |rounds|
  {
    if rounds == [] || !h.s.phase.AtTest? {
      assert M.NoQuit(h.run, |h.run|);
    } else {
      var h1 := DoTurn(h, rounds[0]);
      TurnGoesOn(h, rounds[0]);
      RoundsGoOn(h1, rounds[1..]);
      GoesOnThrough(h, h1, DoRounds(h1, rounds[1..]));
    }
  }

  lemma StartGoesOn<T>(h: Played<T>)
    requires h.s.phase.Stopped?
    ensures var h1 := Do(h, M.StartLoop);
            && h.run <= h1.run && (Reaches(h) ==> Reaches(h1))
            && h1.s == h.s.(running := true, phase := M.AtTest) && M.NoQuit(h1.run, |h.run|)
  {
    if Reaches(h) {
      RunSnoc(M.Initial(), h.run, M.StartLoop);
    }
  }

  /** Whatever the surroundings do, the loop's execution extends the run it starts from by a run
      of the protocol; afterwards the flag is clear exactly if in it somebody quits; the loop stops
      only then; and each round that does not end in waiting is a whole turn. */
  lemma LoopIsRun<T>(h: Played<T>, rounds: seq<Round<T>>)
    requires Reaches(h) && h.s.phase.Stopped?
    ensures var h' := DoLoop(h, rounds);
            && Reaches(h') && h.run <= h'.run
            && (h'.s.phase.Stopped? || h'.s.phase.AtPoll? || h'.s.phase.AtTest?)
            && h'.s.turns <= h.s.turns + |rounds|
            && (h'.s.phase.AtTest? ==> h'.s.turns == h.s.turns + |rounds|)
            && (h'.s.running <==> M.NoQuit(h'.run, |h.run|))
            && (h'.s.phase.Stopped? ==> !h'.s.running)
  {
    var h1 := Do(h, M.StartLoop);
    StartGoesOn(h);
    RoundsGoOn(h1, rounds);
    NoQuitSplit(h, h1, DoRounds(h1, rounds));
  }

  lemma {:induction false} RoundsSplit<T>(h: Played<T>, first: seq<Round<T>>, more: seq<Round<T>>)
    ensures DoRounds(h, first + more) == DoRounds(DoRounds(h, first), more)
    decreases |first|
  {
    if first == [] {
      assert first + more == more;
    } else {
      assert (first + more)[0] == first[0] && (first + more)[1..] == first[1..] + more;
      if h.s.phase.AtTest? {
        RoundsSplit(DoTurn(h, first[0]), first[1..], more);
      }
    }
  }

  /** If somebody quits during the first `k` rounds, no later round adds a turn, and the loop ends
      stopped, unless it waits at the poll in the turn it was in. */
  lemma QuitEndsLoop<T>(h: Played<T>, rounds: seq<Round<T>>, k: nat)
    requires Reaches(h) && h.s.phase.Stopped? && k < |rounds|
    requires !M.NoQuit(DoLoop(h, rounds[..k]).run, |h.run|)
    ensures var h1, h2 := DoLoop(h, rounds[..k]), DoLoop(h, rounds);
            && h2.s.turns == h1.s.turns <= h.s.turns + k
            && (h2.s.phase.Stopped? || h2.s.phase.AtPoll?)
            && (h2.s.phase.Stopped? <==> !h1.s.phase.AtPoll?)
  {
    var h1 := DoLoop(h, rounds[..k]);
    LoopIsRun(h, rounds[..k]);
    assert rounds == rounds[..k] + rounds[k..];
    RoundsSplit(Do(h, M.StartLoop), rounds[..k], rounds[k..]);
    assert DoLoop(h, rounds) == DoRounds(h1, rounds[k..]);
    if h1.s.phase.AtTest? {
      StoppedAtTest(h1, rounds[k..]);
    }
  }

  lemma StoppedAtTest<T>(h: Played<T>, rounds: seq<Round<T>>)
    requires h.s.phase.AtTest? && !h.s.running && rounds != []
    ensures DoRounds(h, rounds).s.phase.Stopped? && DoRounds(h, rounds).s.turns == h.s.turns
  {
    assert DoRounds(h, rounds) == DoRounds(DoTurn(h, rounds[0]), rounds[1..]);
  }

  // ---- What the script puts in comes out ----

  /** The functors of the calls whose threads are ready for them. */
  function TookEffect<T>(h: Played<T>, calls: seq<Call<T>>): seq<T>
    decreases |calls|
  {
    if calls == [] then [] else
      (if calls[0].CallPush? && calls[0].p !in h.s.between then [calls[0].functor] else [])
      + TookEffect(Do(h, ActionOf(calls[0])), calls[1..])
  }

  lemma {:induction false} PushesSnoc<T>(run: seq<M.Action<T>>, a: M.Action<T>)
    ensures M.Pushes(run + [a]) == M.Pushes(run) + (if a.Push? then [a.functor] else [])
    decreases run
  {
    if run == [] {
      assert run + [a] == [a];
      assert [a][1..] == [];
    } else {
      PushesSnoc(run[1..], a);
      assert (run + [a])[1..] == run[1..] + [a];
    }
  }

  /** Scripted steps push exactly the functors of the calls that took effect, in order. */
  lemma {:induction false} CallsPush<T>(h: Played<T>, calls: seq<Call<T>>)
    ensures M.Pushes(DoCalls(h, calls).run) == M.Pushes(h.run) + TookEffect(h, calls)
    ensures DoCalls(h, calls).s.pending == h.s.pending + TookEffect(h, calls)
    decreases |calls|
  {
    if calls != [] {
      var h1 := Do(h, ActionOf(calls[0]));
      PushesSnoc(h.run, ActionOf(calls[0]));
      CallsPush(h1, calls[1..]);
      Associate(M.Pushes(h.run), h.s.pending, TookEffect(h, calls[..1]), TookEffect(h1, calls[1..]));
    }
  }

  lemma Associate<T>(a: seq<T>, b: seq<T>, c: seq<T>, d: seq<T>)
    ensures a + c + d == a + (c + d) && b + c + d == b + (c + d)
  {
  }

  lemma {:induction false} RunSplit<T>(s: M.Loop<T>, a: seq<M.Action<T>>, b: seq<M.Action<T>>)
    requires M.EnabledRun(s, a) && M.EnabledRun(s, a + b)
    ensures M.EnabledRun(M.Run(s, a), b) && M.Run(s, a + b) == M.Run(M.Run(s, a), b)
    decreases a
  {
    if a == [] {
      assert a + b == b;
    } else {
      assert (a + b)[0] == a[0] && (a + b)[1..] == a[1..] + b;
      RunSplit(M.Step(s, a[0]), a[1..], b);
    }
  }

  /** Whatever had been pushed when the loop was about to test its flag has been executed once
      the next turn is complete. */
  lemma PushedIsExecuted<T>(h: Played<T>, rounds: seq<Round<T>>)
    requires Reaches(h) && h.s.phase.AtTest? && rounds != []
    requires DoRounds(h, rounds).s.phase.AtTest?
    ensures M.Pushes(h.run) <= DoRounds(h, rounds).s.executed
  {
    var h1, h2 := Do(h, M.TestRunning), DoRounds(h, rounds);
    TurnGoesOn(h, rounds[0]);
    RoundsGoOn(h, rounds);
    assert h.s.running by {
      RoundsGoOn(DoTurn(h, rounds[0]), rounds[1..]);
    }
    DoGoesOn(h, M.TestRunning);
    PushesSnoc(h.run, M.TestRunning);
    assert h1.run <= h2.run by {
      TestedFirst(h, rounds[0]);
      RoundsGoOn(DoTurn(h, rounds[0]), rounds[1..]);
    }
    var after := h2.run[|h1.run|..];
    assert h2.run == h1.run + after;
    RunSplit(M.Initial(), h1.run, after);
    M.OneTurnServesAll(h1.run, after);
    assert M.Pushes(h.run) + [] == M.Pushes(h.run);
  }

  lemma TestedFirst<T>(h: Played<T>, round: Round<T>)
    requires h.s.phase.AtTest? && h.s.running
    ensures GoesOn(Do(h, M.TestRunning), DoTurn(h, round))
  {
    var h1 := Do(h, M.TestRunning);
    var h2 := DoPoll(h1, round);
    PollGoesOn(h1, round);
    if !h2.s.phase.AtPoll? {
      FunctorsGoOn(h2, round.calls);
      GoesOnThrough(h1, h2, DoFunctors(h2, round.calls));
    }
  }
}
