/** The event loop in its own form: what the critical sections and the eventfd calls do to the
    fields, the swap-and-run loop and the polling loop, with foreign threads running in between. */
module EventLoops {
  import opened Bytes
  import M = EventLoopModel
  import opened EventLoopScripts

  class EventLoop<T> {
    var running: bool
    var callingPending: bool
    var pendingFunctors: seq<T>
    /** The eventfd's count. */
    var eventfd: nat
    /** The functors that have been called, in order. */
    ghost var executed: seq<T>
    /** Which foreign threads are between an update and its wakeup. */
    var between: map<nat, M.Pc>
    ghost var pushed: seq<T>
    ghost var turns: nat

    constructor ()
      ensures Whole(M.Stopped, []) == M.Initial()
    {
      running, callingPending, pendingFunctors := false, false, [];
      eventfd, executed, between, pushed, turns := 0, [], map[], [], 0;
    }

    ghost function Whole(phase: M.Phase, functors: seq<T>): M.Loop<T>
      reads this
    {
      M.Loop(running, callingPending, phase, eventfd, pendingFunctors, functors, between, pushed, executed, turns)
    }

    // ---- The pieces ----

    /** The critical section of queueInLoop. */
    method Enqueue(cb: T)
      modifies `pendingFunctors, `pushed
      ensures pendingFunctors == old(pendingFunctors) + [cb] && pushed == old(pushed) + [cb]
    {
      pendingFunctors := pendingFunctors + [cb];
      pushed := pushed + [cb];
    }

    /** Epoller::wakeup: a failed write leaves the count, which is then at its largest. */
    method Wakeup()
      modifies `eventfd
      ensures eventfd == M.WriteOne(old(eventfd)) && eventfd > 0
    {
      if eventfd + 1 <= M.MAX_COUNT {
        eventfd := eventfd + 1;
      }
    }

    /** wakeupRead: reading an eventfd returns the count and resets it. */
    method WakeupRead() returns (one: nat)
      modifies `eventfd
      ensures one == old(eventfd) && eventfd == 0
    {
      one := eventfd;
      eventfd := 0;
    }

    /** runInLoop when no other thread intervenes: called at once on the loop thread, queued
        and announced on any other. */
    method RunInLoop(isLoopThread: bool, cb: T)
      modifies `executed, `pendingFunctors, `pushed, `eventfd
      ensures isLoopThread ==>
                executed == old(executed) + [cb] && pendingFunctors == old(pendingFunctors) && eventfd == old(eventfd)
      ensures !isLoopThread ==>
                executed == old(executed) && pendingFunctors == old(pendingFunctors) + [cb] && eventfd > 0
    {
      if isLoopThread {
        executed := executed + [cb];
      } else {
        Enqueue(cb);
        Wakeup();
      }
    }

    // ---- With foreign threads in between ----

    /** Foreign threads take some steps; a step that its thread is not ready for is skipped. */
    method Others(calls: seq<Call<T>>, inCallback: bool, ghost phase: M.Phase, ghost functors: seq<T>,
                  ghost h: Played<T>)
      returns (ghost h': Played<T>)
      requires h.s == Whole(phase, functors) && (inCallback <==> phase.Handling? || phase.Running?)
      modifies this
      ensures h' == DoCalls(h, calls) && h'.s == Whole(phase, functors)
      ensures pendingFunctors == old(pendingFunctors) + TookEffect(h, calls)
      ensures callingPending == old(callingPending) && executed == old(executed) && turns == old(turns)
    {
      h' := h;
      assert calls[0..] == calls;
      for i := 0 to |calls|
        invariant DoCalls(h', calls[i..]) == DoCalls(h, calls) && h'.s == Whole(phase, functors)
        invariant callingPending == old(callingPending) && executed == old(executed) && turns == old(turns)
      {
        assert calls[i..][1..] == calls[i + 1..];
        h' := Do(h', ActionOf(calls[i]));
        OneCall(calls[i], inCallback, phase, functors);
      }
      CallsPush(h, calls);
    }

    method OneCall(call: Call<T>, inCallback: bool, ghost phase: M.Phase, ghost functors: seq<T>)
      requires inCallback <==> phase.Handling? || phase.Running?
      modifies this
      ensures Whole(phase, functors) == Do(Played([], old(Whole(phase, functors))), ActionOf(call)).s
      ensures callingPending == old(callingPending) && executed == old(executed) && turns == old(turns)
      ensures running == (old(running) && !(call.CallQuit? && call.p !in old(between))
                          && !(call.CallQuitInLoop? && inCallback))
    {
      match call
      case CallPush(p, functor) =>
        if p !in between {
          Enqueue(functor);
          between := between[p := M.HasPushed];
        }
      case CallQuit(p) =>
        if p !in between {
          running := false;
          between := between[p := M.HasQuit];
        }
      case CallWake(p) =>
        if p in between {
          Wakeup();
          between := between - {p};
        }
      case CallQuitInLoop =>
        if inCallback {
          running := false;
        }
    }

    /** One functor of the batch, after whatever other threads do before it. */
    method CallFunctor(cb: T, calls: seq<Call<T>>, ghost functors: seq<T>, ghost h: Played<T>)
      returns (ghost h': Played<T>)
      requires functors != [] && functors[0] == cb && h.s == Whole(M.Running, functors)
      modifies this
      ensures h' == Do(DoCalls(h, calls), M.RunOne) && h'.s == Whole(M.Running, functors[1..])
      ensures executed == old(executed) + [cb] && callingPending == old(callingPending) && turns == old(turns)
    {
      h' := Others(calls, true, M.Running, functors, h);
      h' := Do(h', M.RunOne);
      executed := executed + [cb];
    }

    static lemma NextFunctor(functors: seq<T>, i: nat)
      requires i < |functors|
      ensures functors[i..][1..] == functors[i + 1..] && functors[..i] + [functors[i]] == functors[..i + 1]
    {
    }

    /** The loop of doPendingFunctors over the functors it took. */
    method RunBatch(functors: seq<T>, calls: seq<seq<Call<T>>>, ghost h: Played<T>) returns (ghost h': Played<T>)
      requires h.s == Whole(M.Running, functors)
      modifies this
      ensures h' == DoBatch(h, |functors|, calls) && h'.s == Whole(M.Running, [])
      ensures executed == old(executed) + functors
      ensures callingPending == old(callingPending) && turns == old(turns)
    {
      h' := h;
      var i, rest := 0, calls;
      ghost var goal := DoBatch(h, |functors|, calls);
      assert functors[0..] == functors;
      while i < |functors|
        invariant i <= |functors| && callingPending == old(callingPending) && turns == old(turns)
        invariant executed == old(executed) + functors[..i]
        invariant h'.s == Whole(M.Running, functors[i..])
        invariant DoBatch(h', |functors| - i, rest) == goal
      {
        h' := CallFunctor(functors[i], Head(rest), functors[i..], h');
        rest := Tail(rest);
        NextFunctor(functors, i);
        i := i + 1;
      }
      assert functors[..i] == functors && functors[i..] == [];
    }

    /** The critical section of doPendingFunctors. */
    method TakeFunctors(ghost h: Played<T>) returns (functors: seq<T>, ghost h': Played<T>)
      requires h.s == Whole(M.Handling(false), [])
      modifies `callingPending, `pendingFunctors
      ensures h' == Do(h, M.SwapQueue) && h'.s == Whole(M.Running, functors)
      ensures functors == old(pendingFunctors) && pendingFunctors == []
    {
      functors := [];
      callingPending := true;
      functors, pendingFunctors := pendingFunctors, functors;
      h' := Do(h, M.SwapQueue);
    }

    /** doPendingFunctors: everything that was waiting is called, once each and in order, and
        only that, whatever is queued meanwhile. */
    method DoPendingFunctors(calls: seq<seq<Call<T>>>, ghost h: Played<T>) returns (ghost h': Played<T>)
      requires h.s == Whole(M.Handling(false), [])
      modifies this
      ensures h' == DoFunctors(h, calls) && h'.s == Whole(M.AtTest, [])
      ensures executed == old(executed) + old(pendingFunctors)
      ensures !callingPending && turns == old(turns) + 1
    {
      var functors;
      functors, h' := TakeFunctors(h);
      h' := RunBatch(functors, calls, h');
      h' := Do(h', M.EndBatch);
      callingPending := false;
      turns := turns + 1;
    }

    /** poll and the handlers. The loop stays at the poll when nothing is ready. */
    method PollAndHandle(round: Round<T>, ghost h: Played<T>) returns (ready: bool, ghost h': Played<T>)
      requires h.s == Whole(M.AtPoll, [])
      modifies this
      ensures h' == DoPoll(h, round) && h'.s == Whole(if ready then M.Handling(false) else M.AtPoll, [])
      ensures executed == old(executed) && turns == old(turns) && old(pendingFunctors) <= pendingFunctors
      ensures !ready ==> !round.othersReady && (!round.reportWakeup || eventfd == 0)
    {
      ghost var h1 := Others(round.beforePoll, false, M.AtPoll, [], h);
      var wakeReported := round.reportWakeup && eventfd > 0;
      ready := round.othersReady || wakeReported;
      h' := h1;
      if ready {
        h' := Handle(round.handling, wakeReported, h1);
      }
    }

    /** The report and the handlers, the wakeup channel's included. */
    method Handle(handling: seq<Call<T>>, wakeReported: bool, ghost h: Played<T>) returns (ghost h': Played<T>)
      requires h.s == Whole(M.AtPoll, []) && (wakeReported ==> eventfd > 0)
      modifies this
      ensures var h2 := DoCalls(Do(h, M.PollReturns(wakeReported)), handling);
              h' == if wakeReported then Do(h2, M.ReadWakeup) else h2
      ensures h'.s == Whole(M.Handling(false), [])
      ensures executed == old(executed) && turns == old(turns) && old(pendingFunctors) <= pendingFunctors
    {
      h' := Do(h, M.PollReturns(wakeReported));
      h' := Others(handling, true, M.Handling(wakeReported), [], h');
      if wakeReported {
        h' := Do(h', M.ReadWakeup);
        var _ := WakeupRead();
      }
    }

    /** One test of the flag and, when it is set, one turn: poll, handle, run. */
    method Turn(round: Round<T>, ghost h: Played<T>) returns (phase: M.Phase, ghost h': Played<T>)
      requires h.s == Whole(M.AtTest, [])
      modifies this
      ensures h' == DoTurn(h, round) && h'.s == Whole(phase, [])
      ensures phase.Stopped? || phase.AtPoll? || phase.AtTest?
      ensures phase.Stopped? <==> !old(running)
      ensures phase.AtPoll? ==> !round.othersReady && (!round.reportWakeup || eventfd == 0)
      ensures phase.AtTest? ==> turns == old(turns) + 1 && old(executed) + old(pendingFunctors) <= executed
    {
      h' := Do(h, M.TestRunning);
      if !running {
        phase := M.Stopped;
        return;
      }
      var ready;
      ready, h' := PollAndHandle(round, h');
      if !ready {
        phase := M.AtPoll;
        return;
      }
      h' := DoPendingFunctors(round.calls, h');
      phase := M.AtTest;
    }

    /** loop, for as many turns as its surroundings are given: it does exactly what the script
        makes of it, which is a run of the protocol and ends early only by a quit or by waiting. */
    method Loop(rounds: seq<Round<T>>, ghost h: Played<T>) returns (phase: M.Phase, ghost h': Played<T>)
      requires h.s == Whole(M.Stopped, []) && Reaches(h)
      modifies this
      ensures h' == DoLoop(h, rounds) && h'.s == Whole(phase, [])
      ensures Reaches(h') && h.run <= h'.run
      ensures phase.Stopped? || phase.AtPoll? || phase.AtTest?
      ensures running <==> M.NoQuit(h'.run, |h.run|)
      ensures phase.Stopped? ==> !running
      ensures turns <= old(turns) + |rounds|
      ensures phase.AtTest? ==> turns == old(turns) + |rounds|
    {
      LoopIsRun(h, rounds);
      h' := Do(h, M.StartLoop);
      running := true;
      phase := M.AtTest;
      assert rounds[0..] == rounds;
      for i := 0 to |rounds|
        invariant DoRounds(h', rounds[i..]) == DoLoop(h, rounds) && h'.s == Whole(phase, [])
      {
        if phase.AtTest? {
          assert rounds[i..][1..] == rounds[i + 1..];
          phase, h' := Turn(rounds[i], h');
        }
      }
    }
  }
}
