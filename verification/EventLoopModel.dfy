/** The event loop's functor queue as a protocol: any number of foreign threads push functors or ask
    the loop to quit and then write the eventfd; the loop polls, handles events, swaps the
    queue and runs what it took. Memory is sequentially consistent. */
module EventLoopModel {
  import opened Bytes

  type ThreadId = nat

  /** A foreign thread between an update and the wakeup that follows it. */
  datatype Pc = HasPushed | HasQuit

  /** Where the loop thread is; Handling says whether the wakeup channel is still to be read. */
  datatype Phase = Stopped | AtTest | AtPoll | Handling(wakePending: bool) | Running

  datatype Loop<T> = Loop(
    running: bool,
    callingPending: bool,
    phase: Phase,
    counter: nat,                  // the eventfd
    pending: seq<T>,               // pending_functors_
    batch: seq<T>,                 // the swapped functors not yet run
    between: map<ThreadId, Pc>,
    pushed: seq<T>,                // every push so far
    executed: seq<T>,              // every functor run so far
    turns: nat)                    // completed iterations

  /** write(2) on a non-blocking eventfd: at the largest count it fails and leaves the count. */
  const MAX_COUNT: nat := 0xFFFF_FFFF_FFFF_FFFE

  function WriteOne(counter: nat): nat {
    if counter + 1 > MAX_COUNT then counter else counter + 1
  }

  datatype Action<T> =
    | Push(p: ThreadId, functor: T)
    | Quit(p: ThreadId)
    | Wake(p: ThreadId)
    | StartLoop
    | TestRunning
    | PollReturns(wakeReported: bool)
    | ReadWakeup
    | QuitInLoop
    | SwapQueue
    | RunOne
    | EndBatch

  function Initial<T>(): Loop<T> {
    Loop(false, false, Stopped, 0, [], [], map[], [], [], 0)
  }

  /** poll blocks until some descriptor is ready; the eventfd is ready only when its count is
      positive, and other descriptors may make poll return without it. */
  predicate Enabled<T>(s: Loop<T>, a: Action<T>) {
    match a
    case Push(p, _) => p !in s.between
    case Quit(p) => p !in s.between
    case Wake(p) => p in s.between
    case StartLoop => s.phase.Stopped?
    case TestRunning => s.phase.AtTest?
    case PollReturns(wakeReported) => s.phase.AtPoll? && (wakeReported ==> s.counter > 0)
    case ReadWakeup => s.phase.Handling? && s.phase.wakePending
    case QuitInLoop => s.phase.Handling? || s.phase.Running?
    case SwapQueue => s.phase.Handling? && !s.phase.wakePending
    case RunOne => s.phase.Running? && s.batch != []
    case EndBatch => s.phase.Running? && s.batch == []
  }

  function Step<T>(s: Loop<T>, a: Action<T>): Loop<T>
    requires Enabled(s, a)
  {
    match a
    case Push(p, functor) =>
      s.(pending := s.pending + [functor], pushed := s.pushed + [functor], between := s.between[p := HasPushed])
    case Quit(p) => s.(running := false, between := s.between[p := HasQuit])
    case Wake(p) => s.(counter := WriteOne(s.counter), between := s.between - {p})
    case StartLoop => s.(running := true, phase := AtTest)
    case TestRunning => s.(phase := if s.running then AtPoll else Stopped)
    case PollReturns(wakeReported) => s.(phase := Handling(wakeReported))
    case ReadWakeup => s.(counter := 0, phase := Handling(false))
    case QuitInLoop => s.(running := false)
    case SwapQueue => s.(callingPending := true, batch := s.pending, pending := s.batch, phase := Running)
    case RunOne => s.(executed := s.executed + [s.batch[0]], batch := s.batch[1..])
    case EndBatch => s.(callingPending := false, turns := s.turns + 1, phase := AtTest)
  }

  // ---- Exactly once, in order ----

  ghost predicate Conserved<T>(s: Loop<T>) {
    && s.executed + s.batch + s.pending == s.pushed
    && (s.batch != [] ==> s.phase.Running?)
  }

  /** Whatever step is taken, each pushed functor is in exactly one place and the order is kept. */
  lemma StepConserved<T>(s: Loop<T>, a: Action<T>)
    requires Conserved(s) && Enabled(s, a)
    ensures Conserved(Step(s, a))
  {
    match a
    case Push(_, functor) => assert s.executed + s.batch + (s.pending + [functor]) == s.pushed + [functor];
    case SwapQueue => assert s.executed + s.pending + [] == s.pushed;
    case RunOne => assert s.batch == [s.batch[0]] + s.batch[1..];
    case _ =>
  }

  // ---- No lost wakeup ----

  ghost predicate SomeoneBetween<T>(s: Loop<T>, pc: Pc) {
    exists p :: p in s.between && s.between[p] == pc
  }

  /** Except between the return of poll and the swap, a waiting functor has a wakeup due; and at
      the poll a quit request has one due. */
  ghost predicate Awake<T>(s: Loop<T>) {
    && (!s.phase.Handling? && s.pending != [] ==> s.counter > 0 || SomeoneBetween(s, HasPushed))
    && (s.phase.AtPoll? && !s.running ==> s.counter > 0 || SomeoneBetween(s, HasQuit))
  }

  lemma BetweenKept<T>(s: Loop<T>, p: ThreadId, pc: Pc, pc': Pc)
    requires p !in s.between
    ensures var s' := s.(between := s.between[p := pc]);
            SomeoneBetween(s', pc) && (SomeoneBetween(s, pc') ==> SomeoneBetween(s', pc'))
  {
    var s' := s.(between := s.between[p := pc]);
    assert p in s'.between && s'.between[p] == pc;
    if SomeoneBetween(s, pc') {
      var q :| q in s.between && s.between[q] == pc';
      assert q in s'.between && s'.between[q] == pc';
    }
  }

  lemma SameBetween<T>(s: Loop<T>, s': Loop<T>)
    requires s.between == s'.between
    ensures forall pc :: SomeoneBetween(s, pc) <==> SomeoneBetween(s', pc)
  {
  }

  lemma StepAwake<T>(s: Loop<T>, a: Action<T>)
    requires Awake(s) && Conserved(s) && Enabled(s, a)
    ensures Awake(Step(s, a))
  {
    var s' := Step(s, a);
    match a
    case Push(p, _) =>
      BetweenKept(s, p, HasPushed, HasQuit);
      SameBetween(s', s.(between := s.between[p := HasPushed]));
    case Quit(p) =>
      BetweenKept(s, p, HasQuit, HasPushed);
      SameBetween(s', s.(between := s.between[p := HasQuit]));
    case Wake(_) =>
    case _ => SameBetween(s, s');
  }

  // ---- Whole runs ----

  predicate EnabledRun<T>(s: Loop<T>, run: seq<Action<T>>)
    decreases run
  {
    run == [] || (Enabled(s, run[0]) && EnabledRun(Step(s, run[0]), run[1..]))
  }

  function Run<T>(s: Loop<T>, run: seq<Action<T>>): Loop<T>
    requires EnabledRun(s, run)
    decreases run
  {
    if run == [] then s else Run(Step(s, run[0]), run[1..])
  }

  function Pushes<T>(run: seq<Action<T>>): seq<T> {
    if run == [] then [] else (if run[0].Push? then [run[0].functor] else []) + Pushes(run[1..])
  }

  lemma {:induction false} RunKeeps<T>(s: Loop<T>, run: seq<Action<T>>)
    requires Conserved(s) && Awake(s) && EnabledRun(s, run)
    ensures Conserved(Run(s, run)) && Awake(Run(s, run))
    decreases run
  {
    if run != [] {
      StepConserved(s, run[0]);
      StepAwake(s, run[0]);
      RunKeeps(Step(s, run[0]), run[1..]);
    }
  }

  lemma {:induction false} RunPushed<T>(s: Loop<T>, run: seq<Action<T>>)
    requires EnabledRun(s, run)
    ensures Run(s, run).pushed == s.pushed + Pushes(run)
    decreases run
  {
    if run != [] {
      var next, rest := Step(s, run[0]), run[1..];
      RunPushed(next, rest);
      assert next.pushed + Pushes(rest) == s.pushed + Pushes(run);
    }
  }

  /** In every interleaving, at every point and so at exit too: the functors executed, then those
      taken but not run, then those waiting, are all the functors pushed, in the order of the pushes. */
  lemma ExactlyOnceInOrder<T>(run: seq<Action<T>>)
    requires EnabledRun(Initial(), run)
    ensures var s := Run(Initial(), run);
            && s.executed + s.batch + s.pending == Pushes(run)
            && (!s.phase.Running? ==> s.executed + s.pending == Pushes(run))
  {
    RunKeeps(Initial<T>(), run);
    RunPushed(Initial<T>(), run);
    var s := Run(Initial<T>(), run);
    assert s.pushed == [] + Pushes(run) == Pushes(run);
    if !s.phase.Running? {
      assert s.executed + [] == s.executed;
    }
  }

  /** In every interleaving the loop is never blocked in poll on work that nobody will
      announce: the eventfd is ready, or a thread that made work is about to write it. */
  lemma NoLostWakeup<T>(run: seq<Action<T>>)
    requires EnabledRun(Initial(), run)
    ensures var s := Run(Initial(), run);
            && (s.phase.AtPoll? && s.pending != [] ==> s.counter > 0 || SomeoneBetween(s, HasPushed))
            && (s.phase.AtPoll? && !s.running ==> s.counter > 0 || SomeoneBetween(s, HasQuit))
            && (s.phase.AtPoll? && s.counter > 0 ==> Enabled(s, PollReturns(true)))
  {
    RunKeeps(Initial<T>(), run);
  }

  /** Whoever is between its update and its wakeup can finish, and then poll can return. */
  lemma WakeUnblocks<T>(s: Loop<T>, p: ThreadId)
    requires s.phase.AtPoll? && p in s.between
    ensures Enabled(s, Wake(p)) && Step(s, Wake(p)).counter > 0 && Enabled(Step(s, Wake(p)), PollReturns(true))
  {
  }

  // ---- What the fields mean, in terms of the run ----

  /** Somebody asks the loop to quit. */
  predicate IsQuit<T>(a: Action<T>) {
    a.Quit? || a.QuitInLoop?
  }

  /** From action `k` on nobody does. */
  ghost predicate NoQuit<T>(run: seq<Action<T>>, k: nat) {
    forall i :: k <= i < |run| ==> !IsQuit(run[i])
  }

  /** The last start of the loop comes after the last quit. */
  ghost predicate StartedLast<T>(run: seq<Action<T>>) {
    exists k :: 0 <= k < |run| && run[k].StartLoop? && NoQuit(run, k)
  }

  lemma NoQuitCons<T>(a: Action<T>, rest: seq<Action<T>>, k: nat)
    ensures NoQuit([a] + rest, k + 1) <==> NoQuit(rest, k)
    ensures NoQuit([a] + rest, 0) <==> !IsQuit(a) && NoQuit(rest, 0)
  {
    var run := [a] + rest;
    assert run[0] == a && forall i :: 0 <= i < |rest| ==> run[i + 1] == rest[i];
    if NoQuit(run, k + 1) {
      forall i | k <= i < |rest| ensures !IsQuit(rest[i]) {
        assert run[i + 1] == rest[i];
      }
    }
    if NoQuit(run, 0) {
      forall i | 0 <= i < |rest| ensures !IsQuit(rest[i]) {
        assert run[i + 1] == rest[i];
      }
    }
  }

  lemma StartedCons<T>(a: Action<T>, rest: seq<Action<T>>)
    ensures StartedLast([a] + rest) <==> StartedLast(rest) || (a.StartLoop? && NoQuit(rest, 0))
  {
    var run := [a] + rest;
    NoQuitCons(a, rest, 0);
    if StartedLast(rest) {
      var k :| 0 <= k < |rest| && rest[k].StartLoop? && NoQuit(rest, k);
      NoQuitCons(a, rest, k);
      assert run[k + 1].StartLoop?;
    }
    if a.StartLoop? && NoQuit(rest, 0) {
      assert run[0].StartLoop?;
    }
    if StartedLast(run) {
      var k :| 0 <= k < |run| && run[k].StartLoop? && NoQuit(run, k);
      if k > 0 {
        NoQuitCons(a, rest, k - 1);
        assert rest[k - 1].StartLoop?;
      }
    }
  }

  lemma {:induction false} RunFlag<T>(s: Loop<T>, run: seq<Action<T>>)
    requires EnabledRun(s, run)
    ensures Run(s, run).running <==> StartedLast(run) || (s.running && NoQuit(run, 0))
    decreases run
  {
    if run != [] {
      RunFlag(Step(s, run[0]), run[1..]);
      StartedCons(run[0], run[1..]);
      NoQuitCons(run[0], run[1..], 0);
      assert run == [run[0]] + run[1..];
    }
  }

  /** In every run the flag is set exactly when the loop was started and nobody has asked it to
      quit since. */
  lemma RunningUnlessQuit<T>(run: seq<Action<T>>)
    requires EnabledRun(Initial(), run)
    ensures Run(Initial(), run).running <==> StartedLast(run)
  {
    RunFlag(Initial<T>(), run);
  }

  ghost predicate NoStart<T>(run: seq<Action<T>>) {
    forall i :: 0 <= i < |run| ==> !run[i].StartLoop?
  }

  /** With the flag clear, the turn the loop is in may complete, and then it tests the flag. */
  ghost predicate Ending<T>(s: Loop<T>, turns: nat) {
    && !s.running
    && (s.phase.AtTest? || s.phase.Stopped? ==> s.turns <= turns + 1)
    && (!s.phase.AtTest? && !s.phase.Stopped? ==> s.turns <= turns)
  }

  lemma {:induction false} RunEnding<T>(s: Loop<T>, run: seq<Action<T>>, turns: nat)
    requires Ending(s, turns) && EnabledRun(s, run) && NoStart(run)
    ensures Ending(Run(s, run), turns)
    decreases run
  {
    if run != [] {
      assert !run[0].StartLoop?;
      RunEnding(Step(s, run[0]), run[1..], turns);
    }
  }

  /** A quit by anybody at any time lets at most the turn complete that it came in; the next test
      of the flag stops the loop. */
  lemma QuitStopsLoop<T>(before: seq<Action<T>>, quit: Action<T>, after: seq<Action<T>>)
    requires EnabledRun(Initial(), before) && IsQuit(quit) && Enabled(Run(Initial(), before), quit)
    requires EnabledRun(Step(Run(Initial(), before), quit), after) && NoStart(after)
    ensures var s, s' := Run(Initial(), before), Run(Step(Run(Initial(), before), quit), after);
            && !s'.running && s'.turns <= s.turns + 1
            && (s'.phase.AtTest? ==> Step(s', TestRunning).phase.Stopped?)
  {
    RunEnding(Step(Run(Initial(), before), quit), after, Run(Initial(), before).turns);
  }

  /** How often the eventfd was written since it was last read. */
  function WakesSince<T>(run: seq<Action<T>>, already: nat): nat
    decreases run
  {
    if run == [] then already
    else match run[0]
      case Wake(_) => WakesSince(run[1..], already + 1)
      case ReadWakeup => WakesSince(run[1..], 0)
      case _ => WakesSince(run[1..], already)
  }

  lemma {:induction false} RunCounter<T>(s: Loop<T>, run: seq<Action<T>>, already: nat)
    requires EnabledRun(s, run) && s.counter == Min(already, 0xFFFF_FFFF_FFFF_FFFE)
    ensures Run(s, run).counter == Min(WakesSince(run, already), 0xFFFF_FFFF_FFFF_FFFE)
    decreases run
  {
    if run != [] {
      var now := match run[0] case Wake(_) => already + 1 case ReadWakeup => 0 case _ => already;
      RunCounter(Step(s, run[0]), run[1..], now);
    }
  }

  /** In every run the count is the number of wakeups since its last read, up to its maximum; so it
      is zero after the handler until the next wakeup. */
  lemma CounterCountsWakeups<T>(run: seq<Action<T>>)
    requires EnabledRun(Initial(), run)
    ensures Run(Initial(), run).counter == Min(WakesSince(run, 0), 0xFFFF_FFFF_FFFF_FFFE)
  {
    RunCounter(Initial<T>(), run, 0);
  }

  /** What thread `p` has done and not yet announced after the run, given what it had before. */
  function Unannounced<T>(run: seq<Action<T>>, p: ThreadId, already: Option<Pc>): Option<Pc>
    decreases run
  {
    if run == [] then already
    else match run[0]
      case Push(q, _) => Unannounced(run[1..], p, if q == p then Some(HasPushed) else already)
      case Quit(q) => Unannounced(run[1..], p, if q == p then Some(HasQuit) else already)
      case Wake(q) => Unannounced(run[1..], p, if q == p then None else already)
      case _ => Unannounced(run[1..], p, already)
  }

  function Lookup(between: map<ThreadId, Pc>, p: ThreadId): Option<Pc> {
    if p in between then Some(between[p]) else None
  }

  /** A thread counts as between its update and its wakeup exactly when that is what it last did. */
  lemma {:induction false} RunBetween<T>(s: Loop<T>, run: seq<Action<T>>, p: ThreadId)
    requires EnabledRun(s, run)
    ensures Lookup(Run(s, run).between, p) == Unannounced(run, p, Lookup(s.between, p))
    decreases run
  {
    if run != [] {
      RunBetween(Step(s, run[0]), run[1..], p);
    }
  }

  function Batches<T>(run: seq<Action<T>>): nat {
    if run == [] then 0 else (if run[0].EndBatch? then 1 else 0) + Batches(run[1..])
  }

  lemma {:induction false} RunTurns<T>(s: Loop<T>, run: seq<Action<T>>)
    requires EnabledRun(s, run)
    ensures Run(s, run).turns == s.turns + Batches(run)
    decreases run
  {
    if run != [] {
      RunTurns(Step(s, run[0]), run[1..]);
    }
  }

  /** calling_pending_ is set exactly while the loop runs a batch. */
  lemma {:induction false} RunCalling<T>(s: Loop<T>, run: seq<Action<T>>)
    requires EnabledRun(s, run) && (s.callingPending <==> s.phase.Running?)
    ensures Run(s, run).callingPending <==> Run(s, run).phase.Running?
    decreases run
  {
    if run != [] {
      RunCalling(Step(s, run[0]), run[1..]);
    }
  }

  // ---- A turn of the loop serves everything that waited before it ----

  /** `seen` functors had been pushed when the loop was at the poll with `turns` turns done. */
  ghost predicate Serving<T>(s: Loop<T>, seen: seq<T>, turns: nat) {
    && seen <= s.pushed
    && turns <= s.turns
    && (s.turns == turns ==>
          s.phase.AtPoll? || s.phase.Handling? || (s.phase.Running? && seen <= s.executed + s.batch))
    && (s.turns > turns ==> seen <= s.executed)
  }

  lemma StepServing<T>(s: Loop<T>, a: Action<T>, seen: seq<T>, turns: nat)
    requires Conserved(s) && Serving(s, seen, turns) && Enabled(s, a)
    ensures Serving(Step(s, a), seen, turns)
  {
    match a
    case RunOne => assert s.executed + [s.batch[0]] + s.batch[1..] == s.executed + s.batch;
    case SwapQueue => assert s.executed + s.pending == s.pushed;
    case EndBatch => assert s.executed + s.batch == s.executed;
    case _ =>
  }

  lemma {:induction false} RunServing<T>(s: Loop<T>, run: seq<Action<T>>, seen: seq<T>, turns: nat)
    requires Conserved(s) && Serving(s, seen, turns) && EnabledRun(s, run)
    ensures Serving(Run(s, run), seen, turns)
    decreases run
  {
    if run != [] {
      StepConserved(s, run[0]);
      StepServing(s, run[0], seen, turns);
      RunServing(Step(s, run[0]), run[1..], seen, turns);
    }
  }

  /** Once the loop leaves the poll and completes that turn, everything that had been pushed
      when it was at the poll has been executed, whatever happened in between. */
  lemma OneTurnServesAll<T>(before: seq<Action<T>>, after: seq<Action<T>>)
    requires EnabledRun(Initial(), before) && Run(Initial(), before).phase.AtPoll?
    requires EnabledRun(Run(Initial(), before), after)
    requires Run(Run(Initial(), before), after).turns > Run(Initial(), before).turns
    ensures Pushes(before) <= Run(Run(Initial(), before), after).executed
  {
    var s := Run(Initial(), before);
    RunKeeps(Initial<T>(), before);
    RunPushed(Initial<T>(), before);
    RunServing(s, after, s.pushed, s.turns);
  }
}
