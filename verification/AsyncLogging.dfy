/** The asynchronous logger in its own form: append as a critical section, and the backend
    thread's function with its loop, its local buffers and other threads running in between. */
module AsyncLogger {
  import opened Bytes
  import LM = LogModel
  import M = AsyncLogModel
  import opened AsyncLogScripts

  /** The local variables of the thread function. */
  datatype Locals = Locals(newBuffer1: Option<Owned>, newBuffer2: Option<Owned>, buffersToWrite: seq<Owned>,
                           output: seq<string>)

  class AsyncLogging {
    const size: nat
    var currentBuffer: Owned
    var nextBuffer: Option<Owned>
    var buffers: seq<Owned>
    var running: bool
    /** How many buffers `new` has yielded. */
    var news: nat

    constructor (size: nat)
      requires size > 0
      ensures this.size == size && running && news == 2
      ensures currentBuffer == M.Cell(0, "") && nextBuffer == Some(M.Cell(1, "")) && buffers == []
    {
      this.size := size;
      currentBuffer, nextBuffer, buffers := M.Cell(0, ""), Some(M.Cell(1, "")), [];
      running, news := true, 2;
    }

    /** The whole state, given the backend's local variables and where it is. */
    ghost function Whole(t: Locals, phase: M.Phase): State
      reads this
    {
      M.Log(M.Buffers(currentBuffer, nextBuffer, buffers, t.newBuffer1, t.newBuffer2, t.buffersToWrite),
            phase, running, t.output)
    }

    method New() returns (b: Owned)
      modifies `news
      ensures b == M.Cell(old(news), "") && news == old(news) + 1
    {
      b := M.Cell(news, "");
      news := news + 1;
    }

    /** The body of append, under the mutex. */
    method Append(line: string, ghost t: Locals, ghost phase: M.Phase)
      modifies `currentBuffer, `nextBuffer, `buffers, `news
      ensures Whole(t, phase).b == M.AppendLine(old(Whole(t, phase).b), line, size, old(news))
      ensures news == old(news) || news == old(news) + 1
      ensures news == old(news) <==> old(size - |currentBuffer.text| > |line| || nextBuffer.Some?)
    {
      if size - |currentBuffer.text| > |line| {
        currentBuffer := currentBuffer.(text := LM.AppendText(currentBuffer.text, line, size));
      } else {
        buffers := buffers + [currentBuffer];
        if nextBuffer.Some? {
          currentBuffer, nextBuffer := nextBuffer.value, None;
        } else {
          currentBuffer := New();
        }
        currentBuffer := currentBuffer.(text := LM.AppendText(currentBuffer.text, line, size));
      }
    }

    /** The played state is the logger's, with the backend's local variables and phase. */
    ghost predicate At(h: Played, t: Locals, phase: M.Phase)
      reads this
    {
      h.s == Whole(t, phase) && h.news == news && Sound(h, size)
    }

    /** Other threads run for a while: each of their calls takes effect, in order. */
    method Others(calls: seq<Call>, ghost t: Locals, ghost phase: M.Phase, ghost h: Played)
      returns (ghost h': Played)
      requires At(h, t, phase)
      modifies this
      ensures h' == DoCalls(h, calls, size) && At(h', t, phase)
      ensures M.Offered(h'.run, size) == M.Offered(h.run, size) + LinesIn(calls, size)
    {
      CallsGoOn(h, calls, size);
      h' := h;
      assert calls[0..] == calls;
      for i := 0 to |calls|
        invariant DoCalls(h', calls[i..], size) == DoCalls(h, calls, size) && At(h', t, phase)
      {
        assert calls[i..][1..] == calls[i + 1..];
        h' := OneCall(calls[i], t, phase, h');
      }
    }

    method OneCall(call: Call, ghost t: Locals, ghost phase: M.Phase, ghost h: Played) returns (ghost h': Played)
      requires At(h, t, phase)
      modifies this
      ensures h' == Do(h, ActionOf(call, h.news), size) && At(h', t, phase)
      ensures running == (old(running) && !call.CallStop?)
    {
      h' := Do(h, ActionOf(call, h.news), size);
      DoGoesOn(h, ActionOf(call, h.news), size);
      match call
      case CallAppend(line) => Append(line, t, phase);
      case CallStop => running := false;
    }

    /** The backend's critical section, after the wait. */
    method SwapSection(t: Locals) returns (t': Locals)
      requires t.newBuffer1.Some?
      modifies `currentBuffer, `nextBuffer, `buffers
      ensures Whole(t', M.Taken) == M.Step(old(Whole(t, M.Waiting)), M.SwapBuffers, size)
    {
      var newBuffer2, buffersToWrite := t.newBuffer2, t.buffersToWrite;
      buffers := buffers + [currentBuffer];
      currentBuffer := t.newBuffer1.value;
      buffersToWrite, buffers := buffers, buffersToWrite;
      if nextBuffer.None? {
        nextBuffer, newBuffer2 := newBuffer2, None;
      }
      t' := Locals(None, newBuffer2, buffersToWrite, t.output);
    }

    method Drop(t: Locals) returns (t': Locals)
      requires t.buffersToWrite != []
      ensures Whole(t', M.Writing(0)) == M.Step(Whole(t, M.Taken), M.DropOverload, size)
      ensures |t.buffersToWrite| <= 25 ==> t' == t
      ensures |t.buffersToWrite| > 25 ==>
                && |t'.output| == |t.output| + 1 && t'.output[..|t.output|] == t.output
                && M.IsNotice(t'.output[|t.output|], |t.buffersToWrite| - 2)
                && t'.buffersToWrite == t.buffersToWrite[..2]
    {
      M.NoticeReads(if |t.buffersToWrite| >= 2 then |t.buffersToWrite| - 2 else 0);
      t' := t;
      if |t.buffersToWrite| > M.DROP_ABOVE {
        t' := t.(output := t.output + [M.Notice(|t.buffersToWrite| - M.KEEP)],
                 buffersToWrite := t.buffersToWrite[..M.KEEP]);
      }
    }

    /** The two refills, each with the assertion the code makes. */
    method Recycle(t: Locals) returns (t': Locals)
      requires M.BackendInv(Whole(t, M.Taken).b, M.Taken)
      ensures Whole(t', M.Head) == M.Step(Whole(t, M.Writing(|t.buffersToWrite|)), M.Recycle, size)
    {
      var buffersToWrite := if |t.buffersToWrite| > M.KEEP then t.buffersToWrite[..M.KEEP] else t.buffersToWrite;
      var newBuffer1, newBuffer2 := t.newBuffer1, t.newBuffer2;
      if newBuffer1.None? {
        assert buffersToWrite != [];
        newBuffer1 := Some(buffersToWrite[|buffersToWrite| - 1].(text := ""));
        buffersToWrite := buffersToWrite[..|buffersToWrite| - 1];
      }
      if newBuffer2.None? {
        assert buffersToWrite != [];
        newBuffer2 := Some(buffersToWrite[|buffersToWrite| - 1].(text := ""));
        buffersToWrite := buffersToWrite[..|buffersToWrite| - 1];
      }
      t' := Locals(newBuffer1, newBuffer2, [], t.output);
    }

    /** The loop over the batch, with other threads running before every record. */
    method WriteBatch(t: Locals, calls: seq<seq<Call>>, ghost h: Played) returns (t': Locals, ghost h': Played)
      requires At(h, t, M.Writing(0))
      modifies this
      ensures t' == t.(output := t'.output)
      ensures h' == DoRecords(h, |t.buffersToWrite|, calls, size) && At(h', t', M.Writing(|t.buffersToWrite|))
      ensures |t'.output| == |t.output| + |t.buffersToWrite|
    {
      t', h' := t, h;
      var n, rest := |t.buffersToWrite|, calls;
      ghost var goal := DoRecords(h, n, calls, size);
      for i := 0 to n
        invariant t' == t.(output := t'.output) && |t'.output| == |t.output| + i
        invariant DoRecords(h', n - i, rest, size) == goal && At(h', t', M.Writing(i))
      {
        t', h' := WriteRecord(t', i, Head(rest), h');
        rest := Tail(rest);
      }
    }

    method WriteRecord(t: Locals, i: nat, calls: seq<Call>, ghost h: Played) returns (t': Locals, ghost h': Played)
      requires At(h, t, M.Writing(i)) && i < |t.buffersToWrite|
      modifies this
      ensures t' == t.(output := t.output + [t.buffersToWrite[i].text])
      ensures h' == Do(DoCalls(h, calls, size), M.WriteNext, size) && At(h', t', M.Writing(i + 1))
    {
      h' := Others(calls, t, M.Writing(i), h);
      DoGoesOn(h', M.WriteNext, size);
      h' := Do(h', M.WriteNext, size);
      t' := t.(output := t.output + [t.buffersToWrite[i].text]);
    }

    /** The thread function under a script of the other threads, whose calls may come before the
        swap and before each record; at its other steps the backend touches nothing that is shared.
        It does exactly what the script makes of it, no assertion fails, and it ends only when
        somebody stops the logger. */
    method ThreadFunc(rounds: seq<Round>) returns (t: Locals, phase: M.Phase, ghost h': Played)
      requires size > 0 && running && news == 2
      requires currentBuffer == M.Cell(0, "") && nextBuffer == Some(M.Cell(1, "")) && buffers == []
      modifies this
      ensures h' == DoThread(Begin(), rounds, size) && At(h', t, phase)
      ensures phase.Head? || phase.Done?
      ensures running <==> M.NoStop(h'.run, 0)
      ensures phase.Done? ==> !running
      ensures M.Offered(h'.run, size) == LinesIn(ThreadCalls(Begin(), rounds, size), size)
    {
      var newBuffer1 := New();
      var newBuffer2 := New();
      t := Locals(Some(newBuffer1), Some(newBuffer2), [], []);
      phase, h' := M.Head, Begin();
      BeginSound(size);
      ThreadGoesOn(Begin(), rounds, size);
      assert rounds[0..] == rounds;
      for i := 0 to |rounds|
        invariant phase.Head? || phase.Done?
        invariant DoThread(h', rounds[i..], size) == DoThread(Begin(), rounds, size) && At(h', t, phase)
      {
        if phase.Head? {
          assert rounds[i..][1..] == rounds[i + 1..];
          t, phase, h' := Turn(t, rounds[i], h');
        }
      }
    }

    /** One test of the flag and, when it is set, one turn of the loop. */
    method Turn(t0: Locals, round: Round, ghost h: Played) returns (t: Locals, phase: M.Phase, ghost h': Played)
      requires At(h, t0, M.Head)
      modifies this
      ensures h' == DoTurn(h, round, size) && At(h', t, phase)
      ensures phase == if old(running) then M.Head else M.Done
    {
      TurnGoesOn(h, round, size);
      t, h' := t0, Do(h, M.TestRunning, size);
      DoGoesOn(h, M.TestRunning, size);
      if !running {
        t, phase := Locals(None, None, [], t.output), M.Done;
        return;
      }
      assert M.IsEmptySpare(t.newBuffer1) && M.IsEmptySpare(t.newBuffer2) && t.buffersToWrite == [];
      t, h' := TakeAndWrite(t, round, h');
      phase := M.Head;
    }

    /** A turn from the wait on. */
    method TakeAndWrite(t0: Locals, round: Round, ghost h: Played) returns (t: Locals, ghost h': Played)
      requires At(h, t0, M.Waiting)
      modifies this
      ensures h' == DoRest(h, round, size) && At(h', t, M.Head)
    {
      RestOfTurn(h, round, size);
      h' := Others(round.beforeSwap, t0, M.Waiting, h);
      t, h' := TakeBatch(t0, h');
      t, h' := WriteBatch(t, round.beforeRecords, h');
      h' := Do(h', M.Recycle, size);
      t := Recycle(t);
    }

    /** From the lock to the first record: the swap, and the drop when there is overload. */
    method TakeBatch(t0: Locals, ghost h: Played) returns (t: Locals, ghost h': Played)
      requires At(h, t0, M.Waiting)
      modifies `currentBuffer, `nextBuffer, `buffers
      ensures h' == DoTake(h, size) && At(h', t, M.Writing(0))
      ensures t.buffersToWrite == M.Kept(old(buffers) + [old(currentBuffer)])
      ensures t.output == t0.output + M.DropNotice(old(buffers) + [old(currentBuffer)])
      ensures M.RecordsOf(M.Texts(old(buffers) + [old(currentBuffer)]),
                          t.output[|t0.output|..] + M.Texts(t.buffersToWrite))
    {
      TakeGoesOn(h, size);
      h' := DoTake(h, size);
      t := SwapSection(t0);
      assert t.buffersToWrite != [];
      M.DroppedAndWritten(t.buffersToWrite);
      t := Drop(t);
    }
  }
}
