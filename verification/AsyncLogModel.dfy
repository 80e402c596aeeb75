/** The double-buffered logger as a protocol: any number of threads append under the mutex,
    one backend thread swaps, drops, writes and recycles, in any interleaving. */
module AsyncLogModel {
  import opened Bytes
  import opened Numerals
  import opened LogModel

  /** A heap buffer: which object it is and the text it holds. */
  datatype Cell<Id> = Cell(id: Id, text: string)

  /** current, next and full are shared and guarded by the mutex; the spares and toWrite
      belong to the backend thread. None is a moved-from unique_ptr. */
  datatype Buffers<Id> = Buffers(
    current: Cell<Id>,
    next: Option<Cell<Id>>,
    full: seq<Cell<Id>>,
    spare1: Option<Cell<Id>>,
    spare2: Option<Cell<Id>>,
    toWrite: seq<Cell<Id>>)

  const DROP_ABOVE: nat := 25
  const KEEP: nat := 2

  // ---- The critical sections and the backend's own steps ----

  /** append; `extra` is the buffer that `new` yields, used only when there is no next one. */
  function AppendLine<Id>(b: Buffers<Id>, line: string, size: nat, extra: Id): Buffers<Id> {
    if size - |b.current.text| > |line| then
      b.(current := Cell(b.current.id, AppendText(b.current.text, line, size)))
    else
      var empty := if b.next.Some? then b.next.value else Cell(extra, "");
      b.(full := b.full + [b.current],
         next := None,
         current := Cell(empty.id, AppendText(empty.text, line, size)))
  }

  function Swapped<Id>(b: Buffers<Id>): Buffers<Id>
    requires b.spare1.Some?
  {
    Buffers(b.spare1.value,
            if b.next.None? then b.spare2 else b.next,
            b.toWrite,
            None,
            if b.next.None? then None else b.spare2,
            b.full + [b.current])
  }

  function Notice(dropped: nat): string {
    "Dropped log messages " + DecimalText(dropped) + " larger buffers\n"
  }

  function Kept<T>(batch: seq<T>): seq<T> {
    if |batch| > DROP_ABOVE then batch[..KEEP] else batch
  }

  function DropNotice<T>(batch: seq<T>): seq<string> {
    if |batch| > DROP_ABOVE then [Notice(|batch| - KEEP)] else []
  }

  /** Refills one spare from the back of `from`; None when the assertion there fails. */
  function Refill<Id>(spare: Option<Cell<Id>>, from: seq<Cell<Id>>): Option<(Option<Cell<Id>>, seq<Cell<Id>>)> {
    if spare.Some? then Some((spare, from))
    else if from == [] then None
    else Some((Some(Cell(from[|from| - 1].id, "")), from[..|from| - 1]))
  }

  function Recycled<Id>(b: Buffers<Id>): Option<Buffers<Id>> {
    var r1 := Refill(b.spare1, if |b.toWrite| > KEEP then b.toWrite[..KEEP] else b.toWrite);
    if r1.None? then None else
      var r2 := Refill(b.spare2, r1.value.1);
      if r2.None? then None
      else Some(b.(spare1 := r1.value.0, spare2 := r2.value.0, toWrite := []))
  }

  // ---- The protocol ----

  /** Where the backend thread is. Aborted: one of its assertions has failed. */
  datatype Phase = Head | Waiting | Taken | Writing(done: nat) | Done | Aborted

  /** `sink` lists the records given to the log file, one per call. */
  datatype Log<Id> = Log(b: Buffers<Id>, phase: Phase, running: bool, sink: seq<string>)

  datatype Action<Id> =
    | Append(line: string, extra: Id)
    | Stop
    | TestRunning
    | SwapBuffers
    | DropOverload
    | WriteNext
    | Recycle

  function Start<Id>(current: Id, next: Id, spare1: Id, spare2: Id): Log<Id> {
    Log(Buffers(Cell(current, ""), Some(Cell(next, "")), [], Some(Cell(spare1, "")), Some(Cell(spare2, "")), []),
        Head, true, [])
  }

  /** Appends and stop happen at any time; `new` yields no buffer that is still in use. */
  predicate Enabled<Id(==)>(s: Log<Id>, a: Action<Id>) {
    match a
    case Append(_, extra) => Owners(s.b, extra) == 0
    case Stop => true
    case TestRunning => s.phase.Head?
    case SwapBuffers => s.phase.Waiting?
    case DropOverload => s.phase.Taken?
    case WriteNext => s.phase.Writing? && s.phase.done < |s.b.toWrite|
    case Recycle => s.phase.Writing? && s.phase.done == |s.b.toWrite|
  }

  function Step<Id>(s: Log<Id>, a: Action<Id>, size: nat): Log<Id>
    requires Enabled(s, a)
  {
    match a
    case Append(line, extra) => s.(b := AppendLine(s.b, line, size, extra))
    case Stop => s.(running := false)
    case TestRunning =>
      if !s.running then s.(phase := Done, b := s.b.(spare1 := None, spare2 := None, toWrite := []))
      else if IsEmptySpare(s.b.spare1) && IsEmptySpare(s.b.spare2) && s.b.toWrite == [] then s.(phase := Waiting)
      else s.(phase := Aborted)
    case SwapBuffers =>
      if s.b.spare1.None? then s.(phase := Aborted)
      else s.(b := Swapped(s.b), phase := Taken)
    case DropOverload =>
      if s.b.toWrite == [] then s.(phase := Aborted)
      else s.(sink := s.sink + DropNotice(s.b.toWrite), b := s.b.(toWrite := Kept(s.b.toWrite)), phase := Writing(0))
    case WriteNext =>
      s.(sink := s.sink + [s.b.toWrite[s.phase.done].text], phase := Writing(s.phase.done + 1))
    case Recycle =>
      var r := Recycled(s.b);
      if r.None? then s.(phase := Aborted) else s.(b := r.value, phase := Head)
  }

  predicate IsEmptySpare<Id>(spare: Option<Cell<Id>>) {
    spare.Some? && spare.value.text == ""
  }

  // ---- Who owns which buffer ----

  function Occurrences<Id(==)>(cells: seq<Cell<Id>>, id: Id): nat {
    if cells == [] then 0
    else Occurrences(cells[..|cells| - 1], id) + (if cells[|cells| - 1].id == id then 1 else 0)
  }

  function InOption<Id(==)>(cell: Option<Cell<Id>>, id: Id): nat {
    if cell.Some? && cell.value.id == id then 1 else 0
  }

  /** How many pointers own the buffer `id`. */
  function Owners<Id(==)>(b: Buffers<Id>, id: Id): nat {
    (if b.current.id == id then 1 else 0) + InOption(b.next, id) + Occurrences(b.full, id)
    + InOption(b.spare1, id) + InOption(b.spare2, id) + Occurrences(b.toWrite, id)
  }

  /** How many buffers are alive, given that each has one owner. */
  function Live<Id>(b: Buffers<Id>): nat {
    1 + (if b.next.Some? then 1 else 0) + |b.full|
    + (if b.spare1.Some? then 1 else 0) + (if b.spare2.Some? then 1 else 0) + |b.toWrite|
  }

  lemma OccurrencesSnoc<Id>(cells: seq<Cell<Id>>, last: Cell<Id>, id: Id)
    ensures Occurrences(cells + [last], id) == Occurrences(cells, id) + (if last.id == id then 1 else 0)
  {
    assert (cells + [last])[..|cells|] == cells;
  }

  lemma {:induction false} OccurrencesPrefix<Id>(cells: seq<Cell<Id>>, k: nat, id: Id)
    requires k <= |cells|
    ensures Occurrences(cells[..k], id) <= Occurrences(cells, id)
    decreases |cells| - k
  {
    if k == |cells| {
      assert cells[..k] == cells;
    } else {
      OccurrencesPrefix(cells, k + 1, id);
      assert cells[..k + 1] == cells[..k] + [cells[k]];
      OccurrencesSnoc(cells[..k], cells[k], id);
    }
  }

  lemma RefillOwners<Id>(spare: Option<Cell<Id>>, from: seq<Cell<Id>>, id: Id)
    requires Refill(spare, from).Some?
    ensures var (spare', from') := Refill(spare, from).value;
            InOption(spare', id) + Occurrences(from', id) == InOption(spare, id) + Occurrences(from, id)
  {
  }

  lemma RecycledOwners<Id>(b: Buffers<Id>, id: Id)
    requires Recycled(b).Some?
    ensures Owners(Recycled(b).value, id) <= Owners(b, id)
  {
    var from := if |b.toWrite| > KEEP then b.toWrite[..KEEP] else b.toWrite;
    if |b.toWrite| > KEEP {
      OccurrencesPrefix(b.toWrite, KEEP, id);
    }
    RefillOwners(b.spare1, from, id);
    RefillOwners(b.spare2, Refill(b.spare1, from).value.1, id);
  }

  lemma AppendOwners<Id>(b: Buffers<Id>, line: string, size: nat, extra: Id, id: Id)
    ensures Owners(AppendLine(b, line, size, extra), id) <= Owners(b, id) + (if extra == id then 1 else 0)
  {
    OccurrencesSnoc(b.full, b.current, id);
  }

  lemma SwappedOwners<Id>(b: Buffers<Id>, id: Id)
    requires b.spare1.Some?
    ensures Owners(Swapped(b), id) == Owners(b, id)
  {
    OccurrencesSnoc(b.full, b.current, id);
  }

  lemma KeptOwners<Id>(b: Buffers<Id>, id: Id)
    ensures Owners(b.(toWrite := Kept(b.toWrite)), id) <= Owners(b, id)
  {
    if |b.toWrite| > DROP_ABOVE {
      OccurrencesPrefix(b.toWrite, KEEP, id);
    }
  }

  /** Whatever the interleaving, a buffer never gets a second owner. */
  lemma StepOwners<Id>(s: Log<Id>, a: Action<Id>, size: nat, id: Id)
    requires Enabled(s, a)
    ensures Owners(Step(s, a, size).b, id) <= Owners(s.b, id) + (if a.Append? && a.extra == id then 1 else 0)
    ensures Owners(s.b, id) <= 1 ==> Owners(Step(s, a, size).b, id) <= 1
  {
    match a
    case Append(line, extra) => AppendOwners(s.b, line, size, extra, id);
    case SwapBuffers =>
      if s.b.spare1.Some? {
        SwappedOwners(s.b, id);
      }
    case DropOverload => KeptOwners(s.b, id);
    case Recycle =>
      if Recycled(s.b).Some? {
        RecycledOwners(s.b, id);
      }
    case _ =>
  }

  // ---- The cross-thread invariant ----

  ghost predicate SharedInv<Id>(b: Buffers<Id>, size: nat) {
    && (b.next.Some? <==> b.full == [])
    && (b.next.Some? ==> b.next.value.text == "")
    && |b.current.text| < size
    && forall i :: 0 <= i < |b.full| ==> |b.full[i].text| < size
  }

  /** Between the swap and the recycling the first spare is in use as the current buffer, and
      the second one too when there was no next buffer, which takes at least two to refill. */
  ghost predicate BackendInv<Id>(b: Buffers<Id>, phase: Phase) {
    match phase
    case Head => IsEmptySpare(b.spare1) && IsEmptySpare(b.spare2) && b.toWrite == []
    case Waiting => IsEmptySpare(b.spare1) && IsEmptySpare(b.spare2) && b.toWrite == []
    case Done => b.spare1.None? && b.spare2.None? && b.toWrite == []
    case Aborted => false
    case _ =>
      && b.toWrite != []
      && b.spare1.None?
      && (b.spare2.None? ==> |b.toWrite| >= 2)
      && (b.spare2.Some? ==> b.spare2.value.text == "")
      && (phase.Writing? ==> phase.done <= |b.toWrite|)
  }

  ghost predicate Inv<Id>(s: Log<Id>, size: nat) {
    SharedInv(s.b, size) && BackendInv(s.b, s.phase)
  }

  lemma AppendInv<Id>(b: Buffers<Id>, line: string, size: nat, extra: Id)
    requires size > 0 && SharedInv(b, size)
    ensures SharedInv(AppendLine(b, line, size, extra), size)
  {
  }

  lemma SwapInv<Id>(b: Buffers<Id>, size: nat)
    requires size > 0 && SharedInv(b, size) && BackendInv(b, Waiting)
    ensures SharedInv(Swapped(b), size) && BackendInv(Swapped(b), Taken)
  {
  }

  /** The two recycling assertions hold, and both spares are back and empty afterwards. */
  lemma RecycleInv<Id>(b: Buffers<Id>)
    requires BackendInv(b, Taken)
    ensures Recycled(b).Some? && BackendInv(Recycled(b).value, Head)
  {
  }

  /** Every step keeps the invariant, so none of the backend's assertions ever fails. */
  lemma StepInv<Id>(s: Log<Id>, a: Action<Id>, size: nat)
    requires size > 0 && Inv(s, size) && Enabled(s, a)
    ensures Inv(Step(s, a, size), size)
  {
    match a
    case Append(line, extra) => AppendInv(s.b, line, size, extra);
    case SwapBuffers => SwapInv(s.b, size);
    case Recycle => RecycleInv(s.b);
    case _ =>
  }

  /** At the loop head exactly max(4, full + 3) buffers are alive. */
  lemma LiveBuffers<Id>(s: Log<Id>, size: nat)
    requires Inv(s, size) && s.phase.Head?
    ensures Live(s.b) == Max(4, |s.b.full| + 3)
  {
  }

  // ---- Which lines are where ----

  /** What happened so far: the accepted lines; the batches taken by the backend, each a
      sequence of buffers, each a sequence of lines; and the lines of the shared buffers. */
  datatype History = History(
    accepted: seq<string>,
    taken: seq<seq<seq<string>>>,
    full: seq<seq<string>>,
    current: seq<string>)

  /** A line is accepted exactly when it is shorter than a buffer. */
  function Accepted(line: string, size: nat): seq<string> {
    if |line| < size then [line] else []
  }

  function Record<Id>(s: Log<Id>, h: History, a: Action<Id>, size: nat): History {
    match a
    case Append(line, _) =>
      if size - |s.b.current.text| > |line| then
        h.(accepted := h.accepted + Accepted(line, size), current := h.current + [line])
      else
        h.(accepted := h.accepted + Accepted(line, size),
           full := h.full + [h.current],
           current := Accepted(line, size))
    case SwapBuffers => h.(taken := h.taken + [h.full + [h.current]], full := [], current := [])
    case _ => h
  }

  function Texts<Id>(cells: seq<Cell<Id>>): seq<string> {
    if cells == [] then [] else [cells[0].text] + Texts(cells[1..])
  }

  function Joined(buffers: seq<seq<string>>): seq<string> {
    if buffers == [] then [] else [Flatten(buffers[0])] + Joined(buffers[1..])
  }

  /** What the log file gets for one batch: whole buffers, or a notice that says exactly how
      many were dropped and then the first two. */
  function Rendered(batch: seq<seq<string>>): seq<string> {
    DropNotice(batch) + Joined(Kept(batch))
  }

  function RenderedAll(taken: seq<seq<seq<string>>>): seq<string> {
    if taken == [] then [] else RenderedAll(taken[..|taken| - 1]) + Rendered(taken[|taken| - 1])
  }

  lemma {:induction false} TextsSnoc<Id>(cells: seq<Cell<Id>>, last: Cell<Id>)
    ensures Texts(cells + [last]) == Texts(cells) + [last.text]
  {
    if cells == [] {
      assert [] + [last] == [last];
      assert [last][1..] == [];
    } else {
      TextsSnoc(cells[1..], last);
      assert (cells + [last])[1..] == cells[1..] + [last];
    }
  }

  lemma {:induction false} TextsPrefix<Id>(cells: seq<Cell<Id>>, k: nat)
    requires k <= |cells|
    ensures |Texts(cells)| == |cells| && Texts(cells)[..k] == Texts(cells[..k])
    decreases |cells|
  {
    if cells != [] {
      TextsPrefix(cells[1..], if k == 0 then 0 else k - 1);
      if k > 0 {
        assert cells[..k][1..] == cells[1..][..k - 1];
      }
    }
  }

  lemma {:induction false} JoinedSnoc(buffers: seq<seq<string>>, last: seq<string>)
    ensures Joined(buffers + [last]) == Joined(buffers) + [Flatten(last)]
  {
    if buffers == [] {
      assert [] + [last] == [last];
      assert [last][1..] == [];
    } else {
      JoinedSnoc(buffers[1..], last);
      assert (buffers + [last])[1..] == buffers[1..] + [last];
    }
  }

  lemma {:induction false} JoinedPrefix(buffers: seq<seq<string>>, k: nat)
    requires k <= |buffers|
    ensures |Joined(buffers)| == |buffers| && Joined(buffers)[..k] == Joined(buffers[..k])
    decreases |buffers|
  {
    if buffers != [] {
      JoinedPrefix(buffers[1..], if k == 0 then 0 else k - 1);
      if k > 0 {
        assert buffers[..k][1..] == buffers[1..][..k - 1];
      }
    }
  }

  lemma RenderedSnoc(taken: seq<seq<seq<string>>>, batch: seq<seq<string>>)
    ensures RenderedAll(taken + [batch]) == RenderedAll(taken) + Rendered(batch)
  {
    assert (taken + [batch])[..|taken|] == taken;
  }

  /** All lines of some batches, in order. */
  function LinesOf(taken: seq<seq<seq<string>>>): seq<string> {
    Flatten(Flatten(taken))
  }

  lemma LinesOfSnoc(taken: seq<seq<seq<string>>>, batch: seq<seq<string>>)
    ensures LinesOf(taken + [batch]) == LinesOf(taken) + Flatten(batch)
  {
    FlattenSnoc(taken, batch);
    FlattenConcat(Flatten(taken), batch);
  }

  /** No line is lost, reordered or split between the three places it can be in: each shared
      buffer holds a whole number of the lines, and the batches hold those before them. */
  ghost predicate LinesTracked<Id>(b: Buffers<Id>, h: History) {
    && h.accepted == LinesOf(h.taken) + Flatten(h.full) + h.current
    && Texts(b.full) == Joined(h.full)
    && b.current.text == Flatten(h.current)
  }

  /** The log file has the rendering of every batch but the one in the backend's hands. */
  ghost predicate SinkTracked<Id>(s: Log<Id>, taken: seq<seq<seq<string>>>) {
    match s.phase
    case Taken =>
      && taken != []
      && s.sink == RenderedAll(taken[..|taken| - 1])
      && Texts(s.b.toWrite) == Joined(taken[|taken| - 1])
    case Writing(done) =>
      && done <= |s.b.toWrite|
      && s.sink + Texts(s.b.toWrite[done..]) == RenderedAll(taken)
    case _ => s.sink == RenderedAll(taken)
  }

  lemma AppendTracked<Id>(s: Log<Id>, h: History, line: string, extra: Id, size: nat)
    requires size > 0 && SharedInv(s.b, size) && LinesTracked(s.b, h)
    ensures LinesTracked(AppendLine(s.b, line, size, extra), Record(s, h, Append(line, extra), size))
  {
    var h' := Record(s, h, Append(line, extra), size);
    if size - |s.b.current.text| > |line| {
      FlattenSnoc(h.current, line);
    } else {
      TextsSnoc(s.b.full, s.b.current);
      JoinedSnoc(h.full, h.current);
      FlattenSnoc(h.full, h.current);
      if |line| < size {
        FlattenSingle(line);
      }
    }
  }

  lemma SwapLines<Id>(s: Log<Id>, h: History, size: nat)
    requires IsEmptySpare(s.b.spare1) && s.b.toWrite == [] && LinesTracked(s.b, h)
    ensures LinesTracked(Swapped(s.b), Record(s, h, SwapBuffers, size))
  {
    TakenLines(h);
    EmptyFlatten();
  }

  /** The batch that is taken holds the lines that were waiting. */
  lemma TakenLines(h: History)
    ensures LinesOf(h.taken + [h.full + [h.current]]) == LinesOf(h.taken) + Flatten(h.full) + h.current
  {
    FlattenSnoc(h.full, h.current);
    LinesOfSnoc(h.taken, h.full + [h.current]);
    assert LinesOf(h.taken) + (Flatten(h.full) + h.current) == LinesOf(h.taken) + Flatten(h.full) + h.current;
  }

  lemma SwapSink<Id>(s: Log<Id>, h: History)
    requires IsEmptySpare(s.b.spare1) && LinesTracked(s.b, h) && s.sink == RenderedAll(h.taken)
    ensures SinkTracked(s.(b := Swapped(s.b), phase := Taken), h.taken + [h.full + [h.current]])
  {
    TextsSnoc(s.b.full, s.b.current);
    JoinedSnoc(h.full, h.current);
    assert (h.taken + [h.full + [h.current]])[..|h.taken|] == h.taken;
  }

  lemma EmptyFlatten()
    ensures Flatten<string>([]) == [] && Flatten<char>([]) == []
  {
  }

  /** Dropping keeps the first two texts and announces how many of the rest are gone. */
  lemma KeptTexts<Id>(cells: seq<Cell<Id>>, batch: seq<seq<string>>)
    requires Texts(cells) == Joined(batch)
    ensures DropNotice(cells) + Texts(Kept(cells)) == Rendered(batch)
  {
    TextsPrefix(cells, 0);
    JoinedPrefix(batch, 0);
    if |batch| > DROP_ABOVE {
      TextsPrefix(cells, KEEP);
      JoinedPrefix(batch, KEEP);
    }
  }

  lemma DropTracked<Id>(s: Log<Id>, taken: seq<seq<seq<string>>>, size: nat)
    requires s.phase.Taken? && SinkTracked(s, taken) && s.b.toWrite != []
    ensures SinkTracked(Step(s, DropOverload, size), taken)
  {
    var init, batch := taken[..|taken| - 1], taken[|taken| - 1];
    var notice, kept := DropNotice(s.b.toWrite), Kept(s.b.toWrite);
    KeptTexts(s.b.toWrite, batch);
    RenderedLast(taken);
    assert kept[0..] == kept;
    assert s.sink + notice + Texts(kept) == s.sink + (notice + Texts(kept));
  }

  lemma RenderedLast(taken: seq<seq<seq<string>>>)
    requires taken != []
    ensures RenderedAll(taken) == RenderedAll(taken[..|taken| - 1]) + Rendered(taken[|taken| - 1])
  {
  }

  lemma WriteTracked<Id>(s: Log<Id>, taken: seq<seq<seq<string>>>, size: nat)
    requires s.phase.Writing? && s.phase.done < |s.b.toWrite| && SinkTracked(s, taken)
    ensures SinkTracked(Step(s, WriteNext, size), taken)
  {
    var rest := s.b.toWrite[s.phase.done..];
    assert rest[1..] == s.b.toWrite[s.phase.done + 1..];
    assert s.sink + ([rest[0].text] + Texts(rest[1..])) == s.sink + [rest[0].text] + Texts(rest[1..]);
  }

  ghost predicate Tracked<Id>(s: Log<Id>, h: History) {
    LinesTracked(s.b, h) && SinkTracked(s, h.taken)
  }

  lemma StepTracked<Id>(s: Log<Id>, h: History, a: Action<Id>, size: nat)
    requires size > 0 && Inv(s, size) && Tracked(s, h) && Enabled(s, a)
    ensures Tracked(Step(s, a, size), Record(s, h, a, size))
  {
    match a
    case Append(line, extra) =>
      AppendTracked(s, h, line, extra, size);
      SinkFrame(s, AppendLine(s.b, line, size, extra), h.taken);
    case SwapBuffers =>
      SwapLines(s, h, size);
      SwapSink(s, h);
    case DropOverload => DropTracked(s, h.taken, size);
    case WriteNext => WriteTracked(s, h.taken, size);
    case Recycle => RecycleTracked(s, h, size);
    case _ =>
  }

  lemma SinkFrame<Id>(s: Log<Id>, b: Buffers<Id>, taken: seq<seq<seq<string>>>)
    requires SinkTracked(s, taken) && b.toWrite == s.b.toWrite
    ensures SinkTracked(s.(b := b), taken)
  {
  }

  lemma RecycleTracked<Id>(s: Log<Id>, h: History, size: nat)
    requires Inv(s, size) && Tracked(s, h) && Enabled(s, Recycle)
    ensures Tracked(Step(s, Recycle, size), h)
  {
    RecycleInv(s.b);
    assert s.b.toWrite[s.phase.done..] == [];
  }

  // ---- Whole runs ----

  predicate EnabledRun<Id(==)>(s: Log<Id>, run: seq<Action<Id>>, size: nat)
    decreases run
  {
    run == [] || (Enabled(s, run[0]) && EnabledRun(Step(s, run[0], size), run[1..], size))
  }

  function Run<Id>(s: Log<Id>, h: History, run: seq<Action<Id>>, size: nat): (Log<Id>, History)
    requires EnabledRun(s, run, size)
    decreases run
  {
    if run == [] then (s, h)
    else Run(Step(s, run[0], size), Record(s, h, run[0], size), run[1..], size)
  }

  /** The lines offered to append and shorter than a buffer, in the order of the calls. */
  function Offered<Id>(run: seq<Action<Id>>, size: nat): seq<string> {
    if run == [] then []
    else (if run[0].Append? then Accepted(run[0].line, size) else []) + Offered(run[1..], size)
  }

  lemma {:induction false} RunTracked<Id>(s: Log<Id>, h: History, run: seq<Action<Id>>, size: nat)
    requires size > 0 && Inv(s, size) && Tracked(s, h) && EnabledRun(s, run, size)
    ensures Inv(Run(s, h, run, size).0, size)
    ensures Tracked(Run(s, h, run, size).0, Run(s, h, run, size).1)
    decreases run
  {
    if run != [] {
      StepInv(s, run[0], size);
      StepTracked(s, h, run[0], size);
      RunTracked(Step(s, run[0], size), Record(s, h, run[0], size), run[1..], size);
    }
  }

  lemma {:induction false} RunSnoc<Id>(s: Log<Id>, h: History, run: seq<Action<Id>>, a: Action<Id>, size: nat)
    requires EnabledRun(s, run, size) && Enabled(Run(s, h, run, size).0, a)
    ensures EnabledRun(s, run + [a], size)
    ensures Run(s, h, run + [a], size).0 == Step(Run(s, h, run, size).0, a, size)
    decreases run
  {
    if run == [] {
      assert run + [a] == [a];
      assert [a][1..] == [];
    } else {
      RunSnoc(Step(s, run[0], size), Record(s, h, run[0], size), run[1..], a, size);
      assert (run + [a])[1..] == run[1..] + [a];
    }
  }

  lemma {:induction false} RunAccepted<Id>(s: Log<Id>, h: History, run: seq<Action<Id>>, size: nat)
    requires EnabledRun(s, run, size)
    ensures Run(s, h, run, size).1.accepted == h.accepted + Offered(run, size)
    decreases run
  {
    if run != [] {
      RunAccepted(Step(s, run[0], size), Record(s, h, run[0], size), run[1..], size);
    }
  }

  lemma {:induction false} RunOwners<Id>(s: Log<Id>, h: History, run: seq<Action<Id>>, size: nat, id: Id)
    requires EnabledRun(s, run, size) && Owners(s.b, id) <= 1
    ensures Owners(Run(s, h, run, size).0.b, id) <= 1
    decreases run
  {
    if run != [] {
      StepOwners(s, run[0], size, id);
      RunOwners(Step(s, run[0], size), Record(s, h, run[0], size), run[1..], size, id);
    }
  }

  const NO_HISTORY: History := History([], [], [], [])

  /** Any interleaving from the start: no assertion fails; next is set exactly when full is
      empty; the accepted lines are, in order, those of the batches taken and then those in
      the shared buffers; and the log file holds the renderings of the batches. */
  lemma EveryInterleaving<Id>(c: Id, n: Id, s1: Id, s2: Id, run: seq<Action<Id>>, size: nat)
    requires size > 0 && EnabledRun(Start(c, n, s1, s2), run, size)
    ensures var (s, h) := Run(Start(c, n, s1, s2), NO_HISTORY, run, size);
            && s.phase != Aborted
            && (s.b.next.Some? <==> s.b.full == [])
            && h.accepted == Offered(run, size)
            && h.accepted == LinesOf(h.taken) + Flatten(h.full) + h.current
            && Texts(s.b.full) == Joined(h.full) && s.b.current.text == Flatten(h.current)
            && (s.phase.Head? || s.phase.Waiting? || s.phase.Done? ==> s.sink == RenderedAll(h.taken))
  {
    var start := Start(c, n, s1, s2);
    EmptyFlatten();
    assert Tracked(start, NO_HISTORY);
    RunTracked(start, NO_HISTORY, run, size);
    RunAccepted(start, NO_HISTORY, run, size);
  }

  /** At every loop head of every interleaving: two empty spares, and max(4, full + 3) buffers
      alive in all. */
  lemma EveryLoopHead<Id>(c: Id, n: Id, s1: Id, s2: Id, run: seq<Action<Id>>, size: nat)
    requires size > 0 && EnabledRun(Start(c, n, s1, s2), run, size)
    requires Run(Start(c, n, s1, s2), NO_HISTORY, run, size).0.phase.Head?
    ensures var b := Run(Start(c, n, s1, s2), NO_HISTORY, run, size).0.b;
            && IsEmptySpare(b.spare1) && IsEmptySpare(b.spare2)
            && Live(b) == Max(4, |b.full| + 3)
  {
    EmptyFlatten();
    RunTracked(Start(c, n, s1, s2), NO_HISTORY, run, size);
    LiveBuffers(Run(Start(c, n, s1, s2), NO_HISTORY, run, size).0, size);
  }

  /** And no buffer ever has two owners. */
  lemma EveryBufferOwnedOnce<Id>(c: Id, n: Id, s1: Id, s2: Id, run: seq<Action<Id>>, size: nat, id: Id)
    requires c != n && c != s1 && c != s2 && n != s1 && n != s2 && s1 != s2
    requires EnabledRun(Start(c, n, s1, s2), run, size)
    ensures Owners(Run(Start(c, n, s1, s2), NO_HISTORY, run, size).0.b, id) <= 1
  {
    RunOwners(Start(c, n, s1, s2), NO_HISTORY, run, size, id);
  }

  // ---- What reaches the log file ----

  /** Batches small enough to be written whole are written character for character. */
  lemma {:induction false} WrittenWhole(taken: seq<seq<seq<string>>>)
    requires forall i :: 0 <= i < |taken| ==> |taken[i]| <= DROP_ABOVE
    ensures Flatten(RenderedAll(taken)) == Flatten(LinesOf(taken))
  {
    if taken == [] {
      EmptyFlatten();
    } else {
      var init, batch := taken[..|taken| - 1], taken[|taken| - 1];
      WrittenWhole(init);
      assert taken == init + [batch];
      RenderedSnoc(init, batch);
      LinesOfSnoc(init, batch);
      assert Rendered(batch) == Joined(batch);
      JoinedText(batch);
      FlattenConcat(RenderedAll(init), Joined(batch));
      FlattenConcat(LinesOf(init), Flatten(batch));
    }
  }

  lemma {:induction false} JoinedText(batch: seq<seq<string>>)
    ensures Flatten(Joined(batch)) == Flatten(Flatten(batch))
  {
    if batch != [] {
      var first, rest := batch[0], batch[1..];
      JoinedText(rest);
      assert batch == [first] + rest;
      FlattenConcat([first], rest);
      FlattenSingle(first);
      FlattenConcat(first, Flatten(rest));
      FlattenConcat([Flatten(first)], Joined(rest));
      FlattenSingle(Flatten(first));
    }
  }

  /** Without overload the log file is a prefix of the accepted text, and what is missing is
      exactly the text of the shared buffers: at exit that residue is never written. */
  lemma SinkAndResidue<Id>(s: Log<Id>, h: History)
    requires Tracked(s, h) && (s.phase.Head? || s.phase.Done?)
    requires forall i :: 0 <= i < |h.taken| ==> |h.taken[i]| <= DROP_ABOVE
    ensures Flatten(h.accepted) == Flatten(s.sink) + Flatten(Texts(s.b.full)) + s.b.current.text
    ensures Flatten(s.sink) == Flatten(h.accepted) <==> Flatten(Texts(s.b.full)) + s.b.current.text == ""
  {
    WrittenWhole(h.taken);
    JoinedText(h.full);
    FlattenConcat(LinesOf(h.taken) + Flatten(h.full), h.current);
    FlattenConcat(LinesOf(h.taken), Flatten(h.full));
  }

  // ---- What one batch leaves in the log file ----

  /** The notice that `n` buffers were dropped: the numeral in it reads `n`. */
  ghost predicate IsNotice(record: string, n: nat) {
    exists numeral: string ::
      && record == "Dropped log messages " + numeral + " larger buffers\n"
      && CanonicalDecimal(numeral) && ParseDecimal(numeral) == Some(n)
  }

  /** The records for a batch of buffers with these texts: up to 25 are written whole; of more,
      the first two, behind a notice of how many are not. */
  ghost predicate RecordsOf(texts: seq<string>, records: seq<string>) {
    if |texts| <= 25 then records == texts
    else |records| == 3 && IsNotice(records[0], |texts| - 2) && records[1] == texts[0] && records[2] == texts[1]
  }

  lemma NoticeReads(n: nat)
    ensures IsNotice(Notice(n), n)
  {
    DecimalRoundTrip(n);
    assert Notice(n) == "Dropped log messages " + DecimalText(n) + " larger buffers\n";
  }

  /** What dropping and writing do with a batch. */
  lemma DroppedAndWritten<Id>(cells: seq<Cell<Id>>)
    ensures RecordsOf(Texts(cells), DropNotice(cells) + Texts(Kept(cells)))
  {
    TextsPrefix(cells, 0);
    if |cells| > 25 {
      TextsPrefix(cells, 2);
      NoticeReads(|cells| - 2);
    }
  }

  lemma RenderedRecords(batch: seq<seq<string>>)
    ensures RecordsOf(Joined(batch), Rendered(batch))
  {
    JoinedPrefix(batch, 0);
    if |batch| > 25 {
      JoinedPrefix(batch, 2);
      NoticeReads(|batch| - 2);
    }
  }

  /** The log file as one piece for each batch. */
  ghost predicate Pieces(taken: seq<seq<seq<string>>>, pieces: seq<seq<string>>) {
    |pieces| == |taken| && forall i :: 0 <= i < |taken| ==> RecordsOf(Joined(taken[i]), pieces[i])
  }

  lemma {:induction false} RenderedPieces(taken: seq<seq<seq<string>>>) returns (pieces: seq<seq<string>>)
    ensures Pieces(taken, pieces) && Flatten(pieces) == RenderedAll(taken)
    decreases |taken|
  {
    pieces := [];
    if taken != [] {
      var init, batch := taken[..|taken| - 1], taken[|taken| - 1];
      var front := RenderedPieces(init);
      RenderedRecords(batch);
      FlattenSnoc(front, Rendered(batch));
      pieces := front + [Rendered(batch)];
    }
  }

  /** In every run, whenever the backend is not at work on a batch, the log file is, batch by batch
      and in order, the whole buffers of each, or the notice with the exact count and two buffers. */
  lemma EveryBatchRecorded<Id>(c: Id, n: Id, s1: Id, s2: Id, run: seq<Action<Id>>, size: nat)
    requires size > 0 && EnabledRun(Start(c, n, s1, s2), run, size)
    ensures var (s, h) := Run(Start(c, n, s1, s2), NO_HISTORY, run, size);
            s.phase.Head? || s.phase.Waiting? || s.phase.Done? ==>
              exists pieces :: Pieces(h.taken, pieces) && s.sink == Flatten(pieces)
  {
    EveryInterleaving(c, n, s1, s2, run, size);
    var pieces := RenderedPieces(Run(Start(c, n, s1, s2), NO_HISTORY, run, size).1.taken);
  }

  /** A buffer is handed to the backend early exactly when the line does not fit in it with a byte
      to spare; the line is then alone in the next buffer, or in none if it fits in no buffer. */
  lemma HandsOver<Id>(b: Buffers<Id>, line: string, size: nat, extra: Id)
    requires SharedInv(b, size)
    ensures var b' := AppendLine(b, line, size, extra);
            && (b'.full == b.full <==> |b.current.text| + |line| < size)
            && (|b.current.text| + |line| < size ==> b'.current == Cell(b.current.id, b.current.text + line))
            && (|b.current.text| + |line| >= size ==>
                  && b'.full == b.full + [b.current]
                  && b'.current.text == (if |line| < size then line else "")
                  && b'.current.id == (if b.next.Some? then b.next.value.id else extra))
  {
    assert |b.full + [b.current]| > |b.full|;
  }

  // ---- Stopping ----

  /** From action `k` on nobody stops the logger. */
  ghost predicate NoStop<Id>(run: seq<Action<Id>>, k: nat) {
    forall i :: k <= i < |run| ==> !run[i].Stop?
  }

  lemma {:induction false} RunFlag<Id>(s: Log<Id>, h: History, run: seq<Action<Id>>, size: nat)
    requires EnabledRun(s, run, size)
    ensures Run(s, h, run, size).0.running <==> s.running && NoStop(run, 0)
    decreases run
  {
    if run != [] {
      RunFlag(Step(s, run[0], size), Record(s, h, run[0], size), run[1..], size);
      assert forall i :: 0 <= i < |run| - 1 ==> run[1..][i] == run[i + 1];
      assert NoStop(run, 0) <==> !run[0].Stop? && NoStop(run[1..], 0) by {
        if NoStop(run[1..], 0) && !run[0].Stop? {
          forall i | 0 <= i < |run| ensures !run[i].Stop? {
            assert i > 0 ==> run[i] == run[1..][i - 1];
          }
        }
      }
    }
  }

  /** In every run the flag is set exactly as long as nobody has stopped the logger. */
  lemma RunningUnlessStopped<Id>(c: Id, n: Id, s1: Id, s2: Id, run: seq<Action<Id>>, size: nat)
    requires EnabledRun(Start(c, n, s1, s2), run, size)
    ensures Run(Start(c, n, s1, s2), NO_HISTORY, run, size).0.running <==> NoStop(run, 0)
  {
    RunFlag(Start(c, n, s1, s2), NO_HISTORY, run, size);
  }

  function Swaps<Id>(run: seq<Action<Id>>): nat {
    if run == [] then 0 else (if run[0].SwapBuffers? then 1 else 0) + Swaps(run[1..])
  }

  /** Once stopped, the backend takes at most the batch it is waiting for, and its next test of the
      flag ends it. */
  lemma {:induction false} StopEndsThread<Id>(s: Log<Id>, h: History, run: seq<Action<Id>>, size: nat)
    requires !s.running && EnabledRun(s, run, size)
    ensures Swaps(run) <= if s.phase.Waiting? then 1 else 0
    ensures Run(s, h, run, size).0.phase.Head? ==>
              Step(Run(s, h, run, size).0, TestRunning, size).phase.Done?
    decreases run
  {
    RunFlag(s, h, run, size);
    if run != [] {
      StopEndsThread(Step(s, run[0], size), Record(s, h, run[0], size), run[1..], size);
    }
  }

  // ---- What is missing at exit ----

  /** The lines offered and accepted since the last swap, given those waiting before the run. */
  function SinceSwap<Id>(run: seq<Action<Id>>, waiting: seq<string>, size: nat): seq<string>
    decreases run
  {
    if run == [] then waiting
    else match run[0]
      case Append(line, _) => SinceSwap(run[1..], waiting + Accepted(line, size), size)
      case SwapBuffers => SinceSwap(run[1..], [], size)
      case _ => SinceSwap(run[1..], waiting, size)
  }

  function Residue(h: History): seq<string> {
    Flatten(h.full) + h.current
  }

  lemma RecordResidue<Id>(s: Log<Id>, h: History, a: Action<Id>, size: nat)
    requires SharedInv(s.b, size)
    ensures Residue(Record(s, h, a, size))
         == if a.Append? then Residue(h) + Accepted(a.line, size) else if a.SwapBuffers? then [] else Residue(h)
  {
    match a
    case Append(line, _) =>
      FlattenSnoc(h.full, h.current);
      assert Flatten(h.full) + (h.current + Accepted(line, size)) == Residue(h) + Accepted(line, size);
    case SwapBuffers => EmptyFlatten();
    case _ =>
  }

  lemma {:induction false} RunResidue<Id>(s: Log<Id>, h: History, run: seq<Action<Id>>, size: nat)
    requires size > 0 && Inv(s, size) && EnabledRun(s, run, size)
    ensures Residue(Run(s, h, run, size).1) == SinceSwap(run, Residue(h), size)
    decreases run
  {
    if run != [] {
      StepInv(s, run[0], size);
      RecordResidue(s, h, run[0], size);
      RunResidue(Step(s, run[0], size), Record(s, h, run[0], size), run[1..], size);
    }
  }

  /** In every run, the lines offered are those of the batches taken and then those offered since
      the last swap; without overload, what the file lacks at exit is exactly the latter, so it
      is complete exactly when they hold no character. */
  lemma ExitLosesLastLines<Id>(c: Id, n: Id, s1: Id, s2: Id, run: seq<Action<Id>>, size: nat)
    requires size > 0 && EnabledRun(Start(c, n, s1, s2), run, size)
    ensures var (s, h) := Run(Start(c, n, s1, s2), NO_HISTORY, run, size);
            var last := SinceSwap(run, [], size);
            && Offered(run, size) == LinesOf(h.taken) + last
            && (s.phase.Done? && (forall i :: 0 <= i < |h.taken| ==> |h.taken[i]| <= DROP_ABOVE) ==>
                  && Flatten(Offered(run, size)) == Flatten(s.sink) + Flatten(last)
                  && (Flatten(s.sink) == Flatten(Offered(run, size)) <==> Flatten(last) == ""))
  {
    OfferedSplit(c, n, s1, s2, run, size);
    EveryInterleaving(c, n, s1, s2, run, size);
    var (s, h) := Run(Start(c, n, s1, s2), NO_HISTORY, run, size);
    FlattenConcat(LinesOf(h.taken), SinceSwap(run, [], size));
    if s.phase.Done? && forall i :: 0 <= i < |h.taken| ==> |h.taken[i]| <= DROP_ABOVE {
      WrittenWhole(h.taken);
      EmptyRest(Flatten(s.sink), Flatten(SinceSwap(run, [], size)));
    }
  }

  lemma EmptyRest(all: string, rest: string)
    ensures all == all + rest <==> rest == ""
  {
    assert |all + rest| == |all| + |rest|;
  }

  lemma OfferedSplit<Id>(c: Id, n: Id, s1: Id, s2: Id, run: seq<Action<Id>>, size: nat)
    requires size > 0 && EnabledRun(Start(c, n, s1, s2), run, size)
    ensures var h := Run(Start(c, n, s1, s2), NO_HISTORY, run, size).1;
            Offered(run, size) == LinesOf(h.taken) + SinceSwap(run, [], size)
  {
    EmptyFlatten();
    EveryInterleaving(c, n, s1, s2, run, size);
    RunResidue(Start(c, n, s1, s2), NO_HISTORY, run, size);
    var h := Run(Start(c, n, s1, s2), NO_HISTORY, run, size).1;
    assert Residue(NO_HISTORY) == [];
    assert LinesOf(h.taken) + Residue(h) == LinesOf(h.taken) + Flatten(h.full) + h.current;
  }

  /** A line appended before stop is lost when the backend tests its flag first. */
  lemma StopCanLoseALine()
    ensures var run := [Append("x", 5), Stop, TestRunning];
            && EnabledRun(Start(1, 2, 3, 4), run, 100)
            && var (s, h) := Run(Start(1, 2, 3, 4), NO_HISTORY, run, 100);
               s.phase == Done && h.accepted == ["x"] && s.sink == []
  {
    var s0 := Start(1, 2, 3, 4);
    var run := [Append("x", 5), Stop, TestRunning];
    assert run[1..] == [Stop, TestRunning] && run[1..][1..] == [TestRunning] && run[1..][1..][1..] == [];
    var s1 := Step(s0, run[0], 100);
    var s2 := Step(s1, Stop, 100);
    assert Enabled(s0, run[0]) && Enabled(s1, Stop) && Enabled(s2, TestRunning);
    var h1 := Record(s0, NO_HISTORY, run[0], 100);
    assert Run(s1, h1, run[1..], 100) == Run(s2, h1, run[1..][1..], 100);
  }
}
