/** The growable byte buffer on values: the vector's bytes and the two indexes, one function
    per operation, and what any legal sequence of operations keeps. */
module BufferModel {
  import opened Bytes
  import opened BigEndian

  const CHEAP_PREPEND: nat := 8
  const INITIAL_SIZE: nat := 1024

  /** The readable bytes are data[reader..writer]; what follows is writable and what
      precedes is prependable. */
  datatype Layout = Layout(data: seq<Byte>, reader: nat, writer: nat) {
    predicate Valid() {
      reader <= writer <= |data| && CHEAP_PREPEND + INITIAL_SIZE <= |data|
    }

    function ReadableBytes(): nat
      requires Valid()
    {
      writer - reader
    }

    function WritableBytes(): nat
      requires Valid()
    {
      |data| - writer
    }

    function Readable(): seq<Byte>
      requires Valid()
    {
      data[reader..writer]
    }
  }

  // ---- The operations ----

  function Fresh(): Layout {
    Layout(Zeros(CHEAP_PREPEND + INITIAL_SIZE), CHEAP_PREPEND, CHEAP_PREPEND)
  }

  /** vector::resize to the given, larger size. */
  function Grown(b: Layout, size: nat): Layout
    requires b.Valid() && |b.data| <= size
  {
    b.(data := b.data + Zeros(size - |b.data|))
  }

  /** The readable bytes moved down to the default reader position. */
  function Compacted(b: Layout): Layout
    requires b.Valid() && CHEAP_PREPEND < b.reader
  {
    Layout(Store(b.data, CHEAP_PREPEND, b.Readable()), CHEAP_PREPEND, CHEAP_PREPEND + b.ReadableBytes())
  }

  function MakeSpace(b: Layout, len: nat): Layout
    requires b.Valid() && b.WritableBytes() < len
  {
    if b.WritableBytes() + b.reader < len + CHEAP_PREPEND
    then Grown(b, b.writer + len)
    else Compacted(b)
  }

  function EnsureWritable(b: Layout, len: nat): Layout
    requires b.Valid()
  {
    if b.WritableBytes() < len then MakeSpace(b, len) else b
  }

  /** The caller stores bytes at beginWrite() and then calls hasWritten. */
  function Commit(b: Layout, bytes: seq<Byte>): Layout
    requires b.Valid() && |bytes| <= b.WritableBytes()
  {
    Layout(Store(b.data, b.writer, bytes), b.reader, b.writer + |bytes|)
  }

  function Append(b: Layout, bytes: seq<Byte>): Layout
    requires b.Valid()
  {
    EnsureWritableFacts(b, |bytes|);
    Commit(EnsureWritable(b, |bytes|), bytes)
  }

  function Unwrite(b: Layout, len: nat): Layout
    requires b.Valid() && len <= b.ReadableBytes()
  {
    b.(writer := b.writer - len)
  }

  function RetrieveAll(b: Layout): Layout {
    b.(reader := CHEAP_PREPEND, writer := CHEAP_PREPEND)
  }

  function Retrieve(b: Layout, len: nat): Layout
    requires b.Valid() && len <= b.ReadableBytes()
  {
    if len < b.ReadableBytes() then b.(reader := b.reader + len) else RetrieveAll(b)
  }

  function Prepend(b: Layout, bytes: seq<Byte>): Layout
    requires b.Valid() && |bytes| <= b.reader
  {
    Layout(Store(b.data, b.reader - |bytes|, bytes), b.reader - |bytes|, b.writer)
  }

  /** A new buffer with room for the content and `reserve` more; the old storage goes. */
  function Shrink(b: Layout, reserve: nat): Layout
    requires b.Valid()
  {
    EnsureWritableFacts(Fresh(), b.ReadableBytes() + reserve);
    Append(EnsureWritable(Fresh(), b.ReadableBytes() + reserve), b.Readable())
  }

  const EXTRA_BUFFER: nat := 65536

  /** How much one readFd offers the kernel: the spill array is used only when the
      writable part is smaller than it. */
  function ReadRoom(b: Layout): nat
    requires b.Valid()
  {
    b.WritableBytes() + if b.WritableBytes() < EXTRA_BUFFER then EXTRA_BUFFER else 0
  }

  /** readFd when the kernel delivers `bytes`. */
  function ReadFd(b: Layout, bytes: seq<Byte>): Layout
    requires b.Valid()
  {
    if |bytes| <= b.WritableBytes()
    then Commit(b, bytes)
    else Append(Commit(b, bytes[..b.WritableBytes()]), bytes[b.WritableBytes()..])
  }

  // ---- One operation ----

  /** ensureWritableBytes delivers the room it promises and moves no readable byte; the
      assertion inside makeSpace, CHEAP_PREPEND < reader, is the requires of Compacted. */
  lemma EnsureWritableFacts(b: Layout, len: nat)
    requires b.Valid()
    ensures var e := EnsureWritable(b, len);
            && e.Valid()
            && e.WritableBytes() >= len
            && e.Readable() == b.Readable()
            && |e.data| >= |b.data|
            && (|e.data| > |b.data| ==> b.WritableBytes() + b.reader < len + CHEAP_PREPEND)
  {
  }

  /** A new buffer has 1032 bytes of storage and no content, with 8 bytes in front of it. */
  lemma FreshFacts()
    ensures Fresh().Valid() && |Fresh().data| == 1032 && Fresh().reader == 8 && Fresh().writer == 8
    ensures forall header: seq<Byte> :: |header| <= 8 ==> Legal(Fresh(), DoPrepend(header))
  {
  }

  lemma CommitFacts(b: Layout, bytes: seq<Byte>)
    requires b.Valid() && |bytes| <= b.WritableBytes()
    ensures Commit(b, bytes).Valid()
    ensures Commit(b, bytes).Readable() == b.Readable() + bytes
  {
  }

  lemma AppendFacts(b: Layout, bytes: seq<Byte>)
    requires b.Valid()
    ensures Append(b, bytes).Valid()
    ensures Append(b, bytes).Readable() == b.Readable() + bytes
    ensures |Append(b, bytes).data| == |EnsureWritable(b, |bytes|).data|
  {
    EnsureWritableFacts(b, |bytes|);
    CommitFacts(EnsureWritable(b, |bytes|), bytes);
  }

  /** The readable bytes grow by exactly what was delivered, spilled or not, and one call
      never takes more than the larger of the writable part and 128k - 1 bytes. */
  lemma ReadFdExtends(b: Layout, bytes: seq<Byte>)
    requires b.Valid()
    ensures ReadFd(b, bytes).Valid()
    ensures ReadFd(b, bytes).Readable() == b.Readable() + bytes
    ensures ReadRoom(b) <= Max(b.WritableBytes(), 131071)
    ensures ReadRoom(b) == if b.WritableBytes() < 65536 then b.WritableBytes() + 65536 else b.WritableBytes()
  {
    if |bytes| <= b.WritableBytes() {
      CommitFacts(b, bytes);
    } else {
      var here, spill := bytes[..b.WritableBytes()], bytes[b.WritableBytes()..];
      CommitFacts(b, here);
      AppendFacts(Commit(b, here), spill);
      assert b.Readable() + here + spill == b.Readable() + bytes;
    }
  }

  /** Room is measured exactly: after a shrink the content is all there, followed by at least
      the requested reserve, in the smallest vector the class ever allocates for it. */
  lemma ShrinkFacts(b: Layout, reserve: nat)
    requires b.Valid()
    ensures var s := Shrink(b, reserve);
            && s.Valid()
            && s.Readable() == b.Readable()
            && s.WritableBytes() >= reserve
            && |s.data| == CHEAP_PREPEND + Max(INITIAL_SIZE, b.ReadableBytes() + reserve)
  {
    var need := b.ReadableBytes() + reserve;
    EnsureWritableFacts(Fresh(), need);
    AppendFacts(EnsureWritable(Fresh(), need), b.Readable());
  }

  // ---- Any sequence of operations on a pair of buffers ----

  datatype Op =
    | DoAppend(bytes: seq<Byte>)
    | DoEnsureWritable(len: nat)
    | DoCommit(bytes: seq<Byte>)
    | DoUnwrite(len: nat)
    | DoRetrieve(len: nat)
    | DoRetrieveAll
    | DoPrepend(bytes: seq<Byte>)
    | DoShrink(reserve: nat)
    | DoReadFd(bytes: seq<Byte>)

  /** Exactly what the operations assert of their callers, and for readFd what the kernel keeps to. */
  predicate Legal(b: Layout, op: Op)
    requires b.Valid()
  {
    match op
    case DoCommit(bytes) => |bytes| <= b.WritableBytes()
    case DoUnwrite(len) => len <= b.ReadableBytes()
    case DoRetrieve(len) => len <= b.ReadableBytes()
    case DoPrepend(bytes) => |bytes| <= b.reader
    case DoReadFd(bytes) => |bytes| <= ReadRoom(b)
    case _ => true
  }

  function Apply(b: Layout, op: Op): Layout
    requires b.Valid() && Legal(b, op)
  {
    match op
    case DoAppend(bytes) => Append(b, bytes)
    case DoEnsureWritable(len) => EnsureWritable(b, len)
    case DoCommit(bytes) => Commit(b, bytes)
    case DoUnwrite(len) => Unwrite(b, len)
    case DoRetrieve(len) => Retrieve(b, len)
    case DoRetrieveAll => RetrieveAll(b)
    case DoPrepend(bytes) => Prepend(b, bytes)
    case DoShrink(reserve) => Shrink(b, reserve)
    case DoReadFd(bytes) => ReadFd(b, bytes)
  }

  /** The same operation on a plain byte sequence, which has no indexes and no capacity. */
  function Abstract(s: seq<Byte>, op: Op): seq<Byte> {
    match op
    case DoAppend(bytes) => s + bytes
    case DoEnsureWritable(_) => s
    case DoCommit(bytes) => s + bytes
    case DoUnwrite(len) => if len <= |s| then s[..|s| - len] else []
    case DoRetrieve(len) => if len <= |s| then s[len..] else []
    case DoRetrieveAll => []
    case DoPrepend(bytes) => bytes + s
    case DoShrink(_) => s
    case DoReadFd(bytes) => s + bytes
  }

  /** The largest value of readable bytes plus requested length over the calls of
      ensureWritableBytes that the operation makes. */
  function Demand(b: Layout, op: Op): nat
    requires b.Valid()
  {
    match op
    case DoAppend(bytes) => b.ReadableBytes() + |bytes|
    case DoEnsureWritable(len) => b.ReadableBytes() + len
    case DoShrink(reserve) => b.ReadableBytes() + reserve
    case DoReadFd(bytes) => if |bytes| <= b.WritableBytes() then 0 else b.ReadableBytes() + |bytes|
    case _ => 0
  }

  function SpaceBound(peak: nat): nat {
    Max(CHEAP_PREPEND + INITIAL_SIZE, 2 * peak + CHEAP_PREPEND - 1)
  }

  lemma RetrieveFacts(b: Layout, len: nat)
    requires b.Valid() && len <= b.ReadableBytes()
    ensures Retrieve(b, len).Valid() && Retrieve(b, len).Readable() == b.Readable()[len..]
  {
    if len < b.ReadableBytes() {
      assert b.data[b.reader + len..b.writer] == b.data[b.reader..b.writer][len..];
    } else {
      assert b.Readable()[len..] == [];
    }
  }

  lemma UnwriteFacts(b: Layout, len: nat)
    requires b.Valid() && len <= b.ReadableBytes()
    ensures Unwrite(b, len).Valid() && Unwrite(b, len).Readable() == b.Readable()[..b.ReadableBytes() - len]
  {
    assert b.data[b.reader..b.writer - len] == b.data[b.reader..b.writer][..b.writer - b.reader - len];
  }

  lemma PrependFacts(b: Layout, bytes: seq<Byte>)
    requires b.Valid() && |bytes| <= b.reader
    ensures Prepend(b, bytes).Valid() && Prepend(b, bytes).Readable() == bytes + b.Readable()
  {
    var at := b.reader - |bytes|;
    var data := Store(b.data, at, bytes);
    assert data[at..b.reader] == bytes && data[b.reader..b.writer] == b.Readable();
    assert data[at..b.writer] == data[at..b.reader] + data[b.reader..b.writer];
  }

  lemma ApplyRefines(b: Layout, op: Op)
    requires b.Valid() && Legal(b, op)
    ensures Apply(b, op).Valid()
    ensures Apply(b, op).Readable() == Abstract(b.Readable(), op)
  {
    match op
    case DoAppend(bytes) => AppendFacts(b, bytes);
    case DoEnsureWritable(len) => EnsureWritableFacts(b, len);
    case DoCommit(bytes) => CommitFacts(b, bytes);
    case DoUnwrite(len) => UnwriteFacts(b, len);
    case DoRetrieve(len) => RetrieveFacts(b, len);
    case DoRetrieveAll => RetrieveFacts(b, b.ReadableBytes());
    case DoPrepend(bytes) => PrependFacts(b, bytes);
    case DoShrink(reserve) => ShrinkFacts(b, reserve);
    case DoReadFd(bytes) => ReadFdExtends(b, bytes);
  }

  /** Growth is chosen only when compaction could not serve, so it at most doubles the demand. */
  lemma GrowthBounded(b: Layout, len: nat)
    requires b.Valid()
    ensures |EnsureWritable(b, len).data| <= Max(|b.data|, SpaceBound(b.ReadableBytes() + len))
  {
  }

  lemma ApplyBounded(b: Layout, op: Op)
    requires b.Valid() && Legal(b, op)
    ensures |Apply(b, op).data| <= Max(|b.data|, SpaceBound(Demand(b, op)))
  {
    match op
    case DoAppend(bytes) =>
      AppendFacts(b, bytes);
      GrowthBounded(b, |bytes|);
    case DoEnsureWritable(len) => GrowthBounded(b, len);
    case DoShrink(reserve) => ShrinkFacts(b, reserve);
    case DoReadFd(bytes) => ReadFdBounded(b, bytes);
    case _ =>
  }

  lemma ReadFdBounded(b: Layout, bytes: seq<Byte>)
    requires b.Valid()
    ensures |ReadFd(b, bytes).data| <= Max(|b.data|, SpaceBound(Demand(b, DoReadFd(bytes))))
  {
    if |bytes| > b.WritableBytes() {
      var here, spill := bytes[..b.WritableBytes()], bytes[b.WritableBytes()..];
      CommitFacts(b, here);
      AppendFacts(Commit(b, here), spill);
      GrowthBounded(Commit(b, here), |spill|);
    }
  }

  /** Two buffers, since swap needs a partner; `peak` is the largest demand so far. */
  datatype Pair = Pair(first: Layout, second: Layout, peak: nat) {
    predicate Valid() {
      first.Valid() && second.Valid()
    }
  }

  datatype Action = OnFirst(op: Op) | OnSecond(op: Op) | Swap

  predicate LegalAction(p: Pair, a: Action)
    requires p.Valid()
  {
    match a
    case OnFirst(op) => Legal(p.first, op)
    case OnSecond(op) => Legal(p.second, op)
    case Swap => true
  }

  function Act(p: Pair, a: Action): Pair
    requires p.Valid() && LegalAction(p, a)
  {
    match a
    case OnFirst(op) => Pair(Apply(p.first, op), p.second, Max(p.peak, Demand(p.first, op)))
    case OnSecond(op) => Pair(p.first, Apply(p.second, op), Max(p.peak, Demand(p.second, op)))
    case Swap => Pair(p.second, p.first, p.peak)
  }

  lemma ActValid(p: Pair, a: Action)
    requires p.Valid() && LegalAction(p, a)
    ensures Act(p, a).Valid()
  {
    match a
    case OnFirst(op) => ApplyRefines(p.first, op);
    case OnSecond(op) => ApplyRefines(p.second, op);
    case Swap =>
  }

  predicate LegalRun(p: Pair, run: seq<Action>)
    requires p.Valid()
    decreases run
  {
    run == [] ||
    (LegalAction(p, run[0]) && (ActValid(p, run[0]); LegalRun(Act(p, run[0]), run[1..])))
  }

  function Run(p: Pair, run: seq<Action>): Pair
    requires p.Valid() && LegalRun(p, run)
    decreases run
  {
    if run == [] then p else (ActValid(p, run[0]); Run(Act(p, run[0]), run[1..]))
  }

  function AbstractRun(s: seq<Byte>, t: seq<Byte>, run: seq<Action>): (seq<Byte>, seq<Byte>)
    decreases run
  {
    if run == [] then (s, t)
    else match run[0]
      case OnFirst(op) => AbstractRun(Abstract(s, op), t, run[1..])
      case OnSecond(op) => AbstractRun(s, Abstract(t, op), run[1..])
      case Swap => AbstractRun(t, s, run[1..])
  }

  /** Two buffers under any legal run behave as two plain byte sequences. */
  lemma {:induction false} RunRefines(p: Pair, run: seq<Action>)
    requires p.Valid() && LegalRun(p, run)
    ensures Run(p, run).Valid()
    ensures (Run(p, run).first.Readable(), Run(p, run).second.Readable())
         == AbstractRun(p.first.Readable(), p.second.Readable(), run)
    decreases run
  {
    if run != [] {
      ActValid(p, run[0]);
      match run[0] {
        case OnFirst(op) => ApplyRefines(p.first, op);
        case OnSecond(op) => ApplyRefines(p.second, op);
        case Swap =>
      }
      RunRefines(Act(p, run[0]), run[1..]);
    }
  }

  ghost predicate Bounded(p: Pair) {
    |p.first.data| <= SpaceBound(p.peak) && |p.second.data| <= SpaceBound(p.peak)
  }

  /** The space bound over whole histories: no vector is ever larger than
      max(1032, 2 * peak + 7). */
  lemma {:induction false} RunBounded(p: Pair, run: seq<Action>)
    requires p.Valid() && LegalRun(p, run) && Bounded(p)
    ensures Bounded(Run(p, run))
    decreases run
  {
    if run != [] {
      ActValid(p, run[0]);
      match run[0] {
        case OnFirst(op) => ApplyBounded(p.first, op);
        case OnSecond(op) => ApplyBounded(p.second, op);
        case Swap =>
      }
      RunBounded(Act(p, run[0]), run[1..]);
    }
  }

  /** From two new buffers: every legal history keeps both within the bound for its own peak. */
  lemma HistoryBounded(run: seq<Action>)
    requires LegalRun(Pair(Fresh(), Fresh(), 0), run)
    ensures var p := Run(Pair(Fresh(), Fresh(), 0), run);
            && p.Valid()
            && |p.first.data| <= Max(1032, 2 * p.peak + 7)
            && |p.second.data| <= Max(1032, 2 * p.peak + 7)
  {
    var start := Pair(Fresh(), Fresh(), 0);
    RunRefines(start, run);
    RunBounded(start, run);
  }

  predicate Prepends(a: Action) {
    (a.OnFirst? || a.OnSecond?) && a.op.DoPrepend?
  }

  /** Until something is prepended, an 8-byte header always fits in front of either content. */
  lemma {:induction false} RoomForHeader(p: Pair, run: seq<Action>)
    requires p.Valid() && LegalRun(p, run)
    requires p.first.reader >= 8 && p.second.reader >= 8
    requires forall i :: 0 <= i < |run| ==> !Prepends(run[i])
    ensures Run(p, run).first.reader >= 8 && Run(p, run).second.reader >= 8
    decreases run
  {
    if run != [] {
      ActValid(p, run[0]);
      assert !Prepends(run[0]);
      match run[0] {
        case OnFirst(op) => HeaderRoomKept(p.first, op);
        case OnSecond(op) => HeaderRoomKept(p.second, op);
        case Swap =>
      }
      RoomForHeader(Act(p, run[0]), run[1..]);
    }
  }

  lemma HeaderRoomKept(b: Layout, op: Op)
    requires b.Valid() && Legal(b, op) && b.reader >= CHEAP_PREPEND && !op.DoPrepend?
    ensures Apply(b, op).reader >= CHEAP_PREPEND
  {
    if op.DoReadFd? && |op.bytes| > b.WritableBytes() {
      CommitFacts(b, op.bytes[..b.WritableBytes()]);
    }
  }

  /** Retrieving everything, by either route, gives the whole vector behind the header back. */
  lemma DrainingRestoresRoom(b: Layout)
    requires b.Valid()
    ensures var e := Retrieve(b, b.ReadableBytes());
            && e == RetrieveAll(b)
            && e.Valid()
            && e.Readable() == []
            && e.reader == CHEAP_PREPEND
            && e.WritableBytes() == |b.data| - CHEAP_PREPEND
  {
  }

  // ---- Integers in network order ----

  /** An integer to append or to read, with its size in bytes. */
  datatype Field = Field(width: nat, value: int) {
    predicate Valid() {
      IsWidth(width) && InRange(width, value)
    }
  }

  predicate AllValid(fields: seq<Field>) {
    forall i :: 0 <= i < |fields| ==> fields[i].Valid()
  }

  function AppendInt(b: Layout, f: Field): Layout
    requires b.Valid() && f.Valid()
  {
    Append(b, ToBytes(f.width, f.value))
  }

  function PeekInt(b: Layout, width: nat): int
    requires b.Valid() && IsWidth(width) && width <= b.ReadableBytes()
  {
    FromBytes(b.data[b.reader..b.reader + width])
  }

  function PrependInt(b: Layout, f: Field): Layout
    requires b.Valid() && f.Valid() && f.width <= b.reader
  {
    Prepend(b, ToBytes(f.width, f.value))
  }

  function Wire(fields: seq<Field>): seq<Byte>
    requires AllValid(fields)
  {
    if fields == [] then []
    else ToBytes(fields[0].width, fields[0].value) + Wire(fields[1..])
  }

  lemma {:induction false} WireSnoc(fields: seq<Field>, f: Field)
    requires f.Valid() && AllValid(fields)
    ensures Wire(fields + [f]) == Wire(fields) + ToBytes(f.width, f.value)
  {
    if fields == [] {
      assert fields + [f] == [f];
      assert [f][1..] == [];
    } else {
      assert (fields + [f])[1..] == fields[1..] + [f];
      WireSnoc(fields[1..], f);
    }
  }

  /** Taking `head` off a buffer that starts with it. */
  lemma TakeHead(b: Layout, head: seq<Byte>, rest: seq<Byte>)
    requires b.Valid() && b.Readable() == head + rest
    ensures |head| <= b.ReadableBytes()
    ensures b.data[b.reader..b.reader + |head|] == head
    ensures Retrieve(b, |head|).Valid()
    ensures Retrieve(b, |head|).Readable() == rest
  {
    assert b.data[b.reader..b.reader + |head|] == b.Readable()[..|head|];
    assert b.Readable()[|head|..] == rest;
  }

  /** Reading the front field of a buffer that holds encoded fields. */
  lemma TakeFront(b: Layout, fields: seq<Field>)
    requires b.Valid() && fields != [] && AllValid(fields)
    requires b.Readable() == Wire(fields)
    ensures fields[0].width <= b.ReadableBytes()
    ensures PeekInt(b, fields[0].width) == fields[0].value
    ensures Retrieve(b, fields[0].width).Valid()
    ensures Retrieve(b, fields[0].width).Readable() == Wire(fields[1..])
  {
    var f := fields[0];
    var head := ToBytes(f.width, f.value);
    assert Wire(fields) == head + Wire(fields[1..]) && |head| == f.width;
    TakeHead(b, head, Wire(fields[1..]));
    FromToBytes(f.width, f.value);
  }

  /** Appends and reads in any order, with space management in between. */
  datatype FieldAction = Put(field: Field) | Take(width: nat) | Reserve(len: nat) | Tighten(reserve: nat)

  /** Reads must ask for the width that was appended, and only for what is there. */
  predicate Matches(queued: seq<Field>, a: FieldAction) {
    match a
    case Put(f) => f.Valid()
    case Take(width) => queued != [] && queued[0].width == width
    case _ => true
  }

  function Queued(queued: seq<Field>, a: FieldAction): seq<Field>
    requires Matches(queued, a)
  {
    match a
    case Put(f) => queued + [f]
    case Take(_) => queued[1..]
    case _ => queued
  }

  predicate Matching(queued: seq<Field>, run: seq<FieldAction>)
    decreases run
  {
    run == [] || (Matches(queued, run[0]) && Matching(Queued(queued, run[0]), run[1..]))
  }

  function PutsOf(a: FieldAction): seq<Field> {
    if a.Put? then [a.field] else []
  }

  function Puts(run: seq<FieldAction>): seq<Field> {
    if run == [] then [] else PutsOf(run[0]) + Puts(run[1..])
  }

  function TakesOf(a: FieldAction): nat {
    if a.Take? then 1 else 0
  }

  function Takes(run: seq<FieldAction>): nat {
    if run == [] then 0 else TakesOf(run[0]) + Takes(run[1..])
  }

  ghost predicate Holds(b: Layout, queued: seq<Field>) {
    b.Valid() && AllValid(queued) && b.Readable() == Wire(queued)
  }

  function FieldStep(b: Layout, queued: seq<Field>, a: FieldAction): Layout
    requires Holds(b, queued) && Matches(queued, a)
  {
    match a
    case Put(f) => AppendInt(b, f)
    case Take(width) => TakeFront(b, queued); Retrieve(b, width)
    case Reserve(len) => EnsureWritable(b, len)
    case Tighten(reserve) => Shrink(b, reserve)
  }

  lemma FieldStepHolds(b: Layout, queued: seq<Field>, a: FieldAction)
    requires Holds(b, queued) && Matches(queued, a)
    ensures Holds(FieldStep(b, queued, a), Queued(queued, a))
  {
    match a
    case Put(f) =>
      AppendFacts(b, ToBytes(f.width, f.value));
      WireSnoc(queued, f);
    case Take(width) => TakeFront(b, queued);
    case Reserve(len) => EnsureWritableFacts(b, len);
    case Tighten(reserve) => ShrinkFacts(b, reserve);
  }

  /** What the step hands to its caller. */
  function FieldOutput(b: Layout, queued: seq<Field>, a: FieldAction): seq<int>
    requires Holds(b, queued) && Matches(queued, a)
  {
    if a.Take? then (TakeFront(b, queued); [PeekInt(b, a.width)]) else []
  }

  /** The buffer after the run, and the values the reads returned. */
  function FieldRun(b: Layout, queued: seq<Field>, run: seq<FieldAction>): (Layout, seq<int>)
    requires Holds(b, queued) && Matching(queued, run)
    decreases run
  {
    if run == [] then (b, [])
    else
      FieldStepHolds(b, queued, run[0]);
      var rest := FieldRun(FieldStep(b, queued, run[0]), Queued(queued, run[0]), run[1..]);
      (rest.0, FieldOutput(b, queued, run[0]) + rest.1)
  }

  function Values(fields: seq<Field>): seq<int> {
    seq(|fields|, i requires 0 <= i < |fields| => fields[i].value)
  }

  /** After `taken` reads out of `all` fields: the values read, and the rest still encoded. */
  ghost predicate Served(all: seq<Field>, taken: nat, after: Layout, values: seq<int>) {
    && taken <= |all|
    && AllValid(all)
    && values == Values(all[..taken])
    && after.Valid()
    && after.Readable() == Wire(all[taken..])
  }

  lemma ServedCons(f: Field, rest: seq<Field>, taken: nat, after: Layout, values: seq<int>)
    requires f.Valid() && Served(rest, taken, after, values)
    ensures Served([f] + rest, taken + 1, after, [f.value] + values)
  {
    var all := [f] + rest;
    assert all[taken + 1..] == rest[taken..];
    assert all[..taken + 1] == [f] + rest[..taken];
  }

  lemma TakeInFront(b: Layout, queued: seq<Field>, width: nat, puts: seq<Field>, taken: nat,
                    after: Layout, values: seq<int>)
    requires Holds(b, queued) && Matches(queued, Take(width))
    requires Served(queued[1..] + puts, taken, after, values)
    ensures Served(queued + puts, 1 + taken, after, [PeekInt(b, width)] + values)
  {
    TakeFront(b, queued);
    ServedCons(queued[0], queued[1..] + puts, taken, after, values);
    assert queued + puts == [queued[0]] + (queued[1..] + puts);
  }

  lemma NothingTaken(queued: seq<Field>, a: FieldAction, puts: seq<Field>)
    requires Matches(queued, a) && !a.Take?
    ensures queued + (PutsOf(a) + puts) == Queued(queued, a) + puts
  {
  }

  /** Puts one action in front of a run that is served. */
  lemma ServedStep(b: Layout, queued: seq<Field>, a: FieldAction,
                   puts: seq<Field>, taken: nat, after: Layout, values: seq<int>)
    requires Holds(b, queued) && Matches(queued, a)
    requires Served(Queued(queued, a) + puts, taken, after, values)
    ensures Served(queued + (PutsOf(a) + puts), TakesOf(a) + taken, after, FieldOutput(b, queued, a) + values)
  {
    if a.Take? {
      TakeInFront(b, queued, a.width, puts, taken, after, values);
      assert PutsOf(a) + puts == puts;
    } else {
      NothingTaken(queued, a, puts);
      NoOutput(b, queued, a, values);
    }
  }

  lemma NoOutput(b: Layout, queued: seq<Field>, a: FieldAction, values: seq<int>)
    requires Holds(b, queued) && Matches(queued, a) && !a.Take?
    ensures FieldOutput(b, queued, a) + values == values && TakesOf(a) == 0
  {
  }

  /** Mixed-width integers come out as they went in, in order, however appends, reads,
      compaction, growth and shrinking interleave; what was not read is still encoded. */
  lemma {:induction false} FieldsRoundTrip(b: Layout, queued: seq<Field>, run: seq<FieldAction>)
    requires Holds(b, queued) && Matching(queued, run)
    ensures var (after, values) := FieldRun(b, queued, run);
            Served(queued + Puts(run), Takes(run), after, values)
    decreases run
  {
    if run == [] {
      assert queued + Puts(run) == queued;
    } else {
      var next, queued' := FieldStep(b, queued, run[0]), Queued(queued, run[0]);
      FieldStepHolds(b, queued, run[0]);
      FieldsRoundTrip(next, queued', run[1..]);
      var (after, values) := FieldRun(next, queued', run[1..]);
      ServedStep(b, queued, run[0], Puts(run[1..]), Takes(run[1..]), after, values);
    }
  }

  /** An Int32 length put in front of a body is read back as the length, and leaves the body. */
  lemma LengthHeader(b: Layout)
    requires b.Valid() && b.reader >= 4 && InRange(4, b.ReadableBytes())
    ensures var framed := PrependInt(b, Field(4, b.ReadableBytes()));
            && framed.Valid()
            && framed.ReadableBytes() == 4 + b.ReadableBytes()
            && PeekInt(framed, 4) == b.ReadableBytes()
            && Retrieve(framed, 4).Readable() == b.Readable()
  {
    var header := ToBytes(4, b.ReadableBytes());
    var framed := PrependInt(b, Field(4, b.ReadableBytes()));
    assert framed.data[framed.reader..framed.reader + 4] == header;
    FromToBytes(4, b.ReadableBytes());
  }

  // ---- Searching the readable bytes ----

  const CR: Byte := 13
  const LF: Byte := 10

  predicate CrlfAt(s: seq<Byte>, i: nat) {
    i + 1 < |s| && s[i] == CR && s[i + 1] == LF
  }

  /** std::search for CR LF from `from`; the position is relative to the readable bytes. */
  function FindCRLF(s: seq<Byte>, from: nat): (r: Option<nat>)
    requires from <= |s|
    ensures r.Some? ==> from <= r.value && CrlfAt(s, r.value)
    ensures r.Some? ==> forall i :: from <= i < r.value ==> !CrlfAt(s, i)
    ensures r.None? <==> forall i :: from <= i < |s| ==> !CrlfAt(s, i)
    decreases |s| - from
  {
    if from == |s| then None
    else if CrlfAt(s, from) then Some(from)
    else FindCRLF(s, from + 1)
  }

  /** memchr for LF from `from`. */
  function FindEOL(s: seq<Byte>, from: nat): (r: Option<nat>)
    requires from <= |s|
    ensures r.Some? ==> from <= r.value < |s| && s[r.value] == LF && LF !in s[from..r.value]
    ensures r.None? <==> LF !in s[from..]
    decreases |s| - from
  {
    if from == |s| then None
    else if s[from] == LF then Some(from)
    else assert s[from..] == [s[from]] + s[from + 1..]; FindEOL(s, from + 1)
  }
}
