# A model of the xweb reactor library

xweb is a small reactor library in the style of muduo. This project models five connected parts of
it in Dafny and proves what they promise: the double-buffered asynchronous logger, the event loop's
cross-thread functor queue with its eventfd, the output path of a TCP connection, the growable byte
buffer, and integer formatting together with the short-count I/O loops.

Each imperative part appears twice. A *model* module gives the meaning on values: a state, one
function for each operation or atomic step, and the theorems over all inputs, all runs and all
interleavings. A *class* module has the source's own form, with fields updated in place, arrays,
loops and critical sections; its methods are proved to do what the model says, so every theorem of
the model applies to them.

| part | model | class |
|---|---|---|
| byte buffer | `BufferModel`, `BigEndian` | `NetBuffer.Buffer` |
| TCP connection | `ConnectionModel`, `Channels`; over whole runs `ConnectionRuns`, `MessageOrder`, `ConnectionEvents`, `HighWaterMarks`, `HalfClose`, `GracefulShutdown`, `ReadInterest` | `TcpConnections.TcpConnection`, which owns two `NetBuffer.Buffer` objects |
| event loop | `EventLoopModel`, `EventLoopScripts` | `EventLoops.EventLoop` |
| log stream | `Numerals`, `LogModel` | `LogStreams.FixedBuffer`, `LogStreams.LogStream` |
| asynchronous logger | `AsyncLogModel`, over the `AppendText` of `LogModel`; `AsyncLogScripts` | `AsyncLogger.AsyncLogging` |
| robust I/O | `RioModel` | `Rio.Descriptor`, `Rio.RioBuffer`, `Rio.ReadN`, `Rio.WriteN` |

How the surroundings enter:

- The kernel's answers are parameters: any legal count or error for `write`, `read` and `readv`, and
  any set of ready descriptors for `epoll_wait`.
- Other threads are actions of the protocol (`Append`, `Push`, `Quit`, `Wake`, `ForeignSend`, ...)
  which may occur at any point. A foreign call that tests and then acts is as many actions as it has
  shared accesses, with a program counter for the thread in between. In the class modules the other
  threads are an arbitrary finite script that runs between the steps of the thread that is modelled;
  the methods do exactly what `EventLoopScripts` and `AsyncLogScripts` make of the script.
- The connection's trace records each system call and callback, so that claims about what reached
  the socket, and when, are claims about the trace.
- SIZE, the high-water mark, the number of threads and the kind of functor are arbitrary. The
  thresholds 25 and 2 of the logger and the sizes 8, 1024 and 65536 of the buffer are the source's.

Where the code does something other than its evident intent, the model follows the code, shows an
input and says exactly when the intended property holds:

- `shutdown` tests the state and sets it without a lock. If a close falls between the two on a foreign
  thread, a disconnected connection is disconnecting again (`ConnectionRuns.ClosedThenDisconnecting`);
  the state only advances exactly in the runs without that (`ConnectionRuns.ForwardUnlessOvertaken`).
- A half-close need not be the end. `GracefulShutdown.LoopShutdownIsFinal` and
  `GracefulShutdown.ForeignShutdownIsFinal` say, from what is buffered and queued when `shutdown` is
  called, exactly when it is sure to be; `HalfClose.FinalIffSettled` says so for every later state, and
  `GracefulShutdown.ForeignShutdownRepeats` gives an instance that fails.
- `handleWrite` clears write interest with a logical instead of a bitwise complement, which clears
  read interest too: it lasts exactly from the establishment to the first drain
  (`ReadInterest.ReadsUntilDrain`, `ReadInterest.MasksCompared`).
- A channel with timer interest never has a handler run (`Channels.TimerNeverRuns`).
- The logger's backend does not drain at exit: the lines offered since its last swap stay in
  memory, so without overload the file is complete exactly when they hold no character
  (`AsyncLogModel.ExitLosesLastLines`, `AsyncLogModel.StopCanLoseALine`).
- `rio_readlineb` returns one more than it stored unless a newline comes within the room or the stream
  is at its end (`RioModel.ResultIsCount`, `RioModel.ResultIsNotCount`).

## Model

| member | source | states |
|---|---|---|
| `BigEndian.DecodeEncode` | net/buffer.h:160-184 | decoding the big-endian bytes of an unsigned value of any width gives the value |
| `BigEndian.EncodeDecode` | net/buffer.h:222-255 | every byte string is the encoding of the value it decodes to, and that value fits the width |
| `BigEndian.FromToBytes` | net/buffer.h:160-255 | a signed value in range for its width survives htobe and betoh, the most negative one included |
| `BigEndian.ToFromBytes` | net/buffer.h:160-255 | the decoding is onto the signed range and the encoding undoes it, so the codec is a bijection |
| `BigEndian.EncodeByte` | net/buffer.h:160-180 | byte i of an encoded value is its digit for 256 to the power width - 1 - i: the most significant comes first |
| `BigEndian.DecodeLeading` | net/buffer.h:222-249 | the first byte read has the largest weight |
| `BigEndian.SignInLeadingByte` | net/buffer.h:222-255 | the first byte of a signed value counts from -128 to 127 with that weight |
| `BufferModel.EnsureWritableFacts` | net/buffer.h:134-139 | afterwards the requested room is there and no readable byte has moved or changed; storage grows only when prependable plus writable room could not serve |
| `BufferModel.FreshFacts` | net/buffer.h:19-28 | a new buffer has exactly 1032 bytes of storage, no content, and accepts any prepend of up to 8 bytes |
| `BufferModel.CommitFacts` | net/buffer.h:141-150 | bytes stored at beginWrite and then committed are exactly what the readable part gains |
| `BufferModel.AppendFacts` | net/buffer.h:123-127 | append extends the readable bytes by the argument, across growth and across the overlapping compaction copy |
| `BufferModel.ReadFdExtends` | net/buffer.cpp:10-34 | the readable bytes grow by exactly the delivered bytes in order, spilled or not; one call offers 65536 bytes more than the writable part if that is smaller, and never more than max(writable, 131071) |
| `BufferModel.ShrinkFacts` | net/buffer.h:293-299 | the content survives, the reserve is free, and the new storage is 8 + max(1024, content + reserve) bytes exactly |
| `BufferModel.RetrieveFacts` | net/buffer.h:73-81 | retrieve removes exactly the first len readable bytes, also on the path that resets both indexes |
| `BufferModel.UnwriteFacts` | net/buffer.h:152-155 | unwrite removes exactly the last len readable bytes |
| `BufferModel.PrependFacts` | net/buffer.h:286-291 | prepend puts the argument in front of the readable bytes and disturbs none of them |
| `BufferModel.DrainingRestoresRoom` | net/buffer.h:73-102 | retrieving everything by either route makes all storage behind the 8-byte header writable again |
| `BufferModel.ApplyRefines` | net/buffer.h:73-155 | each of the nine mutators, under exactly its asserted precondition, does to the readable bytes what the corresponding plain-sequence operation does, and keeps 0 <= reader <= writer <= size |
| `BufferModel.RunRefines` | net/buffer.h:30-155 | two buffers under any legal sequence of operations and swaps behave as two plain byte sequences |
| `BufferModel.GrowthBounded` | net/buffer.h:318-334 | one ensureWritableBytes call never makes storage larger than max(1032, 2 * (readable + len) + 7) unless it already was |
| `BufferModel.ApplyBounded` | net/buffer.h:123-139 | no operation makes storage exceed the bound for its own demand |
| `BufferModel.RunBounded` | net/buffer.h:318-334 | the bound for the peak demand is kept by every legal run with swaps |
| `BufferModel.HistoryBounded` | net/buffer.h:318-334 | from new buffers, no history ever has storage above max(1032, 2 * peak + 7), where peak is the largest readable plus requested length so far |
| `BufferModel.RoomForHeader` | net/buffer.h:286-299 | in any run without a prepend, an 8-byte header still fits in front of either content |
| `BufferModel.HeaderRoomKept` | net/buffer.h:318-334 | compaction, growth, shrinking, reading and retrieving never eat into the 8 reserved bytes |
| `BufferModel.TakeFront` | net/buffer.h:190-255 | with encoded integers in the buffer, a read of the first one's width returns its value and leaves exactly the others |
| `BufferModel.FieldStepHolds` | net/buffer.h:160-255 | appending or reading an integer, reserving and shrinking all leave the buffer holding exactly the encodings of the unread integers |
| `BufferModel.FieldsRoundTrip` | net/buffer.h:160-255 | in any interleaving of mixed-width appends, matching reads, reservations and shrinks, the reads return the appended values in order and what is unread is still encoded |
| `BufferModel.LengthHeader` | net/buffer.h:260-291 | an Int32 length prepended to a body is read back as the length and reading it leaves exactly the body |
| `BufferModel.FindCRLF` | net/buffer.h:48-59 | a result is the first CR LF at or after the start; there is none if and only if no CR LF occurs there |
| `BufferModel.FindEOL` | net/buffer.h:61-71 | a result is the first newline at or after the start; there is none if and only if no newline occurs there |
| `NetBuffer.CopyDown` | net/buffer.h:327-329 | the overlapping element-by-element copy towards the front equals a copy from a snapshot of the source range |
| `NetBuffer.Buffer.constructor` | net/buffer.h:21-28 | a new buffer is the empty 1032-byte layout with both indexes at 8 |
| `NetBuffer.Buffer.ReadableBytes` | net/buffer.h:36-38 | it is the length of the readable bytes |
| `NetBuffer.Buffer.Content` | net/buffer.h:45-46 | peek and readableBytes delimit the abstract content |
| `NetBuffer.Buffer.Swap` | net/buffer.h:30-34 | the two objects exchange storage and indexes, and so their values |
| `NetBuffer.Buffer.Resize` | net/buffer.h:321 | a larger vector starts with the old bytes and continues with zeros |
| `NetBuffer.Buffer.MakeSpace` | net/buffer.h:318-334 | the choice between growth and compaction and its result; the assertion that more than 8 bytes are prependable is discharged |
| `NetBuffer.Buffer.EnsureWritableBytes` | net/buffer.h:134-139 | the room asked for is writable afterwards and the new layout is the specified one |
| `NetBuffer.Buffer.Append` | net/buffer.h:123-127 | the content is extended by the argument, in old or fresh storage |
| `NetBuffer.Buffer.Retrieve` | net/buffer.h:73-81 | the content loses its first len bytes in place |
| `NetBuffer.Buffer.RetrieveAsString` | net/buffer.h:108-113 | the result followed by the new content is the old content |
| `NetBuffer.Buffer.Unwrite` | net/buffer.h:152-155 | the layout after taking back len bytes in place, the storage untouched |
| `NetBuffer.Buffer.Prepend` | net/buffer.h:286-291 | the layout after storing in front of the reader index, in the same storage |
| `NetBuffer.Buffer.Shrink` | net/buffer.h:293-299 | building a second buffer and swapping it in gives the tightened layout in fresh storage |
| `NetBuffer.Buffer.AppendInt` | net/buffer.h:160-184 | the layout after the value's network-order bytes are appended |
| `NetBuffer.Buffer.ReadInt` | net/buffer.h:190-216 | the decoded front value is returned and its bytes are gone |
| `NetBuffer.Buffer.PrependInt` | net/buffer.h:260-284 | the layout after the value's network-order bytes are put in front |
| `NetBuffer.Buffer.ReadFd` | net/buffer.cpp:10-34 | the returned count, the saved errno, and a content extended by the delivered bytes, or untouched on error |
| `NetBuffer.Buffer.Scatter` | net/buffer.cpp:12-32 | filling the writable part, then the 64k array, then appending the spill gives the specified layout |
| `Numerals.DigitsParse` | base/log_stream.cpp:10-27 | a numeral in base 2 to 16 is canonical and an independent parser gives its number back |
| `Numerals.CanonicalIsDigits` | base/log_stream.cpp:10-27 | conversely every canonical numeral is the numeral of the value it parses to |
| `Numerals.DecimalRoundTrip` | base/log_stream.cpp:10-27 | for every integer the text parses back to it, is canonical, and starts with '-' exactly for negatives |
| `Numerals.CanonicalDecimalIsText` | base/log_stream.cpp:10-27 | every canonical signed text is the text of the integer it parses to |
| `Numerals.DecimalInjective` | base/log_stream.cpp:10-27 | different integers have different texts |
| `Numerals.DecimalLength` | base/log_stream.h:120 | every signed or unsigned 64-bit value takes at most 20 characters |
| `Numerals.HexLength` | base/log_stream.h:120 | a 64-bit address takes at most 16 hexadecimal digits |
| `LogStreams.MirroredDigit` | base/log_stream.cpp:4-6 | the 19-character mirrored table, indexed from its middle by a remainder of either sign, gives the digit of the magnitude |
| `LogStreams.TruncatedParts` | base/log_stream.cpp:16-18 | truncating division and remainder of a negative value produce the quotient and digit of its magnitude without negating it |
| `LogStreams.DecimalTurn` | base/log_stream.cpp:15-19 | each turn of the loop moves exactly the lowest remaining digit behind the digits already written |
| `LogStreams.ReverseRange` | base/log_stream.cpp:25 | the in-place reversal leaves the mirror image of the range and nothing else changed |
| `LogStreams.StoreDecimal` | base/log_stream.cpp:14-19 | the digit loop stores the mirror image of the magnitude's numeral, for the most negative value too |
| `LogStreams.Convert` | base/log_stream.cpp:10-27 | the array gets the canonical decimal text and a NUL behind it, nothing else changes, and the length excludes the NUL |
| `LogStreams.ConvertHex` | base/log_stream.cpp:29-41 | the same for upper-case hexadecimal |
| `LogStreams.FixedBuffer.Append` | base/log_stream.h:21-27 | all or nothing: the text is extended by exactly the argument if at least one byte stays free, otherwise unchanged |
| `LogStreams.FixedBuffer.Reset` | base/log_stream.h:36 | the text is empty again |
| `LogStreams.LogStream.Put` | base/log_stream.h:55-113 | whichever operator is used, what it appends says the operand (an integer's text parses back to it and is canonical), it appears exactly when there is room for it, and at least one byte stays free |
| `LogStreams.LogStream.FormatInteger` | base/log_stream.cpp:44-50 | when 32 bytes are free, what is appended is a canonical decimal text that parses back to the integer, sign included; otherwise nothing is |
| `LogStreams.LogStream.FormatPointer` | base/log_stream.cpp:100-111 | when 32 bytes are free, what is appended is "0x" and a canonical hexadecimal numeral of the address; otherwise nothing is |
| `LogModel.NumberFitsGuard` | base/log_stream.h:120 | decimal text with its NUL needs at most 21 bytes, an address with "0x" and NUL at most 19, so the 32-byte guard is enough |
| `LogModel.RenderSays` | base/log_stream.h:55-113 | the text of each operand is the only one that says it: a canonical decimal text that parses to the integer, "0x" and a canonical hexadecimal numeral of the address, or the characters themselves |
| `LogModel.PutPuts` | base/log_stream.h:55-113 | an operator appends a text that says its operand, whole, if 32 characters are free for a number or one more than anything else needs, and otherwise changes nothing |
| `LogModel.PutKeepsRoom` | base/log_stream.h:21-34 | no operator ever fills the buffer |
| `LogModel.ContentIsWhatFitted` | base/log_stream.h:55-113 | after any sequence of operators the content is the in-order concatenation of exactly the renderings that passed their fit test, none of them cut, and is shorter than SIZE |
| `LogModel.ShortMessagesAreWhole` | base/log_stream.h:55-113 | a message that ends at least 32 bytes before the end of the buffer loses nothing |
| `AsyncLogModel.StepOwners` | base/async_logging.cpp:28-125 | no append, swap, drop or recycling step gives a buffer a second owner |
| `AsyncLogModel.EveryBufferOwnedOnce` | base/async_logging.cpp:28-125 | in every interleaving each buffer has at most one owning pointer |
| `AsyncLogModel.AppendInv` | base/async_logging.cpp:28-49 | append keeps the shared invariant: a next buffer exists exactly when there is no full one, it is empty, and no buffer is filled to its end |
| `AsyncLogModel.SwapInv` | base/async_logging.cpp:68-83 | the locked swap restores the shared invariant and leaves a batch large enough to refill every spare it used |
| `AsyncLogModel.RecycleInv` | base/async_logging.cpp:101-123 | both recycling assertions hold, and afterwards both spares exist and are empty and the batch is empty |
| `AsyncLogModel.StepInv` | base/async_logging.cpp:64-125 | every step of either side keeps the cross-thread invariant, so none of the backend's assertions can fail |
| `AsyncLogModel.LiveBuffers` | base/async_logging.cpp:65-67 | under the invariant exactly max(4, full + 3) buffers are alive at the loop head |
| `AsyncLogModel.AppendTracked` | base/async_logging.cpp:28-49 | an appended line ends up whole in one buffer, behind all lines accepted before it |
| `AsyncLogModel.HandsOver` | base/async_logging.cpp:35-48 | a buffer is handed to the backend early exactly when the line would not leave it a byte to spare; the line then starts the next buffer, a new one only if there is no spare, and is dropped if it fits in none |
| `AsyncLogModel.KeptTexts` | base/async_logging.cpp:85-93 | what dropping leaves of the buffers taken is the rendering of the lines they hold |
| `AsyncLogModel.DroppedAndWritten` | base/async_logging.cpp:85-99 | up to 25 buffers are recorded whole and without a notice; of more, the records are one notice and exactly the texts of the first two, and the numeral in the notice parses to the number of all the others |
| `AsyncLogModel.RenderedRecords` | base/async_logging.cpp:85-99 | the same of the rendering of a batch of lines |
| `AsyncLogModel.StepTracked` | base/async_logging.cpp:28-125 | every step keeps the account of which lines are in which batch or buffer and of what the log file holds |
| `AsyncLogModel.RunTracked` | base/async_logging.cpp:28-125 | so does every interleaving |
| `AsyncLogModel.EveryInterleaving` | base/async_logging.cpp:28-125 | from the start, in any interleaving: no assertion fails; a next buffer exists exactly when no full one does; the lines offered and short enough are, in order, those of the batches taken, then of the full buffers, then of the current one; the log file holds the rendering of every batch |
| `AsyncLogModel.EveryBatchRecorded` | base/async_logging.cpp:64-126 | in every run, between batches, the log file is the records of every batch taken, in order: its whole buffers, or the notice whose numeral plus two is its size and then its first two buffers |
| `AsyncLogModel.RunningUnlessStopped` | base/async_logging.cpp:64 | in every run the flag is set exactly as long as nobody has stopped the logger |
| `AsyncLogModel.StopEndsThread` | base/async_logging.cpp:64-126 | once stopped, the backend takes at most the batch it is waiting for, and its next test of the flag ends it |
| `AsyncLogModel.EveryLoopHead` | base/async_logging.cpp:64-67 | whenever the backend is at the loop head it has two empty spares and max(4, full + 3) buffers are alive |
| `AsyncLogModel.WrittenWhole` | base/async_logging.cpp:95-99 | batches of at most 25 buffers reach the log file character for character |
| `AsyncLogModel.SinkAndResidue` | base/async_logging.cpp:64-126 | without overload, at the loop head and at exit, the accepted text is the log file followed by the shared buffers |
| `AsyncLogModel.RunResidue` | base/async_logging.cpp:28-82 | in every run the lines in the shared buffers are those offered and accepted since the last swap |
| `AsyncLogModel.ExitLosesLastLines` | base/async_logging.cpp:64-126 | in every run the lines offered are those of the batches taken and then those offered since the last swap; at exit, without overload, the file lacks exactly the latter and is complete if and only if they hold no character |
| `AsyncLogModel.StopCanLoseALine` | base/async_logging.cpp:64 | a run in which an accepted line is never written because stop came before the next test of the flag |
| `AsyncLogger.AsyncLogging.Append` | base/async_logging.cpp:28-49 | the critical section, move by move, is the protocol's append, and it allocates exactly when the line does not fit and there is no next buffer |
| `AsyncLogger.AsyncLogging.SwapSection` | base/async_logging.cpp:68-81 | the backend's critical section is the protocol's swap |
| `AsyncLogger.AsyncLogging.Drop` | base/async_logging.cpp:85-93 | up to 25 buffers are left alone; of more, the first two stay and the output gains one notice whose numeral parses to the number of the others |
| `AsyncLogger.AsyncLogging.Recycle` | base/async_logging.cpp:101-123 | resizing, the two guarded refills and the clearing are the protocol's recycling; the assertions in it are discharged |
| `AsyncLogScripts.CallsGoOn` | base/async_logging.cpp:28-49 | every scripted append takes effect: what is offered grows by exactly the scripted lines that are short enough, and the backend's own state is left alone |
| `AsyncLogScripts.TurnGoesOn` | base/async_logging.cpp:64-125 | a scripted turn extends the run by a run of the protocol, offers exactly the lines of the calls that get their turn, and leaves the loop exactly if the flag was clear |
| `AsyncLogScripts.ThreadGoesOn` | base/async_logging.cpp:64-126 | so do any number of turns; the flag is clear exactly after a stop in the script, and only then the loop is left |
| `AsyncLogScripts.StopEndsScript` | base/async_logging.cpp:64-126 | if the script stops the logger in its first rounds, the thread ends before it takes another batch, whatever the script has left |
| `AsyncLogScripts.ThreadWritesItsScript` | base/async_logging.cpp:53-127 | for every script: the scripted lines that are short enough are, in order, those of the batches taken and those left in the shared buffers, and the log file holds the rendering of exactly those batches |
| `AsyncLogger.AsyncLogging.Others` | base/async_logging.cpp:28-49 | the calls of other threads do to the fields exactly what the script says, each taking effect in order |
| `AsyncLogger.AsyncLogging.OneCall` | base/async_logging.cpp:28-49 | one call of another thread is one action of the protocol; it clears the flag exactly if it is a stop |
| `AsyncLogger.AsyncLogging.WriteBatch` | base/async_logging.cpp:95-99 | the writing loop, with other threads before any record, extends the execution by exactly the scripted calls and one write for each buffer of the batch |
| `AsyncLogger.AsyncLogging.WriteRecord` | base/async_logging.cpp:95-99 | one record: the buffer's whole text is added to the output, after what the other threads do |
| `AsyncLogger.AsyncLogging.TakeBatch` | base/async_logging.cpp:68-93 | from the lock to the first record the execution is extended by the swap and the drop; what the output has gained and what is left to write are together the records due for the buffers that were shared |
| `AsyncLogger.AsyncLogging.Turn` | base/async_logging.cpp:64-125 | one iteration, its assertions discharged, extends the execution by exactly the scripted turn, and it is a turn if and only if the flag was set |
| `AsyncLogger.AsyncLogging.ThreadFunc` | base/async_logging.cpp:53-127 | the execution is exactly the one the script makes, from the start: no assertion fails, it is a run of the protocol that offers the scripted lines; the flag is clear exactly if the script stops the logger, and only then the function returns |
| `AsyncLogger.AsyncLogging.TakeAndWrite` | base/async_logging.cpp:68-124 | the part of a turn behind the test of the flag is exactly the scripted one and leaves the state sound at the loop head |
| `EventLoopModel.StepConserved` | net/event_loop.cpp:72-103 | after any step the executed, the taken and the waiting functors together are all pushed ones in push order |
| `EventLoopModel.StepAwake` | net/event_loop.cpp:80-107 | every step of any thread keeps a wakeup due for waiting functors and for a quit request |
| `EventLoopModel.RunPushed` | net/event_loop.cpp:80-88 | the ghost record of pushes is the sequence of push actions of the run |
| `EventLoopModel.RunningUnlessQuit` | net/event_loop.cpp:37-58 | in every run the flag is set exactly when the loop has been started and nobody has asked it to quit since |
| `EventLoopModel.QuitStopsLoop` | net/event_loop.cpp:42-58 | after a quit by any thread at any time at most the turn it came in completes, and the next test of the flag stops the loop |
| `EventLoopModel.CounterCountsWakeups` | net/linux/epoller.cpp:10-16 | in every run the eventfd's count is the number of wakeups since it was last read, up to its maximum, and so zero from the handler to the next wakeup |
| `EventLoopModel.RunBetween` | net/event_loop.cpp:80-88 | a thread counts as being between its update and its wakeup exactly when that is what it did last |
| `EventLoopModel.RunTurns` | net/event_loop.cpp:42-50 | the turns counted are the batches completed |
| `EventLoopModel.RunCalling` | net/event_loop.cpp:90-103 | calling_pending_ is set exactly while a batch is run |
| `EventLoopModel.RunKeeps` | net/event_loop.cpp:42-107 | both invariants hold throughout every interleaving |
| `EventLoopModel.ExactlyOnceInOrder` | net/event_loop.cpp:72-103 | in every interleaving, at exit too, the functors executed, then those taken, then those waiting are the pushes in order: none lost, repeated or reordered |
| `EventLoopModel.NoLostWakeup` | net/event_loop.cpp:42-58 | in every interleaving with any number of threads, a loop at poll with waiting functors or a quit request finds the eventfd's count positive, or a thread is about to write it |
| `EventLoopModel.WakeUnblocks` | net/linux/epoller.cpp:126-132 | a thread between its update and its wakeup can always finish, and then poll can return, even when the eventfd's count is at its maximum |
| `EventLoopModel.StepServing` | net/event_loop.cpp:42-50 | every step keeps what had been pushed at the poll within what is executed or taken |
| `EventLoopModel.OneTurnServesAll` | net/event_loop.cpp:42-50 | once a turn that started at poll is complete, everything pushed before that poll has been executed, whatever happened meanwhile |
| `EventLoops.EventLoop.Enqueue` | net/event_loop.cpp:81-84 | the critical section adds the functor at the end |
| `EventLoops.EventLoop.Wakeup` | net/linux/epoller.cpp:126-132 | the count is positive afterwards, also when the write fails at the largest count |
| `EventLoops.EventLoop.WakeupRead` | net/linux/epoller.cpp:10-16 | the read returns the count and resets it |
| `EventLoops.EventLoop.RunInLoop` | net/event_loop.cpp:72-88 | called at once on the loop thread; queued and announced on any other |
| `EventLoopScripts.CallsPush` | net/event_loop.cpp:80-88 | a script pushes exactly the functors of the calls whose threads are ready for them, in order, behind what was waiting |
| `EventLoopScripts.TurnGoesOn` | net/event_loop.cpp:42-50 | a scripted turn extends the run by a run of the protocol, stops exactly if the flag was clear, and otherwise completes or waits at poll |
| `EventLoopScripts.LoopIsRun` | net/event_loop.cpp:37-58 | for every script the execution of loop extends the run it starts from by a run of the protocol; the flag is clear afterwards exactly if somebody quits in it, only then it stops, and every round that does not end in waiting is a whole turn |
| `EventLoopScripts.QuitEndsLoop` | net/event_loop.cpp:42-58 | if somebody quits during the first rounds of a script, no later round adds a turn, and the loop is stopped unless it waits at poll in the turn it was in |
| `EventLoopScripts.PushedIsExecuted` | net/event_loop.cpp:42-50 | whatever had been pushed when the loop tests its flag has been executed, in order, once the next turn of any script is complete |
| `EventLoops.EventLoop.OneCall` | net/event_loop.cpp:53-88 | one step of a foreign thread does to the fields what the protocol says, and nothing if the thread is not ready for it; the flag is cleared exactly by a quit that takes effect |
| `EventLoops.EventLoop.Others` | net/event_loop.cpp:53-88 | the execution is extended by exactly the scripted calls that take effect; the queue grows by their functors, and nothing is executed |
| `EventLoops.EventLoop.CallFunctor` | net/event_loop.cpp:100-101 | one functor is called after what other threads do before it |
| `EventLoops.EventLoop.RunBatch` | net/event_loop.cpp:100-101 | the loop calls each taken functor once, in order, and only those, while other threads do exactly what the script says |
| `EventLoops.EventLoop.TakeFunctors` | net/event_loop.cpp:92-98 | the critical section takes everything that is waiting and leaves the queue empty |
| `EventLoops.EventLoop.DoPendingFunctors` | net/event_loop.cpp:90-103 | exactly the functors waiting at the swap are called, in order, whatever the script queues meanwhile |
| `EventLoops.EventLoop.PollAndHandle` | net/event_loop.cpp:43-47 | the execution is extended by exactly the scripted poll, its handlers and the read of the eventfd; the loop stays at poll only when nothing reportable is ready |
| `EventLoops.EventLoop.Turn` | net/event_loop.cpp:42-50 | the execution is extended by exactly the scripted turn; it stops if and only if the flag is clear, and otherwise executes everything that was waiting or stays at poll |
| `EventLoops.EventLoop.Loop` | net/event_loop.cpp:37-51 | the execution is exactly the one the script makes, a run of the protocol that extends the given one; the flag is clear afterwards exactly if somebody quits in it, and only then the loop stops |
| `Channels.WakeupIsRead` | net/linux/epoller.cpp:94-124 | a readable wakeup descriptor always leads to the handler that resets the eventfd |
| `Channels.WhichHandler` | net/channel.cpp:24-36 | the write handler runs exactly when EPOLLOUT is the only reported bit, the read handler exactly when EPOLLIN is among them, and a listening channel's connection handler always |
| `Channels.TimerNeverRuns` | net/linux/epoller.cpp:109-119 | no report makes any handler of a timer channel run |
| `Channels.Collect` | net/linux/epoller.cpp:94-124 | poll returns the known channels in the order reported, each with the active mask of its own report, and drops unknown descriptors |
| `ConnectionModel.QueueKeeps` | net/tcp_connection.cpp:124-136 | queueing the rest of a message keeps the account of bytes and leaves write interest set exactly when something is buffered |
| `ConnectionModel.AfterWriteKeeps` | net/tcp_connection.cpp:107-136 | a direct write of any length splits a message into a prefix on the wire and a buffered rest with nothing lost, and a completion is reported only when nothing is left |
| `ConnectionModel.SendInLoopKeeps` | net/tcp_connection.cpp:95-137 | for every answer of write the output invariant is kept and the buffered length is exactly what the answer leaves over |
| `ConnectionModel.ShutdownInLoopKeeps` | net/tcp_connection.cpp:237-244 | a half-close happens only with an empty output buffer |
| `ConnectionModel.HandleWriteKeeps` | net/tcp_connection.cpp:175-200 | for every answer of write the ready handler keeps the output invariant and never buffers more |
| `ConnectionModel.HandleReadKeeps` | net/tcp_connection.cpp:158-173 | input, end of file and closing leave the output account alone |
| `ConnectionRuns.StepInv` | net/tcp_connection.cpp:46-244 | every action of the loop or of a foreign thread, a foreign shutdown being a test, a set and a push, keeps the output invariant and what the assertion of handleClose relies on |
| `ConnectionRuns.StepForward` | net/tcp_connection.cpp:150-155 | a step takes the state back exactly when it is the set of a foreign shutdown on a connection that is already closed |
| `ConnectionRuns.ForwardUnlessOvertaken` | net/tcp_connection.cpp:141-211 | over any run the state only advances through Connecting, Connected, Disconnecting, Disconnected if and only if no close falls between the test and the set of one foreign shutdown |
| `ConnectionRuns.ClosedThenDisconnecting` | net/tcp_connection.cpp:150-155 | a run in which a closed connection becomes disconnecting again |
| `ConnectionRuns.OutputAlwaysAccounted` | net/tcp_connection.cpp:95-195 | in every run the bytes written and then those buffered are the accepted messages, whole and in execution order; write interest is set exactly while something is buffered; every completion and every half-close found all accepted bytes already written |
| `ConnectionEvents.SignalsAreCounted` | net/tcp_connection.cpp:95-244 | in every run: one write-complete callback, if it is set, for each drain in the ready handler and each send whose first write takes the whole message, and no other; one half-close for each shutdown that finds no write interest and each drain while disconnecting; one connection callback for each establishment and one close callback for each close |
| `ConnectionEvents.CompletionBeforeHalfClose` | net/tcp_connection.cpp:178-191 | a drain writes what was buffered, then notifies the completion if that is set, then half-closes if it was waited for, and leaves nothing buffered |
| `ConnectionEvents.EveryFate` | net/tcp_connection.cpp:95-137 | in every run each message that reaches sendInLoop is given up exactly if the connection is closed, faulted exactly if its direct write finds the peer gone, and else accepted, also after any other error |
| `ConnectionEvents.WireIsWhatTheKernelTook` | net/tcp_connection.cpp:105-108 | in every run the bytes counted as written are as many as write returned |
| `ConnectionEvents.StepInput` | net/tcp_connection.cpp:158-173 | only a read changes the input buffer, which gains what is delivered and loses from its front what the callback retrieves |
| `ConnectionEvents.InputAccounted` | net/tcp_connection.cpp:158-173 | in every run the message callbacks received all delivered bytes in order, and the input buffer holds exactly those that no callback has retrieved |
| `ConnectionEvents.RegisteredWhileUp` | net/tcp_connection.cpp:141-211 | unless a foreign shutdown overtakes a close, the poller knows the channel exactly while the connection is up |
| `MessageOrder.SendInLoopExecuted` | net/tcp_connection.cpp:95-137 | each message is accepted, faulted or given up exactly once and as a whole |
| `MessageOrder.StepMoves` | net/tcp_connection.cpp:50-97 | each step moves the messages of a thread between the thread, the queue, the batch and the executed ones without changing or dropping any |
| `MessageOrder.NoMessageLost` | net/tcp_connection.cpp:50-97 | in every run and for each thread, the messages it sent while connected are, byte for byte and in order, those executed, then those taken, then those waiting, then the one it may still hold |
| `MessageOrder.PerThreadOrder` | net/tcp_connection.cpp:50-97 | in every run, messages are executed at most once each and those of one thread in the order it sent them |
| `HighWaterMarks.StepReports` | net/tcp_connection.cpp:124-131 | a step reports high water exactly when it takes the buffered length from below the mark to at or above it, with the length after the append |
| `HighWaterMarks.HighWaterIsEdgeTriggered` | net/tcp_connection.cpp:124-131 | over any run the reports are exactly the upward crossings of the mark in the history of buffered lengths |
| `HalfClose.DueShrinks` | net/tcp_connection.cpp:50-59 | once the state has left Connected no further send or shutdown becomes due |
| `HalfClose.StepClosing` | net/tcp_connection.cpp:150-155 | no half-close happens or is queued before the state has left Connected |
| `HalfClose.FinalIffSettled` | net/tcp_connection.cpp:150-200 | from every state in which the socket is half-closed, no continuation half-closes again or writes a byte if and only if the buffered bytes can never be flushed, or nothing is buffered, no other shutdown is due, and no send of any byte is due or the connection is closed |
| `GracefulShutdown.HalfCloseIsFinal` | net/tcp_connection.cpp:150-200 | when sends and shutdowns come from the loop thread, the socket is half-closed at most once and nothing is written afterwards |
| `GracefulShutdown.EveryRunClosing` | net/tcp_connection.cpp:150-155 | in every reachable state the invariants hold that the next two rows start from: nobody has half-closed or queued a half-close while the state is Connected |
| `GracefulShutdown.LoopShutdownIsFinal` | net/tcp_connection.cpp:150-155 | after a shutdown on the loop thread of a connected connection the half-close is the end in every continuation if and only if no foreign shutdown and no send of any byte is queued or underway |
| `GracefulShutdown.ForeignShutdownIsFinal` | net/tcp_connection.cpp:150-155 | after the set of a foreign shutdown on a connected connection it is the end in every continuation if and only if nothing is buffered, no send of any byte is queued or underway, and no other thread is shutting down |
| `GracefulShutdown.ForeignShutdownRepeats` | net/tcp_connection.cpp:114-155 | a reachable instance that fails: one byte which the socket refused is enough |
| `ReadInterest.MasksCompared` | net/tcp_connection.cpp:182 | both complements end write interest; the code's always ends read interest, the bitwise one never changes it |
| `ReadInterest.StepReads` | net/tcp_connection.cpp:95-200 | on an established connection a step keeps read interest exactly unless it empties the output buffer in the ready handler |
| `ReadInterest.ReadsUntilDrain` | net/tcp_connection.cpp:141-183 | in every run the channel asks for reads if and only if the connection has been established and its output buffer has never been drained by the ready handler |
| `ReadInterest.NoReadsAfterDrain` | net/tcp_connection.cpp:181-183 | after such a drain no continuation ever asks for reads again |
| `TcpConnections.TcpConnection.constructor` | net/tcp_connection.cpp:12-28 | a new connection is connecting, unregistered, with two empty buffers of its own |
| `TcpConnections.TcpConnection.ConnectEstablished` | net/tcp_connection.cpp:141-148 | the state, the registration and the callback of an established connection |
| `TcpConnections.TcpConnection.SendInLoop` | net/tcp_connection.cpp:95-137 | the direct write, its error cases and the queueing do to fields, buffers and trace what the model's step does, for every answer of write |
| `TcpConnections.TcpConnection.Send` | net/tcp_connection.cpp:50-59 | sent at once on the loop thread; on another thread a copy is queued if connected; nothing otherwise |
| `TcpConnections.TcpConnection.SendBuffer` | net/tcp_connection.cpp:61-89 | the caller's buffer, which may be the connection's own input buffer, is emptied exactly when the connection is connected, and its whole old content is what is sent or queued |
| `TcpConnections.TcpConnection.Shutdown` | net/tcp_connection.cpp:150-155 | the state is set, even over a close that came after the test on a foreign thread, and the half-close follows at once or as a queued call |
| `TcpConnections.TcpConnection.ShutdownInLoop` | net/tcp_connection.cpp:237-244 | the half-close is skipped while write interest is set |
| `TcpConnections.TcpConnection.HandleWrite` | net/tcp_connection.cpp:175-200 | the flushed prefix leaves the buffer and reaches the wire; a drain is followed by the specified mask, then the write-complete callback if set, then the half-close if disconnecting |
| `TcpConnections.TcpConnection.HandleRead` | net/tcp_connection.cpp:158-173 | the input buffer is its old content and what readv delivers, without what the message callback retrieves from the front; the callback is called once with what was delivered; end of file closes; an error leaves the connection as it is |
| `TcpConnections.TcpConnection.HandleClose` | net/tcp_connection.cpp:203-211 | the state, the deregistration and the callback of a close |
| `RioModel.NextLineFacts` | base/rio.cpp:77-95 | a line is a prefix of the stream with no newline before its last byte, and stops only at a newline, at the end of the stream or when the room is used up |
| `RioModel.LinesCover` | base/rio.cpp:77-95 | the lines of any number of calls, put together, are the consumed prefix of the stream |
| `RioModel.SuccessiveCalls` | base/rio.cpp:77-95 | calls that each store the next line and consume just that, as `ReadLine` does, store together exactly the lines fixed by the first stream and the limits |
| `RioModel.CallsConsume` | base/rio.cpp:77-95 | what successive calls store, put together and followed by what is still unread, is the stream they started on |
| `RioModel.EndsLineIff` | base/rio.cpp:80-92 | a line ends in a newline if and only if there is one among the bytes of the stream that there is room for |
| `RioModel.ResultIsCount` | base/rio.cpp:80-94 | the returned count is the stored count if and only if a newline comes within the room, or the stream is at its end and there is room for a byte; otherwise it is one more |
| `RioModel.ResultIsNotCount` | base/rio.cpp:80-94 | a stream of one byte without a newline: one byte is stored and two are reported |
| `Rio.ReadN` | base/rio.cpp:39-55 | for any short reads and finitely many interruptions it terminates; with no hard error it stores exactly the first min(n, available) bytes and returns that count; -1 only after a hard error |
| `Rio.WriteN` | base/rio.cpp:57-75 | a result of n means exactly the n bytes were emitted once each in order; with no hard error that is the result; after one a proper prefix was emitted |
| `Rio.RioBuffer.constructor` | base/rio.cpp:33-37 | a new buffer yields exactly the descriptor's stream |
| `Rio.RioBuffer.Fill` | base/rio.cpp:9-22 | refilling through interruptions neither loses nor invents a byte and terminates |
| `Rio.RioBuffer.Read` | base/rio.cpp:7-31 | it delivers the next bytes of the stream, at least one of them unless the stream is at its end |
| `Rio.RioBuffer.StoreOne` | base/rio.cpp:81-90 | one turn either ends the line correctly or leaves a longer part of the same line |
| `Rio.RioBuffer.LineTurn` | base/rio.cpp:80-92 | one turn of the loop leaves a longer part of the same line, or ends it where it ends, with its result |
| `Rio.RioBuffer.LineLoop` | base/rio.cpp:80-92 | the loop stores the next line of the stream and computes its result, however the bytes arrive |
| `Rio.RioBuffer.ReadLine` | base/rio.cpp:77-95 | with no hard error the stored line, of at most maxlen - 1 bytes, the NUL, the result and the remaining stream depend only on the bytes to come and on maxlen, not on how the kernel fragments them; a line stops short of maxlen - 1 bytes only at a newline or at the end of the stream |
| `Rio.RioBuffer.OneLine` | base/rio.cpp:77-95 | the length of the stored line can be found from the result and the byte before it |
| `Rio.RioBuffer.ReadLines` | net/http_data.cpp:12-24 | successive calls store exactly the lines of the stream, for any fragmentation without a hard error, and what they store with what is left is the stream |

## Left out

- AsyncLogger.AsyncLogging.Append: buffers are values that carry an allocation number, so heap aliasing is not modelled; that no buffer has two owners is proved about the numbers (`EveryBufferOwnedOnce`). The echo to the console is not modelled.
- AsyncLogger.AsyncLogging.ThreadFunc: the other threads follow an arbitrary finite script, so an execution that goes on forever is covered through its finite prefixes.
- EventLoops.EventLoop.Loop: likewise for an arbitrary finite number of turns.
- MessageOrder.PerThreadOrder: callbacks do not re-enter the connection; a send from the high-water callback would overtake the bytes about to be queued.
- EventLoopModel.NoLostWakeup: memory is sequentially consistent for `running_`, and a quit that precedes `loop` is overwritten by it, as in the code.
- LogStreams.FixedBuffer.Append: lengths are below the largest `int`; the narrowing cast of a longer one is not modelled.
- NetBuffer.Buffer.Shrink: the `int` length of the intermediate StringPiece is not modelled, and neither is overflow of `size_t`.
- NetBuffer.Buffer.constructor: the size argument, which the source ignores apart from asserting that it is the default, is dropped.
- Rio.WriteN: `write` never returns zero for a non-empty range, and the diagnostic printed before errno is examined does not change it.
- TcpConnections.TcpConnection.HandleRead: of the message callback only what it retrieves is modelled; of a read error only that the connection stays as it is, not the reading and logging of the socket error.
- TcpConnections.TcpConnection.Shutdown: between the test and the set on a foreign thread only a close is played; what else can come in between is covered by the runs of `ConnectionRuns`.
- What the kernel does with a write after a half-close, and whether a write of the log file succeeds.
- `Epoller::update`: the epoll_ctl call with its uninitialised event bits; the model records only whether a channel is registered.
- Timers, sockets, addresses, the acceptor and the kqueue poller: calls to the system with no algorithm of their own.
- The HTTP demo, LogFile, AppendFile, ProcessInfo and time formatting: clock, file and host calls; the log output is an append-only list of records.
- Floating-point and thread-id operators of the log stream: they rest on snprintf and stringstream.
- CountDownLatch, ThreadPool, EventLoopThread and TcpServer's map: they start threads and keep lists of connections, and take no part in the protocols above.
- Object lifetime: destructors, shared_from_this and the removal of a connection from its server.
