/** The growable byte buffer as the class it is: a vector and two indexes that every
    method updates in place, each method doing what its function in BufferModel says. */
module NetBuffer {
  import opened Bytes
  import opened BigEndian
  import M = BufferModel

  /** What readv returned: an error, or the bytes it delivered (none at end of file). */
  datatype ReadResult = Delivered(bytes: seq<Byte>) | ReadError(errno: int)

  /** std::copy within one array towards lower positions, where the ranges may overlap. */
  method CopyDown(a: array<Byte>, source: nat, target: nat, len: nat)
    requires target <= source && source + len <= a.Length
    modifies a
    ensures a[..] == Store(old(a[..]), target, old(a[source..source + len]))
  {
    ghost var was := a[..];
    ghost var moved := was[source..source + len];
    var i := 0;
    while i < len
      invariant i <= len
      invariant a[..] == Store(was, target, moved[..i])
    {
      StoreGrows(was, target, moved, i);
      assert a[source + i] == moved[i];
      a[target + i] := a[source + i];
      i := i + 1;
    }
    assert moved[..len] == moved;
  }

  lemma StoreGrows(was: seq<Byte>, at: nat, bytes: seq<Byte>, i: nat)
    requires i < |bytes| && at + |bytes| <= |was|
    ensures Store(was, at, bytes[..i])[at + i := bytes[i]] == Store(was, at, bytes[..i + 1])
  {
  }

  /** std::copy from outside into the array. */
  method CopyIn(a: array<Byte>, target: nat, bytes: seq<Byte>)
    requires target + |bytes| <= a.Length
    modifies a
    ensures a[..] == Store(old(a[..]), target, bytes)
  {
    ghost var was := a[..];
    var i := 0;
    while i < |bytes|
      invariant i <= |bytes|
      invariant a[..] == Store(was, target, bytes[..i])
    {
      StoreGrows(was, target, bytes, i);
      a[target + i] := bytes[i];
      i := i + 1;
    }
    assert bytes[..|bytes|] == bytes;
  }

  class Buffer {
    var buffer: array<Byte>
    var readerIndex: nat
    var writerIndex: nat

    ghost function Value(): M.Layout
      reads this, buffer
    {
      M.Layout(buffer[..], readerIndex, writerIndex)
    }

    ghost predicate Valid()
      reads this, buffer
    {
      Value().Valid()
    }

    constructor ()
      ensures Valid() && fresh(buffer)
      ensures Value() == M.Fresh()
      ensures buffer.Length == 1032 && readerIndex == 8 && writerIndex == 8
    {
      buffer := new Byte[M.CHEAP_PREPEND + M.INITIAL_SIZE](_ => 0);
      readerIndex, writerIndex := M.CHEAP_PREPEND, M.CHEAP_PREPEND;
      new;
      assert buffer[..] == M.Fresh().data;
    }

    function ReadableBytes(): (n: nat)
      requires Valid()
      reads this, buffer
      ensures n == |Value().Readable()|
    {
      writerIndex - readerIndex
    }

    function WritableBytes(): (n: nat)
      requires Valid()
      reads this, buffer
      ensures n == Value().WritableBytes()
    {
      buffer.Length - writerIndex
    }

    /** peek() and readableBytes() as one value. */
    function Content(): (s: seq<Byte>)
      requires Valid()
      reads this, buffer
      ensures s == Value().Readable()
    {
      buffer[readerIndex..writerIndex]
    }

    method Swap(rhs: Buffer)
      modifies this, rhs
      ensures buffer == old(rhs.buffer) && rhs.buffer == old(buffer)
      ensures Value() == old(rhs.Value()) && rhs.Value() == old(Value())
    {
      buffer, rhs.buffer := rhs.buffer, buffer;
      readerIndex, rhs.readerIndex := rhs.readerIndex, readerIndex;
      writerIndex, rhs.writerIndex := rhs.writerIndex, writerIndex;
    }

    /** vector::resize to a larger size. */
    method Resize(size: nat)
      requires Valid() && buffer.Length <= size
      modifies this
      ensures Valid() && fresh(buffer)
      ensures Value() == M.Grown(old(Value()), size)
    {
      var a := new Byte[size](_ => 0);
      CopyIn(a, 0, buffer[..]);
      assert a[..] == buffer[..] + Zeros(size - buffer.Length);
      buffer := a;
    }

    method MakeSpace(len: nat)
      requires Valid() && WritableBytes() < len
      modifies this, buffer
      ensures Valid() && (buffer == old(buffer) || fresh(buffer))
      ensures Value() == M.MakeSpace(old(Value()), len)
    {
      if WritableBytes() + readerIndex < len + M.CHEAP_PREPEND {
        Resize(writerIndex + len);
      } else {
        assert M.CHEAP_PREPEND < readerIndex;
        var readable := ReadableBytes();
        CopyDown(buffer, readerIndex, M.CHEAP_PREPEND, readable);
        readerIndex := M.CHEAP_PREPEND;
        writerIndex := readerIndex + readable;
      }
    }

    method EnsureWritableBytes(len: nat)
      requires Valid()
      modifies this, buffer
      ensures Valid() && (buffer == old(buffer) || fresh(buffer))
      ensures Value() == M.EnsureWritable(old(Value()), len)
      ensures WritableBytes() >= len
    {
      if WritableBytes() < len {
        MakeSpace(len);
      }
    }

    method HasWritten(len: nat)
      requires Valid() && len <= WritableBytes()
      modifies this
      ensures Valid() && buffer == old(buffer)
      ensures Value() == old(Value()).(writer := old(writerIndex) + len)
    {
      writerIndex := writerIndex + len;
    }

    method Append(bytes: seq<Byte>)
      requires Valid()
      modifies this, buffer
      ensures Valid() && (buffer == old(buffer) || fresh(buffer))
      ensures Value() == M.Append(old(Value()), bytes)
      ensures Content() == old(Content()) + bytes
    {
      M.AppendFacts(Value(), bytes);
      EnsureWritableBytes(|bytes|);
      CopyIn(buffer, writerIndex, bytes);
      HasWritten(|bytes|);
    }

    method Unwrite(len: nat)
      requires Valid() && len <= ReadableBytes()
      modifies this
      ensures Valid() && buffer == old(buffer)
      ensures Value() == M.Unwrite(old(Value()), len)
    {
      writerIndex := writerIndex - len;
    }

    method RetrieveAll()
      requires Valid()
      modifies this
      ensures Valid() && buffer == old(buffer)
      ensures Value() == M.RetrieveAll(old(Value()))
    {
      readerIndex := M.CHEAP_PREPEND;
      writerIndex := M.CHEAP_PREPEND;
    }

    method Retrieve(len: nat)
      requires Valid() && len <= ReadableBytes()
      modifies this
      ensures Valid() && buffer == old(buffer)
      ensures Value() == M.Retrieve(old(Value()), len)
      ensures Content() == old(Content())[len..]
    {
      if len < ReadableBytes() {
        readerIndex := readerIndex + len;
      } else {
        RetrieveAll();
      }
    }

    method RetrieveAsString(len: nat) returns (result: seq<Byte>)
      requires Valid() && len <= ReadableBytes()
      modifies this
      ensures Valid() && buffer == old(buffer)
      ensures old(Content()) == result + Content() && |result| == len
      ensures Value() == M.Retrieve(old(Value()), len)
    {
      result := buffer[readerIndex..readerIndex + len];
      Retrieve(len);
    }

    method Prepend(bytes: seq<Byte>)
      requires Valid() && |bytes| <= readerIndex
      modifies this, buffer
      ensures Valid() && buffer == old(buffer)
      ensures Value() == M.Prepend(old(Value()), bytes)
    {
      readerIndex := readerIndex - |bytes|;
      CopyIn(buffer, readerIndex, bytes);
    }

    method Shrink(reserve: nat)
      requires Valid()
      modifies this, buffer
      ensures Valid() && fresh(buffer)
      ensures Value() == M.Shrink(old(Value()), reserve)
    {
      var other := new Buffer();
      other.EnsureWritableBytes(ReadableBytes() + reserve);
      other.Append(Content());
      Swap(other);
    }

    // appendInt8/16/32/64, peekInt*, readInt* and prependInt*, with the width as an argument.

    method AppendInt(width: nat, x: int)
      requires Valid() && M.Field(width, x).Valid()
      modifies this, buffer
      ensures Valid() && (buffer == old(buffer) || fresh(buffer))
      ensures Value() == M.AppendInt(old(Value()), M.Field(width, x))
    {
      Append(ToBytes(width, x));
    }

    function PeekInt(width: nat): (x: int)
      requires Valid() && IsWidth(width) && width <= ReadableBytes()
      reads this, buffer
      ensures x == M.PeekInt(Value(), width)
    {
      FromBytes(buffer[readerIndex..readerIndex + width])
    }

    method ReadInt(width: nat) returns (x: int)
      requires Valid() && IsWidth(width) && width <= ReadableBytes()
      modifies this
      ensures Valid() && buffer == old(buffer)
      ensures x == M.PeekInt(old(Value()), width)
      ensures Value() == M.Retrieve(old(Value()), width)
    {
      x := PeekInt(width);
      Retrieve(width);
    }

    method PrependInt(width: nat, x: int)
      requires Valid() && M.Field(width, x).Valid() && width <= readerIndex
      modifies this, buffer
      ensures Valid() && buffer == old(buffer)
      ensures Value() == M.PrependInt(old(Value()), M.Field(width, x))
    {
      Prepend(ToBytes(width, x));
    }

    /** `kernel` is what readv does with the two segments it is offered. */
    method ReadFd(kernel: ReadResult) returns (n: int, savedErrno: Option<int>)
      requires Valid()
      requires kernel.Delivered? ==> |kernel.bytes| <= M.ReadRoom(Value())
      modifies this, buffer
      ensures Valid() && (buffer == old(buffer) || fresh(buffer))
      ensures kernel.ReadError? ==> n == -1 && savedErrno == Some(kernel.errno) && Value() == old(Value())
      ensures kernel.Delivered? ==>
                n == |kernel.bytes| && savedErrno == None && Value() == M.ReadFd(old(Value()), kernel.bytes)
      ensures Content() == old(Content()) + if kernel.Delivered? then kernel.bytes else []
    {
      savedErrno := None;
      match kernel
      case ReadError(errno) =>
        n := -1;
        savedErrno := Some(errno);
      case Delivered(bytes) =>
        M.ReadFdExtends(Value(), bytes);
        n := |bytes|;
        Scatter(bytes);
    }

    /** The kernel fills the writable part first and the spill array with the rest, which is
        then appended. */
    method Scatter(bytes: seq<Byte>)
      requires Valid() && |bytes| <= M.ReadRoom(Value())
      modifies this, buffer
      ensures Valid() && (buffer == old(buffer) || fresh(buffer))
      ensures Value() == M.ReadFd(old(Value()), bytes)
    {
      var extrabuf := new Byte[M.EXTRA_BUFFER];
      var writable := WritableBytes();
      if |bytes| <= writable {
        CopyIn(buffer, writerIndex, bytes);
        writerIndex := writerIndex + |bytes|;
      } else {
        var here, spill := bytes[..writable], bytes[writable..];
        CopyIn(buffer, writerIndex, here);
        CopyIn(extrabuf, 0, spill);
        writerIndex := buffer.Length;
        assert extrabuf[..|spill|] == spill;
        Append(extrabuf[..|spill|]);
      }
    }
  }
}
