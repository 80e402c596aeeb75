/** The short-count loops in their own form, over a descriptor that may deliver or take fewer
    bytes than asked, be interrupted finitely often, or fail. */
module Rio {
  import opened Bytes
  import M = RioModel

  /** How the kernel answers one call: it is interrupted, it moves at most so many bytes, or it fails. */
  datatype Answer = Interrupted | AtMost(n: nat) | Fails

  /** What read(2) and write(2) return. */
  datatype IoResult = Count(n: nat) | Eintr | Error

  predicate NoFailure(script: seq<Answer>) {
    forall i :: 0 <= i < |script| ==> !script[i].Fails?
  }

  /** A descriptor: the bytes still to come, those written so far, and the kernel's next
      answers; after those it moves all it is asked to. */
  class Descriptor {
    var incoming: seq<Byte>
    var outgoing: seq<Byte>
    var script: seq<Answer>

    constructor (incoming: seq<Byte>, script: seq<Answer>)
      ensures this.incoming == incoming && this.script == script && outgoing == []
    {
      this.incoming, this.script, outgoing := incoming, script, [];
    }

    /** Takes the next answer off the script, turning it into a count of at most `most`. */
    method Answered(most: nat) returns (r: IoResult)
      modifies `script
      ensures r.Count? ==> r.n <= most && (most > 0 ==> r.n > 0)
      ensures if old(script) == [] then script == [] else script == old(script)[1..]
      ensures r.Eintr? ==> old(script) != []
      ensures r.Error? ==> old(script) != [] && old(script)[0].Fails?
    {
      if script == [] {
        r := Count(most);
      } else {
        match script[0] {
          case Interrupted => r := Eintr;
          case AtMost(n) => r := Count(if most == 0 then 0 else Max(1, Min(n, most)));
          case Fails => r := Error;
        }
        script := script[1..];
      }
    }

    /** read(2): a count of zero means end of file. */
    method Read(size: nat) returns (r: IoResult, bytes: seq<Byte>)
      requires size > 0
      modifies this
      ensures outgoing == old(outgoing)
      ensures old(incoming) == bytes + incoming
      ensures r.Count? ==> |bytes| == r.n <= size && (r.n == 0 <==> old(incoming) == [])
      ensures !r.Count? ==> bytes == []
      ensures if old(script) == [] then script == [] else script == old(script)[1..]
      ensures r.Eintr? ==> old(script) != []
      ensures r.Error? ==> old(script) != [] && old(script)[0].Fails?
    {
      r := Answered(Min(size, |incoming|));
      bytes := if r.Count? then incoming[..r.n] else [];
      incoming := incoming[|bytes|..];
    }

    /** write(2) of a non-empty range. */
    method Write(bytes: seq<Byte>) returns (r: IoResult)
      requires bytes != []
      modifies this
      ensures incoming == old(incoming)
      ensures r.Count? ==> 0 < r.n <= |bytes|
      ensures outgoing == old(outgoing) + (if r.Count? then bytes[..r.n] else [])
      ensures if old(script) == [] then script == [] else script == old(script)[1..]
      ensures r.Eintr? ==> old(script) != []
      ensures r.Error? ==> old(script) != [] && old(script)[0].Fails?
    {
      r := Answered(|bytes|);
      if r.Count? {
        outgoing := outgoing + bytes[..r.n];
      }
    }
  }

  /** Storing at `at` what came after what is already there. */
  method StoreAt(a: array<Byte>, at: nat, bytes: seq<Byte>)
    requires at + |bytes| <= a.Length
    modifies a
    ensures a[..] == Store(old(a[..]), at, bytes)
  {
    forall k | 0 <= k < |bytes| {
      a[at + k] := bytes[k];
    }
  }

  /** rio_readn: short of a hard error, exactly the first min(n, available) bytes of the stream
      and their count. */
  method ReadN(fd: Descriptor, usrbuf: array<Byte>, n: nat) returns (result: int)
    requires n <= usrbuf.Length
    modifies fd, usrbuf
    ensures NoFailure(old(fd.script)) ==> result >= 0
    ensures result >= 0 ==> result == Min(n, |old(fd.incoming)|)
    ensures result >= 0 ==> usrbuf[..result] + fd.incoming == old(fd.incoming)
    ensures result < 0 ==> result == -1 && !NoFailure(old(fd.script))
  {
    var nleft, bufp := n, 0;
    while nleft > 0
      invariant 0 <= nleft && 0 <= bufp && bufp + nleft == n
      invariant usrbuf[..bufp] + fd.incoming == old(fd.incoming)
      invariant NoFailure(old(fd.script)) ==> NoFailure(fd.script)
      decreases nleft + |fd.script|
    {
      ghost var had := usrbuf[..bufp];
      var r, bytes := fd.Read(nleft);
      match r {
        case Error => return -1;
        case Eintr =>
        case Count(nread) =>
          if nread == 0 {
            break;
          }
          StoreAt(usrbuf, bufp, bytes);
          assert usrbuf[..bufp + nread] == had + bytes;
          nleft := nleft - nread;
          bufp := bufp + nread;
      }
    }
    return n - nleft;
  }

  /** rio_writen: all n bytes once each in order, or after a hard error a prefix of them. */
  method WriteN(fd: Descriptor, usrbuf: array<Byte>, n: nat) returns (result: int)
    requires n <= usrbuf.Length
    modifies fd
    ensures fd.incoming == old(fd.incoming)
    ensures NoFailure(old(fd.script)) ==> result == n
    ensures result == n || result == -1
    ensures result == n ==> fd.outgoing == old(fd.outgoing) + usrbuf[..n]
    ensures result == -1 ==> exists k :: 0 <= k < n && fd.outgoing == old(fd.outgoing) + usrbuf[..k]
  {
    var nleft, bufp := n, 0;
    while nleft > 0
      invariant 0 <= nleft && 0 <= bufp && bufp + nleft == n && fd.incoming == old(fd.incoming)
      invariant fd.outgoing == old(fd.outgoing) + usrbuf[..bufp]
      invariant NoFailure(old(fd.script)) ==> NoFailure(fd.script)
      decreases nleft + |fd.script|
    {
      var r := fd.Write(usrbuf[bufp..bufp + nleft]);
      match r {
        case Error => return -1;
        case Eintr =>
        case Count(nwritten) =>
          assert usrbuf[..bufp] + usrbuf[bufp..bufp + nleft][..nwritten] == usrbuf[..bufp + nwritten];
          nleft := nleft - nwritten;
          bufp := bufp + nwritten;
      }
    }
    return n;
  }

  const RIO_BUFSIZE: nat := 8192

  /** rio_t: what was read from the descriptor and not yet handed out is
      rioBuf[rioBufptr..rioBufptr + rioCnt]. */
  class RioBuffer {
    const rioFd: Descriptor
    var rioCnt: int
    var rioBufptr: nat
    const rioBuf: array<Byte>

    constructor (fd: Descriptor)
      ensures Valid() && fresh(rioBuf) && rioFd == fd
      ensures Unread() == fd.incoming
    {
      rioFd, rioCnt, rioBufptr := fd, 0, 0;
      rioBuf := new Byte[RIO_BUFSIZE];
    }

    ghost predicate Valid()
      reads this
    {
      && rioBuf.Length == RIO_BUFSIZE
      && (rioCnt > 0 ==> rioBufptr + rioCnt <= RIO_BUFSIZE)
    }

    /** The bytes that reading through this buffer still yields. */
    ghost function Unread(): seq<Byte>
      requires Valid()
      reads this, rioBuf, rioFd
    {
      (if rioCnt > 0 then rioBuf[rioBufptr..rioBufptr + rioCnt] else []) + rioFd.incoming
    }

    /** The loop at the start of rio_read: until something is buffered, the end of file or a
        hard error. */
    method Fill() returns (result: int)
      requires Valid()
      modifies this, rioBuf, rioFd
      ensures Valid()
      ensures Unread() == old(Unread())
      ensures NoFailure(old(rioFd.script)) ==> NoFailure(rioFd.script) && result >= 0
      ensures result == 1 || result == 0 || result == -1
      ensures result == 1 ==> rioCnt > 0
      ensures result == 0 ==> old(Unread()) == []
    {
      while rioCnt <= 0
        invariant Valid() && Unread() == old(Unread())
        invariant NoFailure(old(rioFd.script)) ==> NoFailure(rioFd.script)
        decreases |rioFd.script|, rioCnt <= 0
      {
        var r, bytes := rioFd.Read(RIO_BUFSIZE);
        match r {
          case Eintr => rioCnt := -1;
          case Error =>
            rioCnt := -1;
            return -1;
          case Count(n) =>
            rioCnt := n;
            if n == 0 {
              return 0;
            }
            StoreAt(rioBuf, 0, bytes);
            rioBufptr := 0;
            assert rioBuf[0..n] == bytes;
        }
      }
      return 1;
    }

    /** rio_read of `n` bytes: at least one and at most n of the next bytes. */
    method Read(n: nat) returns (result: int, bytes: seq<Byte>)
      requires Valid() && n > 0
      modifies this, rioBuf, rioFd
      ensures Valid()
      ensures old(Unread()) == bytes + Unread()
      ensures NoFailure(old(rioFd.script)) ==> NoFailure(rioFd.script) && result >= 0
      ensures result == -1 ==> bytes == []
      ensures result >= 0 ==> result == |bytes| <= n && (result == 0 <==> old(Unread()) == [])
      ensures result >= -1
    {
      var filled := Fill();
      if filled <= 0 {
        return filled, [];
      }
      var cnt: int := n;
      if rioCnt < n {
        cnt := rioCnt;
      }
      bytes := rioBuf[rioBufptr..rioBufptr + cnt];
      rioBufptr := rioBufptr + cnt;
      rioCnt := rioCnt - cnt;
      result := cnt;
    }

    /** The first half of a turn of rio_readlineb: one byte is read and, if there is one, stored. */
    method StoreOne(usrbuf: array<Byte>, bufp: nat, ghost line: seq<Byte>, ghost room: nat) returns (rc: int, c: Byte)
      requires Valid() && usrbuf != rioBuf && bufp < usrbuf.Length
      requires room > 0 && M.PartOf(line, usrbuf[..bufp], Unread(), room)
      modifies this, rioBuf, rioFd, usrbuf
      ensures Valid() && (NoFailure(old(rioFd.script)) ==> NoFailure(rioFd.script) && rc >= 0)
      ensures rc == 1 || rc == 0 || rc == -1
      ensures rc == 1 ==> old(usrbuf[..bufp] + Unread()) == usrbuf[..bufp + 1] + Unread()
      ensures rc == 1 && c == M.NEWLINE ==> line == usrbuf[..bufp + 1] && M.EndsLine(line)
      ensures rc == 1 && c != M.NEWLINE ==> M.PartOf(line, usrbuf[..bufp + 1], Unread(), room - 1)
      ensures rc == 0 ==> line == usrbuf[..bufp] && !M.EndsLine(line) && old(Unread()) == Unread() == []
      ensures rc == 0 ==> usrbuf[..bufp] == old(usrbuf[..bufp])
    {
      ghost var had, rest := usrbuf[..bufp], Unread();
      var bytes;
      rc, bytes := Read(1);
      c := 0;
      if rc == 1 {
        c := bytes[0];
        M.PartStep(line, had, rest, room);
        assert rest == bytes + Unread() && rest[1..] == Unread();
        usrbuf[bufp] := c;
        assert usrbuf[..bufp + 1] == had + [c];
      } else if rc == 0 {
        M.PartEnd(line, had, rest, room);
      }
    }

    /** In the middle of a line of `stream`: `bufp` bytes of it are stored, the rest is unread. */
    ghost predicate InLine(usrbuf: array<Byte>, bufp: nat, stream: seq<Byte>, maxlen: nat)
      requires Valid()
      reads this, rioBuf, rioFd, usrbuf
    {
      && bufp < usrbuf.Length && bufp <= M.Room(maxlen)
      && stream == usrbuf[..bufp] + Unread()
      && M.PartOf(M.NextLine(stream, M.Room(maxlen)), usrbuf[..bufp], Unread(), M.Room(maxlen) - bufp)
    }

    /** The line is stored, `n` is its result, and the rest is unread. */
    ghost predicate LineDone(usrbuf: array<Byte>, bufp: nat, stream: seq<Byte>, maxlen: nat, n: int)
      requires Valid()
      reads this, rioBuf, rioFd, usrbuf
    {
      && bufp < usrbuf.Length
      && stream == usrbuf[..bufp] + Unread()
      && usrbuf[..bufp] == M.NextLine(stream, M.Room(maxlen))
      && n == M.LineResult(usrbuf[..bufp], maxlen)
    }

    /** One turn of the loop, in which the line may end. */
    method LineTurn(usrbuf: array<Byte>, maxlen: nat, n: nat, ghost stream: seq<Byte>)
      returns (done: bool, n': int, bufp: nat)
      requires Valid() && usrbuf != rioBuf && 0 < n < maxlen <= usrbuf.Length
      requires InLine(usrbuf, n - 1, stream, maxlen)
      modifies this, rioBuf, rioFd, usrbuf
      ensures Valid() && n' >= -1 && bufp < usrbuf.Length
      ensures NoFailure(old(rioFd.script)) ==> NoFailure(rioFd.script) && n' >= 0
      ensures !done ==> n' == n + 1 && InLine(usrbuf, n, stream, maxlen)
      ensures done && n' >= 0 ==> LineDone(usrbuf, bufp, stream, maxlen, n')
    {
      var rc, c := StoreOne(usrbuf, n - 1, M.NextLine(stream, M.Room(maxlen)), M.Room(maxlen) - (n - 1));
      if rc == 1 {
        done, bufp := c == M.NEWLINE, n;
        n' := if done then n else n + 1;
      } else {
        done, bufp := true, n - 1;
        n' := if rc < 0 then -1 else if n == 1 then 0 else n;
      }
    }

    /** The loop of rio_readlineb: -1 for a hard error, 0 for an immediate end of file, else the
        count it goes on to return; `bufp` bytes are stored. */
    method LineLoop(usrbuf: array<Byte>, maxlen: nat) returns (n: int, bufp: nat)
      requires Valid() && usrbuf != rioBuf && Max(1, maxlen) <= usrbuf.Length
      modifies this, rioBuf, rioFd, usrbuf
      ensures Valid() && n >= -1 && bufp < usrbuf.Length
      ensures NoFailure(old(rioFd.script)) ==> NoFailure(rioFd.script) && n >= 0
      ensures n >= 0 ==> LineDone(usrbuf, bufp, old(Unread()), maxlen, n)
    {
      ghost var stream, calm := Unread(), NoFailure(rioFd.script);
      n, bufp := 1, 0;
      assert usrbuf[..0] == [];
      while n < maxlen
        invariant Valid() && 1 <= n <= Max(1, maxlen) && bufp < usrbuf.Length && InLine(usrbuf, n - 1, stream, maxlen)
        invariant calm ==> NoFailure(rioFd.script)
        decreases maxlen - n
      {
        var done;
        done, n, bufp := LineTurn(usrbuf, maxlen, n, stream);
        if done {
          return;
        }
      }
      bufp := n - 1;
      M.PartEnd(M.NextLine(stream, M.Room(maxlen)), usrbuf[..bufp], Unread(), M.Room(maxlen) - bufp);
    }

    /** rio_readlineb: with no hard error, what it stores and returns depends only on the bytes
        still to come and on maxlen, not on how they arrive. */
    method ReadLine(usrbuf: array<Byte>, maxlen: nat) returns (result: int)
      requires Valid() && usrbuf != rioBuf && Max(1, maxlen) <= usrbuf.Length
      modifies this, rioBuf, rioFd, usrbuf
      ensures Valid() && result >= -1
      ensures NoFailure(old(rioFd.script)) ==> NoFailure(rioFd.script) && result >= 0
      ensures result >= 0 ==>
                var line := M.NextLine(old(Unread()), M.Room(maxlen));
                && result == M.LineResult(line, maxlen)
                && old(Unread()) == line + Unread()
                && |line| < usrbuf.Length && usrbuf[..|line|] == line
                && (maxlen > 0 ==> |line| <= maxlen - 1)
                && (maxlen > 1 ==> M.EndsLine(line) || Unread() == [] || |line| == maxlen - 1)
                && (result > 0 ==> usrbuf[|line|] == 0)
    {
      var bufp;
      M.NextLineFacts(Unread(), M.Room(maxlen));
      result, bufp := LineLoop(usrbuf, maxlen);
      if result > 0 {
        ghost var stored := usrbuf[..bufp];
        usrbuf[bufp] := 0;
        assert usrbuf[..bufp] == stored;
      }
    }

    /** Successive calls, as a reader of header lines makes them: they store the lines of the
        stream, however it is fragmented. The length of each is found from the result. */
    method ReadLines(usrbuf: array<Byte>, limits: seq<nat>) returns (ok: bool, stored: seq<seq<Byte>>)
      requires Valid() && usrbuf != rioBuf && usrbuf.Length > 0
      requires forall i :: 0 <= i < |limits| ==> limits[i] <= usrbuf.Length
      modifies this, rioBuf, rioFd, usrbuf
      ensures Valid()
      ensures NoFailure(old(rioFd.script)) ==> ok
      ensures ok ==> stored == M.Lines(old(Unread()), limits) && old(Unread()) == Flatten(stored) + Unread()
    {
      ghost var stream, calm := Unread(), NoFailure(rioFd.script);
      ghost var streams := [stream];
      ok, stored := true, [];
      for i := 0 to |limits|
        invariant Valid() && ok && (calm ==> NoFailure(rioFd.script))
        invariant M.Calls(streams, stored, limits[..i])
        invariant streams[0] == stream && streams[i] == Unread()
      {
        var line;
        ok, line := OneLine(usrbuf, limits[i]);
        if !ok {
          return;
        }
        M.CallsSnoc(streams, stored, limits[..i], line, limits[i], Unread());
        assert limits[..i] + [limits[i]] == limits[..i + 1];
        streams, stored := streams + [Unread()], stored + [line];
      }
      assert limits[..|limits|] == limits;
      M.SuccessiveCalls(streams, stored, limits);
      M.CallsConsume(streams, stored, limits);
    }

    method OneLine(usrbuf: array<Byte>, maxlen: nat) returns (ok: bool, line: seq<Byte>)
      requires Valid() && usrbuf != rioBuf && Max(1, maxlen) <= usrbuf.Length
      modifies this, rioBuf, rioFd, usrbuf
      ensures Valid()
      ensures NoFailure(old(rioFd.script)) ==> ok && NoFailure(rioFd.script)
      ensures ok ==> line == M.NextLine(old(Unread()), M.Room(maxlen)) && old(Unread()) == line + Unread()
    {
      var result := ReadLine(usrbuf, maxlen);
      ok, line := result >= 0, [];
      if result > 0 {
        line := usrbuf[..if usrbuf[result - 1] == M.NEWLINE then result else result - 1];
      }
    }
  }
}
