/** Robust I/O on values: which bytes the reading and writing loops are to move, however the
    kernel cuts up its answers. */
module RioModel {
  import opened Bytes

  const NEWLINE: Byte := 10

  /** The next line of `s`: up to and including the first newline, at most `room` bytes, or
      everything when `s` ends before either. */
  function NextLine(s: seq<Byte>, room: nat): seq<Byte> {
    if room == 0 || s == [] then []
    else if s[0] == NEWLINE then [NEWLINE]
    else [s[0]] + NextLine(s[1..], room - 1)
  }

  /** How many bytes of a line a call may store: one is kept for the terminating NUL. */
  function Room(maxlen: nat): nat {
    if maxlen == 0 then 0 else maxlen - 1
  }

  predicate EndsLine(line: seq<Byte>) {
    line != [] && line[|line| - 1] == NEWLINE
  }

  /** What rio_readlineb returns for the line it stored. */
  function LineResult(line: seq<Byte>, maxlen: nat): nat {
    if EndsLine(line) then |line|
    else if line == [] && maxlen > 1 then 0
    else |line| + 1
  }

  /** A line is a prefix of the stream with no newline before its last byte, and it stops only
      at a newline, at the end of the stream or when the room is used up. */
  lemma {:induction false} NextLineFacts(s: seq<Byte>, room: nat)
    ensures var line := NextLine(s, room);
            && line <= s && |line| <= room
            && (forall i :: 0 <= i < |line| - 1 ==> line[i] != NEWLINE)
            && (EndsLine(line) || line == s || |line| == room)
    decreases room
  {
    if room > 0 && s != [] && s[0] != NEWLINE {
      NextLineFacts(s[1..], room - 1);
      var rest, line := NextLine(s[1..], room - 1), NextLine(s, room);
      assert line == [s[0]] + rest;
      assert s == [s[0]] + s[1..];
      if rest != [] {
        assert line[|line| - 1] == rest[|rest| - 1];
      }
    }
  }

  /** Part of the way through a line: `had` is stored, `room` bytes may follow, `rest` is unread. */
  ghost predicate PartOf(line: seq<Byte>, had: seq<Byte>, rest: seq<Byte>, room: nat) {
    line == had + NextLine(rest, room) && !EndsLine(had)
  }

  /** One more byte either ends the line or leaves a longer part of it. */
  lemma PartStep(line: seq<Byte>, had: seq<Byte>, rest: seq<Byte>, room: nat)
    requires PartOf(line, had, rest, room) && rest != [] && room > 0
    ensures rest[0] == NEWLINE ==> line == had + [rest[0]] && EndsLine(line)
    ensures rest[0] != NEWLINE ==> PartOf(line, had + [rest[0]], rest[1..], room - 1)
  {
  }

  lemma PartEnd(line: seq<Byte>, had: seq<Byte>, rest: seq<Byte>, room: nat)
    requires PartOf(line, had, rest, room) && (rest == [] || room == 0)
    ensures line == had && !EndsLine(line)
  {
  }

  /** The lines that successive calls store, one size limit a call. */
  function Lines(s: seq<Byte>, limits: seq<nat>): seq<seq<Byte>>
    decreases limits
  {
    if limits == [] then [] else
      NextLineFacts(s, Room(limits[0]));
      var line := NextLine(s, Room(limits[0]));
      [line] + Lines(s[|line|..], limits[1..])
  }

  /** Put together, the lines of any number of calls are the stream consumed, in order. */
  lemma {:induction false} LinesCover(s: seq<Byte>, limits: seq<nat>)
    ensures Flatten(Lines(s, limits)) <= s
    decreases limits
  {
    if limits != [] {
      NextLineFacts(s, Room(limits[0]));
      var line := NextLine(s, Room(limits[0]));
      var rest := Lines(s[|line|..], limits[1..]);
      LinesCover(s[|line|..], limits[1..]);
      FlattenConcat([line], rest);
      FlattenSingle(line);
      assert s == line + s[|line|..];
    }
  }

  /** `streams[i]` is unread before call i, which stores the next line of it and consumes just that. */
  ghost predicate Calls(streams: seq<seq<Byte>>, stored: seq<seq<Byte>>, limits: seq<nat>) {
    && |stored| == |limits| && |streams| == |limits| + 1
    && forall i :: 0 <= i < |limits| ==>
         stored[i] == NextLine(streams[i], Room(limits[i])) && streams[i] == stored[i] + streams[i + 1]
  }

  /** So what successive calls store is fixed by the stream they start on and their limits. */
  lemma {:induction false} SuccessiveCalls(streams: seq<seq<Byte>>, stored: seq<seq<Byte>>, limits: seq<nat>)
    requires Calls(streams, stored, limits)
    ensures stored == Lines(streams[0], limits)
    decreases limits
  {
    if limits != [] {
      CallsTail(streams, stored, limits);
      SuccessiveCalls(streams[1..], stored[1..], limits[1..]);
      LinesCons(streams[0], streams[1], limits);
      assert stored == [stored[0]] + stored[1..];
    }
  }

  /** And what they store, with what is left, is the stream they started on. */
  lemma {:induction false} CallsConsume(streams: seq<seq<Byte>>, stored: seq<seq<Byte>>, limits: seq<nat>)
    requires Calls(streams, stored, limits)
    ensures streams[0] == Flatten(stored) + streams[|limits|]
    decreases limits
  {
    if limits != [] {
      CallsTail(streams, stored, limits);
      CallsConsume(streams[1..], stored[1..], limits[1..]);
      FlattenCons(stored);
      var rest, left := Flatten(stored[1..]), streams[|limits|];
      assert stored[0] + rest + left == stored[0] + (rest + left);
    }
  }

  lemma LinesCons(s: seq<Byte>, next: seq<Byte>, limits: seq<nat>)
    requires limits != [] && s == NextLine(s, Room(limits[0])) + next
    ensures Lines(s, limits) == [NextLine(s, Room(limits[0]))] + Lines(next, limits[1..])
  {
    assert s[|NextLine(s, Room(limits[0]))|..] == next;
  }

  lemma CallsSnoc(streams: seq<seq<Byte>>, stored: seq<seq<Byte>>, limits: seq<nat>,
                  line: seq<Byte>, limit: nat, next: seq<Byte>)
    requires Calls(streams, stored, limits)
    requires line == NextLine(streams[|limits|], Room(limit)) && streams[|limits|] == line + next
    ensures Calls(streams + [next], stored + [line], limits + [limit])
  {
  }

  lemma CallsTail(streams: seq<seq<Byte>>, stored: seq<seq<Byte>>, limits: seq<nat>)
    requires Calls(streams, stored, limits) && limits != []
    ensures Calls(streams[1..], stored[1..], limits[1..])
    ensures stored[0] == NextLine(streams[0], Room(limits[0])) && streams[0] == stored[0] + streams[1]
    ensures streams[1..][0] == streams[1] && streams[1..][|limits[1..]|] == streams[|limits|]
  {
  }

  lemma FlattenCons(parts: seq<seq<Byte>>)
    requires parts != []
    ensures parts == [parts[0]] + parts[1..] && Flatten(parts) == parts[0] + Flatten(parts[1..])
  {
    FlattenConcat([parts[0]], parts[1..]);
    FlattenSingle(parts[0]);
  }

  /** A line ends in a newline exactly when there is one within its room. */
  lemma {:induction false} EndsLineIff(s: seq<Byte>, room: nat)
    ensures EndsLine(NextLine(s, room)) <==> NEWLINE in s[..Min(|s|, room)]
    decreases room
  {
    if room > 0 && s != [] {
      var line, window := NextLine(s, room), s[..Min(|s|, room)];
      assert window[0] == s[0];
      if s[0] != NEWLINE {
        EndsLineIff(s[1..], room - 1);
        assert window[1..] == s[1..][..Min(|s| - 1, room - 1)];
        assert window == [s[0]] + window[1..];
        LineCons(s[0], NextLine(s[1..], room - 1));
      }
    }
  }

  lemma LineCons(b: Byte, rest: seq<Byte>)
    requires b != NEWLINE
    ensures EndsLine([b] + rest) <==> EndsLine(rest)
  {
  }

  /** The returned count is the number of bytes stored exactly when a newline comes within the
      room, or at an immediate end of file with room for a byte; otherwise it is one more. */
  lemma ResultIsCount(s: seq<Byte>, maxlen: nat)
    ensures var line := NextLine(s, Room(maxlen));
            && (LineResult(line, maxlen) == |line|
                <==> NEWLINE in s[..Min(|s|, Room(maxlen))] || (s == [] && maxlen > 1))
            && (LineResult(line, maxlen) == |line| || LineResult(line, maxlen) == |line| + 1)
  {
    EndsLineIff(s, Room(maxlen));
  }

  /** A stream of one byte without a newline: one byte is stored and two are reported. */
  lemma ResultIsNotCount()
    ensures NextLine([65], Room(10)) == [65] && LineResult([65], 10) == 2
  {
    assert NextLine([65], 9) == [65] + NextLine([65][1..], 8);
  }
}
