/** The integer formatting loops, the fixed-capacity buffer and the log stream on top of it. */
module LogStreams {
  import opened Bytes
  import opened Numerals
  import M = LogModel

  /** C++ division and remainder truncate toward zero. */
  function TruncDiv(a: int, b: nat): int
    requires b > 0
  {
    if a < 0 then -(-a / b) else a / b
  }

  function TruncMod(a: int, b: nat): int
    requires b > 0
  {
    a - b * TruncDiv(a, b)
  }

  function Abs(a: int): nat {
    if a < 0 then -a else a
  }

  /** The mirrored table: its middle is '0', and a remainder of either sign indexes it. */
  const DIGITS: string := "9876543210123456789"
  const ZERO: nat := 9

  const DIGITS_HEX: string := "0123456789ABCDEF"

  function Mirror(s: string): (m: string)
    ensures |m| == |s|
  {
    if s == "" then "" else [s[|s| - 1]] + Mirror(s[..|s| - 1])
  }

  lemma {:induction false} MirrorAt(s: string, k: nat)
    requires k < |s|
    ensures Mirror(s)[k] == s[|s| - 1 - k]
  {
    if k > 0 {
      MirrorAt(s[..|s| - 1], k - 1);
    }
  }

  lemma TruncatedParts(i: int)
    ensures Abs(TruncDiv(i, 10)) == Abs(i) / 10
    ensures -9 <= TruncMod(i, 10) <= 9
    ensures DIGITS[ZERO + TruncMod(i, 10)] == DigitChar(Abs(i) % 10)
  {
    assert Abs(TruncMod(i, 10)) == Abs(i) % 10;
    MirroredDigit(TruncMod(i, 10));
  }

  lemma MirroredDigit(lsd: int)
    requires -9 <= lsd <= 9
    ensures DIGITS[ZERO + lsd] == DigitChar(Abs(lsd))
  {
  }

  lemma HexDigit(d: nat)
    requires d < 16
    ensures DIGITS_HEX[d] == DigitChar(d)
  {
  }

  lemma MirrorSnoc(s: string, c: char)
    ensures Mirror(s + [c]) == [c] + Mirror(s)
  {
    assert (s + [c])[..|s|] == s;
  }

  lemma StoreSnoc(was: string, at: nat, s: string, c: char)
    requires at + |s| < |was|
    ensures Store(was, at, s)[at + |s| := c] == Store(was, at, s + [c])
  {
  }

  lemma StoredPrefix(was: string, at: nat, s: string, more: string)
    requires at + |s| + |more| <= |was|
    ensures Store(was, at, s + more)[..at + |s|] == was[..at] + s
  {
  }

  /** std::reverse on buf[lo..hi]. */
  method ReverseRange(buf: array<char>, lo: nat, hi: nat)
    requires lo <= hi <= buf.Length
    modifies buf
    ensures buf[..] == Store(old(buf[..]), lo, Mirror(old(buf[lo..hi])))
  {
    ghost var was := buf[..];
    var first, last := lo, hi;
    while first != last && first != last - 1
      invariant lo <= first <= last <= hi && first - lo == hi - last
      invariant forall k :: lo <= k < first ==> buf[k] == was[hi - 1 - (k - lo)]
      invariant forall k :: last <= k < hi ==> buf[k] == was[hi - 1 - (k - lo)]
      invariant forall k :: 0 <= k < buf.Length && !(lo <= k < first || last <= k < hi) ==> buf[k] == was[k]
      decreases last - first
    {
      last := last - 1;
      buf[first], buf[last] := buf[last], buf[first];
      first := first + 1;
    }
    ReversedIsStore(was, buf[..], lo, hi);
  }

  lemma ReversedIsStore(was: string, now: string, lo: nat, hi: nat)
    requires lo <= hi <= |was| == |now|
    requires forall k :: lo <= k < hi ==> now[k] == was[hi - 1 - (k - lo)]
    requires forall k :: 0 <= k < |was| && !(lo <= k < hi) ==> now[k] == was[k]
    ensures now == Store(was, lo, Mirror(was[lo..hi]))
  {
    var part := was[lo..hi];
    forall k | lo <= k < hi ensures now[k] == Mirror(part)[k - lo] {
      MirrorAt(part, k - lo);
    }
  }

  /** `low` holds the low digits of `n`, lowest first, and `i` is what is left above them. */
  ghost predicate LowDigits(low: string, n: nat, i: nat, base: nat)
    requires 2 <= base <= 16
  {
    if low == "" then i == n else i != 0 && Digits(n, base) == Digits(i, base) + Mirror(low)
  }

  /** One turn of the loop puts the lowest digit `r` of `i` behind `low` and leaves `q`. */
  lemma NextDigit(low: string, n: nat, i: nat, q: nat, r: nat, base: nat)
    requires 2 <= base <= 16 && LowDigits(low, n, i, base)
    requires i == base * q + r && r < base
    ensures q == 0 ==> Digits(n, base) == Mirror(low + [DigitChar(r)])
    ensures q > 0 ==> LowDigits(low + [DigitChar(r)], n, q, base)
  {
    var c := DigitChar(r);
    MirrorSnoc(low, c);
    DigitsStep(i, q, r, base);
    LowDigitsText(low, n, i, base);
    assert q > 0 ==> Digits(q, base) + [c] + Mirror(low) == Digits(q, base) + ([c] + Mirror(low));
  }

  lemma LowDigitsText(low: string, n: nat, i: nat, base: nat)
    requires 2 <= base <= 16 && LowDigits(low, n, i, base)
    ensures Digits(n, base) == Digits(i, base) + Mirror(low)
  {
    if low == "" {
      assert Mirror(low) == "";
    }
  }

  lemma LowDigitsShorter(low: string, n: nat, i: nat, base: nat)
    requires 2 <= base <= 16 && LowDigits(low, n, i, base)
    ensures |low| < |Digits(n, base)|
  {
  }

  /** NextDigit in the truncated arithmetic and with the mirrored table of convert. */
  lemma DecimalTurn(low: string, n: nat, i: int)
    requires LowDigits(low, n, Abs(i), 10)
    ensures var lsd, i' := TruncMod(i, 10), TruncDiv(i, 10);
            && -9 <= lsd <= 9
            && var low' := low + [DIGITS[ZERO + lsd]];
            && if i' == 0 then Digits(n, 10) == Mirror(low')
               else LowDigits(low', n, Abs(i'), 10) && |low'| < |Digits(n, 10)| && Abs(i') < Abs(i)
  {
    TruncatedParts(i);
    NextDigit(low, n, Abs(i), Abs(i) / 10, Abs(i) % 10, 10);
    if TruncDiv(i, 10) != 0 {
      LowDigitsShorter(low + [DigitChar(Abs(i) % 10)], n, Abs(i) / 10, 10);
    }
  }

  /** The loop of convert<T>; `low` is what it wrote. The value is never negated. */
  method StoreDecimal(buf: array<char>, at: nat, value: int) returns (p: nat, ghost low: string)
    requires at + |Digits(Abs(value), 10)| < buf.Length
    modifies buf
    ensures Mirror(low) == Digits(Abs(value), 10) && p == at + |low|
    ensures buf[..] == Store(old(buf[..]), at, low)
  {
    ghost var was, n := buf[..], Abs(value);
    low := "";
    p := at;
    var i := value;
    while true
      invariant p == at + |low| && LowDigits(low, n, Abs(i), 10)
      invariant |low| < |Digits(n, 10)| && buf[..] == Store(was, at, low)
      decreases Abs(i)
    {
      DecimalTurn(low, n, i);
      var digit := DIGITS[ZERO + TruncMod(i, 10)];
      i := TruncDiv(i, 10);
      StoreSnoc(was, at, low, digit);
      low := low + [digit];
      buf[p] := digit;
      p := p + 1;
      if i == 0 {
        break;
      }
    }
  }

  /** convert<T>: the text of the value, then a NUL that is not counted. */
  method Convert(buf: array<char>, at: nat, value: int) returns (len: nat)
    requires at + |DecimalText(value)| < buf.Length
    modifies buf
    ensures len == |DecimalText(value)|
    ensures buf[..] == Store(old(buf[..]), at, DecimalText(value) + "\0")
  {
    ghost var was := buf[..];
    ghost var low;
    var p;
    p, low := StoreDecimal(buf, at, value);
    if value < 0 {
      StoreSnoc(was, at, low, '-');
      MirrorSnoc(low, '-');
      low := low + "-";
      buf[p] := '-';
      p := p + 1;
    }
    Terminate(buf, at, p, was, low);
    len := p - at;
  }

  /** The common end of both conversions: the NUL, then the reversal of what precedes it. */
  method Terminate(buf: array<char>, at: nat, p: nat, ghost was: string, ghost low: string)
    requires at + |low| == p < buf.Length == |was|
    requires buf[..] == Store(was, at, low)
    modifies buf
    ensures buf[..] == Store(was, at, Mirror(low) + "\0")
  {
    StoreSnoc(was, at, low, '\0');
    buf[p] := '\0';
    StoredOver(was, at, low, Mirror(low), "\0");
    assert buf[at..p] == buf[..][at..p];
    ReverseRange(buf, at, p);
  }

  /** Storing over the front part of what was stored. */
  lemma StoredOver(was: string, at: nat, s: string, t: string, more: string)
    requires |s| == |t| && at + |s| + |more| <= |was|
    ensures var now := Store(was, at, s + more);
            && now[at..at + |s|] == s
            && Store(now, at, t) == Store(was, at, t + more)
  {
    var now, tail := Store(was, at, s + more), was[at + |s| + |more|..];
    assert now == (was[..at] + s) + (more + tail);
    assert |was[..at] + s| == at + |s|;
    assert now[..at] == was[..at];
    assert now[at + |s|..] == more + tail;
    assert was[..at] + t + (more + tail) == was[..at] + (t + more) + tail;
  }

  method ConvertHex(buf: array<char>, at: nat, value: nat) returns (len: nat)
    requires at + |Digits(value, 16)| < buf.Length
    modifies buf
    ensures len == |Digits(value, 16)|
    ensures buf[..] == Store(old(buf[..]), at, Digits(value, 16) + "\0")
  {
    ghost var was, low := buf[..], "";
    var i, p := value, at;
    while true
      invariant p == at + |low|
      invariant LowDigits(low, value, i, 16)
      invariant |low| < |Digits(value, 16)| && buf[..] == Store(was, at, low)
      decreases i
    {
      HexDigit(i % 16);
      NextDigit(low, value, i, i / 16, i % 16, 16);
      StoreSnoc(was, at, low, DIGITS_HEX[i % 16]);
      low := low + [DIGITS_HEX[i % 16]];
      buf[p] := DIGITS_HEX[i % 16];
      i := i / 16;
      p := p + 1;
      if i == 0 {
        break;
      }
      LowDigitsShorter(low, value, i, 16);
    }
    Terminate(buf, at, p, was, low);
    len := p - at;
  }

  /** The two stores of the pointer operator and its conversion behind them. */
  method StoreAddress(buf: array<char>, at: nat, address: nat) returns (len: nat)
    requires at + 2 + |Digits(address, 16)| < buf.Length
    modifies buf
    ensures len == |Digits(address, 16)|
    ensures buf[..at + 2 + len] == old(buf[..at]) + ("0x" + Digits(address, 16))
  {
    buf[at] := '0';
    buf[at + 1] := 'x';
    ghost var prefixed := buf[..];
    len := ConvertHex(buf, at + 2, address);
    StoredPrefix(prefixed, at + 2, Digits(address, 16), "\0");
    assert prefixed[..at + 2] == old(buf[..at]) + "0x";
  }

  /** FixedBuffer<SIZE>, with SIZE given to the constructor. */
  class FixedBuffer {
    const data: array<char>
    var cur: nat

    constructor (size: nat)
      ensures Valid() && fresh(data)
      ensures data.Length == size && Text() == ""
    {
      data := new char[size];
      cur := 0;
    }

    ghost predicate Valid()
      reads this
    {
      cur <= data.Length
    }

    function Text(): (s: string)
      requires Valid()
      reads this, data
      ensures |s| == cur
    {
      data[..cur]
    }

    function Avail(): int
      reads this
    {
      data.Length - cur
    }

    method Append(s: string)
      requires Valid()
      modifies this, data
      ensures Valid() && Text() == M.AppendText(old(Text()), s, data.Length)
      ensures Text() == if data.Length - |old(Text())| > |s| then old(Text()) + s else old(Text())
    {
      if Avail() > |s| {
        var i := 0;
        while i < |s|
          invariant i <= |s| && cur == old(cur)
          invariant data[..cur + i] == old(Text()) + s[..i]
        {
          data[cur + i] := s[i];
          i := i + 1;
        }
        cur := cur + |s|;
        assert s[..|s|] == s;
      }
    }

    method Add(len: nat)
      requires cur + len <= data.Length
      modifies this
      ensures Valid() && cur == old(cur) + len
    {
      cur := cur + len;
    }

    method Reset()
      modifies this
      ensures Valid() && Text() == ""
    {
      cur := 0;
    }
  }

  /** A canonical decimal text that parses to `v`. */
  ghost predicate Reads(text: string, v: int) {
    CanonicalDecimal(text) && ParseDecimal(text) == Some(v)
  }

  /** "0x" and a canonical hexadecimal numeral of the address. */
  ghost predicate ReadsHex(text: string, address: nat) {
    |text| > 2 && text[..2] == "0x" && Canonical(text[2..], 16) && ValueOf(text[2..], 16) == address
  }

  class LogStream {
    const buffer: FixedBuffer

    ghost predicate Valid()
      reads this, buffer
    {
      buffer.Valid() && buffer.cur < buffer.data.Length
    }

    constructor (size: nat)
      requires size > 0
      ensures Valid() && fresh(buffer) && fresh(buffer.data)
      ensures buffer.data.Length == size && buffer.Text() == ""
    {
      buffer := new FixedBuffer(size);
    }

    /** The operator for the item's type. */
    method Put(item: M.Item)
      requires Valid() && item.Valid()
      modifies buffer, buffer.data
      ensures Valid()
      ensures buffer.Text() == M.Put(old(buffer.Text()), item, buffer.data.Length)
      ensures M.PutsItem(item, old(buffer.Text()), buffer.Text(), buffer.data.Length)
    {
      M.NumberFitsGuard(item);
      M.PutPuts(buffer.Text(), item, buffer.data.Length);
      match item
      case BoolItem(flag) => buffer.Append(if flag then "1" else "0");
      case CharItem(c) => buffer.Append([c]);
      case StringItem(s) => buffer.Append(s);
      case NullString => buffer.Append("(null)");
      case IntItem(v) => FormatInteger(v);
      case PointerItem(address) => FormatPointer(address);
    }

    method FormatInteger(v: int)
      requires Valid() && M.IntItem(v).Valid()
      modifies buffer, buffer.data
      ensures Valid()
      ensures buffer.Text() == M.Put(old(buffer.Text()), M.IntItem(v), buffer.data.Length)
      ensures if buffer.data.Length - |old(buffer.Text())| >= 32
              then old(buffer.Text()) <= buffer.Text() && Reads(buffer.Text()[|old(buffer.Text())|..], v)
              else buffer.Text() == old(buffer.Text())
    {
      M.PutPuts(buffer.Text(), M.IntItem(v), buffer.data.Length);
      if buffer.Avail() >= M.MAX_NUMERIC {
        M.NumberFitsGuard(M.IntItem(v));
        ghost var was := buffer.data[..];
        var len := Convert(buffer.data, buffer.cur, v);
        StoredPrefix(was, buffer.cur, DecimalText(v), "\0");
        buffer.Add(len);
      }
    }

    method FormatPointer(address: nat)
      requires Valid() && M.PointerItem(address).Valid()
      modifies buffer, buffer.data
      ensures Valid()
      ensures buffer.Text() == M.Put(old(buffer.Text()), M.PointerItem(address), buffer.data.Length)
      ensures if buffer.data.Length - |old(buffer.Text())| >= 32
              then old(buffer.Text()) <= buffer.Text() && ReadsHex(buffer.Text()[|old(buffer.Text())|..], address)
              else buffer.Text() == old(buffer.Text())
    {
      M.PutPuts(buffer.Text(), M.PointerItem(address), buffer.data.Length);
      if buffer.Avail() >= M.MAX_NUMERIC {
        M.NumberFitsGuard(M.PointerItem(address));
        var len := StoreAddress(buffer.data, buffer.cur, address);
        buffer.Add(len + 2);
      }
    }
  }
}
