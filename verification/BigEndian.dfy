/** Network byte order and two's complement: what htobe16/32/64 followed by a memcpy
    put into a buffer, and what memcpy followed by be16/32/64toh take out of it. */
module BigEndian {
  import opened Bytes

  /** The sizes of int8_t, int16_t, int32_t and int64_t. */
  predicate IsWidth(width: nat) {
    width == 1 || width == 2 || width == 4 || width == 8
  }

  function Pow256(n: nat): (p: int)
    ensures p >= 1
    ensures n > 0 ==> p % 2 == 0
  {
    if n == 0 then 1 else 256 * Pow256(n - 1)
  }

  /** The `width` low-order base-256 digits of `u`, most significant first. */
  function Encode(width: nat, u: nat): (bs: seq<Byte>)
    ensures |bs| == width
  {
    if width == 0 then [] else Encode(width - 1, u / 256) + [u % 256]
  }

  function Decode(bs: seq<Byte>): nat {
    if bs == [] then 0 else 256 * Decode(bs[..|bs| - 1]) + bs[|bs| - 1]
  }

  lemma {:induction false} DecodeEncode(width: nat, u: nat)
    requires u < Pow256(width)
    ensures Decode(Encode(width, u)) == u
  {
    if width > 0 {
      DecodeEncode(width - 1, u / 256);
      assert Encode(width, u)[..width - 1] == Encode(width - 1, u / 256);
    }
  }

  lemma {:induction false} EncodeDecode(bs: seq<Byte>)
    ensures Decode(bs) < Pow256(|bs|)
    ensures Encode(|bs|, Decode(bs)) == bs
  {
    if bs != [] {
      var high, low := bs[..|bs| - 1], bs[|bs| - 1];
      EncodeDecode(high);
      var d := Decode(high);
      assert (256 * d + low) / 256 == d && (256 * d + low) % 256 == low;
      assert bs == high + [low];
    }
  }

  lemma DivideTwice(u: nat, b: int)
    requires b >= 1
    ensures 256 * b >= 1 && (u / 256) / b == u / (256 * b)
  {
    var v := u / 256;
    var q, r := v / b, v % b;
    assert v == b * q + r && 0 <= r < b;
    var rest := 256 * r + u % 256;
    assert u == 256 * v + u % 256;
    assert 256 * (b * q + r) == (256 * b) * q + 256 * r;
    assert u == (256 * b) * q + rest && 0 <= rest < 256 * b;
    QuotientIs(u, 256 * b, q, rest);
  }

  lemma QuotientIs(u: nat, d: int, q: int, rest: int)
    requires d >= 1 && u == d * q + rest && 0 <= rest < d
    ensures u / d == q
  {
    var p := u / d;
    assert u == d * p + u % d && 0 <= u % d < d;
    assert p > q ==> d * p >= d * (q + 1);
    assert p < q ==> d * q >= d * (p + 1);
  }

  /** The most significant digit comes first: byte i is the digit of 256 to the power width - 1 - i. */
  lemma {:induction false} EncodeByte(width: nat, u: nat, i: nat)
    requires i < width
    ensures Encode(width, u)[i] == (u / Pow256(width - 1 - i)) % 256
  {
    if i < width - 1 {
      EncodeByte(width - 1, u / 256, i);
      DivideTwice(u, Pow256(width - 2 - i));
    } else {
      assert u / 1 == u;
    }
  }

  /** And the first byte has the largest weight. */
  lemma {:induction false} DecodeLeading(bs: seq<Byte>)
    requires bs != []
    ensures Decode(bs) == bs[0] * Pow256(|bs| - 1) + Decode(bs[1..])
    decreases |bs|
  {
    var init := bs[..|bs| - 1];
    if |bs| > 1 {
      DecodeLeading(init);
      assert bs[1..][..|bs| - 2] == init[1..];
      var w := Pow256(|bs| - 2);
      assert 256 * (bs[0] * w) == bs[0] * (256 * w);
    }
  }

  /** In two's complement the first byte counts negatively from 128 on. */
  lemma SignInLeadingByte(bs: seq<Byte>)
    requires bs != []
    ensures FromBytes(bs) == (if bs[0] < 128 then bs[0] else bs[0] - 256) * Pow256(|bs| - 1) + Decode(bs[1..])
  {
    DecodeLeading(bs);
    EncodeDecode(bs[1..]);
    SignWeight(bs[0], Pow256(|bs| - 1), Decode(bs[1..]));
  }

  lemma SignWeight(b: nat, w: int, r: nat)
    requires b < 256 && r < w
    ensures 2 * (b * w + r) < 256 * w <==> b < 128
    ensures (b - 256) * w + r == b * w + r - 256 * w
  {
    if b < 128 {
      assert b * w <= 127 * w;
    } else {
      assert b * w >= 128 * w;
    }
  }

  /** The values of a signed integer of `width` bytes. */
  predicate InRange(width: nat, x: int) {
    -Pow256(width) <= 2 * x < Pow256(width)
  }

  function ToBytes(width: nat, x: int): (bs: seq<Byte>)
    requires InRange(width, x)
    ensures |bs| == width
  {
    Encode(width, if x < 0 then x + Pow256(width) else x)
  }

  function FromBytes(bs: seq<Byte>): int {
    var u := Decode(bs);
    if 2 * u < Pow256(|bs|) then u else u - Pow256(|bs|)
  }

  /** Reading back an encoded value gives the value, the most negative one included. */
  lemma FromToBytes(width: nat, x: int)
    requires width > 0 && InRange(width, x)
    ensures FromBytes(ToBytes(width, x)) == x
  {
    DecodeEncode(width, if x < 0 then x + Pow256(width) else x);
  }

  /** Every byte string is the encoding of the value it decodes to. */
  lemma ToFromBytes(bs: seq<Byte>)
    requires bs != []
    ensures InRange(|bs|, FromBytes(bs))
    ensures ToBytes(|bs|, FromBytes(bs)) == bs
  {
    EncodeDecode(bs);
  }

}
