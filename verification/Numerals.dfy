/** Decimal and hexadecimal text of integers: what the formatting loops are to produce,
    an independent parser, and the proof that the two invert each other. */
module Numerals {
  import opened Bytes

  /** '0' to '9', then 'A' to 'F'. */
  function DigitChar(d: nat): char
    requires d < 16
  {
    if d < 10 then '0' + d as char else 'A' + (d - 10) as char
  }

  /** The numeral of `n`, most significant digit first. */
  function Digits(n: nat, base: nat): (s: string)
    requires 2 <= base <= 16
    ensures s != []
    decreases n
  {
    if n < base then [DigitChar(n)] else Digits(n / base, base) + [DigitChar(n % base)]
  }

  function DecimalText(v: int): (s: string)
    ensures s != []
  {
    if v < 0 then "-" + Digits(-v, 10) else Digits(v, 10)
  }

  // ---- Reading a numeral back ----

  /** 16 for a character that is no digit. */
  function DigitValue(c: char): nat {
    if '0' <= c <= '9' then c as int - '0' as int
    else if 'A' <= c <= 'F' then c as int - 'A' as int + 10
    else 16
  }

  predicate IsDigit(c: char, base: nat) {
    DigitValue(c) < base
  }

  predicate IsNumeral(s: string, base: nat)
    requires base <= 16
  {
    s != [] && forall i :: 0 <= i < |s| ==> IsDigit(s[i], base)
  }

  /** A numeral without a leading zero, except for "0" itself. */
  predicate Canonical(s: string, base: nat)
    requires base <= 16
  {
    IsNumeral(s, base) && (|s| > 1 ==> s[0] != '0')
  }

  function ValueOf(s: string, base: nat): nat {
    if s == [] then 0 else base * ValueOf(s[..|s| - 1], base) + DigitValue(s[|s| - 1])
  }

  function ParseDecimal(s: string): Option<int> {
    if s != [] && s[0] == '-' then
      if IsNumeral(s[1..], 10) then (var n: int := ValueOf(s[1..], 10); Some(-n)) else None
    else if IsNumeral(s, 10) then Some(ValueOf(s, 10))
    else None
  }

  /** '-' exactly in front of a positive canonical numeral. */
  predicate CanonicalDecimal(s: string) {
    Canonical(s, 10) || (s != [] && s[0] == '-' && Canonical(s[1..], 10) && s[1..] != "0")
  }

  /** The sixteen digits, and what each is worth. */
  lemma DigitsFit(d: nat)
    requires d < 16
    ensures DigitChar(d) == "0123456789ABCDEF"[d]
    ensures DigitValue(DigitChar(d)) == d
  {
  }

  lemma ValueOfSnoc(s: string, c: char, base: nat)
    ensures ValueOf(s + [c], base) == base * ValueOf(s, base) + DigitValue(c)
  {
    assert (s + [c])[..|s|] == s;
  }

  lemma CanonicalSnoc(s: string, c: char, base: nat)
    requires base <= 16 && Canonical(s, base) && s[0] != '0' && IsDigit(c, base)
    ensures Canonical(s + [c], base)
  {
  }

  lemma DivideByBase(n: nat, base: nat)
    requires 2 <= base <= n
    ensures n == base * (n / base) + n % base
    ensures 0 < n / base < n
  {
    var q, r := n / base, n % base;
    assert n == base * q + r && 0 <= r < base;
    QuotientIsSmaller(n, q, r, base);
  }

  lemma QuotientIsSmaller(n: nat, q: int, r: nat, base: nat)
    requires 2 <= base <= n && n == base * q + r && r < base
    ensures 0 < q < n
  {
    assert q <= 0 ==> base * q <= 0;
    assert q > 0 ==> base * q >= 2 * q;
  }

  /** One digit more behind a canonical numeral of `v`. */
  lemma OneDigitMore(s: string, v: nat, r: nat, base: nat)
    requires 2 <= base <= 16 && r < base && Canonical(s, base) && s[0] != '0' && ValueOf(s, base) == v
    ensures Canonical(s + [DigitChar(r)], base) && (s + [DigitChar(r)])[0] == s[0]
    ensures ValueOf(s + [DigitChar(r)], base) == base * v + r
  {
    DigitsFit(r);
    ValueOfSnoc(s, DigitChar(r), base);
    CanonicalSnoc(s, DigitChar(r), base);
  }

  lemma OneDigit(r: nat, base: nat)
    requires 2 <= base <= 16 && r < base
    ensures Canonical([DigitChar(r)], base) && ValueOf([DigitChar(r)], base) == r
    ensures DigitChar(r) == '0' <==> r == 0
  {
    DigitsFit(r);
    ValueOfSnoc([], DigitChar(r), base);
    assert [] + [DigitChar(r)] == [DigitChar(r)];
    assert base * ValueOf([], base) == 0;
  }

  /** A numeral is canonical and parses to its number. */
  lemma {:induction false} DigitsParse(n: nat, base: nat)
    requires 2 <= base <= 16
    ensures Canonical(Digits(n, base), base)
    ensures ValueOf(Digits(n, base), base) == n
    ensures Digits(n, base)[0] == '0' <==> n == 0
    decreases n
  {
    if n < base {
      OneDigit(n, base);
    } else {
      var q, r := n / base, n % base;
      DivideByBase(n, base);
      DigitsParse(q, base);
      OneDigitMore(Digits(q, base), q, r, base);
    }
  }

  lemma DigitCharOfValue(c: char)
    requires DigitValue(c) < 16
    ensures DigitChar(DigitValue(c)) == c
  {
  }

  lemma TimesGrows(a: nat, b: int, c: int)
    requires b <= c
    ensures a * b <= a * c
  {
    assert a * (c - b) >= 0;
    assert a * c == a * b + a * (c - b);
  }

  lemma SplitDigit(h: nat, d: nat, base: nat)
    requires d < base
    ensures (base * h + d) / base == h && (base * h + d) % base == d
    ensures h > 0 ==> base * h + d >= base
  {
    var n := base * h + d;
    var q := n / base;
    assert n == base * q + n % base;
    if q > h {
      TimesGrows(base, h + 1, q);
    } else if q < h {
      TimesGrows(base, q + 1, h);
    }
    if h > 0 {
      TimesGrows(base, 1, h);
    }
  }

  lemma DigitsSnoc(h: nat, d: nat, base: nat)
    requires 2 <= base <= 16 && h > 0 && d < base
    ensures base * h + d > 0
    ensures Digits(base * h + d, base) == Digits(h, base) + [DigitChar(d)]
  {
    SplitDigit(h, d, base);
  }

  /** The numeral of i in terms of its quotient and remainder. */
  lemma DigitsStep(i: nat, q: nat, r: nat, base: nat)
    requires 2 <= base <= 16 && i == base * q + r && r < base
    ensures q == 0 ==> Digits(i, base) == [DigitChar(r)]
    ensures q > 0 ==> Digits(i, base) == Digits(q, base) + [DigitChar(r)]
  {
    if q > 0 {
      DigitsSnoc(q, r, base);
    } else {
      assert base * q == 0;
    }
  }

  /** Only canonical numerals are produced: each is the numeral of its value. */
  lemma {:induction false} CanonicalIsDigits(s: string, base: nat)
    requires 2 <= base <= 16 && Canonical(s, base)
    ensures Digits(ValueOf(s, base), base) == s
    ensures ValueOf(s, base) == 0 <==> s == "0"
    decreases |s|
  {
    var high, low := s[..|s| - 1], s[|s| - 1];
    assert s == high + [low];
    ValueOfSnoc(high, low, base);
    DigitCharOfValue(low);
    if high == [] {
      assert ValueOf(high, base) == 0;
      assert base * 0 == 0;
    } else {
      CanonicalIsDigits(high, base);
      DigitsSnoc(ValueOf(high, base), DigitValue(low), base);
    }
  }

  /** Parsing inverts formatting, and the text is canonical, for every integer. */
  lemma DecimalRoundTrip(v: int)
    ensures ParseDecimal(DecimalText(v)) == Some(v)
    ensures CanonicalDecimal(DecimalText(v))
    ensures DecimalText(v)[0] == '-' <==> v < 0
  {
    var n := if v < 0 then -v else v;
    DigitsParse(n, 10);
    var s := Digits(n, 10);
    if v < 0 {
      assert DecimalText(v)[1..] == s;
    } else {
      assert IsDigit(s[0], 10);
    }
  }

  /** Every canonical text is the text of the integer it parses to. */
  lemma CanonicalDecimalIsText(s: string)
    requires CanonicalDecimal(s)
    ensures ParseDecimal(s).Some? && DecimalText(ParseDecimal(s).value) == s
  {
    if s[0] == '-' {
      CanonicalIsDigits(s[1..], 10);
      assert s == "-" + s[1..];
    } else {
      CanonicalIsDigits(s, 10);
    }
  }

  lemma DecimalInjective(v: int, w: int)
    requires DecimalText(v) == DecimalText(w)
    ensures v == w
  {
    DecimalRoundTrip(v);
    DecimalRoundTrip(w);
  }

  // ---- How long the texts are ----

  function Power(base: nat, k: nat): nat {
    if k == 0 then 1 else base * Power(base, k - 1)
  }

  lemma SmallerPower(n: nat, q: nat, base: nat, p: nat)
    requires base * q <= n < base * p
    ensures q < p
  {
    assert q >= p ==> base * q >= base * p;
  }

  lemma {:induction false} DigitsLength(n: nat, base: nat, k: nat)
    requires 2 <= base <= 16 && k > 0 && n < Power(base, k)
    ensures |Digits(n, base)| <= k
    decreases k
  {
    if n >= base {
      assert k > 1;
      DivideByBase(n, base);
      SmallerPower(n, n / base, base, Power(base, k - 1));
      DigitsLength(n / base, base, k - 1);
    }
  }

  lemma PowersOfTen()
    ensures Power(10, 19) == 10_000_000_000_000_000_000
    ensures Power(10, 20) == 100_000_000_000_000_000_000
  {
    PowerSplit(10, 4, 4);
    PowerSplit(10, 8, 8);
    PowerSplit(10, 16, 3);
    assert Power(10, 2) == 100 && Power(10, 4) == 10_000;
  }

  lemma {:induction false} PowerSplit(base: nat, j: nat, k: nat)
    ensures Power(base, j + k) == Power(base, j) * Power(base, k)
    decreases j
  {
    if j > 0 {
      PowerSplit(base, j - 1, k);
      Regroup(base, Power(base, j - 1), Power(base, k));
    }
  }

  lemma Regroup(a: nat, b: nat, c: nat)
    ensures a * (b * c) == (a * b) * c
  {
  }

  const INT64_MIN: int := -0x8000_0000_0000_0000
  const UINT64_MAX: int := 0xFFFF_FFFF_FFFF_FFFF

  /** Every signed or unsigned 64-bit value takes at most 20 characters. */
  lemma DecimalLength(v: int)
    requires INT64_MIN <= v <= UINT64_MAX
    ensures |DecimalText(v)| <= 20
  {
    PowersOfTen();
    if v < 0 {
      DigitsLength(-v, 10, 19);
    } else {
      DigitsLength(v, 10, 20);
    }
  }

  /** A 64-bit address takes at most 16 hexadecimal digits. */
  lemma HexLength(v: nat)
    requires v <= UINT64_MAX
    ensures |Digits(v, 16)| <= 16
  {
    PowerSplit(16, 4, 4);
    PowerSplit(16, 8, 8);
    assert Power(16, 2) == 0x100 && Power(16, 4) == 0x1_0000;
    DigitsLength(v, 16, 16);
  }
}
