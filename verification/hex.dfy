/** Download counters are kept in the "sub_download" bucket as text:
    strconv.FormatUint(n, 16) writes a counter and strconv.ParseUint(s, 16, 64)
    reads it back. This module models that pair on Go's uint64 and proves
    that it is a bijection between uint64 values and canonical hex text. */
module Hex {
  import opened Errors

  const MaxU64: int := 0xFFFF_FFFF_FFFF_FFFF
  const Modulus: int := 0x1_0000_0000_0000_0000

  /** Go's uint64. */
  type u64 = x: int | 0 <= x <= MaxU64

  /** Go's `n + 1` on a uint64, which wraps to zero past the maximum. */
  function Increment(n: u64): (r: u64)
    ensures n < MaxU64 ==> r == n + 1
    ensures n == MaxU64 ==> r == 0
  {
    (n + 1) % Modulus
  }

  /** k increments of a uint64, wrapping around past the maximum. */
  function Add(n: u64, k: nat): u64 {
    (n + k) % Modulus
  }

  function Pow16(k: nat): (p: nat)
    ensures p >= 1
  {
    if k == 0 then 1 else 16 * Pow16(k - 1)
  }

  lemma Pow16Values()
    ensures Pow16(15) == Cutoff
    ensures Pow16(16) == Modulus
  {
    assert Pow16(4) == 0x1_0000;
    assert Pow16(8) == 0x1_0000_0000;
    assert Pow16(12) == 0x1_0000_0000_0000;
  }

  lemma Pow16Monotone(i: nat, j: nat)
    requires i <= j
    ensures Pow16(i) <= Pow16(j)
  {
  }

  predicate IsLowerHexDigit(c: char) {
    '0' <= c <= '9' || 'a' <= c <= 'f'
  }

  /** The characters ParseUint accepts in base 16: it lower-cases letters
      before giving them a value, so both cases are digits. */
  predicate IsHexDigit(c: char) {
    IsLowerHexDigit(c) || 'A' <= c <= 'F'
  }

  /** The digit FormatUint writes for d: lower-case letters above nine. */
  function DigitChar(d: nat): (c: char)
    requires d < 16
    ensures IsLowerHexDigit(c)
    ensures c == '0' <==> d == 0
  {
    if d < 10 then ('0' as int + d) as char else ('a' as int + d - 10) as char
  }

  /** The value ParseUint gives a digit. */
  function DigitValue(c: char): (d: nat)
    requires IsHexDigit(c)
    ensures d < 16
  {
    if '0' <= c <= '9' then c as int - '0' as int
    else if 'a' <= c <= 'f' then c as int - 'a' as int + 10
    else c as int - 'A' as int + 10
  }

  lemma DigitRoundTrip(d: nat)
    requires d < 16
    ensures DigitValue(DigitChar(d)) == d
  {
  }

  lemma CharRoundTrip(c: char)
    requires IsLowerHexDigit(c)
    ensures DigitChar(DigitValue(c)) == c
  {
  }

  /** strconv.FormatUint(n, 16): most significant digit first, no leading zeros. */
  function Format(n: u64): (s: string)
    ensures 0 < |s|
    ensures forall i :: 0 <= i < |s| ==> IsLowerHexDigit(s[i])
    ensures n > 0 ==> s[0] != '0'
    decreases n
  {
    if n < 16 then [DigitChar(n)] else Format(n / 16) + [DigitChar(n % 16)]
  }

  /** The text FormatUint produces: one to sixteen lower-case hex digits,
      and no leading zero unless the text is "0". */
  predicate Canonical(s: string) {
    && 0 < |s| <= 16
    && (forall i :: 0 <= i < |s| ==> IsLowerHexDigit(s[i]))
    && (s[0] == '0' ==> |s| == 1)
  }

  /** The two ways ParseUint can fail. */
  datatype NumError = ErrSyntax | ErrRange

  /** ParseUint's two results: the value and the error. */
  datatype Parsed = Parsed(n: u64, err: Option<NumError>)

  /** ParseUint's cutoff for base 16: MaxU64 / 16 + 1. A value at or above it
      cannot take one more digit. */
  const Cutoff: int := 0x1000_0000_0000_0000

  /** ParseUint's digit loop, left to right: a character outside the base is a
      syntax error reported with 0; a value that would overflow is a range error
      reported with MaxU64; the first error ends the scan. */
  function Scan(s: string): (p: Parsed)
    ensures p.err == Some(ErrSyntax) ==> p.n == 0
    ensures p.err == Some(ErrRange) ==> p.n == MaxU64
    decreases |s|
  {
    if |s| == 0 then Parsed(0, None)
    else
      var before := Scan(s[..|s| - 1]);
      var c := s[|s| - 1];
      if before.err.Some? then before
      else if !IsHexDigit(c) then Parsed(0, Some(ErrSyntax))
      else if before.n >= Cutoff then Parsed(MaxU64, Some(ErrRange))
      else Parsed(before.n * 16 + DigitValue(c), None)
  }

  /** strconv.ParseUint(s, 16, 64). The empty text is a syntax error. */
  function Parse(s: string): (p: Parsed)
    ensures s == [] ==> p == Parsed(0, Some(ErrSyntax))
    ensures p.err == Some(ErrSyntax) ==> p.n == 0
    ensures p.err == Some(ErrRange) ==> p.n == MaxU64
  {
    if s == [] then Parsed(0, Some(ErrSyntax)) else Scan(s)
  }

  /** The counter a stored text denotes: `n, _ = strconv.ParseUint(...)` keeps
      the value and drops the error, so a text that is not a number reads as
      0 and one too large reads as 2^64-1. A canonical text reads as the
      number FormatUint writes it for. */
  function CounterValue(s: string): (n: u64)
    ensures Parse(s).err == Some(ErrSyntax) ==> n == 0
    ensures Parse(s).err == Some(ErrRange) ==> n == MaxU64
    ensures Canonical(s) ==> Format(n) == s
  {
    if Canonical(s) then FormatParse(s); Parse(s).n else Parse(s).n
  }

  lemma {:induction false} FormatLength(n: u64, k: nat)
    requires 1 <= k && n < Pow16(k)
    ensures |Format(n)| <= k
    decreases n
  {
    if n >= 16 {
      assert k >= 2;
      FormatLength(n / 16, k - 1);
    }
  }

  /** Everything FormatUint writes is canonical. */
  lemma FormatCanonical(n: u64)
    ensures Canonical(Format(n))
  {
    Pow16Values();
    FormatLength(n, 16);
  }

  /** ParseUint reads back every value FormatUint writes, without error. */
  lemma {:induction false} ParseFormat(n: u64)
    ensures Parse(Format(n)) == Parsed(n, None)
    decreases n
  {
    var s := Format(n);
    if n < 16 {
      assert s[..|s| - 1] == [];
      DigitRoundTrip(n);
      assert Scan(s) == Parsed(DigitValue(s[0]), None);
    } else {
      ParseFormat(n / 16);
      assert s[..|s| - 1] == Format(n / 16);
      assert s[|s| - 1] == DigitChar(n % 16);
      DigitRoundTrip(n % 16);
      assert n / 16 < Cutoff;
    }
  }

  /** Digits alone scan without error, to a value below 16^|s|, and to at
      least 16^(|s|-1) when the first digit is not zero. */
  lemma {:induction false} ScanDigits(s: string)
    requires |s| <= 16
    requires forall i :: 0 <= i < |s| ==> IsHexDigit(s[i])
    ensures Scan(s).err == None
    ensures Scan(s).n < Pow16(|s|)
    ensures 0 < |s| && s[0] != '0' ==> Pow16(|s| - 1) <= Scan(s).n
    decreases |s|
  {
    if |s| > 0 {
      var init := s[..|s| - 1];
      ScanDigits(init);
      Pow16Monotone(|s| - 1, 15);
      Pow16Values();
      if |init| > 0 {
        assert init[0] == s[0];
      }
    }
  }

  /** FormatUint writes back every canonical text ParseUint reads. */
  lemma {:induction false} FormatParse(s: string)
    requires Canonical(s)
    ensures Parse(s).err == None
    ensures Format(Parse(s).n) == s
    decreases |s|
  {
    ScanDigits(s);
    var c := s[|s| - 1];
    CharRoundTrip(c);
    if |s| > 1 {
      var init := s[..|s| - 1];
      assert init[0] == s[0];
      assert Canonical(init);
      FormatParse(init);
      ScanDigits(init);
      var m := Scan(init).n;
      var n := Scan(s).n;
      assert n == m * 16 + DigitValue(c);
      assert n / 16 == m && n % 16 == DigitValue(c);
      assert s == init + [c];
    }
  }

  /** The two directions together: canonical texts and uint64 values are in
      one-to-one correspondence. */
  lemma CounterCodec(n: u64, s: string)
    ensures Canonical(s) && CounterValue(s) == n <==> Format(n) == s
  {
    if Format(n) == s {
      FormatCanonical(n);
      ParseFormat(n);
    }
    if Canonical(s) && CounterValue(s) == n {
      FormatParse(s);
    }
  }
}
