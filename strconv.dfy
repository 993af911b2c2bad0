/** The two library readers of decimal text the core relies on:
    `strconv.Atoi` (path ids in the handlers) and `fmt.Sscanf` with the
    verb `%d` (integer settings in the configuration). Both read a 64-bit
    `int`; they differ in what they accept around the digits. */
module Strconv {
  import opened Wrappers

  const MinInt64: int := -0x8000_0000_0000_0000
  const MaxInt64: int := 0x7fff_ffff_ffff_ffff

  predicate InInt64(n: int)
  {
    MinInt64 <= n <= MaxInt64
  }

  predicate IsDigit(c: char)
  {
    '0' <= c <= '9'
  }

  predicate AllDigits(s: string)
  {
    forall i :: 0 <= i < |s| ==> IsDigit(s[i])
  }

  function DigitValue(c: char): (d: nat)
    requires IsDigit(c)
    ensures d < 10
  {
    c as int - '0' as int
  }

  function DigitChar(d: nat): (c: char)
    requires d < 10
    ensures IsDigit(c) && DigitValue(c) == d
  {
    (d + '0' as int) as char
  }

  /** The number a run of decimal digits denotes, most significant first. */
  function DigitsValue(s: string): nat
    requires AllDigits(s)
    decreases |s|
  {
    if s == [] then 0 else DigitsValue(s[..|s| - 1]) * 10 + DigitValue(s[|s| - 1])
  }

  /** The decimal text of a natural number, without leading zeros; reading
      it back gives the number. */
  function NatDigits(n: nat): (s: string)
    ensures 1 <= |s| && AllDigits(s)
    ensures DigitsValue(s) == n
    ensures n > 0 ==> s[0] != '0'
    decreases n
  {
    if n < 10 then [DigitChar(n)]
    else
      var s := NatDigits(n / 10) + [DigitChar(n % 10)];
      assert s[..|s| - 1] == NatDigits(n / 10);
      s
  }

  /** `strconv.Itoa`. */
  function Itoa(n: int): (s: string)
    ensures 1 <= |s|
  {
    if n < 0 then "-" + NatDigits(-n) else NatDigits(n)
  }

  /** `strconv.Atoi`: an optional sign, then one or more decimal digits up
      to the end of the text, denoting a value that fits in 64 bits. */
  function Atoi(s: string): (r: Option<int>)
    ensures r.Some? ==> InInt64(r.value)
  {
    if s == [] then None
    else
      var body := if s[0] == '+' || s[0] == '-' then s[1..] else s;
      if body == [] || !AllDigits(body) then None
      else
        var v: int := if s[0] == '-' then -(DigitsValue(body) as int) else DigitsValue(body);
        if InInt64(v) then Some(v) else None
  }

  /** Every 64-bit integer survives formatting and reading back. */
  lemma AtoiItoa(n: int)
    requires InInt64(n)
    ensures Atoi(Itoa(n)) == Some(n)
  {
    var s := Itoa(n);
    if n < 0 {
      assert s[1..] == NatDigits(-n);
    }
  }

  /** Leading spaces that `fmt` skips before a number. A newline is not
      skipped: `Sscanf` reports it as an unexpected newline. */
  predicate IsScanSpace(c: char)
  {
    c == ' ' || c == '\t' || c == '\r' || c as int == 0x0B || c as int == 0x0C
  }

  function SkipSpaces(s: string): (t: string)
    ensures |t| <= |s| && t == s[|s| - |t|..]
    ensures t == [] || !IsScanSpace(t[0])
  {
    if s != [] && IsScanSpace(s[0]) then SkipSpaces(s[1..]) else s
  }

  /** The length of the run of digits at the start of `s`. */
  function DigitRun(s: string): (k: nat)
    ensures k <= |s| && AllDigits(s[..k])
    ensures k < |s| ==> !IsDigit(s[k])
  {
    if s == [] || !IsDigit(s[0]) then 0
    else
      var k := 1 + DigitRun(s[1..]);
      assert forall i :: 1 <= i < k ==> s[..k][i] == s[1..][..k - 1][i - 1];
      k
  }

  /** `fmt.Sscanf(s, "%d", &v)`: skips leading spaces, reads an optional
      sign and the longest run of digits after it (at least one), and
      ignores whatever text follows; the value must fit in 64 bits. */
  function ScanInt(s: string): (r: Option<int>)
    ensures r.Some? ==> InInt64(r.value)
  {
    ScanSigned(SkipSpaces(s))
  }

  /** The part of `ScanInt` after the leading spaces. */
  function ScanSigned(t: string): (r: Option<int>)
    ensures r.Some? ==> InInt64(r.value)
  {
    if t != [] && (t[0] == '+' || t[0] == '-') then
      match ScanMagnitude(t[1..])
      case None => None
      case Some(m) =>
        var v: int := if t[0] == '-' then -(m as int) else m;
        if InInt64(v) then Some(v) else None
    else
      match ScanMagnitude(t)
      case None => None
      case Some(m) => if InInt64(m) then Some(m as int) else None
  }

  /** The value of the longest run of digits at the start of `body`, if
      there is at least one. */
  function ScanMagnitude(body: string): Option<nat>
  {
    var k := DigitRun(body);
    if k == 0 then None else Some(DigitsValue(body[..k]))
  }

  lemma {:induction false} DigitRunOfDigits(d: string, rest: string)
    requires AllDigits(d)
    requires rest == [] || !IsDigit(rest[0])
    ensures DigitRun(d + rest) == |d|
    decreases |d|
  {
    if d != [] {
      assert (d + rest)[1..] == d[1..] + rest;
      DigitRunOfDigits(d[1..], rest);
    }
  }

  /** Digits followed by text that does not continue them read as the
      digits' value. */
  lemma ScanMagnitudeDigits(d: string, rest: string)
    requires 1 <= |d| && AllDigits(d)
    requires rest == [] || !IsDigit(rest[0])
    ensures ScanMagnitude(d + rest) == Some(DigitsValue(d))
  {
    DigitRunOfDigits(d, rest);
    assert (d + rest)[..|d|] == d;
  }

  /** A negative formatted integer, sign included, followed by text that
      does not continue its digits. */
  lemma ScanSignedNegative(n: int, rest: string)
    requires MinInt64 <= n < 0
    requires rest == [] || !IsDigit(rest[0])
    ensures ScanSigned("-" + NatDigits(-n) + rest) == Some(n)
  {
    var d := NatDigits(-n);
    assert ("-" + d + rest)[1..] == d + rest;
    ScanMagnitudeDigits(d, rest);
  }

  lemma ScanSignedNonNegative(n: int, rest: string)
    requires 0 <= n <= MaxInt64
    requires rest == [] || !IsDigit(rest[0])
    ensures ScanSigned(NatDigits(n) + rest) == Some(n)
  {
    var d := NatDigits(n);
    assert (d + rest)[0] == d[0];
    ScanMagnitudeDigits(d, rest);
  }

  /** A formatted 64-bit integer followed by text that does not continue
      its digits scans back to itself. */
  lemma ScanIntItoa(n: int, rest: string)
    requires InInt64(n)
    requires rest == [] || !IsDigit(rest[0])
    ensures ScanInt(Itoa(n) + rest) == Some(n)
  {
    var s := Itoa(n) + rest;
    assert s[0] == Itoa(n)[0];
    assert SkipSpaces(s) == s;
    if n < 0 {
      assert s == "-" + NatDigits(-n) + rest;
      ScanSignedNegative(n, rest);
    } else {
      ScanSignedNonNegative(n, rest);
    }
  }
}
