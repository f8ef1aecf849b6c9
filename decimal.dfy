/** Decimal text for integers the way the token code writes and reads a user
    id: `fmt.Sprintf("%d", n)` and `fmt.Sscanf(s, "%d", &n)` on a 64-bit `int`
    (backend/utils/jwt.go). */
module Decimal {
  import opened Wrappers

  const MinInt64: int := -0x8000_0000_0000_0000
  const MaxInt64: int := 0x7FFF_FFFF_FFFF_FFFF

  /** Go's `int` on a 64-bit platform. */
  predicate IsInt64(n: int)
  {
    MinInt64 <= n <= MaxInt64
  }

  predicate IsDigit(c: char)
  {
    '0' <= c <= '9'
  }

  predicate AllDigits(s: string)
  {
    forall i :: 0 <= i < |s| ==> IsDigit(s[i])
  }

  /** The character of one decimal digit. */
  function DigitChar(d: int): (c: char)
    requires 0 <= d < 10
    ensures IsDigit(c) && c as int - '0' as int == d
  {
    ('0' as int + d) as char
  }

  function DigitValue(c: char): (d: int)
    requires IsDigit(c)
    ensures 0 <= d < 10 && DigitChar(d) == c
  {
    c as int - '0' as int
  }

  /** The digits of a natural number, most significant first, no leading zero. */
  function Digits(n: nat): (s: string)
    ensures |s| >= 1 && AllDigits(s)
    ensures |s| > 1 ==> s[0] != '0'
    decreases n
  {
    if n < 10 then [DigitChar(n)] else Digits(n / 10) + [DigitChar(n % 10)]
  }

  /** `fmt.Sprintf("%d", n)`. */
  function Format(n: int): (s: string)
    ensures |s| >= 1
    ensures n < 0 <==> s[0] == '-'
    ensures AllDigits(if n < 0 then s[1..] else s)
  {
    if n < 0 then "-" + Digits(-n) else Digits(n)
  }

  /** The number a string of digits denotes. */
  function ValueOf(s: string): nat
    requires AllDigits(s)
  {
    if s == [] then 0 else 10 * ValueOf(s[..|s| - 1]) + DigitValue(s[|s| - 1])
  }

  /** Reading back the digits of `n` gives `n`. */
  lemma {:induction false} ValueOfDigits(n: nat)
    ensures ValueOf(Digits(n)) == n
  {
    if n >= 10 {
      var s := Digits(n);
      assert s[..|s| - 1] == Digits(n / 10);
      ValueOfDigits(n / 10);
    }
  }

  /** The longest prefix of `s` made of digits (what `%d` consumes). */
  function DigitRun(s: string): (r: string)
    ensures |r| <= |s| && r == s[..|r|] && AllDigits(r)
    ensures |r| < |s| ==> !IsDigit(s[|r|])
  {
    if s == [] || !IsDigit(s[0]) then "" else [s[0]] + DigitRun(s[1..])
  }

  lemma {:induction false} DigitRunOfDigits(s: string)
    requires AllDigits(s)
    ensures DigitRun(s) == s
  {
    if s != [] {
      DigitRunOfDigits(s[1..]);
    }
  }

  /** Blanks that `Sscanf` skips before a verb. */
  predicate IsBlank(c: char)
  {
    c == ' ' || c == '\t' || c == '\r'
  }

  function SkipBlanks(s: string): (r: string)
    ensures |r| <= |s| && r == s[|s| - |r|..]
    ensures r != [] ==> !IsBlank(r[0])
  {
    if s != [] && IsBlank(s[0]) then SkipBlanks(s[1..]) else s
  }

  datatype ScanError = UnexpectedEOF | UnexpectedNewline | ExpectedInteger | OutOfRange

  /** `fmt.Sscanf(s, "%d", &n)`: leading blanks are skipped, a newline is an
      error, an optional sign is followed by at least one digit, the number
      must fit a 64-bit int, and text after the digits is ignored. */
  function Scan(s: string): (r: Result<int, ScanError>)
    ensures r.Ok? ==> IsInt64(r.value)
  {
    var t := SkipBlanks(s);
    if t == [] then Err(UnexpectedEOF)
    else if t[0] == '\n' then Err(UnexpectedNewline)
    else ScanSigned(t)
  }

  /** An optionally signed run of digits at the start of `t`. */
  function ScanSigned(t: string): (r: Result<int, ScanError>)
    ensures r.Ok? ==> IsInt64(r.value)
  {
    var negative := t != [] && t[0] == '-';
    var body := if t != [] && (t[0] == '-' || t[0] == '+') then t[1..] else t;
    var run := DigitRun(body);
    if run == [] then Err(ExpectedInteger)
    else
      var magnitude: int := ValueOf(run);
      var v := if negative then -magnitude else magnitude;
      if IsInt64(v) then Ok(v) else Err(OutOfRange)
  }

  lemma ScanSignedDigits(sign: string, d: string)
    requires sign == "" || sign == "-"
    requires d != [] && AllDigits(d)
    requires IsInt64(if sign == "-" then -(ValueOf(d) as int) else ValueOf(d))
    ensures ScanSigned(sign + d) == Ok(if sign == "-" then -(ValueOf(d) as int) else ValueOf(d))
  {
    DigitRunOfDigits(d);
    var t := sign + d;
    if sign == "-" {
      assert t[0] == '-' && t[1..] == d;
    } else {
      assert t == d && IsDigit(t[0]);
    }
  }

  /** Round trip: scanning what `%d` printed recovers every 64-bit int. */
  lemma ScanFormat(n: int)
    requires IsInt64(n)
    ensures Scan(Format(n)) == Ok(n)
  {
    var m: nat := if n < 0 then -n else n;
    var d := Digits(m);
    ValueOfDigits(m);
    var s := Format(n);
    assert !IsBlank(s[0]) && s[0] != '\n';
    assert SkipBlanks(s) == s;
    if n < 0 {
      assert s == "-" + d;
      ScanSignedDigits("-", d);
    } else {
      assert s == "" + d;
      ScanSignedDigits("", d);
    }
  }
}
