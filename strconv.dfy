/**
 * strconv.Atoi and strconv.Itoa on a 64-bit platform: the conversion between a user id
 * and the subject claim of a token.
 */
module Strconv {
  import opened Wrappers

  const MaxInt64: int := 0x7fff_ffff_ffff_ffff
  const MinInt64: int := -0x8000_0000_0000_0000
  const MaxUint64: int := 0xffff_ffff_ffff_ffff

  /** strconv.ErrSyntax and strconv.ErrRange. */
  datatype NumError = ErrSyntax | ErrRange

  predicate IsDigit(c: char)
  {
    '0' <= c <= '9'
  }

  function DigitValue(c: char): nat
  {
    if IsDigit(c) then c as int - '0' as int else 0
  }

  /** The number a string of decimal digits denotes, most significant digit first. */
  function DecimalValue(s: string): nat
    decreases |s|
  {
    if s == "" then 0 else DecimalValue(s[..|s| - 1]) * 10 + DigitValue(s[|s| - 1])
  }

  /** The length of the run of decimal digits that s starts with. */
  function LeadingDigits(s: string): (k: nat)
    ensures k <= |s|
    ensures forall i :: 0 <= i < k ==> IsDigit(s[i])
    ensures k < |s| ==> !IsDigit(s[k])
  {
    if s != "" && IsDigit(s[0]) then 1 + LeadingDigits(s[1..]) else 0
  }

  /** s after its optional leading '+' or '-'. */
  function Unsigned(s: string): string
  {
    if |s| > 0 && (s[0] == '-' || s[0] == '+') then s[1..] else s
  }

  /**
   * strconv.Atoi. An optional sign, then one or more decimal digits, and the value must
   * fit an int64. The digits are scanned left to right: when the digits read before the
   * first non-digit already exceed the unsigned 64-bit range the error is ErrRange
   * (the overflow is met first), otherwise a non-digit is ErrSyntax; a signed value out
   * of range is ErrRange. Strings shorter than 19 bytes take Go's fast path, on which no
   * overflow can happen, so the same rule covers both paths.
   */
  function Atoi(s: string): (r: Result<int, NumError>)
    ensures r.Success? ==> MinInt64 <= r.value <= MaxInt64
  {
    var neg := |s| > 0 && s[0] == '-';
    var digits := Unsigned(s);
    var k := LeadingDigits(digits);
    if digits == "" then Failure(ErrSyntax)
    else if DecimalValue(digits[..k]) > MaxUint64 then Failure(ErrRange)
    else if k < |digits| then Failure(ErrSyntax)
    else if neg && DecimalValue(digits) > -MinInt64 then Failure(ErrRange)
    else if !neg && DecimalValue(digits) > MaxInt64 then Failure(ErrRange)
    else Success(if neg then -(DecimalValue(digits) as int) else DecimalValue(digits))
  }

  /** strconv.Quote for the characters that need a backslash in every case. */
  function Escape(s: string): string
  {
    if s == "" then ""
    else (if s[0] == '"' || s[0] == '\\' then ['\\', s[0]] else [s[0]]) + Escape(s[1..])
  }

  /** The text of the *NumError that Atoi returns: `strconv.Atoi: parsing "s": reason`. */
  function ErrorText(s: string, e: NumError): string
  {
    "strconv.Atoi: parsing \"" + Escape(s) + "\": "
    + (match e case ErrSyntax => "invalid syntax" case ErrRange => "value out of range")
  }

  function DigitChar(d: nat): char
    requires d < 10
  {
    ('0' as int + d) as char
  }

  /** The decimal digits of n, without leading zeros. */
  function Digits(n: nat): (s: string)
    ensures |s| > 0
    ensures forall i :: 0 <= i < |s| ==> IsDigit(s[i])
    decreases n
  {
    if n < 10 then [DigitChar(n)] else Digits(n / 10) + [DigitChar(n % 10)]
  }

  /** strconv.Itoa. */
  function Itoa(n: int): string
  {
    if n < 0 then "-" + Digits(-n) else Digits(n)
  }

  lemma {:induction false} DigitsValue(n: nat)
    ensures DecimalValue(Digits(n)) == n
    decreases n
  {
    if n >= 10 {
      var s := Digits(n);
      assert s[..|s| - 1] == Digits(n / 10);
      DigitsValue(n / 10);
    }
  }

  lemma AllDigitsLeading(s: string)
    requires forall i :: 0 <= i < |s| ==> IsDigit(s[i])
    ensures LeadingDigits(s) == |s|
  {
  }

  /** A subject written with Itoa, as the login handler does, reads back as the same id. */
  lemma AtoiItoa(n: int)
    requires MinInt64 <= n <= MaxInt64
    ensures Atoi(Itoa(n)) == Success(n)
  {
    var m := if n < 0 then -n else n;
    var digits := Digits(m);
    DigitsValue(m);
    AllDigitsLeading(digits);
    assert Unsigned(Itoa(n)) == digits;
    assert digits[..|digits|] == digits;
  }

  /** Atoi succeeds exactly on an optionally signed run of digits whose value fits an int64;
      the value is then the one the digits denote. */
  lemma AtoiSucceedsIff(s: string)
    ensures Atoi(s).Success? <==>
      (Unsigned(s) != "" && (forall i :: 0 <= i < |Unsigned(s)| ==> IsDigit(Unsigned(s)[i]))
       && MinInt64 <= (if |s| > 0 && s[0] == '-' then -(DecimalValue(Unsigned(s)) as int) else DecimalValue(Unsigned(s))) <= MaxInt64)
    ensures Atoi(s).Success? ==>
      Atoi(s).value == (if s[0] == '-' then -(DecimalValue(Unsigned(s)) as int) else DecimalValue(Unsigned(s)))
  {
    var digits := Unsigned(s);
    if digits != "" && forall i :: 0 <= i < |digits| ==> IsDigit(digits[i]) {
      AllDigitsLeading(digits);
      assert digits[..|digits|] == digits;
    }
  }

  /** An empty subject is a syntax error, never the id 0. */
  lemma AtoiEmpty()
    ensures Atoi("") == Failure(ErrSyntax)
  {
  }
}
