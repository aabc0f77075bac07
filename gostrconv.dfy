/** Go's strconv.ParseInt(s, 10, 64) and strconv.Atoi on a 64-bit
    platform, the integer conversions the three codecs call, with the
    value and the error Go returns side by side. FormatInt is their
    inverse on the 64-bit range. */
module GoStrconv {
  import opened Wrappers

  const MaxInt64: int := 0x7FFF_FFFF_FFFF_FFFF
  const MinInt64: int := -0x8000_0000_0000_0000
  const MaxUint64: int := 0xFFFF_FFFF_FFFF_FFFF

  /** The two kinds of failed conversion strconv reports. */
  datatype NumError = ErrSyntax | ErrRange

  /** A conversion's value together with its error. On ErrRange Go still
      returns a value: the bound that was overrun. */
  datatype IntResult = IntResult(value: int, err: Option<NumError>)

  predicate IsDigit(c: char)
  {
    '0' <= c <= '9'
  }

  predicate AllDigits(s: string)
  {
    forall i :: 0 <= i < |s| ==> IsDigit(s[i])
  }

  /** The number that the decimal digits of `s` spell. */
  function DigitsValue(s: string): nat
    requires AllDigits(s)
  {
    if s == [] then 0
    else DigitsValue(s[..|s| - 1]) * 10 + (s[|s| - 1] as int - '0' as int)
  }

  /** The length of the run of decimal digits that `s` starts with. */
  function DigitRun(s: string): (n: nat)
    ensures n <= |s| && AllDigits(s[..n])
    ensures n < |s| ==> !IsDigit(s[n])
  {
    if s != [] && IsDigit(s[0]) then
      var n := 1 + DigitRun(s[1..]);
      assert s[..n] == [s[0]] + s[1..][..n - 1];
      n
    else 0
  }

  /** strconv.ParseUint(s, 10, 64). Go reads the digits from the left and
      stops at the first character that either is not a digit (ErrSyntax,
      value 0) or makes the value exceed MaxUint64 (ErrRange, value
      MaxUint64), whichever comes first. Overflow comes first exactly when
      the leading digit run already spells a number above MaxUint64. It
      succeeds exactly on digit strings up to MaxUint64, with their value. */
  function ParseUint(s: string): (r: IntResult)
    ensures 0 <= r.value <= MaxUint64
    ensures r.err == None <==> s != [] && AllDigits(s) && DigitsValue(s) <= MaxUint64
    ensures r.err == None ==> r.value == DigitsValue(s)
    ensures r.err == Some(ErrSyntax) ==> r.value == 0
  {
    if s == [] then IntResult(0, Some(ErrSyntax))
    else
      var n := DigitRun(s);
      assert AllDigits(s) ==> n == |s| by {
        if AllDigits(s) { DigitRunAllDigits(s); }
      }
      assert s[..|s|] == s;
      if DigitsValue(s[..n]) > MaxUint64 then IntResult(MaxUint64, Some(ErrRange))
      else if n < |s| then IntResult(0, Some(ErrSyntax))
      else IntResult(DigitsValue(s[..n]), None)
  }

  /** The text after an optional leading sign. */
  function Unsigned(s: string): string
  {
    if s != [] && (s[0] == '+' || s[0] == '-') then s[1..] else s
  }

  /** strconv.ParseInt(s, 10, 64): an optional sign, then ParseUint of the
      rest; a syntax error gives 0, a magnitude beyond the int64 range
      saturates to the bound on the side of the sign. */
  function ParseInt(s: string): (r: IntResult)
    ensures MinInt64 <= r.value <= MaxInt64
    ensures r.err == Some(ErrSyntax) ==> r.value == 0
  {
    if s == [] then IntResult(0, Some(ErrSyntax))
    else
      var neg := s[0] == '-';
      var u := ParseUint(Unsigned(s));
      if u.err == Some(ErrSyntax) then IntResult(0, Some(ErrSyntax))
      else if !neg && u.value > MaxInt64 then IntResult(MaxInt64, Some(ErrRange))
      else if neg && u.value > -MinInt64 then IntResult(MinInt64, Some(ErrRange))
      else IntResult(if neg then -u.value else u.value, None)
  }

  /** strconv.Atoi. On a 64-bit platform its fast path for inputs shorter
      than 19 bytes accepts and rejects the same texts, with the same
      values, as ParseInt(s, 10, 0), which is what it calls otherwise. It
      accepts exactly the int64 decimals, with their value. */
  function Atoi(s: string): (r: IntResult)
    ensures MinInt64 <= r.value <= MaxInt64
    ensures r.err == None <==> IsDecimal(s) && MinInt64 <= DecimalValue(s) <= MaxInt64
    ensures r.err == None ==> r.value == DecimalValue(s)
  {
    ParseIntSpec(s);
    ParseInt(s)
  }

  /** A decimal literal: an optional `+` or `-`, then at least one digit. */
  predicate IsDecimal(s: string)
  {
    Unsigned(s) != [] && AllDigits(Unsigned(s))
  }

  /** The integer a decimal literal denotes. */
  function DecimalValue(s: string): int
    requires IsDecimal(s)
  {
    var magnitude: int := DigitsValue(Unsigned(s));
    if s[0] == '-' then -magnitude else magnitude
  }

  /** ParseInt accepts exactly the decimal literals whose value is an
      int64, and then returns that value; a decimal literal outside the
      range saturates with ErrRange; a syntax error with no overflowing
      digit run gives 0. */
  lemma ParseIntSpec(s: string)
    ensures ParseInt(s).err == None <==> IsDecimal(s) && MinInt64 <= DecimalValue(s) <= MaxInt64
    ensures ParseInt(s).err == None ==> ParseInt(s).value == DecimalValue(s)
    ensures IsDecimal(s) && DecimalValue(s) > MaxInt64 ==> ParseInt(s) == IntResult(MaxInt64, Some(ErrRange))
    ensures IsDecimal(s) && DecimalValue(s) < MinInt64 ==> ParseInt(s) == IntResult(MinInt64, Some(ErrRange))
  {
    if s != [] {
      var body := Unsigned(s);
      var n := DigitRun(body);
      if body != [] && AllDigits(body) {
        DigitRunAllDigits(body);
        assert body[..n] == body;
      }
    }
  }

  lemma {:induction false} DigitRunAllDigits(s: string)
    requires AllDigits(s)
    ensures DigitRun(s) == |s|
    decreases |s|
  {
    if s != [] {
      DigitRunAllDigits(s[1..]);
    }
  }

  /** The decimal digits of `n`, without leading zeros. */
  function DigitsOf(n: nat): (s: string)
    ensures s != [] && AllDigits(s) && DigitsValue(s) == n
    decreases n
  {
    var last := [('0' as int + n % 10) as char];
    if n < 10 then last
    else
      var front := DigitsOf(n / 10);
      assert (front + last)[..|front + last| - 1] == front;
      front + last
  }

  /** strconv.FormatInt(n, 10). */
  function FormatInt(n: int): string
  {
    if n < 0 then "-" + DigitsOf(-n) else DigitsOf(n)
  }

  /** Every int64 survives formatting and parsing back. */
  lemma ParseFormatInt(n: int)
    requires MinInt64 <= n <= MaxInt64
    ensures ParseInt(FormatInt(n)) == IntResult(n, None)
  {
    var s := FormatInt(n);
    if n < 0 {
      assert Unsigned(s) == DigitsOf(-n);
    } else {
      assert Unsigned(s) == DigitsOf(n);
    }
    ParseIntSpec(s);
  }

  /** The text of a formatted integer is digits and at most a minus sign. */
  lemma FormatIntChars(n: int)
    ensures forall i :: 0 <= i < |FormatInt(n)| ==> IsDigit(FormatInt(n)[i]) || FormatInt(n)[i] == '-'
  {
  }
}
