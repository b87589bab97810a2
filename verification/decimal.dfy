/** Decimal integers as Go prints them with `%d` / `%02d` and parses them with
    `strconv.Atoi` on a 64-bit platform. */
module Decimal {
  import opened Wrappers

  /** Go's `int` (and `int64`, `time.Duration`) on a 64-bit platform. */
  newtype int64 = x: int | -0x8000_0000_0000_0000 <= x < 0x8000_0000_0000_0000

  predicate InInt64(x: int)
  {
    -0x8000_0000_0000_0000 <= x < 0x8000_0000_0000_0000
  }

  /** Two's-complement wrap-around of an exact product or sum into 64 bits. */
  function Wrap64(x: int): (r: int64)
    ensures (r as int - x) % 0x1_0000_0000_0000_0000 == 0
    ensures InInt64(x) ==> r as int == x
  {
    ((x + 0x8000_0000_0000_0000) % 0x1_0000_0000_0000_0000 - 0x8000_0000_0000_0000) as int64
  }

  predicate IsDigit(ch: char)
  {
    '0' <= ch <= '9'
  }

  predicate AllDigits(s: string)
  {
    forall i :: 0 <= i < |s| ==> IsDigit(s[i])
  }

  function DigitValue(ch: char): (d: nat)
    requires IsDigit(ch)
    ensures d < 10
  {
    ch as int - '0' as int
  }

  function DigitChar(d: nat): (ch: char)
    requires d < 10
    ensures IsDigit(ch) && DigitValue(ch) == d
  {
    ('0' as int + d) as char
  }

  /** The digits of `n` as `%d` prints a non-negative number: no sign and no
      leading zero except for `n == 0` itself. */
  function ShowNat(n: nat): (s: string)
    ensures 0 < |s| && AllDigits(s)
    ensures |s| == 1 <==> n < 10
    ensures s[0] == '0' <==> n == 0
    decreases n
  {
    if n < 10 then [DigitChar(n)] else ShowNat(n / 10) + [DigitChar(n % 10)]
  }

  /** `%d` of a signed integer: a minus sign, never a plus sign. */
  function ShowInt(n: int): (s: string)
    ensures 0 < |s|
    ensures s[0] == '-' <==> n < 0
    ensures n >= 0 ==> AllDigits(s)
  {
    if n < 0 then "-" + ShowNat(-n) else ShowNat(n)
  }

  /** `%02d`: the sign (if any) followed by the digits, zero-filled to two
      characters in all. Only one-digit non-negative numbers are short enough
      to receive a fill character. */
  function PadTwo(n: int): (s: string)
    ensures |s| >= 2
    ensures |ShowInt(n)| < 2 ==> 0 <= n < 10 && s == "0" + ShowInt(n)
    ensures (n < 0 || n >= 10) ==> s == ShowInt(n)
  {
    var t := ShowInt(n);
    if |t| < 2 then "0" + t else t
  }

  /** The number a run of decimal digits denotes (leading zeros allowed). */
  function ValueOf(s: string): nat
    requires AllDigits(s)
  {
    if |s| == 0 then 0 else ValueOf(s[..|s| - 1]) * 10 + DigitValue(s[|s| - 1])
  }

  /** `strconv.Atoi` with 64-bit `int`: an optional `+` or `-`, then one or more
      ASCII digits, and the value must fit in 64 bits; anything else is an error
      (None). Leading zeros are accepted. */
  function ParseInt(s: string): (r: Option<int64>)
    ensures r.Some? ==> 0 < |s| && (IsDigit(s[0]) || s[0] == '+' || s[0] == '-')
    ensures r.Some? ==> (r.value < 0 ==> s[0] == '-')
  {
    if |s| == 0 then None
    else
      var body := if s[0] == '+' || s[0] == '-' then s[1..] else s;
      if |body| == 0 || !AllDigits(body) then None
      else
        var v: int := if s[0] == '-' then -(ValueOf(body) as int) else ValueOf(body);
        if InInt64(v) then Some(v as int64) else None
  }

  lemma {:induction false} ValueOfShowNat(n: nat)
    ensures ValueOf(ShowNat(n)) == n
    decreases n
  {
    if n >= 10 {
      var s := ShowNat(n);
      assert s[..|s| - 1] == ShowNat(n / 10);
      ValueOfShowNat(n / 10);
    }
  }

  /** `Atoi` undoes `%d` on every 64-bit integer, negative ones included. */
  lemma ParseShowInt(n: int64)
    ensures ParseInt(ShowInt(n as int)) == Some(n)
  {
    if n < 0 {
      ParseNegative(n);
    } else {
      ParseNonNegative(n);
    }
  }

  /** A negative number prints as a minus sign and the digits of its size. */
  lemma ParseNegative(n: int64)
    requires n < 0
    ensures ParseInt(ShowInt(n as int)) == Some(n)
  {
    var digits := ShowNat(-(n as int));
    var s := ShowInt(n as int);
    assert s == "-" + digits;
    assert s[0] == '-' && s[1..] == digits;
    ValueOfShowNat(-(n as int));
    assert -(ValueOf(digits) as int) == n as int;
  }

  /** A number that is not negative prints as its digits alone. */
  lemma ParseNonNegative(n: int64)
    requires 0 <= n
    ensures ParseInt(ShowInt(n as int)) == Some(n)
  {
    var s := ShowInt(n as int);
    assert s == ShowNat(n as int);
    assert IsDigit(s[0]) && s[0] != '+' && s[0] != '-';
    ValueOfShowNat(n as int);
    assert ValueOf(s) == n as int;
  }

  /** `Atoi` undoes `%02d`: the zero fill is read back as a leading zero. */
  lemma ParsePadTwo(n: int64)
    ensures ParseInt(PadTwo(n as int)) == Some(n)
  {
    if 0 <= n < 10 {
      var d := DigitChar(n as nat);
      var s := PadTwo(n as int);
      assert s == ['0', d];
      assert s[..1] == ['0'];
      assert ValueOf(['0']) == 0 by {
        assert ['0'][..0] == [];
      }
      assert ValueOf(s) == n as int;
    } else {
      ParseShowInt(n);
    }
  }

  /** A leading zero does not change the value of a digit run. */
  lemma {:induction false} ValueOfLeadingZero(t: string)
    requires AllDigits(t)
    ensures ValueOf("0" + t) == ValueOf(t)
    decreases |t|
  {
    if |t| > 0 {
      var s := "0" + t;
      assert s[..|s| - 1] == "0" + t[..|t| - 1];
      ValueOfLeadingZero(t[..|t| - 1]);
    }
  }

  /** `Atoi` accepts an explicit `+` and a leading zero in front of `%d`. */
  lemma ParsePlusZero(n: int64)
    requires n >= 0
    ensures ParseInt("+0" + ShowInt(n as int)) == Some(n)
  {
    var t := ShowInt(n as int);
    var s := "+0" + t;
    assert s[1..] == "0" + t;
    ValueOfLeadingZero(t);
    ValueOfShowNat(n as int);
  }
}
