/**
 * Go's `strconv.Atoi` for a 64-bit `int`: an optional `+` or `-`, then one or
 * more decimal digits, whose value must fit in 64 bits; anything else is
 * rejected. `strconv.Itoa` is given as its inverse.
 */
module GoStrconv {
  import opened Wrappers

  const MinInt64: int := -0x8000_0000_0000_0000
  const MaxInt64: int := 0x7fff_ffff_ffff_ffff

  /** A value of Go's 64-bit `int` / `int64`. */
  type Int64 = x: int | MinInt64 <= x <= MaxInt64

  predicate IsDigit(c: char) { '0' <= c <= '9' }

  predicate AllDigits(s: string) { forall i :: 0 <= i < |s| ==> IsDigit(s[i]) }

  /** The number a run of decimal digits denotes (leading zeros allowed; 0 for the empty run). */
  function DecimalValue(digits: string): nat
    requires AllDigits(digits)
    decreases |digits|
  {
    if |digits| == 0 then 0
    else DecimalValue(digits[..|digits| - 1]) * 10 + (digits[|digits| - 1] as int - '0' as int)
  }

  /** `strconv.Atoi(s)`: `None` stands for the returned error (syntax or range). */
  function Atoi(s: string): (r: Option<int>)
    ensures r.Some? ==> MinInt64 <= r.value <= MaxInt64
  {
    var signed := |s| > 0 && (s[0] == '+' || s[0] == '-');
    var digits := if signed then s[1..] else s;
    if |digits| == 0 || !AllDigits(digits) then None
    else
      var magnitude: int := DecimalValue(digits);
      var n := if s[0] == '-' then -magnitude else magnitude;
      if MinInt64 <= n <= MaxInt64 then Some(n) else None
  }

  /** The shortest decimal text of a natural number. */
  function DecimalText(n: nat): (digits: string)
    ensures |digits| >= 1 && AllDigits(digits)
  {
    if n < 10 then [('0' as int + n) as char]
    else DecimalText(n / 10) + [('0' as int + n % 10) as char]
  }

  /** `strconv.Itoa(n)`. */
  function Itoa(n: int): string
  {
    if n < 0 then "-" + DecimalText(-n) else DecimalText(n)
  }

  lemma {:induction false} DecimalValueOfText(n: nat)
    ensures DecimalValue(DecimalText(n)) == n
  {
    if n >= 10 {
      var digits := DecimalText(n);
      assert digits[..|digits| - 1] == DecimalText(n / 10);
      DecimalValueOfText(n / 10);
    }
  }

  /** Every 64-bit integer, zero and negatives included, is accepted in its decimal form. */
  lemma AtoiItoa(n: Int64)
    ensures Atoi(Itoa(n)) == Some(n)
  {
    var m: nat := if n < 0 then -(n as int) else n;
    var digits := DecimalText(m);
    DecimalValueOfText(m);
    var s := Itoa(n);
    if n < 0 {
      assert s == "-" + digits;
      assert s[0] == '-' && s[1..] == digits;
    } else {
      assert s == digits;
      assert IsDigit(s[0]);
    }
  }

  /**
   * Whatever Atoi accepts is an optional sign followed by at least one digit,
   * and its value is the signed decimal value of those digits, within 64 bits.
   */
  lemma AtoiAccepts(s: string)
    requires Atoi(s).Some?
    ensures MinInt64 <= Atoi(s).value <= MaxInt64
    ensures |s| >= 1
    ensures s[0] == '+' || s[0] == '-' ==> |s| >= 2
    ensures forall i :: 1 <= i < |s| ==> IsDigit(s[i])
    ensures IsDigit(s[0]) || s[0] == '+' || s[0] == '-'
    ensures s[0] == '-' ==> Atoi(s).value == -(DecimalValue(s[1..]) as int)
    ensures s[0] == '+' ==> Atoi(s).value == DecimalValue(s[1..])
    ensures IsDigit(s[0]) ==> Atoi(s).value == DecimalValue(s)
  {
    var digits := if s[0] == '+' || s[0] == '-' then s[1..] else s;
    assert forall i :: 1 <= i < |s| ==> IsDigit(s[i]) by {
      forall i | 1 <= i < |s| ensures IsDigit(s[i]) {
        if s[0] == '+' || s[0] == '-' { assert s[i] == digits[i - 1]; } else { assert s[i] == digits[i]; }
      }
    }
  }

  /**
   * Conversely, an optional sign followed by one or more digits is accepted
   * exactly when its signed value fits in 64 bits, and then gives that value.
   */
  lemma AtoiOfDigits(sign: string, digits: string)
    requires sign == "" || sign == "+" || sign == "-"
    requires |digits| >= 1 && AllDigits(digits)
    ensures var n := if sign == "-" then -(DecimalValue(digits) as int) else DecimalValue(digits);
      Atoi(sign + digits) == if MinInt64 <= n <= MaxInt64 then Some(n) else None
  {
    var s := sign + digits;
    if sign == "" {
      assert s == digits && IsDigit(s[0]);
    } else {
      assert s[0] == sign[0] && s[1..] == digits;
    }
  }
}
