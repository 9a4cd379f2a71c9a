/** Frame ids: decimal digit strings such as "202006101800". A synthetic mid
    frame is named by the mean of its two neighbours, computed with
    JavaScript numbers and turned back into a string with a template
    literal, so it reads "202006101802.5" when the sum is odd. */
module Ids {

  datatype Option<T> = None | Some(value: T)

  predicate IsDigit(c: char) {
    '0' <= c <= '9'
  }

  predicate AllDigits(s: string) {
    forall i :: 0 <= i < |s| ==> IsDigit(s[i])
  }

  function DigitValue(c: char): nat
    requires IsDigit(c)
  {
    c as int - '0' as int
  }

  function DigitChar(d: nat): (c: char)
    requires d < 10
    ensures IsDigit(c) && DigitValue(c) == d
  {
    ('0' as int + d) as char
  }

  /** The value of a string of decimal digits, most significant first. */
  function DigitsValue(s: string): nat
    requires AllDigits(s)
  {
    if |s| == 0 then 0 else 10 * DigitsValue(s[..|s| - 1]) + DigitValue(s[|s| - 1])
  }

  /** A number printed in decimal, without leading zeros (`${n}` in JavaScript). */
  function NatToString(n: nat): (s: string)
    ensures |s| > 0 && AllDigits(s)
    ensures |s| > 1 ==> s[0] != '0'
  {
    if n < 10 then [DigitChar(n)] else NatToString(n / 10) + [DigitChar(n % 10)]
  }

  /** Printing then reading back a number gives the number. */
  lemma {:induction false} NatToStringRoundTrip(n: nat)
    ensures DigitsValue(NatToString(n)) == n
  {
    if n >= 10 {
      NatToStringRoundTrip(n / 10);
      var s := NatToString(n);
      assert s[..|s| - 1] == NatToString(n / 10);
    }
  }

  /** Numbers below ten print as one digit, numbers from ten to ninety-nine as two. */
  lemma NatToStringLength(n: nat)
    requires n < 100
    ensures |NatToString(n)| == if n < 10 then 1 else 2
  {
  }

  /** Printing is injective. */
  lemma NatToStringInjective(m: nat, n: nat)
    requires NatToString(m) == NatToString(n)
    ensures m == n
  {
    NatToStringRoundTrip(m);
    NatToStringRoundTrip(n);
  }

  /** `Number(id)` for the ids the system uses: the empty string is 0, a digit
      string is its value, and anything else is NaN (None). */
  function NumberOf(id: string): (r: Option<nat>)
    ensures AllDigits(id) <==> r.Some?
  {
    if AllDigits(id) then Some(DigitsValue(id)) else None
  }

  /** `${sum / 2}` for a non-negative integer sum: an integer, or an integer
      followed by ".5". */
  function HalfToString(sum: nat): string
  {
    NatToString(sum / 2) + (if sum % 2 == 1 then ".5" else "")
  }

  /** `${(Number(a) + Number(b)) / 2}`: the id of the mid frame between `a` and `b`. */
  function MidId(a: string, b: string): string
  {
    var x, y := NumberOf(a), NumberOf(b);
    if x.Some? && y.Some? then HalfToString(x.value + y.value) else "NaN"
  }

  /** Reads a number of the form `digits` or `digits.5`, as `HalfToString` prints it. */
  function ParseHalf(s: string): Option<real>
  {
    if AllDigits(s) then Some(DigitsValue(s) as real)
    else if |s| >= 3 && s[|s| - 2] == '.' && s[|s| - 1] == '5' && AllDigits(s[..|s| - 2])
    then Some(DigitsValue(s[..|s| - 2]) as real + 0.5)
    else None
  }

  /** The mid id reads back as the arithmetic mean of its neighbours' ids. */
  lemma MidIdIsMean(a: string, b: string)
    requires AllDigits(a) && AllDigits(b)
    ensures ParseHalf(MidId(a, b)).Some?
    ensures ParseHalf(MidId(a, b)).value == (NumberOf(a).value + NumberOf(b).value) as real / 2.0
  {
    HalfToStringParses(NumberOf(a).value + NumberOf(b).value, MidId(a, b));
  }

  /** A printed half-sum reads back as exactly half the sum. */
  lemma HalfToStringParses(sum: nat, s: string)
    requires s == HalfToString(sum)
    ensures ParseHalf(s).Some? && ParseHalf(s).value == sum as real / 2.0
  {
    var h := sum / 2;
    NatToStringRoundTrip(h);
    if sum % 2 == 1 {
      OddHalfParses(h, s);
      assert sum as real == 2.0 * (h as real) + 1.0;
    } else {
      assert s == NatToString(h);
      assert sum as real == 2.0 * (h as real);
    }
  }

  /** `h` printed with ".5" after it reads back as `h + 0.5`. */
  lemma OddHalfParses(h: nat, s: string)
    requires s == NatToString(h) + ".5"
    requires DigitsValue(NatToString(h)) == h
    ensures ParseHalf(s).Some? && ParseHalf(s).value == h as real + 0.5
  {
    var digits := NatToString(h);
    assert !AllDigits(s) by { assert !IsDigit(s[|s| - 2]); }
    assert s[..|s| - 2] == digits;
  }

  /** A mid id between two ids with an odd sum ends in ".5" and so is not a digit string. */
  lemma MidIdOddSum(a: string, b: string)
    requires AllDigits(a) && AllDigits(b)
    requires (DigitsValue(a) + DigitsValue(b)) % 2 == 1
    ensures var s := MidId(a, b); |s| >= 3 && s[|s| - 2] == '.' && s[|s| - 1] == '5'
  {
    MidIdOfDigits(a, b);
    var sum := DigitsValue(a) + DigitsValue(b);
    assert HalfToString(sum) == NatToString(sum / 2) + ".5";
  }

  /** Between two digit ids the mid id is half their sum. */
  lemma MidIdOfDigits(a: string, b: string)
    requires AllDigits(a) && AllDigits(b)
    ensures MidId(a, b) == HalfToString(DigitsValue(a) + DigitsValue(b))
  {
    var x, y := NumberOf(a), NumberOf(b);
    assert x.Some? && x.value == DigitsValue(a);
    assert y.Some? && y.value == DigitsValue(b);
  }
}
