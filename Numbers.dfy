/** `stringToInt`: `Integer.parseInt` with every failure turned into 0. Inside the pipeline
    its argument is always an ASCII digit string, so it can fail only on an empty string
    or on a value beyond the 32-bit signed range. */
module Numbers {
  import opened Wrappers
  import opened Chars

  /** Integer.MAX_VALUE. */
  const MaxInt: int := 0x7fff_ffff

  /** The decimal value of a digit string, most significant digit first. */
  function DecimalValue(s: string): nat
    requires AllDigits(s)
  {
    if |s| == 0 then 0 else DecimalValue(s[..|s| - 1]) * 10 + DigitValue(s[|s| - 1])
  }

  /** A longer prefix never has a smaller value. */
  lemma {:induction false} PrefixValueBounded(s: string, i: nat)
    requires AllDigits(s) && i <= |s|
    ensures DecimalValue(s[..i]) <= DecimalValue(s)
    decreases |s| - i
  {
    if i < |s| {
      PrefixValueBounded(s, i + 1);
      assert s[..i + 1][..i] == s[..i];
    } else {
      assert s[..i] == s;
    }
  }

  /** The digit loop of `Integer.parseInt`: it reads one digit at a time and gives up as soon
      as the value read so far leaves the int range. */
  function ParseDigits(s: string, i: nat, acc: int): (r: Option<int>)
    requires AllDigits(s) && i <= |s|
    requires acc == DecimalValue(s[..i]) && acc <= MaxInt
    ensures r.Some? <==> DecimalValue(s) <= MaxInt
    ensures r.Some? ==> r.value == DecimalValue(s)
    decreases |s| - i
  {
    if i == |s| then
      assert s[..i] == s;
      Some(acc)
    else
      var next := acc * 10 + DigitValue(s[i]);
      assert s[..i + 1][..i] == s[..i];
      if next > MaxInt then
        PrefixValueBounded(s, i + 1);
        None
      else
        ParseDigits(s, i + 1, next)
  }

  /** `Integer.parseInt(s)` on a digit string: the value, or None where Java throws
      NumberFormatException (an empty string, or a value above Integer.MAX_VALUE). */
  function ParseInt(s: string): (r: Option<int>)
    requires AllDigits(s)
    ensures r.Some? <==> 0 < |s| && DecimalValue(s) <= MaxInt
    ensures r.Some? ==> r.value == DecimalValue(s)
  {
    if |s| == 0 then None else ParseDigits(s, 0, 0)
  }

  /** `stringToInt`: never fails; the int value of the digits, or 0 when the parse fails. */
  function StringToInt(s: string): (r: int)
    requires AllDigits(s)
    ensures 0 <= r <= MaxInt
    ensures 0 < |s| && DecimalValue(s) <= MaxInt ==> r == DecimalValue(s)
    ensures |s| == 0 || DecimalValue(s) > MaxInt ==> r == 0
  {
    match ParseInt(s)
    case Some(v) => v
    case None => 0
  }

  /** Leading zeros do not count towards the limit: they add nothing to the value. */
  lemma {:induction false} LeadingZeros(s: string)
    requires AllDigits(s)
    ensures AllDigits("0" + s) && DecimalValue("0" + s) == DecimalValue(s)
    decreases |s|
  {
    if |s| > 0 {
      var t := s[..|s| - 1];
      LeadingZeros(t);
      assert ("0" + s)[..|"0" + s| - 1] == "0" + t;
    }
  }

  /** One more digit: the prefix of length i + 1 in terms of the prefix of length i. */
  lemma DecimalStep(s: string, i: nat)
    requires AllDigits(s) && i < |s|
    ensures DecimalValue(s[..i + 1]) == DecimalValue(s[..i]) * 10 + DigitValue(s[i])
  {
    assert s[..i + 1][..i] == s[..i];
  }

  /** The value of the ten-digit strings that start with 214748364. */
  lemma TenDigits(s: string, last: char)
    requires IsDigit(last) && s == "214748364" + [last]
    ensures AllDigits(s) && DecimalValue(s) == 2147483640 + DigitValue(last)
  {
    assert |s| == 10;
    assert s[0] == '2' && s[1] == '1' && s[2] == '4' && s[3] == '7' && s[4] == '4';
    assert s[5] == '8' && s[6] == '3' && s[7] == '6' && s[8] == '4' && s[9] == last;
    MaxIntDigits(s);
  }

  lemma MaxIntDigits(s: string)
    requires |s| == 10 && IsDigit(s[9])
    requires s[0] == '2' && s[1] == '1' && s[2] == '4' && s[3] == '7' && s[4] == '4'
    requires s[5] == '8' && s[6] == '3' && s[7] == '6' && s[8] == '4'
    ensures AllDigits(s) && DecimalValue(s) == 2147483640 + DigitValue(s[9])
  {
    FivePrefix(s);
    DecimalStep(s, 5);
    DecimalStep(s, 6);
    DecimalStep(s, 7);
    assert DecimalValue(s[..8]) == 21474836;
    DecimalStep(s, 8);
    DecimalStep(s, 9);
    assert s[..10] == s;
  }

  lemma FivePrefix(s: string)
    requires AllDigits(s) && |s| >= 5
    requires s[0] == '2' && s[1] == '1' && s[2] == '4' && s[3] == '7' && s[4] == '4'
    ensures DecimalValue(s[..5]) == 21474
  {
    assert s[..0] == [];
    DecimalStep(s, 0);
    DecimalStep(s, 1);
    DecimalStep(s, 2);
    DecimalStep(s, 3);
    DecimalStep(s, 4);
  }

  /** The largest int parses; one more is an overflow and yields 0. */
  lemma IntRangeEdge(max: string, over: string)
    requires max == "214748364" + "7" && over == "214748364" + "8"
    ensures AllDigits(max) && StringToInt(max) == MaxInt
    ensures AllDigits(over) && StringToInt(over) == 0
  {
    TenDigits(max, '7');
    TenDigits(over, '8');
  }
}
