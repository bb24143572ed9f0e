/** The time encodings of common/datetime.go. Times are Unix seconds. */
module Datetime {
  import opened ByteStrings

  /** Unix times have ten digits; longer texts are cut to ten. */
  const UNIX_DIGITS := 10

  function Abs(t: int): nat {
    if t < 0 then -t else t
  }

  function IntText(t: int): (s: Bytes)
    ensures IsIntText(s)
  {
    if t < 0 then [MINUS] + Decimal(-t) else Decimal(t)
  }

  predicate IsIntText(s: Bytes) {
    s != [] && (IsDigits(s) || (s[0] == MINUS && IsDigits(s[1..])))
  }

  function ParseInt(s: Bytes): int
    requires IsIntText(s)
  {
    if s[0] == MINUS then -(ParseDecimal(s[1..]) as int) else ParseDecimal(s)
  }

  function MarshallTime(t: int): Bytes {
    BigBytes(Abs(ParseInt(CutText(IntText(t)))))
  }

  /** The text of a time, cut to ten characters. */
  function CutText(text: Bytes): (cut: Bytes)
    requires IsIntText(text)
    ensures IsIntText(cut)
  {
    if |text| > UNIX_DIGITS then
      HeadIsText(text, UNIX_DIGITS);
      text[..UNIX_DIGITS]
    else text
  }

  lemma HeadIsText(text: Bytes, n: nat)
    requires IsIntText(text) && 1 <= n <= |text|
    ensures IsIntText(text[..n])
  {
    var head := text[..n];
    assert head[0] == text[0];
    if IsDigits(text) {
      assert forall i :: 0 <= i < |head| ==> head[i] == text[i];
    } else {
      assert forall i :: 0 <= i < |head[1..]| ==> head[1..][i] == text[1..][i];
    }
  }

  function MarshallTime2(seconds: int): Bytes {
    BigBytes(Abs(seconds))
  }

  function UnmarshallTimeToInt(value: Bytes): nat {
    FromBytes(value)
  }

  /** The times that take exactly four bytes: 1970-07-14 up to 2106-02-07. */
  predicate TimeFits(t: int) {
    0x100_0000 <= t < 0x1_0000_0000
  }

  lemma TenDigits(t: nat)
    ensures |Decimal(t)| <= UNIX_DIGITS <==> t < 10_000_000_000
  {
    DecimalWidth(t, UNIX_DIGITS);
    assert Pow10(10) == 10_000_000_000 by {
      assert Pow10(2) == 100;
      assert Pow10(4) == 10_000;
      assert Pow10(6) == 1_000_000;
      assert Pow10(8) == 100_000_000;
    }
  }

  /** A time with k digits too many loses exactly those digits: milliseconds become seconds for k = 3. */
  lemma MarshallTimeTruncates(t: nat, k: nat)
    requires |Decimal(t)| == UNIX_DIGITS + k
    ensures UnmarshallTimeToInt(MarshallTime(t)) == DropDigits(t, k)
  {
    DecimalPrefix(t, k);
    DecimalRoundTrip(DropDigits(t, k));
    BigBytesRoundTrip(DropDigits(t, k));
    if k == 0 {
      assert Decimal(t)[..UNIX_DIGITS] == Decimal(t);
    }
  }

  /** Decoding an encoded time gives it back exactly for the non-negative times of at most ten digits. */
  lemma TimeRoundTrip(t: int)
    ensures UnmarshallTimeToInt(MarshallTime(t)) == t <==> 0 <= t < 10_000_000_000
  {
    if t >= 0 {
      TenDigits(t);
      DecimalRoundTrip(t);
      BigBytesRoundTrip(t);
      if |Decimal(t)| > UNIX_DIGITS {
        MarshallTimeTruncates(t, |Decimal(t)| - UNIX_DIGITS);
        ScaledDown(t, |Decimal(t)| - UNIX_DIGITS);
      }
    }
  }

  lemma {:induction false} ScaledDown(t: nat, k: nat)
    requires t > 0 && k > 0
    ensures DropDigits(t, k) < t
  {
    if k > 1 && t / 10 > 0 {
      ScaledDown(t / 10, k - 1);
    } else if k > 1 {
      DropZero(k - 1);
    }
  }

  lemma {:induction false} DropZero(k: nat)
    ensures DropDigits(0, k) == 0
  {
    if k > 0 {
      DropZero(k - 1);
    }
  }

  /** Both encoders agree with the plain big-endian form on times of at most ten digits. */
  lemma EncodersAgree(t: nat)
    requires t < 10_000_000_000
    ensures MarshallTime(t) == MarshallTime2(t) == BigBytes(t)
    ensures |MarshallTime(t)| == 4 <==> TimeFits(t)
  {
    TenDigits(t);
    DecimalRoundTrip(t);
    BigBytesWidth(t);
  }

  /** Four-byte times compare like numbers. */
  lemma TimeOrder(s: int, t: int)
    requires TimeFits(s) && TimeFits(t)
    ensures |MarshallTime(s)| == |MarshallTime(t)| == 4
    ensures Less(MarshallTime(s), MarshallTime(t)) <==> s < t
    ensures MarshallTime(s) == MarshallTime(t) <==> s == t
  {
    EncodersAgree(s);
    EncodersAgree(t);
    FromBytesOrder(MarshallTime(s), MarshallTime(t));
    BigBytesRoundTrip(s);
    BigBytesRoundTrip(t);
  }
}
