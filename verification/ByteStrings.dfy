/**
  Byte strings and their lexicographic order, which is the order in which LevelDB iterates,
  and the two number formats the index writes: big-endian bytes (Go's `big.Int.Bytes`)
  and decimal text (Go's `big.Int.String`).
 */
module ByteStrings {

  type Byte = x: int | 0 <= x < 256

  type Bytes = seq<Byte>

  datatype Option<+T> = None | Some(value: T)

  // ----- Lexicographic order -----

  predicate Less(a: Bytes, b: Bytes) {
    b != [] && (a == [] || a[0] < b[0] || (a[0] == b[0] && Less(a[1..], b[1..])))
  }

  lemma {:induction false} LessTotal(a: Bytes, b: Bytes)
    ensures Less(a, b) || a == b || Less(b, a)
    ensures !(Less(a, b) && Less(b, a))
  {
    if a == [] || b == [] {
    } else {
      LessTotal(a[1..], b[1..]);
      assert a == [a[0]] + a[1..] && b == [b[0]] + b[1..];
    }
  }

  lemma {:induction false} LessIrreflexive(a: Bytes)
    ensures !Less(a, a)
  {
    if a != [] {
      LessIrreflexive(a[1..]);
    }
  }

  lemma {:induction false} LessTransitive(a: Bytes, b: Bytes, c: Bytes)
    requires Less(a, b) && Less(b, c)
    ensures Less(a, c)
  {
    if a != [] && a[0] == b[0] == c[0] {
      LessTransitive(a[1..], b[1..], c[1..]);
    }
  }

  /** Behind heads of equal length, the order looks at the heads first and then at the tails. */
  lemma {:induction false} LessConcat(a: Bytes, x: Bytes, b: Bytes, y: Bytes)
    requires |a| == |b|
    ensures Less(a + x, b + y) <==> Less(a, b) || (a == b && Less(x, y))
  {
    if a == [] {
      assert a + x == x && b + y == y;
    } else {
      LessConcat(a[1..], x, b[1..], y);
      assert (a + x)[1..] == a[1..] + x && (b + y)[1..] == b[1..] + y;
      assert a == [a[0]] + a[1..] && b == [b[0]] + b[1..];
    }
  }

  // ----- Big-endian numbers -----

  /** Go's big.Int.Bytes of a magnitude: big-endian, no leading zero, empty for zero. */
  function BigBytes(n: nat): Bytes {
    if n == 0 then [] else BigBytes(n / 256) + [n % 256]
  }

  /** Go's big.Int.SetBytes. */
  function FromBytes(s: Bytes): nat {
    if s == [] then 0 else FromBytes(s[..|s| - 1]) * 256 + s[|s| - 1]
  }

  lemma {:induction false} BigBytesRoundTrip(n: nat)
    ensures FromBytes(BigBytes(n)) == n
  {
    if n != 0 {
      BigBytesRoundTrip(n / 256);
      assert BigBytes(n)[..|BigBytes(n)| - 1] == BigBytes(n / 256);
    }
  }

  lemma {:induction false} FromBytesOrder(s: Bytes, t: Bytes)
    requires |s| == |t|
    ensures Less(s, t) <==> FromBytes(s) < FromBytes(t)
    ensures s == t <==> FromBytes(s) == FromBytes(t)
  {
    if s != [] {
      var n := |s| - 1;
      FromBytesOrder(s[..n], t[..n]);
      assert s == s[..n] + [s[n]] && t == t[..n] + [t[n]];
      LessConcat(s[..n], [s[n]], t[..n], [t[n]]);
    }
  }

  lemma BigBytesStep(n: nat)
    ensures |BigBytes(n)| == if n == 0 then 0 else 1 + |BigBytes(n / 256)|
  {
  }

  /** Four bytes is the width exactly of the numbers in [2^24, 2^32). */
  lemma BigBytesWidth(n: nat)
    ensures |BigBytes(n)| == 4 <==> 0x100_0000 <= n < 0x1_0000_0000
    ensures |BigBytes(n)| <= 4 <==> n < 0x1_0000_0000
  {
    BigBytesStep(n);
    BigBytesStep(n / 256);
    BigBytesStep(n / 256 / 256);
    BigBytesStep(n / 256 / 256 / 256);
    BigBytesStep(n / 256 / 256 / 256 / 256);
  }

  // ----- Decimal text -----

  const ZERO: Byte := 48

  const MINUS: Byte := 45

  function Pow10(k: nat): (p: nat)
    ensures p >= 1
  {
    if k == 0 then 1 else 10 * Pow10(k - 1)
  }

  predicate IsDigits(s: Bytes) {
    forall i :: 0 <= i < |s| ==> ZERO <= s[i] < ZERO + 10
  }

  /** Go's big.Int.String of a non-negative number. */
  function Decimal(n: nat): (s: Bytes)
    ensures s != [] && IsDigits(s)
  {
    if n < 10 then [ZERO + n] else Decimal(n / 10) + [ZERO + n % 10]
  }

  /** Go's big.Int.SetString in base 10, on digits. */
  function ParseDecimal(s: Bytes): nat
    requires IsDigits(s)
  {
    if s == [] then 0 else ParseDecimal(s[..|s| - 1]) * 10 + (s[|s| - 1] - ZERO)
  }

  lemma {:induction false} DecimalRoundTrip(n: nat)
    ensures ParseDecimal(Decimal(n)) == n
  {
    if n < 10 {
      assert Decimal(n)[..0] == [];
    } else {
      DecimalRoundTrip(n / 10);
      assert Decimal(n)[..|Decimal(n)| - 1] == Decimal(n / 10);
    }
  }

  lemma DecimalInjective(a: nat, b: nat)
    requires Decimal(a) == Decimal(b)
    ensures a == b
  {
    DecimalRoundTrip(a);
    DecimalRoundTrip(b);
  }

  /** Leading zeros do not change what a decimal text denotes. */
  lemma {:induction false} ParseLeadingZeros(zeros: Bytes, s: Bytes)
    requires forall i :: 0 <= i < |zeros| ==> zeros[i] == ZERO
    requires IsDigits(s)
    ensures IsDigits(zeros + s) && ParseDecimal(zeros + s) == ParseDecimal(s)
    decreases |s|, |zeros|
  {
    if s != [] {
      ParseLeadingZeros(zeros, s[..|s| - 1]);
      assert (zeros + s)[..|zeros + s| - 1] == zeros + s[..|s| - 1];
    } else if zeros != [] {
      ParseLeadingZeros(zeros[..|zeros| - 1], s);
      assert zeros[..|zeros| - 1] + s == (zeros + s)[..|zeros + s| - 1];
    }
  }

  lemma {:induction false} DecimalWidth(n: nat, d: nat)
    requires d >= 1
    ensures |Decimal(n)| <= d <==> n < Pow10(d)
  {
    if d == 1 {
      assert Pow10(1) == 10 * Pow10(0);
    } else if n >= 10 {
      DecimalWidth(n / 10, d - 1);
    } else {
      assert Pow10(d) == 10 * Pow10(d - 1);
    }
  }

  /** n without its last k decimal digits. */
  function DropDigits(n: nat, k: nat): nat {
    if k == 0 then n else DropDigits(n / 10, k - 1)
  }

  lemma {:induction false} DecimalPrefix(n: nat, k: nat)
    requires k < |Decimal(n)|
    ensures Decimal(n)[..|Decimal(n)| - k] == Decimal(DropDigits(n, k))
  {
    if k == 0 {
      assert Decimal(n)[..|Decimal(n)|] == Decimal(n);
    } else {
      DecimalPrefix(n / 10, k - 1);
      assert Decimal(n)[..|Decimal(n)| - k] == Decimal(n / 10)[..|Decimal(n / 10)| - (k - 1)];
    }
  }

  /** The characters of a decimal text, from the last one on, with '0' as 48; no leading zero. */
  lemma {:induction false} DecimalDigits(n: nat, k: nat)
    requires k < |Decimal(n)|
    ensures Decimal(n)[|Decimal(n)| - 1 - k] == 48 + DropDigits(n, k) % 10
    ensures n > 0 ==> Decimal(n)[0] != 48
  {
    if n >= 10 {
      DecimalDigits(n / 10, if k > 0 then k - 1 else 0);
    }
  }

  lemma {:induction false} DecimalOrderSameWidth(a: nat, b: nat)
    requires |Decimal(a)| == |Decimal(b)|
    ensures Less(Decimal(a), Decimal(b)) <==> a < b
  {
    if a < 10 {
      assert b < 10;
    } else {
      DecimalOrderSameWidth(a / 10, b / 10);
      LessConcat(Decimal(a / 10), [ZERO + a % 10], Decimal(b / 10), [ZERO + b % 10]);
      if Decimal(a / 10) == Decimal(b / 10) {
        DecimalInjective(a / 10, b / 10);
      }
    }
  }

  lemma HeadOrder(a: nat, b: nat)
    requires |Decimal(a)| == |Decimal(b)|
    ensures Less(Decimal(a), Decimal(b)) || Decimal(a) == Decimal(b) <==> a <= b
  {
    DecimalOrderSameWidth(a, b);
    if Decimal(a) == Decimal(b) {
      DecimalInjective(a, b);
    }
  }

  /**
    When two decimal texts compare like the numbers they denote. With equally many digits they
    always do. A shorter text comes first exactly when its number is at most the longer number
    with its extra digits dropped: 9 comes after 10, 1 comes before 10.
   */
  lemma {:induction false} DecimalOrder(a: nat, b: nat)
    requires |Decimal(a)| <= |Decimal(b)|
    ensures Less(Decimal(a), Decimal(b)) <==>
            if |Decimal(a)| == |Decimal(b)| then a < b else a <= DropDigits(b, |Decimal(b)| - |Decimal(a)|)
  {
    if |Decimal(a)| == |Decimal(b)| {
      DecimalOrderSameWidth(a, b);
    } else {
      var k := |Decimal(b)| - |Decimal(a)|;
      var rest := Decimal(b)[|Decimal(a)|..];
      DecimalPrefix(b, k);
      assert Decimal(b) == Decimal(DropDigits(b, k)) + rest;
      assert Decimal(a) == Decimal(a) + [];
      LessConcat(Decimal(a), [], Decimal(DropDigits(b, k)), rest);
      HeadOrder(a, DropDigits(b, k));
    }
  }
}
