/**
 Decimal text of integers and of fixed-point numbers in millionths, as the
 printf conversions %d and %.6f write them, and the readers that undo them.
 */
module DecimalText {
  import opened Wrappers
  import opened CText

  const MILLION := 1_000_000

  function Digit(d: int): (c: char)
    requires 0 <= d < 10
    ensures IsDigit(c) && DigitValue(c) == d
  {
    "0123456789"[d]
  }

  function DigitValue(c: char): (d: int)
    requires IsDigit(c)
    ensures 0 <= d < 10
  {
    (c as int) - ('0' as int)
  }

  function Pow10(k: nat): (p: int)
    ensures p >= 1
  {
    if k == 0 then 1 else 10 * Pow10(k - 1)
  }

  /** The decimal digits of `n`, without leading zeros. */
  function NatText(n: nat): (s: string)
    ensures |s| >= 1 && AllDigits(s)
  {
    if n < 10 then [Digit(n)] else NatText(n / 10) + [Digit(n % 10)]
  }

  /** The number a string of digits denotes. */
  function TextNat(s: string): (n: nat)
    requires AllDigits(s)
  {
    if s == "" then 0 else 10 * TextNat(s[..|s| - 1]) + DigitValue(s[|s| - 1])
  }

  lemma {:induction false} NatTextReadsBack(n: nat)
    ensures TextNat(NatText(n)) == n
  {
    if n >= 10 {
      NatTextReadsBack(n / 10);
      assert NatText(n)[..|NatText(n)| - 1] == NatText(n / 10);
    }
  }

  /** A number below 10^k is written with at most k digits. */
  lemma {:induction false} NatTextLength(n: nat, k: nat)
    requires k >= 1 && n < Pow10(k)
    ensures |NatText(n)| <= k
  {
    if n >= 10 {
      assert k >= 2;
      NatTextLength(n / 10, k - 1);
    }
  }

  /** A number of at least 10^k needs more than k digits. */
  lemma {:induction false} NatTextLongerThan(n: nat, k: nat)
    requires n >= Pow10(k)
    ensures |NatText(n)| > k
  {
    if k >= 1 {
      assert n >= 10 && n / 10 >= Pow10(k - 1);
      NatTextLongerThan(n / 10, k - 1);
    }
  }

  /** The lowest `w` decimal digits of `n`, zero padded: %06d for w == 6. */
  function Padded(n: nat, w: nat): (s: string)
    ensures |s| == w && AllDigits(s)
  {
    if w == 0 then "" else Padded(n / 10, w - 1) + [Digit(n % 10)]
  }

  lemma {:induction false} PaddedReadsBack(n: nat, w: nat)
    requires n < Pow10(w)
    ensures TextNat(Padded(n, w)) == n
  {
    if w > 0 {
      var p := Pow10(w - 1);
      assert Pow10(w) == 10 * p && n / 10 < p;
      PaddedReadsBack(n / 10, w - 1);
      assert Padded(n, w)[..w - 1] == Padded(n / 10, w - 1);
    }
  }

  /** printf("%.6f") of a value given in millionths. */
  function FixedText(v: int): (s: string)
    ensures |s| >= 8
    decreases v < 0
  {
    if v < 0 then "-" + FixedText(-v)
    else NatText(v / MILLION) + "." + Padded(v % MILLION, 6)
  }

  /** Reads [-]digits.dddddd back as millionths; anything else is refused. */
  function ReadFixed(s: string): Option<int> {
    if |s| >= 1 && s[0] == '-' then
      match ReadUnsigned(s[1..])
      case None => None
      case Some(v) => Some(-v)
    else ReadUnsigned(s)
  }

  function ReadUnsigned(s: string): Option<int> {
    if |s| >= 8 && s[|s| - 7] == '.' && AllDigits(s[..|s| - 7]) && AllDigits(s[|s| - 6..]) then
      Some(TextNat(s[..|s| - 7]) * MILLION + TextNat(s[|s| - 6..]))
    else None
  }

  lemma MillionIsPow10()
    ensures Pow10(6) == MILLION
  {
    assert Pow10(2) == 100;
    assert Pow10(4) == 100 * Pow10(2);
    assert Pow10(6) == 100 * Pow10(4);
  }

  lemma PointSplits(whole: string, part: string, s: string)
    requires |part| == 6 && s == whole + "." + part
    ensures |s| == |whole| + 7 && s[..|s| - 7] == whole && s[|s| - 6..] == part && s[|s| - 7] == '.'
  {
  }

  lemma UnsignedReads(whole: string, part: string, s: string)
    requires |whole| >= 1 && |part| == 6 && AllDigits(whole) && AllDigits(part)
    requires s == whole + "." + part
    ensures ReadUnsigned(s) == Some(TextNat(whole) * MILLION + TextNat(part))
    ensures s != "" && IsDigit(s[0])
  {
    PointSplits(whole, part, s);
    assert s[0] == s[..|s| - 7][0] == whole[0];
  }

  lemma SignReads(s: string)
    requires s != "" && IsDigit(s[0])
    ensures ReadFixed(s) == ReadUnsigned(s)
    ensures ReadUnsigned(s).Some? ==> ReadFixed("-" + s) == Some(-ReadUnsigned(s).value)
  {
    hide ReadUnsigned;
    assert ("-" + s)[1..] == s;
  }

  lemma MagnitudeReadsBack(v: nat)
    ensures TextNat(NatText(v / MILLION)) * MILLION + TextNat(Padded(v % MILLION, 6)) == v
  {
    NatTextReadsBack(v / MILLION);
    MillionIsPow10();
    PaddedReadsBack(v % MILLION, 6);
  }

  /** Six decimals lose nothing of a value held in millionths. */
  lemma FixedReadsBack(v: int)
    ensures ReadFixed(FixedText(v)) == Some(v)
  {
    var m := if v < 0 then -v else v;
    MagnitudeReads(m);
    if v < 0 {
      assert FixedText(v) == "-" + FixedText(m);
    }
    hide FixedText;
    SignReads(FixedText(m));
  }

  lemma MagnitudeReads(m: nat)
    ensures ReadUnsigned(FixedText(m)) == Some(m)
    ensures FixedText(m) != "" && IsDigit(FixedText(m)[0])
  {
    hide ReadUnsigned;
    MagnitudeReadsBack(m);
    UnsignedReads(NatText(m / MILLION), Padded(m % MILLION, 6), FixedText(m));
  }

  /** Every byte of a fixed-point number is a digit, the point or the sign. */
  lemma FixedTextBytes(v: int)
    ensures forall i :: 0 <= i < |FixedText(v)| ==> IsDigit(FixedText(v)[i]) || FixedText(v)[i] in "-."
    decreases v < 0
  {
    if v < 0 {
      FixedTextBytes(-v);
      assert FixedText(v) == "-" + FixedText(-v);
    }
  }

  /** A magnitude below 10^k units takes at most k digits, a sign, the point and six decimals. */
  lemma FixedTextLength(v: int, k: nat)
    requires k >= 1 && -Pow10(k) * MILLION < v < Pow10(k) * MILLION
    ensures |FixedText(v)| <= k + 8
    ensures v >= 0 ==> |FixedText(v)| <= k + 7
    decreases v < 0
  {
    if v < 0 {
      FixedTextLength(-v, k);
    } else {
      assert v / MILLION < Pow10(k);
      NatTextLength(v / MILLION, k);
    }
  }

  // ---- what the digits mean, told from the characters alone ----

  function Repeat(c: char, n: nat): (s: string)
    ensures |s| == n && forall i :: 0 <= i < n ==> s[i] == c
  {
    seq(n, _ => c)
  }

  /** The next character: '0' is followed by '1', and so on. */
  function NextChar(c: char): char
    requires IsDigit(c) && c != '9'
  {
    (c as int + 1) as char
  }

  /** Digits are ordered as their values are. */
  lemma DigitOrder(c: char, d: char)
    requires IsDigit(c) && IsDigit(d)
    ensures DigitValue(c) < DigitValue(d) <==> c < d
  {
  }

  /** A text cut in two weighs its front by a power of ten. */
  lemma {:induction false} TextNatConcat(s: string, t: string)
    requires AllDigits(s) && AllDigits(t)
    ensures TextNat(s + t) == TextNat(s) * Pow10(|t|) + TextNat(t)
  {
    if t == "" {
      assert s + t == s;
    } else {
      var front, d := t[..|t| - 1], DigitValue(t[|t| - 1]);
      TextNatConcat(s, front);
      assert (s + t)[..|s + t| - 1] == s + front;
      Regroup(TextNat(s), Pow10(|front|), TextNat(front), d);
    }
  }

  lemma Regroup(a: int, p: int, b: int, d: int)
    ensures 10 * (a * p + b) + d == a * (10 * p) + (10 * b + d)
  {
  }

  lemma {:induction false} ZerosAreNothing(n: nat)
    ensures TextNat(Repeat('0', n)) == 0
  {
    if n > 0 {
      ZerosAreNothing(n - 1);
      assert Repeat('0', n)[..n - 1] == Repeat('0', n - 1);
    }
  }

  lemma {:induction false} NinesAreAll(n: nat)
    ensures TextNat(Repeat('9', n)) + 1 == Pow10(n)
  {
    if n > 0 {
      NinesAreAll(n - 1);
      assert Repeat('9', n)[..n - 1] == Repeat('9', n - 1);
    }
  }

  /** Leading zeros change no value. */
  lemma LeadingZeros(n: nat, s: string)
    requires AllDigits(s)
    ensures AllDigits(Repeat('0', n) + s) && TextNat(Repeat('0', n) + s) == TextNat(s)
  {
    TextNatConcat(Repeat('0', n), s);
    ZerosAreNothing(n);
  }

  /**
   The odometer: raising a digit and setting the nines behind it to zeros adds one.
   Every text of digits is reached this way from zeros, so this fixes all values.
   */
  lemma Odometer(s: string, c: char, n: nat)
    requires AllDigits(s) && IsDigit(c) && c != '9'
    ensures AllDigits(s + [NextChar(c)] + Repeat('0', n)) && AllDigits(s + [c] + Repeat('9', n))
    ensures TextNat(s + [NextChar(c)] + Repeat('0', n)) == TextNat(s + [c] + Repeat('9', n)) + 1
  {
    hide Repeat, DigitValue, TextNat, Pow10;
    NextDigit(s, c);
    TextNatConcat(s + [NextChar(c)], Repeat('0', n));
    TextNatConcat(s + [c], Repeat('9', n));
    ZerosAreNothing(n);
    NinesAreAll(n);
    OneMore(TextNat(s + [c]), Pow10(n));
  }

  lemma NextDigit(s: string, c: char)
    requires AllDigits(s) && IsDigit(c) && c != '9'
    ensures IsDigit(NextChar(c)) && AllDigits(s + [NextChar(c)]) && AllDigits(s + [c])
    ensures TextNat(s + [NextChar(c)]) == TextNat(s + [c]) + 1
  {
    assert (s + [c])[..|s|] == s && (s + [NextChar(c)])[..|s|] == s;
  }

  lemma OneMore(a: int, p: int)
    ensures (a + 1) * p + 0 == a * p + (p - 1) + 1
  {
  }

  lemma {:induction false} TextNatBound(s: string)
    requires AllDigits(s)
    ensures TextNat(s) < Pow10(|s|)
  {
    if s != "" {
      TextNatBound(s[..|s| - 1]);
    }
  }

  /** Texts of equal length are ordered as by a dictionary: the first digit that differs decides. */
  lemma DictionaryOrder(front: string, c: char, d: char, s: string, t: string)
    requires AllDigits(front) && IsDigit(c) && IsDigit(d) && AllDigits(s) && AllDigits(t) && |s| == |t|
    requires c < d
    ensures TextNat(front + [c] + s) < TextNat(front + [d] + t)
  {
    hide DigitValue, TextNat, Pow10;
    DigitsBehind(front, c, d);
    TextNatConcat(front + [c], s);
    TextNatConcat(front + [d], t);
    TextNatBound(s);
    WeighsMore(TextNat(front + [c]), TextNat(front + [d]), Pow10(|s|));
  }

  lemma DigitsBehind(front: string, c: char, d: char)
    requires AllDigits(front) && IsDigit(c) && IsDigit(d) && c < d
    ensures TextNat(front + [c]) + 1 <= TextNat(front + [d])
  {
    assert (front + [c])[..|front|] == front && (front + [d])[..|front|] == front;
  }

  lemma WeighsMore(a: int, b: int, p: int)
    requires a + 1 <= b && p >= 1
    ensures a * p + p <= b * p
  {
    assert (b - a - 1) * p >= 0;
  }

  /** printf writes no leading zero, except for zero itself. */
  lemma {:induction false} NoLeadingZero(n: nat)
    ensures n == 0 ==> NatText(n) == "0"
    ensures n != 0 ==> NatText(n)[0] != '0'
  {
    if n >= 10 {
      NoLeadingZero(n / 10);
    }
  }

  /** "%.6f" is the plain decimal text of the millionths with a point before the last six digits. */
  lemma PointIsSixFromTheEnd(v: nat)
    ensures var s := FixedText(v);
            && s[|s| - 7] == '.' && AllDigits(s[..|s| - 7]) && AllDigits(s[|s| - 6..])
            && AllDigits(s[..|s| - 7] + s[|s| - 6..]) && TextNat(s[..|s| - 7] + s[|s| - 6..]) == v
            && (s[0] == '0' ==> s[1] == '.')
    ensures v > 0 ==> FixedText(0 - v) == "-" + FixedText(v)
  {
    var whole, part, s := NatText(v / MILLION), Padded(v % MILLION, 6), FixedText(v);
    assert s == whole + "." + part;
    PointSplits(whole, part, s);
    MagnitudeReadsBack(v);
    MillionIsPow10();
    TextNatConcat(whole, part);
    NoLeadingZero(v / MILLION);
    assert s[0] == whole[0];
    assert v / MILLION == 0 ==> |whole| == 1;
  }
}
