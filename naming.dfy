/**
  The output file name of each captured image.  The capture loop builds it with an
  output string stream: fill character '0', then the directory prefix, the camera
  index printed in a field of width 4, and the extension.  A field width only pads;
  an index with more than four digits is printed in full.
 */
module Naming {
  import opened Wrappers

  const ImageDirectory: string := "output/images/"
  const ImageExtension: string := ".png"
  /** The field width given to the index (setw(4)). */
  const IndexWidth: nat := 4

  predicate IsDigit(c: char) {
    '0' <= c <= '9'
  }

  predicate AllDigits(s: string) {
    forall k :: 0 <= k < |s| ==> IsDigit(s[k])
  }

  function DigitChar(d: nat): (c: char)
    requires d < 10
    ensures IsDigit(c) && c as int - '0' as int == d
  {
    ('0' as int + d) as char
  }

  /** Decimal representation of `n`, most significant digit first, without leading zeros. */
  function DecimalDigits(n: nat): (s: string)
    ensures 1 <= |s| && AllDigits(s)
    ensures |s| > 1 ==> s[0] != '0'
  {
    if n < 10 then [DigitChar(n)] else DecimalDigits(n / 10) + [DigitChar(n % 10)]
  }

  /** The number a string of decimal digits denotes (leading zeros allowed). */
  function DigitsValue(s: string): nat
    requires AllDigits(s)
  {
    if s == [] then 0
    else DigitsValue(s[..|s| - 1]) * 10 + (s[|s| - 1] as int - '0' as int)
  }

  function Zeros(k: nat): (z: string)
    ensures |z| == k && forall j :: 0 <= j < k ==> z[j] == '0'
  {
    seq(k, _ => '0')
  }

  /** Right-aligns `s` in a field of `width` characters filled with '0'; never truncates. */
  function ZeroPad(s: string, width: nat): (r: string)
    ensures |r| == if |s| < width then width else |s|
    ensures r[|r| - |s|..] == s
    ensures forall j :: 0 <= j < |r| - |s| ==> r[j] == '0'
  {
    if |s| < width then Zeros(width - |s|) + s else s
  }

  /** The index as the stream prints it under setw(4) with fill '0'. */
  function IndexField(i: nat): string {
    ZeroPad(DecimalDigits(i), IndexWidth)
  }

  /** "output/images/" + index field + ".png". */
  function OutputFileName(i: nat): string {
    ImageDirectory + IndexField(i) + ImageExtension
  }

  /** Reads an output file name back: the prefix, at least four digits, the extension. */
  function ParseOutputFileName(name: string): (r: Option<nat>)
    ensures r.Some? ==> |name| >= |ImageDirectory| + IndexWidth + |ImageExtension|
  {
    var lo := |ImageDirectory|;
    if |name| < lo + IndexWidth + |ImageExtension| then None
    else
      var hi := |name| - |ImageExtension|;
      if name[..lo] == ImageDirectory && name[hi..] == ImageExtension && AllDigits(name[lo..hi])
      then Some(DigitsValue(name[lo..hi]))
      else None
  }

  function Pow10(k: nat): (p: nat)
    ensures p >= 1
  {
    if k == 0 then 1 else 10 * Pow10(k - 1)
  }

  // ---------------------------------------------------------------------------
  // Lemmas

  lemma DigitsValueSnoc(s: string, c: char)
    requires AllDigits(s) && IsDigit(c)
    ensures AllDigits(s + [c])
    ensures DigitsValue(s + [c]) == DigitsValue(s) * 10 + (c as int - '0' as int)
  {
    assert (s + [c])[..|s|] == s;
  }

  /** Reading back the decimal representation gives the number. */
  lemma {:induction false} DecimalDigitsValue(n: nat)
    ensures DigitsValue(DecimalDigits(n)) == n
  {
    if n >= 10 {
      DecimalDigitsValue(n / 10);
      DigitsValueSnoc(DecimalDigits(n / 10), DigitChar(n % 10));
    }
  }

  lemma {:induction false} ZerosValue(k: nat)
    ensures DigitsValue(Zeros(k)) == 0
  {
    if k > 0 {
      assert Zeros(k)[..k - 1] == Zeros(k - 1);
      ZerosValue(k - 1);
    }
  }

  /** Leading fill characters do not change the number a field denotes. */
  lemma {:induction false} LeadingZerosValue(k: nat, s: string)
    requires AllDigits(s)
    ensures AllDigits(Zeros(k) + s)
    ensures DigitsValue(Zeros(k) + s) == DigitsValue(s)
    decreases |s|
  {
    if s == [] {
      assert Zeros(k) + s == Zeros(k);
      ZerosValue(k);
    } else {
      var init := s[..|s| - 1];
      LeadingZerosValue(k, init);
      assert Zeros(k) + s == (Zeros(k) + init) + [s[|s| - 1]];
      DigitsValueSnoc(Zeros(k) + init, s[|s| - 1]);
      DigitsValueSnoc(init, s[|s| - 1]);
      assert init + [s[|s| - 1]] == s;
    }
  }

  /** `n` has at most `k` decimal digits exactly when it is below 10^k. */
  lemma {:induction false} DecimalLength(n: nat, k: nat)
    requires k >= 1
    ensures |DecimalDigits(n)| <= k <==> n < Pow10(k)
  {
    if n >= 10 {
      if k == 1 {
        assert Pow10(1) == 10;
      } else {
        DecimalLength(n / 10, k - 1);
        assert Pow10(k) == 10 * Pow10(k - 1);
      }
    } else {
      if k > 1 {
        PowMonotone(1, k);
      }
      assert Pow10(1) == 10;
    }
  }

  lemma {:induction false} PowMonotone(j: nat, k: nat)
    requires j <= k
    ensures Pow10(j) <= Pow10(k)
    decreases k - j
  {
    if j < k {
      PowMonotone(j + 1, k);
    }
  }

  /**
    The index field holds exactly four digits for the indices below 10000 and the
    unpadded decimal representation from 10000 on; in both cases it denotes `i`.
   */
  lemma IndexFieldShape(i: nat)
    ensures AllDigits(IndexField(i)) && DigitsValue(IndexField(i)) == i
    ensures i < 10000 ==> |IndexField(i)| == IndexWidth
    ensures i >= 10000 ==> IndexField(i) == DecimalDigits(i) && |IndexField(i)| > IndexWidth
  {
    var d := DecimalDigits(i);
    assert Pow10(4) == 10000 by {
      assert Pow10(2) == 100;
    }
    DecimalLength(i, 4);
    DecimalDigitsValue(i);
    if |d| < IndexWidth {
      LeadingZerosValue(IndexWidth - |d|, d);
    }
  }

  lemma ConcatSlices(a: string, f: string, b: string)
    ensures (a + f + b)[..|a|] == a
    ensures (a + f + b)[|a|..|a| + |f|] == f
    ensures (a + f + b)[|a| + |f|..] == b
  {
  }

  /** The name of index `i` parses back to `i`. */
  lemma OutputFileNameRoundTrip(i: nat)
    ensures ParseOutputFileName(OutputFileName(i)) == Some(i)
  {
    var f := IndexField(i);
    IndexFieldShape(i);
    ConcatSlices(ImageDirectory, f, ImageExtension);
    assert |ImageDirectory| == 14 && |ImageExtension| == 4;
  }

  /** Distinct camera indices never write to the same file. */
  lemma OutputFileNameInjective(i: nat, j: nat)
    requires i != j
    ensures OutputFileName(i) != OutputFileName(j)
  {
    OutputFileNameRoundTrip(i);
    OutputFileNameRoundTrip(j);
  }

  /** For the indices below 10000 the name is 22 characters: prefix, 4 digits, extension. */
  lemma OutputFileNameLength(i: nat)
    requires i < 10000
    ensures |OutputFileName(i)| == |ImageDirectory| + IndexWidth + |ImageExtension| == 22
  {
    IndexFieldShape(i);
  }

  lemma OutputFileNameExamples()
    ensures OutputFileName(7) == "output/images/0007.png"
    ensures OutputFileName(12345) == "output/images/12345.png"
  {
    assert DecimalDigits(7) == "7";
    assert IndexField(7) == "0007";
    assert DecimalDigits(12) == "12";
    assert DecimalDigits(123) == "123";
    assert DecimalDigits(1234) == "1234";
    assert DecimalDigits(12345) == "12345";
  }
}
