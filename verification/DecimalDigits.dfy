/** Decimal digit strings: printing, zero padding and reading back. */
module DecimalDigits {

  predicate IsDigit(c: char) { '0' <= c <= '9' }

  predicate AllDigits(s: string) { forall i :: 0 <= i < |s| ==> IsDigit(s[i]) }

  function DigitChar(d: nat): (c: char)
    requires d < 10
    ensures IsDigit(c) && DigitValue(c) == d
  {
    (48 + d) as char
  }

  lemma TenDigits(d: nat)
    requires d < 10
    ensures DigitChar(d) == "0123456789"[d]
  {
  }

  function DigitValue(c: char): (d: nat)
    requires IsDigit(c)
    ensures d < 10
  {
    c as int - 48
  }

  function Pow10(k: nat): (p: nat)
    ensures p > 0
  {
    if k == 0 then 1 else 10 * Pow10(k - 1)
  }

  /** The decimal digits of `n`, without leading zeros. */
  function Digits(n: nat): (s: string)
    ensures AllDigits(s) && s != []
  {
    if n < 10 then [DigitChar(n)] else Digits(n / 10) + [DigitChar(n % 10)]
  }

  function Read(s: string): nat
    requires AllDigits(s)
  {
    if s == [] then 0 else Read(s[..|s| - 1]) * 10 + DigitValue(s[|s| - 1])
  }

  function Zeros(k: nat): (s: string)
    ensures |s| == k && AllDigits(s)
  {
    seq(k, _ => '0')
  }

  /** At least `width` characters, zeros in front. */
  function Pad(s: string, width: nat): string {
    Zeros(if |s| < width then width - |s| else 0) + s
  }

  lemma {:induction false} ReadDigits(n: nat)
    ensures Read(Digits(n)) == n
    ensures n > 0 ==> Digits(n)[0] != '0'
    decreases n
  {
    if n >= 10 {
      ReadDigits(n / 10);
      assert Digits(n)[..|Digits(n)| - 1] == Digits(n / 10);
    }
  }

  lemma {:induction false} DigitsFit(n: nat, k: nat)
    requires k > 0 && n < Pow10(k)
    ensures |Digits(n)| <= k
    decreases k
  {
    if n >= 10 {
      DigitsFit(n / 10, k - 1);
    }
  }

  lemma {:induction false} ReadZeros(k: nat)
    ensures Read(Zeros(k)) == 0
    decreases k
  {
    if k > 0 {
      assert Zeros(k)[..k - 1] == Zeros(k - 1);
      ReadZeros(k - 1);
    }
  }

  lemma {:induction false} ReadPadded(k: nat, s: string)
    requires AllDigits(s)
    ensures AllDigits(Zeros(k) + s) && Read(Zeros(k) + s) == Read(s)
    decreases |s|
  {
    var t := Zeros(k) + s;
    if s == [] {
      assert t == Zeros(k);
      ReadZeros(k);
    } else {
      ReadPadded(k, s[..|s| - 1]);
      assert t[..|t| - 1] == Zeros(k) + s[..|s| - 1];
    }
  }

  lemma PadReads(n: nat, width: nat)
    ensures AllDigits(Pad(Digits(n), width)) && Read(Pad(Digits(n), width)) == n
    ensures width > 0 && n < Pow10(width) ==> |Pad(Digits(n), width)| == width
    ensures |Pad(Digits(n), width)| >= width
  {
    hide Read, Digits, Pow10;
    var s := Digits(n);
    ReadDigits(n);
    ReadPadded(if |s| < width then width - |s| else 0, s);
    if width > 0 && n < Pow10(width) { DigitsFit(n, width); }
  }

  /** A digit string without a leading zero is the one printed for its value. */
  lemma {:induction false} DigitsOfRead(s: string)
    requires AllDigits(s) && s != [] && (|s| > 1 ==> s[0] != '0')
    ensures Digits(Read(s)) == s
    decreases |s|
  {
    if |s| == 1 {
      assert s[..0] == [] && Read(s) == DigitValue(s[0]);
    } else {
      hide Read, Digits;
      var init, d := s[..|s| - 1], s[|s| - 1];
      DigitsOfRead(init);
      LeadingDigit(init);
      ReadSnoc(s);
      DigitsSnoc(Read(init), DigitValue(d));
      assert s == init + [d];
    }
  }

  lemma ReadSnoc(s: string)
    requires AllDigits(s) && s != []
    ensures Read(s) == Read(s[..|s| - 1]) * 10 + DigitValue(s[|s| - 1])
  {
  }

  lemma DigitsSnoc(n: nat, d: nat)
    requires n > 0 && d < 10
    ensures Digits(n * 10 + d) == Digits(n) + [DigitChar(d)]
  {
    LastDigit(n, d);
  }

  lemma LastDigit(n: nat, d: nat)
    requires d < 10
    ensures (n * 10 + d) / 10 == n && (n * 10 + d) % 10 == d
  {
  }

  lemma {:induction false} LeadingDigit(s: string)
    requires AllDigits(s) && s != [] && s[0] != '0'
    ensures Read(s) > 0
    decreases |s|
  {
    if |s| > 1 { LeadingDigit(s[..|s| - 1]); } else { assert s[..0] == []; }
  }

  lemma {:induction false} ReadBound(s: string)
    requires AllDigits(s)
    ensures Read(s) < Pow10(|s|)
    decreases |s|
  {
    if s != [] { ReadBound(s[..|s| - 1]); }
  }

  /** Digit strings of one width are told apart by their values. */
  lemma {:induction false} SameWidthSameDigits(a: string, b: string)
    requires AllDigits(a) && AllDigits(b) && |a| == |b| && Read(a) == Read(b)
    ensures a == b
    decreases |a|
  {
    if a != [] {
      var n := |a| - 1;
      LastDigit(Read(a[..n]), DigitValue(a[n]));
      LastDigit(Read(b[..n]), DigitValue(b[n]));
      SameWidthSameDigits(a[..n], b[..n]);
      assert a == a[..n] + [a[n]] && b == b[..n] + [b[n]];
    }
  }

  /** A digit string of at least `width` characters, with no zero in front of more, is its value padded. */
  lemma PadOfRead(s: string, width: nat)
    requires AllDigits(s) && 1 <= width <= |s| && (|s| > width ==> s[0] != '0')
    ensures s == Pad(Digits(Read(s)), width)
  {
    hide Digits, Read, Pow10;
    if |s| > width {
      DigitsOfRead(s);
    } else {
      ReadBound(s);
      PadReads(Read(s), width);
      SameWidthSameDigits(s, Pad(Digits(Read(s)), width));
    }
  }

  // ------------------------------------------------------------- cutting digits off

  /** `n` without its last `k` digits. */
  function Whole(n: nat, k: nat): nat {
    if k == 0 then n else Whole(n / 10, k - 1)
  }

  /** The last `k` digits of `n`. */
  function LowDigits(n: nat, k: nat): (s: string)
    ensures |s| == k && AllDigits(s)
  {
    if k == 0 then [] else LowDigits(n / 10, k - 1) + [DigitChar(n % 10)]
  }

  lemma {:induction false} ReadParts(n: nat, k: nat)
    ensures AllDigits(Digits(Whole(n, k)) + LowDigits(n, k))
    ensures Read(Digits(Whole(n, k)) + LowDigits(n, k)) == n
    decreases k
  {
    var s := Digits(Whole(n, k)) + LowDigits(n, k);
    if k == 0 {
      assert s == Digits(n);
      ReadDigits(n);
    } else {
      ReadParts(n / 10, k - 1);
      assert s[..|s| - 1] == Digits(Whole(n / 10, k - 1)) + LowDigits(n / 10, k - 1);
    }
  }

  lemma PadStep(n: nat, k: nat)
    requires k > 0
    ensures Pad(Digits(n), k + 1) == Pad(Digits(n / 10), k) + [DigitChar(n % 10)]
  {
    if n < 10 {
      assert Digits(n / 10) == ['0'];
      assert Zeros(k - 1) + ['0'] == Zeros(k);
    }
  }

  /** Padding to `k + 1` digits and cutting off the last `k` splits the number there. */
  lemma {:induction false} PaddedSplits(n: nat, k: nat)
    ensures Pad(Digits(n), k + 1) == Digits(Whole(n, k)) + LowDigits(n, k)
    decreases k
  {
    if k > 0 {
      PadStep(n, k);
      PaddedSplits(n / 10, k - 1);
    } else {
      assert Pad(Digits(n), 1) == Digits(n);
    }
  }

  /** A whole part without superfluous zeros and any last digits are those of the number they read as. */
  lemma {:induction false} PartsAreUnique(whole: string, low: string)
    requires AllDigits(whole) && AllDigits(low) && whole != [] && (|whole| > 1 ==> whole[0] != '0')
    ensures AllDigits(whole + low)
    ensures whole == Digits(Whole(Read(whole + low), |low|)) && low == LowDigits(Read(whole + low), |low|)
    decreases |low|
  {
    if low == [] {
      assert whole + low == whole;
      DigitsOfRead(whole);
    } else {
      var n := |low| - 1;
      var init, s := low[..n], whole + low;
      PartsAreUnique(whole, init);
      assert s[..|s| - 1] == whole + init && s[|s| - 1] == low[n];
      LastDigit(Read(whole + init), DigitValue(low[n]));
      assert low == init + [low[n]];
    }
  }
}
