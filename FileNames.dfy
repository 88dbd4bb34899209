/**
  File names of exported frames: the frame number printed with the pattern
  "%08i" (decimal, left-padded with '0' to eight characters), placed in the
  export folder as `frame_<number>.<extension>`.
 */
module FileNames {

  /** Minimum width of the printed frame number ("%08i"). */
  const FrameDigits: nat := 8

  predicate IsDigit(c: char) {
    '0' <= c <= '9'
  }

  predicate AllDigits(s: string) {
    forall i :: 0 <= i < |s| ==> IsDigit(s[i])
  }

  function Pow10(k: nat): (p: nat)
    ensures p >= 1
  {
    if k == 0 then 1 else 10 * Pow10(k - 1)
  }

  function DigitChar(d: nat): (c: char)
    requires d < 10
    ensures IsDigit(c) && c as int - '0' as int == d
  {
    ('0' as int + d) as char
  }

  /** Decimal digits of n, most significant first, without leading zeros. */
  function Decimal(n: nat): (s: string)
    ensures 1 <= |s| && AllDigits(s)
  {
    if n < 10 then [DigitChar(n)] else Decimal(n / 10) + [DigitChar(n % 10)]
  }

  function Zeros(k: nat): (s: string)
    ensures |s| == k && AllDigits(s)
  {
    if k == 0 then [] else Zeros(k - 1) + ['0']
  }

  /** A number of at least 10^k has more than k decimal digits. */
  lemma {:induction false} DecimalLengthAbove(n: nat, k: nat)
    requires Pow10(k) <= n
    ensures k < |Decimal(n)|
  {
    if k > 0 {
      DecimalLengthAbove(n / 10, k - 1);
    }
  }

  /** What sprintf("%08i", n) prints for a non-negative n: from 10^8 on, the
      plain decimal digits with no padding. */
  function PadFrameNumber(n: nat): (s: string)
    ensures AllDigits(s) && FrameDigits <= |s|
    ensures Pow10(FrameDigits) <= n ==> s == Decimal(n)
  {
    var d := Decimal(n);
    if Pow10(FrameDigits) <= n then DecimalLengthAbove(n, FrameDigits); d
    else if |d| < FrameDigits then Zeros(FrameDigits - |d|) + d else d
  }

  /** The number a string of decimal digits denotes (the inverse of printing). */
  function DigitsValue(s: string): nat
    requires AllDigits(s)
  {
    if s == [] then 0
    else DigitsValue(s[..|s| - 1]) * 10 + (s[|s| - 1] as int - '0' as int)
  }

  /** The file name of frame `frame`: folder + "/frame_" + "%08i" + "." + extension. */
  function FileNameForFrame(folder: string, extension: string, frame: nat): string
  {
    folder + "/" + "frame_" + PadFrameNumber(frame) + "." + extension
  }

  /** Reading back the digits that Decimal printed gives the number. */
  lemma {:induction false} DecimalValue(n: nat)
    ensures DigitsValue(Decimal(n)) == n
  {
    if n >= 10 {
      DecimalValue(n / 10);
      var s := Decimal(n);
      assert s[..|s| - 1] == Decimal(n / 10);
    }
  }

  /** Leading zeros do not change the value of a digit string. */
  lemma {:induction false} LeadingZerosValue(k: nat, s: string)
    requires AllDigits(s)
    ensures AllDigits(Zeros(k) + s)
    ensures DigitsValue(Zeros(k) + s) == DigitsValue(s)
  {
    var z := Zeros(k) + s;
    if s == [] {
      assert z == Zeros(k);
      if k > 0 {
        assert z[..|z| - 1] == Zeros(k - 1) + [];
        LeadingZerosValue(k - 1, []);
      }
    } else {
      var n := |s| - 1;
      assert z[..|z| - 1] == Zeros(k) + s[..n];
      LeadingZerosValue(k, s[..n]);
    }
  }

  /** Printing with "%08i" and reading the digits back returns the frame number. */
  lemma PadRoundTrip(n: nat)
    ensures DigitsValue(PadFrameNumber(n)) == n
  {
    DecimalValue(n);
    var d := Decimal(n);
    if |d| < FrameDigits {
      LeadingZerosValue(FrameDigits - |d|, d);
    }
  }

  /** A number below 10^k has at most k decimal digits. */
  lemma {:induction false} DecimalLength(n: nat, k: nat)
    requires 1 <= k && n < Pow10(k)
    ensures |Decimal(n)| <= k
  {
    if n >= 10 {
      assert k >= 2;
      DecimalLength(n / 10, k - 1);
    }
  }

  /** Every frame number in [0, 10^8) prints as exactly eight digits. */
  lemma PadWidth(n: nat)
    requires n < 100_000_000
    ensures |PadFrameNumber(n)| == FrameDigits
  {
    assert Pow10(8) == 100_000_000;
    DecimalLength(n, 8);
  }

  /** The frame number can be read back from the file name: the characters
      between the folder + "/frame_" prefix and the "." + extension suffix. */
  lemma FrameFromFileName(folder: string, extension: string, frame: nat)
    ensures var name := FileNameForFrame(folder, extension, frame);
      |folder| + 7 <= |name| - |extension| - 1
      && name[..|folder|] == folder
      && name[|folder|..|folder| + 7] == "/frame_"
      && name[|name| - |extension| - 1] == '.'
      && name[|name| - |extension|..] == extension
      && AllDigits(name[|folder| + 7..|name| - |extension| - 1])
      && DigitsValue(name[|folder| + 7..|name| - |extension| - 1]) == frame
  {
    var name := FileNameForFrame(folder, extension, frame);
    var p := PadFrameNumber(frame);
    assert name == folder + "/frame_" + p + "." + extension;
    assert name[|folder| + 7..|name| - |extension| - 1] == p;
    PadRoundTrip(frame);
  }

  /** Distinct frames never share a file name (for a fixed folder and extension). */
  lemma FileNameInjective(folder: string, extension: string, a: nat, b: nat)
    requires FileNameForFrame(folder, extension, a) == FileNameForFrame(folder, extension, b)
    ensures a == b
  {
    FrameFromFileName(folder, extension, a);
    FrameFromFileName(folder, extension, b);
  }

  /** Frame 42 of folder "out" with extension "png". */
  lemma FileNameExample()
    ensures FileNameForFrame("out", "png", 42) == "out/frame_00000042.png"
  {
    assert Decimal(42) == Decimal(4) + [DigitChar(2)] == "42";
    assert Zeros(6) == "000000";
    assert PadFrameNumber(42) == "00000042";
    assert "out" + "/" + "frame_" == "out/frame_";
    assert "out/frame_" + "00000042" == "out/frame_00000042";
    assert "out/frame_00000042" + "." + "png" == "out/frame_00000042.png";
  }
}
