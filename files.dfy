/**
 * The upload size check for evidence files: a file is accepted up to 50 MiB,
 * and a larger one is refused with a message giving its size in MiB,
 * formatted as `toFixed(2)` prints it.
 */
module Files {
  import opened Wrappers
  import opened Decimal

  /** `MAX_FILE_SIZE`: 50 * 1024 * 1024 bytes. */
  const MaxFileSize: nat := 50 * 1024 * 1024

  const MiB: nat := 1024 * 1024

  /** `FileValidation`: the verdict and, when refused, the message. */
  datatype FileValidation = FileValidation(valid: bool, error: Option<string>)

  /**
   * The integer `n` that `(size / 1024 / 1024).toFixed(2)` prints as
   * `n / 100`: the one closest to `size * 100 / MiB`, the larger on a tie.
   * Dividing by a power of two is exact, so for every size below 2^53 the
   * double the source divides is the exact quotient.
   */
  function Hundredths(size: nat): nat {
    (size * 100 + MiB / 2) / MiB
  }

  /** `toFixed(2)` of `n / 100`: the whole part, a point, and two digits. */
  function TwoDecimals(n: nat): string {
    NatToString(n / 100) + "." + [DigitChar(n % 100 / 10), DigitChar(n % 10)]
  }

  const ErrorLead := "File size " + "exceeds 50MB " + "limit. " + "Your file is "

  /** The message for a refused file of `size` bytes. */
  function SizeError(size: nat): string {
    ErrorLead + TwoDecimals(Hundredths(size)) + "MB."
  }

  /** `validateFile(file)` on the file's size in bytes. */
  function ValidateFile(size: nat): (r: FileValidation)
    ensures r.valid <==> size <= MaxFileSize
    ensures r.error.Some? <==> !r.valid
    ensures !r.valid ==> r.error == Some(SizeError(size))
  {
    if size > MaxFileSize then FileValidation(false, Some(SizeError(size)))
    else FileValidation(true, None)
  }

  /** The limit itself is accepted, one byte more is not. */
  lemma LimitInclusive()
    ensures MaxFileSize == 52_428_800
    ensures ValidateFile(MaxFileSize).valid
    ensures !ValidateFile(MaxFileSize + 1).valid
  {
  }

  /**
   * The printed figure is the size in MiB rounded to the nearest hundredth,
   * a tie going up: `n / 100 - size / MiB` lies in (-1/200, 1/200].
   */
  lemma HundredthsRoundNearest(size: nat)
    ensures var n := Hundredths(size);
            && 2 * size * 100 - MiB < 2 * n * MiB <= 2 * size * 100 + MiB
  {
    var n := Hundredths(size);
    var d := size * 100 + MiB / 2;
    assert n * MiB <= d < n * MiB + MiB;
  }

  /** Rounding is monotone: a larger file never shows a smaller figure. */
  lemma HundredthsMonotone(a: nat, b: nat)
    requires a <= b
    ensures Hundredths(a) <= Hundredths(b)
  {
    var da, db := a * 100 + MiB / 2, b * 100 + MiB / 2;
    var na, nb := da / MiB, db / MiB;
    assert na * MiB <= da <= db < nb * MiB + MiB;
    assert na * MiB < (nb + 1) * MiB;
  }

  /** A refused file never shows a figure below 50.00. */
  lemma RefusedShowsAtLeastLimit(size: nat)
    requires !ValidateFile(size).valid
    ensures Hundredths(size) >= 5000
  {
    HundredthsMonotone(MaxFileSize, size);
    assert Hundredths(MaxFileSize) == 5000;
  }

  /** The figure reads back: its whole part and two digits denote `n / 100`. */
  lemma TwoDecimalsValue(n: nat)
    ensures var s, w := TwoDecimals(n), NatToString(n / 100);
            && s == w + "." + s[|w| + 1..]
            && |s[|w| + 1..]| == 2
            && ValueIn(w, 10) * 100 + DigitValue(s[|w| + 1]) * 10 + DigitValue(s[|w| + 2]) == n
  {
    var w := NatToString(n / 100);
    var s := TwoDecimals(n);
    assert s[|w| + 1..] == [DigitChar(n % 100 / 10), DigitChar(n % 10)];
    NatToStringValue(n / 100);
  }

  /** A file of one byte over the limit is told it is 50.00MB. */
  lemma OneByteOver()
    ensures ValidateFile(MaxFileSize + 1).error == Some(ErrorLead + "50.00" + "MB.")
  {
    assert Hundredths(MaxFileSize + 1) == 5000;
    assert NatToString(50) == "50";
    assert TwoDecimals(5000) == "50.00";
  }

  /** A 100 MiB file is told it is 100.00MB. */
  lemma HundredMiB()
    ensures ValidateFile(100 * MiB).error == Some(ErrorLead + "100.00" + "MB.")
  {
    assert Hundredths(100 * MiB) == 10000;
    assert NatToString(100) == "100";
    assert TwoDecimals(10000) == "100.00";
  }
}
