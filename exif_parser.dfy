/** `ExifParser`: copies the shell properties of a picture into the texts of
    its `PictureMediaContent`. Every setter writes `""` for a missing property;
    the shutter speed is shown as a fraction the code tries to shorten. */
module ExifParser {
  import opened Wrappers
  import opened Machine
  import opened Text
  import opened MediaContentInfo

  /** What the Windows property store reports for a file; `None` is a missing
      property. Values whose `ToString()` depends on the culture (the
      `DateTime` and the `double`s) are given already rendered; the focal
      length is given after its `(uint)` cast. */
  datatype ShellProperties = ShellProperties(
    DateCreated: Option<string>,
    CameraModel: Option<string>,
    CameraManufacturer: Option<string>,
    HorizontalSize: Option<UInt32>,
    VerticalSize: Option<UInt32>,
    HorizontalResolution: Option<string>,
    VerticalResolution: Option<string>,
    BitDepth: Option<UInt32>,
    ExposureTimeNumerator: Option<UInt32>,
    ExposureTimeDenominator: Option<UInt32>,
    FNumber: Option<string>,
    ISOSpeed: Option<UInt32>,
    FocalLength: Option<UInt32>,
    MeteringModeText: Option<string>,
    ExposureProgramText: Option<string>,
    WhiteBalanceText: Option<string>)

  /** The text of a string property: `""` when it is missing. */
  function PropertyText(p: Option<string>): (t: string)
    ensures p.None? ==> t == ""
    ensures p.Some? ==> t == p.value
  {
    if p.None? then "" else p.value
  }

  /** The text of a numeric property: `""` when it is missing, else its
      decimal digits. */
  function NumberText(p: Option<UInt32>): (t: string)
    ensures p.None? <==> t == ""
    ensures p.Some? ==> AllDigits(t) && DigitsValue(t) == p.value
  {
    if p.None? then "" else
      NatToStringValue(p.value);
      NatToString(p.value)
  }

  // ---------------------------------------------------- the shutter speed

  /** The shutter-speed text of `SetFnumberAndShutterSpeed`, as written: both
      `uint`s are cast to `int`, c := den % num (C#'s truncating remainder,
      replaced by num when it is 0), and the `uint` values are divided by c
      (as `long`, truncating). The comment calls c the greatest common
      divisor; it is not. */
  function ShutterSpeedFraction(numerator: Option<UInt32>, denominator: Option<UInt32>): (r: Result<string>)
    ensures numerator.None? || denominator.None? ==> r == Success("")
    ensures numerator == Some(0) && denominator.Some? ==> r == Failure(DivideByZero)
  {
    if denominator.None? || numerator.None? then Success("")
    else
      var den := UncheckedInt32(denominator.value);
      var num := UncheckedInt32(numerator.value);
      if num == 0 then Failure(DivideByZero)
      else if den == -TwoTo31 && num == -1 then Failure(Overflow)
      else
        var rem := TruncRem(den, num);
        var c := if rem == 0 then num else rem;
        Success(IntToString(TruncDiv(numerator.value, c)) + "/" + IntToString(TruncDiv(denominator.value, c)))
  }

  /** When the numerator divides the denominator (as in 1/250 or 10/2500) the
      text is "1/" followed by the quotient. */
  lemma ShutterSpeedWhenNumeratorDivides(num: UInt32, den: UInt32)
    requires 0 < num < TwoTo31 && den < TwoTo31 && den % num == 0
    ensures ShutterSpeedFraction(Some(num), Some(den)) == Success("1/" + NatToString(den / num))
  {
    assert UncheckedInt32(num) == num && UncheckedInt32(den) == den;
    assert TruncRem(den, num) == 0;
    DivUnique(num, num, 1, 0);
    assert TruncDiv(num, num) == 1;
    assert TruncDiv(den, num) == den / num;
    assert IntToString(1) == "1" by { assert DigitChar(1) == '1'; }
    assert IntToString(den / num) == NatToString(den / num);
    assert "1" + "/" == "1/";
  }

  /** The finding: 6/10 s is shown as "1/2", a different exposure time. */
  lemma ShutterSpeedNotReduced(num: UInt32, den: UInt32)
    requires num == 6 && den == 10
    ensures ShutterSpeedFraction(Some(num), Some(den)) == Success("1/2")
    ensures 1 * den != 2 * num
  {
    assert TruncRem(10, 6) == 4;
    assert TruncDiv(6, 4) == 1 && TruncDiv(10, 4) == 2;
    assert IntToString(1) == "1" by { assert DigitChar(1) == '1'; }
    assert IntToString(2) == "2" by { assert DigitChar(2) == '2'; }
    assert "1" + "/" + "2" == "1/2";
  }

  /** Divisibility among naturals. */
  predicate Divides(d: nat, n: nat) { d > 0 && n % d == 0 }

  /** Euclid's algorithm. */
  function Gcd(a: nat, b: nat): nat
    decreases b
  {
    if b == 0 then a else Gcd(b, a % b)
  }

  lemma MulMonotone(d: int, m: int)
    requires d > 0 && m >= 1
    ensures d * m >= d
  {
  }

  /** Quotient and remainder are the only ones of their kind. */
  lemma DivUnique(a: int, d: int, q: int, r: int)
    requires d > 0 && 0 <= r < d && a == d * q + r
    ensures a / d == q && a % d == r
  {
    var q0, r0 := a / d, a % d;
    assert a == d * q0 + r0;
    assert d * (q - q0) == r0 - r;
    if q - q0 >= 1 {
      MulMonotone(d, q - q0);
    } else if q0 - q >= 1 {
      MulMonotone(d, q0 - q);
    }
  }

  lemma MultipleDivides(d: nat, k: nat)
    requires d > 0
    ensures Divides(d, d * k)
  {
    DivUnique(d * k, d, k, 0);
  }

  lemma DividesRemainder(d: nat, a: nat, b: nat)
    requires Divides(d, a) && Divides(d, b) && b > 0
    ensures Divides(d, a % b)
  {
    var x, y := a / d, b / d;
    assert a == d * x && b == d * y;
    var q := a / b;
    assert a % b == a - b * q;
    assert a % b == d * x - d * y * q;
    assert a % b == d * (x - y * q);
    var z := x - y * q;
    assert d * z >= 0;
    MultipleDivides(d, z);
  }

  lemma DividesSum(d: nat, b: nat, q: nat, r: nat)
    requires Divides(d, b) && Divides(d, r)
    ensures Divides(d, b * q + r)
  {
    var x, y := b / d, r / d;
    assert b == d * x && r == d * y;
    assert b * q + r == d * (x * q + y);
    MultipleDivides(d, x * q + y);
  }

  lemma {:induction false} GcdDivides(a: nat, b: nat)
    requires a > 0 || b > 0
    ensures Divides(Gcd(a, b), a) && Divides(Gcd(a, b), b)
    decreases b
  {
    if b == 0 {
      MultipleDivides(a, 1);
      MultipleDivides(a, 0);
    } else {
      GcdDivides(b, a % b);
      assert a == b * (a / b) + a % b;
      DividesSum(Gcd(b, a % b), b, a / b, a % b);
    }
  }

  lemma {:induction false} GcdGreatest(a: nat, b: nat, d: nat)
    requires Divides(d, a) && Divides(d, b)
    ensures Divides(d, Gcd(a, b))
    decreases b
  {
    if b != 0 {
      DividesRemainder(d, a, b);
      GcdGreatest(b, a % b, d);
    }
  }

  lemma DividesPositiveIsSmaller(d: nat, n: nat)
    requires Divides(d, n) && n > 0
    ensures d <= n
  {
    var k := n / d;
    assert n == d * k;
    assert k >= 1;
  }

  /** The shutter-speed text the comment promises: the fraction in lowest
      terms. A zero numerator still fails as in the code. */
  function ReducedShutterSpeedFraction(numerator: Option<UInt32>, denominator: Option<UInt32>): (r: Result<string>)
    ensures numerator.None? || denominator.None? ==> r == Success("")
    ensures numerator == Some(0) && denominator.Some? ==> r == Failure(DivideByZero)
  {
    if denominator.None? || numerator.None? then Success("")
    else if numerator.value == 0 then Failure(DivideByZero)
    else
      var g := Gcd(numerator.value, denominator.value);
      GcdDivides(numerator.value, denominator.value);
      Success(NatToString(numerator.value / g) + "/" + NatToString(denominator.value / g))
  }

  lemma ScaleDivides(g: nat, k: nat, m: nat)
    requires g > 0 && Divides(k, m)
    ensures Divides(g * k, g * m)
  {
    var x := m / k;
    assert m == k * x;
    assert g * m == (g * k) * x;
    MultipleDivides(g * k, x);
  }

  /** Only the factor 1 keeps a positive number's multiple dividing it. */
  lemma MultipleDividingItself(g: nat, k: nat)
    requires g > 0 && Divides(g * k, g)
    ensures k == 1
  {
    DividesPositiveIsSmaller(g * k, g);
    if k > 1 {
      MulMonotone(g, k - 1);
    }
  }

  /** Dividing both terms by their greatest common divisor keeps the value of
      the fraction and leaves no common factor. */
  lemma ReducedFractionIsLowestTerms(num: nat, den: nat)
    requires num > 0
    ensures var g := Gcd(num, den);
            && g > 0
            && (num / g) * den == (den / g) * num
            && forall k: nat :: Divides(k, num / g) && Divides(k, den / g) ==> k == 1
  {
    var g := Gcd(num, den);
    GcdDivides(num, den);
    var n', d' := num / g, den / g;
    assert num == g * n' && den == g * d';
    assert n' * den == n' * (g * d') == d' * (g * n') == d' * num;
    forall k: nat | Divides(k, n') && Divides(k, d')
      ensures k == 1
    {
      ScaleDivides(g, k, n');
      ScaleDivides(g, k, d');
      GcdGreatest(num, den, g * k);
      MultipleDividingItself(g, k);
    }
  }

  lemma GcdOfDivisor(num: nat, den: nat)
    requires num > 0 && den % num == 0
    ensures Gcd(num, den) == num
  {
    var g := Gcd(num, den);
    GcdDivides(num, den);
    MultipleDivides(num, 1);
    GcdGreatest(num, den, num);
    DividesPositiveIsSmaller(g, num);
    DividesPositiveIsSmaller(num, g);
  }

  /** Where the code's reduction is right, when the numerator divides the
      denominator, both fractions read the same. */
  lemma ReducedAgreesWhenNumeratorDivides(num: UInt32, den: UInt32)
    requires 0 < num < TwoTo31 && den < TwoTo31 && den % num == 0
    ensures ReducedShutterSpeedFraction(Some(num), Some(den)) == ShutterSpeedFraction(Some(num), Some(den))
  {
    GcdOfDivisor(num, den);
    ShutterSpeedWhenNumeratorDivides(num, den);
    assert num / num == 1;
  }

  /** On the finding's input the reduced text is "3/5". */
  lemma ReducedShutterSpeedOnFindingInput(num: UInt32, den: UInt32)
    requires num == 6 && den == 10
    ensures ReducedShutterSpeedFraction(Some(num), Some(den)) == Success("3/5")
  {
    assert Gcd(6, 10) == 2;
    assert NatToString(3) == "3" by { assert DigitChar(3) == '3'; }
    assert NatToString(5) == "5" by { assert DigitChar(5) == '5'; }
    assert 6 / 2 == 3 && 10 / 2 == 5;
    assert "3" + "/" + "5" == "3/5";
  }

  // ------------------------------------------------------------- setters

  method SetMediaDate(shell: ShellProperties, content: PictureMediaContent)
    modifies content.Info`MediaDate
    ensures content.Info.MediaDate == Some(PropertyText(shell.DateCreated))
  {
    content.Info.MediaDate := Some(PropertyText(shell.DateCreated));
  }

  method SetCameraData(shell: ShellProperties, content: PictureMediaContent)
    modifies content`CameraModel, content`CameraManufacturer
    ensures content.CameraModel == Some(PropertyText(shell.CameraModel))
    ensures content.CameraManufacturer == Some(PropertyText(shell.CameraManufacturer))
  {
    content.CameraModel := Some(PropertyText(shell.CameraModel));
    content.CameraManufacturer := Some(PropertyText(shell.CameraManufacturer));
  }

  method SetImageWidthAndHeight(shell: ShellProperties, content: PictureMediaContent)
    modifies content`PictureWidth, content`PictureHeight
    ensures content.PictureWidth == Some(NumberText(shell.HorizontalSize))
    ensures content.PictureHeight == Some(NumberText(shell.VerticalSize))
  {
    content.PictureWidth := Some(NumberText(shell.HorizontalSize));
    content.PictureHeight := Some(NumberText(shell.VerticalSize));
  }

  method SetImageResolutionWidthAndHeight(shell: ShellProperties, content: PictureMediaContent)
    modifies content`HorizenResolution, content`VerticalResolution
    ensures content.HorizenResolution == Some(PropertyText(shell.HorizontalResolution))
    ensures content.VerticalResolution == Some(PropertyText(shell.VerticalResolution))
  {
    content.HorizenResolution := Some(PropertyText(shell.HorizontalResolution));
    content.VerticalResolution := Some(PropertyText(shell.VerticalResolution));
  }

  method SetBitDepth(shell: ShellProperties, content: PictureMediaContent)
    modifies content`BitDepth
    ensures content.BitDepth == Some(NumberText(shell.BitDepth))
  {
    content.BitDepth := Some(NumberText(shell.BitDepth));
  }

  /** Sets the shutter speed, then the aperture; an exception from the
      shutter-speed arithmetic escapes before the aperture is written. */
  method SetFnumberAndShutterSpeed(shell: ShellProperties, content: PictureMediaContent) returns (error: Option<Error>)
    modifies content`ShutterSpeedText, content`Aperture
    ensures var s := ShutterSpeedFraction(shell.ExposureTimeNumerator, shell.ExposureTimeDenominator);
            if s.Failure? then error == Some(s.error) && content.ShutterSpeedText == old(content.ShutterSpeedText) && content.Aperture == old(content.Aperture)
            else error == None && content.ShutterSpeedText == Some(s.value) && content.Aperture == Some(PropertyText(shell.FNumber))
  {
    var s := ShutterSpeedFraction(shell.ExposureTimeNumerator, shell.ExposureTimeDenominator);
    if s.Failure? {
      return Some(s.error);
    }
    content.ShutterSpeedText := Some(s.value);
    content.Aperture := Some(PropertyText(shell.FNumber));
    error := None;
  }

  method SetISO(shell: ShellProperties, content: PictureMediaContent)
    modifies content`Iso
    ensures content.Iso == Some(NumberText(shell.ISOSpeed))
  {
    content.Iso := Some(NumberText(shell.ISOSpeed));
  }

  method SetFocusLength(shell: ShellProperties, content: PictureMediaContent)
    modifies content`FocalLength
    ensures content.FocalLength == Some(NumberText(shell.FocalLength))
  {
    content.FocalLength := Some(NumberText(shell.FocalLength));
  }

  method SetExposeModeAndWhiteBlance(shell: ShellProperties, content: PictureMediaContent)
    modifies content`ExposeProgramText, content`WhiteBlanceText
    ensures content.ExposeProgramText == Some(PropertyText(shell.ExposureProgramText))
    ensures content.WhiteBlanceText == Some(PropertyText(shell.WhiteBalanceText))
  {
    content.ExposeProgramText := Some(PropertyText(shell.ExposureProgramText));
    content.WhiteBlanceText := Some(PropertyText(shell.WhiteBalanceText));
  }

  method SetMeteringMode(shell: ShellProperties, content: PictureMediaContent)
    modifies content`MeteringModeText
    ensures content.MeteringModeText == Some(PropertyText(shell.MeteringModeText))
  {
    content.MeteringModeText := Some(PropertyText(shell.MeteringModeText));
  }

  /** The texts every setter that ran before the shutter speed has written. */
  predicate FirstSettersRan(shell: ShellProperties, content: PictureMediaContent)
    reads content.Info`MediaDate, content`CameraModel, content`CameraManufacturer, content`PictureWidth
    reads content`PictureHeight, content`HorizenResolution, content`VerticalResolution, content`BitDepth
  {
    && content.Info.MediaDate == Some(PropertyText(shell.DateCreated))
    && content.CameraModel == Some(PropertyText(shell.CameraModel))
    && content.CameraManufacturer == Some(PropertyText(shell.CameraManufacturer))
    && content.PictureWidth == Some(NumberText(shell.HorizontalSize))
    && content.PictureHeight == Some(NumberText(shell.VerticalSize))
    && content.HorizenResolution == Some(PropertyText(shell.HorizontalResolution))
    && content.VerticalResolution == Some(PropertyText(shell.VerticalResolution))
    && content.BitDepth == Some(NumberText(shell.BitDepth))
  }

  /** The texts the setters after the shutter speed write. */
  predicate LastSettersRan(shell: ShellProperties, content: PictureMediaContent)
    reads content`Iso, content`FocalLength, content`MeteringModeText, content`ExposeProgramText, content`WhiteBlanceText
  {
    && content.Iso == Some(NumberText(shell.ISOSpeed))
    && content.FocalLength == Some(NumberText(shell.FocalLength))
    && content.MeteringModeText == Some(PropertyText(shell.MeteringModeText))
    && content.ExposeProgramText == Some(PropertyText(shell.ExposureProgramText))
    && content.WhiteBlanceText == Some(PropertyText(shell.WhiteBalanceText))
  }

  /** `SetFileProperty`: opens the file's property store (`None` when that
      throws) and runs the ten setters in order; an exception stops the rest. */
  method SetFileProperty(shell: Option<ShellProperties>, content: PictureMediaContent) returns (error: Option<Error>)
    modifies content, content.Info`MediaDate
    ensures shell.None? ==> error == Some(ShellFailure) && unchanged(content) && unchanged(content.Info)
    ensures shell.Some? ==> FirstSettersRan(shell.value, content)
    ensures shell.Some? && ShutterSpeedFraction(shell.value.ExposureTimeNumerator, shell.value.ExposureTimeDenominator).Success? ==>
              && error == None
              && content.ShutterSpeedText == Some(ShutterSpeedFraction(shell.value.ExposureTimeNumerator, shell.value.ExposureTimeDenominator).value)
              && content.Aperture == Some(PropertyText(shell.value.FNumber))
              && LastSettersRan(shell.value, content)
    ensures shell.Some? && ShutterSpeedFraction(shell.value.ExposureTimeNumerator, shell.value.ExposureTimeDenominator).Failure? ==>
              && error == Some(ShutterSpeedFraction(shell.value.ExposureTimeNumerator, shell.value.ExposureTimeDenominator).error)
              && content.ShutterSpeedText == old(content.ShutterSpeedText) && content.Aperture == old(content.Aperture)
              && LastSettersUnchanged(content)
  {
    if shell.None? {
      return Some(ShellFailure);
    }
    var properties := shell.value;
    SetPropertiesBeforeShutterSpeed(properties, content);
    error := SetFnumberAndShutterSpeed(properties, content);
    assert FirstSettersRan(properties, content);
    if error.None? {
      SetPropertiesAfterShutterSpeed(properties, content);
      assert FirstSettersRan(properties, content);
    }
  }

  /** The last four setters have not run. */
  twostate predicate LastSettersUnchanged(content: PictureMediaContent)
    reads content`Iso, content`FocalLength, content`MeteringModeText, content`ExposeProgramText, content`WhiteBlanceText
  {
    && content.Iso == old(content.Iso) && content.FocalLength == old(content.FocalLength)
    && content.MeteringModeText == old(content.MeteringModeText)
    && content.ExposeProgramText == old(content.ExposeProgramText)
    && content.WhiteBlanceText == old(content.WhiteBlanceText)
  }

  /** The five setters `SetFileProperty` runs before the shutter speed. */
  method SetPropertiesBeforeShutterSpeed(shell: ShellProperties, content: PictureMediaContent)
    modifies content.Info`MediaDate, content`CameraModel, content`CameraManufacturer, content`PictureWidth
    modifies content`PictureHeight, content`HorizenResolution, content`VerticalResolution, content`BitDepth
    ensures FirstSettersRan(shell, content)
  {
    SetMediaDate(shell, content);
    SetCameraData(shell, content);
    SetImageWidthAndHeight(shell, content);
    SetImageResolutionWidthAndHeight(shell, content);
    SetBitDepth(shell, content);
  }

  /** The four setters `SetFileProperty` runs after the shutter speed. */
  method SetPropertiesAfterShutterSpeed(shell: ShellProperties, content: PictureMediaContent)
    modifies content`Iso, content`FocalLength, content`MeteringModeText, content`ExposeProgramText, content`WhiteBlanceText
    ensures LastSettersRan(shell, content)
  {
    SetISO(shell, content);
    SetFocusLength(shell, content);
    SetMeteringMode(shell, content);
    SetExposeModeAndWhiteBlance(shell, content);
  }

  /** `SetExifDataToMediaInfo`: the property store of the content's own file.
      Opening it for a `null` path throws `ArgumentNullException`. */
  method SetExifDataToMediaInfo(content: PictureMediaContent, shell: Option<ShellProperties>) returns (error: Option<Error>)
    modifies content, content.Info`MediaDate
    ensures content.Info.FilePath.None? ==> error == Some(ArgumentNull) && unchanged(content) && unchanged(content.Info)
    ensures content.Info.FilePath.Some? && shell.None? ==> error == Some(ShellFailure) && unchanged(content) && unchanged(content.Info)
    ensures content.Info.FilePath.Some? && shell.Some? ==> FirstSettersRan(shell.value, content)
    ensures content.Info.FilePath.Some? && shell.Some? && ShutterSpeedFraction(shell.value.ExposureTimeNumerator, shell.value.ExposureTimeDenominator).Success? ==>
              && error == None
              && content.ShutterSpeedText == Some(ShutterSpeedFraction(shell.value.ExposureTimeNumerator, shell.value.ExposureTimeDenominator).value)
              && content.Aperture == Some(PropertyText(shell.value.FNumber))
              && LastSettersRan(shell.value, content)
    ensures content.Info.FilePath.Some? && shell.Some? && ShutterSpeedFraction(shell.value.ExposureTimeNumerator, shell.value.ExposureTimeDenominator).Failure? ==>
              && error == Some(ShutterSpeedFraction(shell.value.ExposureTimeNumerator, shell.value.ExposureTimeDenominator).error)
              && content.ShutterSpeedText == old(content.ShutterSpeedText) && content.Aperture == old(content.Aperture)
              && LastSettersUnchanged(content)
  {
    if content.Info.FilePath.None? {
      return Some(ArgumentNull);
    }
    error := SetFileProperty(shell, content);
  }
}
