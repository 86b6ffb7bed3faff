// QgsRendererRangeLabelFormat: the template, decimal precision and
// trailing-zero policy used to generate the default label of a class.
// A value type in the source (the renderer keeps its own copy), so a
// datatype here. The number scale and suffix are derived from the
// precision: a negative precision n shows numbers divided by 10^-n with
// -n zeroes appended.

module RangeLabelFormat {

  /** Bounds of the precision. The header only declares them; the values are
    * those of the QGIS implementation file, qgsgraduatedsymbolrenderer.cpp,
    * which is not part of this model. */
  const MIN_PRECISION: int := -6
  const MAX_PRECISION: int := 15

  const DEFAULT_PRECISION: int := 4
  const DEFAULT_FORMAT: string := " %1 - %2 "

  datatype LabelFormat = LabelFormat(
    format: string,
    precision: int,
    trimTrailingZeroes: bool,
    numberScale: real,
    numberSuffix: string)

  function Pow10(k: nat): (r: real)
    ensures r >= 1.0
  {
    if k == 0 then 1.0 else Pow10(k - 1) * 10.0
  }

  function Zeros(k: nat): (r: string)
    ensures |r| == k && forall i :: 0 <= i < k ==> r[i] == '0'
  {
    if k == 0 then "" else Zeros(k - 1) + "0"
  }

  /** How many places a precision shifts the number: -precision when negative. */
  function Shift(precision: int): nat {
    if precision < 0 then -precision else 0
  }

  /** A label format as its constructor and setters leave it: the precision
    * within its bounds, and the scale and suffix the precision implies. */
  ghost predicate Valid(f: LabelFormat) {
    MIN_PRECISION <= f.precision <= MAX_PRECISION &&
    f.numberScale * Pow10(Shift(f.precision)) == 1.0 &&
    f.numberSuffix == Zeros(Shift(f.precision))
  }

  /** QgsRendererRangeLabelFormat(): " %1 - %2 ", 4 decimals, zeroes kept. */
  function DefaultLabelFormat(): (f: LabelFormat)
    ensures Valid(f)
    ensures f.format == DEFAULT_FORMAT && f.precision == DEFAULT_PRECISION && !f.trimTrailingZeroes
    ensures f.numberScale == 1.0 && f.numberSuffix == ""
  {
    LabelFormat(DEFAULT_FORMAT, DEFAULT_PRECISION, false, 1.0, "")
  }

  /** qBound(MIN_PRECISION, p, MAX_PRECISION). */
  function BoundPrecision(p: int): (r: int)
    ensures MIN_PRECISION <= r <= MAX_PRECISION
    ensures MIN_PRECISION <= p <= MAX_PRECISION ==> r == p
    ensures p < MIN_PRECISION ==> r == MIN_PRECISION
    ensures p > MAX_PRECISION ==> r == MAX_PRECISION
  {
    if p < MIN_PRECISION then MIN_PRECISION
    else if p > MAX_PRECISION then MAX_PRECISION
    else p
  }

  /** setPrecision: clamps the precision to its bounds, then divides the
    * scale by ten and appends a zero to the suffix once per place below zero. */
  method SetPrecision(f: LabelFormat, precision: int) returns (g: LabelFormat)
    ensures Valid(g)
    ensures g.precision == BoundPrecision(precision)
    ensures g.format == f.format && g.trimTrailingZeroes == f.trimTrailingZeroes
  {
    var p := BoundPrecision(precision);
    ghost var p0 := p;
    g := f.(precision := p, numberScale := 1.0, numberSuffix := "");
    while p < 0
      invariant p0 <= p && (p0 < 0 ==> p <= 0) && (p0 >= 0 ==> p == p0)
      invariant g.precision == p0 && g.format == f.format && g.trimTrailingZeroes == f.trimTrailingZeroes
      invariant g.numberScale * Pow10(p - p0) == 1.0
      invariant g.numberSuffix == Zeros(p - p0)
    {
      ghost var k: nat := p - p0;
      assert Pow10(k + 1) == Pow10(k) * 10.0;
      assert (g.numberScale / 10.0) * Pow10(k + 1) == g.numberScale * Pow10(k);
      p := p + 1;
      g := g.(numberScale := g.numberScale / 10.0, numberSuffix := g.numberSuffix + "0");
    }
  }

  /** QgsRendererRangeLabelFormat(format, precision = 4, trimTrailingZeroes = false). */
  method NewLabelFormat(format: string, precision: int := DEFAULT_PRECISION, trimTrailingZeroes: bool := false)
    returns (f: LabelFormat)
    ensures Valid(f)
    ensures f.format == format && f.precision == BoundPrecision(precision)
    ensures f.trimTrailingZeroes == trimTrailingZeroes
  {
    f := DefaultLabelFormat().(format := format);
    f := SetPrecision(f, precision);
    f := f.(trimTrailingZeroes := trimTrailingZeroes);
  }

  function SetFormat(f: LabelFormat, format: string): LabelFormat {
    f.(format := format)
  }

  function SetTrimTrailingZeroes(f: LabelFormat, trim: bool): LabelFormat {
    f.(trimTrailingZeroes := trim)
  }

  /** setFormat and setTrimTrailingZeroes are read back by their getters and
    * keep the format valid. */
  lemma SetterRoundTrips(f: LabelFormat, format: string, trim: bool)
    ensures SetFormat(f, format).format == format
    ensures SetFormat(f, format).precision == f.precision
    ensures SetFormat(f, format).trimTrailingZeroes == f.trimTrailingZeroes
    ensures SetTrimTrailingZeroes(f, trim).trimTrailingZeroes == trim
    ensures SetTrimTrailingZeroes(f, trim).format == f.format
    ensures SetTrimTrailingZeroes(f, trim).precision == f.precision
    ensures Valid(f) ==> Valid(SetFormat(f, format)) && Valid(SetTrimTrailingZeroes(f, trim))
  {
  }

  /** operator==: same template, precision and trailing-zero policy. */
  predicate Equal(a: LabelFormat, b: LabelFormat) {
    a.format == b.format && a.precision == b.precision && a.trimTrailingZeroes == b.trimTrailingZeroes
  }

  /** operator!=. */
  predicate NotEqual(a: LabelFormat, b: LabelFormat) {
    !Equal(a, b)
  }

  /** On valid formats operator== is value equality: the scale and suffix
    * are determined by the precision. */
  lemma EqualIsValueEquality(a: LabelFormat, b: LabelFormat)
    requires Valid(a) && Valid(b)
    ensures Equal(a, b) <==> a == b
    ensures NotEqual(a, b) <==> a != b
  {
    if Equal(a, b) {
      var p := Pow10(Shift(a.precision));
      assert a.numberScale * p == b.numberScale * p;
      assert (a.numberScale - b.numberScale) * p == 0.0;
    }
  }
}
