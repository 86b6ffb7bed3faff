// How the graduated renderer repaints its classes: recolouring from the
// source colour ramp, graduating symbol sizes, restyling from a new template
// symbol, regenerating labels, and the size bounds it reads back. The ramp's
// colour lookup and the label text generator are code outside this model;
// they are passed in as functions.

module SymbolAssignment {
  import opened Symbols
  import opened RendererRange
  import opened RangeList

  /** GraduatedMethod: classes differ by colour or by size. */
  datatype GraduatedMethod = GraduatedColor | GraduatedSize

  /** Same number of classes, and class by class the same bounds, label and
    * render state: only the symbols may differ. */
  ghost predicate SameClasses(a: seq<Range>, b: seq<Range>) {
    |a| == |b| &&
    forall i :: 0 <= i < |a| ==>
      a[i].lowerValue == b[i].lowerValue && a[i].upperValue == b[i].upperValue &&
      a[i].labelText == b[i].labelText && a[i].render == b[i].render
  }

  // ---------------------------------------------------------------------
  // updateColorRamp

  /** The ramp position of class i of n: i / (n - 1), or 0 for a single class. */
  function RampFraction(i: nat, n: nat): (f: real)
    requires i < n
    ensures 0.0 <= f <= 1.0
    ensures i == 0 ==> f == 0.0
    ensures n > 1 && i == n - 1 ==> f == 1.0
  {
    if n > 1 then (i as real) / ((n - 1) as real) else 0.0
  }

  /** Later classes take later colours of the ramp. */
  lemma RampFractionIncreases(i: nat, j: nat, n: nat)
    requires i < j < n
    ensures RampFraction(i, n) < RampFraction(j, n)
  {
    var d := (n - 1) as real;
    assert d > 0.0;
    assert (i as real) / d < (j as real) / d by {
      assert (j as real) / d - (i as real) / d == ((j - i) as real) / d;
    }
  }

  function RecolorSymbol(sym: Option<Symbol>, c: Color): Option<Symbol> {
    match sym
    case None => None
    case Some(s) => Some(s.(color := c))
  }

  /** Every class with a symbol takes the ramp colour of its position. */
  function Recolored(s: seq<Range>, ramp: ColorRamp, colorAt: (ColorRamp, real) -> Color): seq<Range> {
    seq(|s|, i requires 0 <= i < |s| =>
      s[i].(symbol := RecolorSymbol(s[i].symbol, colorAt(ramp, RampFraction(i, |s|)))))
  }

  /** Recolouring keeps the breaks, labels and render states, and changes
    * nothing in a symbol but its colour. */
  lemma RecoloredSpec(s: seq<Range>, ramp: ColorRamp, colorAt: (ColorRamp, real) -> Color)
    ensures var r := Recolored(s, ramp, colorAt);
      SameClasses(r, s) &&
      forall i :: 0 <= i < |s| ==>
        (r[i].symbol.Some? <==> s[i].symbol.Some?) &&
        (s[i].symbol.Some? ==>
          r[i].symbol.value == s[i].symbol.value.(color := colorAt(ramp, RampFraction(i, |s|))))
  {
    var r := Recolored(s, ramp, colorAt);
    forall i | 0 <= i < |s|
      ensures r[i].symbol == RecolorSymbol(s[i].symbol, colorAt(ramp, RampFraction(i, |s|)))
    {
    }
  }

  // ---------------------------------------------------------------------
  // setSymbolSizes

  /** The size of class i of n: evenly spaced from minSize to maxSize, or
    * their midpoint for a single class. */
  function SizeAt(i: nat, n: nat, minSize: real, maxSize: real): real
    requires i < n
  {
    if n > 1 then minSize + (i as real) * (maxSize - minSize) / ((n - 1) as real)
    else 0.5 * (maxSize + minSize)
  }

  /** The graduated sizes stay between the two bounds and reach both ends. */
  lemma SizeAtBounds(i: nat, n: nat, minSize: real, maxSize: real)
    requires i < n && minSize <= maxSize
    ensures minSize <= SizeAt(i, n, minSize, maxSize) <= maxSize
    ensures n > 1 && i == 0 ==> SizeAt(i, n, minSize, maxSize) == minSize
    ensures n > 1 && i == n - 1 ==> SizeAt(i, n, minSize, maxSize) == maxSize
  {
    if n > 1 {
      var g := (i as real) * (maxSize - minSize) / ((n - 1) as real);
      assert SizeAt(i, n, minSize, maxSize) == minSize + g;
      ShareOf(i as real, (n - 1) as real, maxSize - minSize);
    }
  }

  /** A share a/d (0 <= a <= d) of a non-negative width w lies within [0, w],
    * and is 0 or w at the two ends. */
  lemma ShareOf(a: real, d: real, w: real)
    requires 0.0 <= a <= d && 0.0 < d && 0.0 <= w
    ensures 0.0 <= a * w / d <= w
    ensures a == 0.0 ==> a * w / d == 0.0
    ensures a == d ==> a * w / d == w
  {
    assert a * w <= d * w by {
      assert d * w - a * w == (d - a) * w;
    }
  }

  /** setSymbolSizes: every class's marker size or line width is set to its
    * graduated size. Every class must have a symbol. */
  function Resized(s: seq<Range>, minSize: real, maxSize: real): seq<Range>
    requires AllHaveSymbols(s)
  {
    seq(|s|, i requires 0 <= i < |s| =>
      s[i].(symbol := Some(WithSize(s[i].symbol.value, SizeAt(i, |s|, minSize, maxSize)))))
  }

  lemma ResizedSpec(s: seq<Range>, minSize: real, maxSize: real)
    requires AllHaveSymbols(s)
    ensures var r := Resized(s, minSize, maxSize);
      SameClasses(r, s) && AllHaveSymbols(r) &&
      forall i :: 0 <= i < |s| ==>
        r[i].symbol.value.color == s[i].symbol.value.color &&
        (HasSize(s[i].symbol.value) ==> SizeOf(r[i].symbol.value) == SizeAt(i, |s|, minSize, maxSize))
  {
  }

  // ---------------------------------------------------------------------
  // minSymbolSize and maxSymbolSize

  function Pow2(k: nat): (r: real)
    ensures r >= 1.0
  {
    if k == 0 then 1.0 else 2.0 * Pow2(k - 1)
  }

  /** The largest finite double, the start value of minSymbolSize. */
  const DBL_MAX: real := (2.0 - 1.0 / Pow2(52)) * Pow2(1023)

  /** The smallest positive normal double, the start value of maxSymbolSize. */
  const DBL_MIN: real := 1.0 / Pow2(1022)

  /** minSymbolSize: the least class size, starting from DBL_MAX. Every class
    * must have a symbol. */
  function MinSize(s: seq<Range>): (m: real)
    requires AllHaveSymbols(s)
    ensures m <= DBL_MAX
    ensures forall i :: 0 <= i < |s| ==> m <= SizeOf(s[i].symbol.value)
    ensures m == DBL_MAX || exists i :: 0 <= i < |s| && m == SizeOf(s[i].symbol.value)
  {
    if s == [] then DBL_MAX
    else
      var z := SizeOf(s[|s| - 1].symbol.value);
      var m := MinSize(s[..|s| - 1]);
      if m < z then m else z
  }

  /** maxSymbolSize: the greatest class size, starting from DBL_MIN. */
  function MaxSize(s: seq<Range>): (m: real)
    requires AllHaveSymbols(s)
    ensures m >= DBL_MIN
    ensures forall i :: 0 <= i < |s| ==> m >= SizeOf(s[i].symbol.value)
    ensures m == DBL_MIN || exists i :: 0 <= i < |s| && m == SizeOf(s[i].symbol.value)
  {
    if s == [] then DBL_MIN
    else
      var z := SizeOf(s[|s| - 1].symbol.value);
      var m := MaxSize(s[..|s| - 1]);
      if z < m then m else z
  }

  // ---------------------------------------------------------------------
  // updateSymbols

  /** Where updateSymbols reads a class's own symbol: for its colour, or for
    * its size when the template has one. */
  predicate ReadsClassSymbol(template: Symbol, gm: GraduatedMethod) {
    gm == GraduatedColor || HasSize(template)
  }

  /** A copy of the template keeping the class's colour (colour method) or its
    * size (size method, marker and line templates). */
  function RestyleSymbol(template: Symbol, current: Option<Symbol>, gm: GraduatedMethod): Symbol
    requires ReadsClassSymbol(template, gm) ==> current.Some?
  {
    match gm
    case GraduatedColor => template.(color := current.value.color)
    case GraduatedSize => if HasSize(template) then WithSize(template, SizeOf(current.value)) else template
  }

  function Restyled(s: seq<Range>, template: Symbol, gm: GraduatedMethod): seq<Range>
    requires ReadsClassSymbol(template, gm) ==> AllHaveSymbols(s)
  {
    seq(|s|, i requires 0 <= i < |s| =>
      s[i].(symbol := Some(RestyleSymbol(template, s[i].symbol, gm))))
  }

  /** updateSymbols leaves the breaks (and labels and render states); under
    * the colour method it also leaves every class's colour, while under the
    * size method every class takes the template's colour and keeps its size;
    * every class takes the template's kind and shape. */
  lemma RestyledSpec(s: seq<Range>, template: Symbol, gm: GraduatedMethod)
    requires ReadsClassSymbol(template, gm) ==> AllHaveSymbols(s)
    ensures var r := Restyled(s, template, gm);
      SameClasses(r, s) && AllHaveSymbols(r) &&
      forall i :: 0 <= i < |s| ==>
        r[i].symbol.value.kind == template.kind && r[i].symbol.value.shape == template.shape &&
        (gm == GraduatedColor ==> r[i].symbol.value.color == s[i].symbol.value.color) &&
        (gm == GraduatedSize ==> r[i].symbol.value.color == template.color) &&
        (gm == GraduatedSize && HasSize(template) ==> SizeOf(r[i].symbol.value) == SizeOf(s[i].symbol.value))
  {
  }

  // ---------------------------------------------------------------------
  // Labels

  /** Every class takes the label the format generates for its bounds. */
  function Relabelled(s: seq<Range>, labelFor: (real, real) -> string): seq<Range> {
    seq(|s|, i requires 0 <= i < |s| => s[i].(labelText := labelFor(s[i].lowerValue, s[i].upperValue)))
  }

  /** A class is still labelled by default when its label is the one the
    * generator gives for its bounds. */
  predicate HasDefaultLabel(r: Range, labels: (real, real) -> string) {
    r.labelText == labels(r.lowerValue, r.upperValue)
  }

  /** Only the classes labelled by default under the old generator take the
    * label of the new one; hand-written labels stay. */
  function RelabelledDefaults(s: seq<Range>, oldLabels: (real, real) -> string,
                              newLabels: (real, real) -> string): seq<Range> {
    seq(|s|, i requires 0 <= i < |s| =>
      if HasDefaultLabel(s[i], oldLabels) then s[i].(labelText := newLabels(s[i].lowerValue, s[i].upperValue))
      else s[i])
  }

  /** Every class labelled by default before is labelled by default under the
    * new generator afterwards, every other class is unchanged, and no bound,
    * symbol or render flag moves. */
  lemma RelabelledDefaultsSpec(s: seq<Range>, oldLabels: (real, real) -> string,
                               newLabels: (real, real) -> string)
    ensures var r := RelabelledDefaults(s, oldLabels, newLabels);
      |r| == |s| && Keys(r) == Keys(s) &&
      (forall i :: 0 <= i < |s| ==>
        r[i].symbol == s[i].symbol && r[i].render == s[i].render &&
        (HasDefaultLabel(s[i], oldLabels) ==> HasDefaultLabel(r[i], newLabels)) &&
        (!HasDefaultLabel(s[i], oldLabels) ==> r[i] == s[i]))
  {
  }
}
