// QgsGraduatedSymbolRenderer: a renderer that classifies features by the
// value of one attribute into an ordered list of ranges (classes), each with
// its own symbol. The renderer edits its range list in place, so it is a
// class here whose methods name the fields they change; what each method does
// to the list is stated by the functions of RangeList and SymbolAssignment.

module GraduatedRenderer {
  import opened Symbols
  import opened RendererRange
  import opened RangeList
  import opened SymbolAssignment
  import RangeLabelFormat

  /** How the classes were computed; Custom for hand-made classes. */
  datatype Mode = EqualInterval | Quantile | Jenks | StdDev | Pretty | Custom

  /** QgsRendererRangeLabelFormat::labelForRange: the label a format generates
    * for the bounds of a range. The text it builds is not part of this model. */
  type LabelGenerator = (RangeLabelFormat.LabelFormat, real, real) -> string

  /** The labels one particular format generates. */
  function LabelsWith(labelFor: LabelGenerator, fmt: RangeLabelFormat.LabelFormat): (real, real) -> string {
    (lower, upper) => labelFor(fmt, lower, upper)
  }

  function Width(r: Range): real {
    r.upperValue - r.lowerValue
  }

  /** The width of the narrowest class of positive width, or 0 when no class
    * has a positive width: the first loop of calculateLabelPrecision. */
  function MinClassWidth(s: seq<Range>): (m: real)
    ensures m >= 0.0
    ensures m == 0.0 <==> forall i :: 0 <= i < |s| ==> Width(s[i]) <= 0.0
    ensures m > 0.0 ==> exists i :: 0 <= i < |s| && Width(s[i]) == m
    ensures forall i :: 0 <= i < |s| && Width(s[i]) > 0.0 ==> m <= Width(s[i])
  {
    if s == [] then 0.0
    else
      var init := s[..|s| - 1];
      assert forall i :: 0 <= i < |init| ==> init[i] == s[i];
      var m := MinClassWidth(init);
      var w := Width(s[|s| - 1]);
      if w > 0.0 && (m == 0.0 || w < m) then w else m
  }

  /** Multiplying by a positive factor keeps an order. */
  lemma ScaleKeepsOrder(a: real, b: real, c: real)
    requires 0.0 < c
    ensures a <= b ==> a * c <= b * c
    ensures a < b ==> a * c < b * c
  {
    assert b * c - a * c == (b - a) * c;
  }

  /** p decimals suit a class width m: p lies in 0..10, m is at most 99 units
    * of the p-th decimal place, and p is the largest such (m exceeds 99 units
    * of place p + 1), except at the bounds 0 and 10. */
  predicate SuitsWidth(m: real, p: int) {
    0 <= p <= 10 &&
    (p == 0 || m * RangeLabelFormat.Pow10(p) <= 99.0) &&
    (p == 10 || 99.0 < m * RangeLabelFormat.Pow10(p + 1))
  }

  /** The second loop of calculateLabelPrecision: starting from 10 decimals
    * and 0.0000000099 (99 units of the tenth decimal), drop one decimal while
    * 99 units of the current place are still below the width m. */
  method DecimalPlaces(m: real) returns (ndp: int)
    requires m > 0.0
    ensures SuitsWidth(m, ndp)
  {
    ndp := 10;
    var nextDpMinRange := 0.0000000099;
    assert RangeLabelFormat.Pow10(10) == 10000000000.0;
    while ndp > 0 && nextDpMinRange < m
      invariant 0 <= ndp <= 10
      invariant nextDpMinRange * RangeLabelFormat.Pow10(ndp) == 99.0
      invariant ndp == 10 || 99.0 < m * RangeLabelFormat.Pow10(ndp + 1)
    {
      ScaleKeepsOrder(nextDpMinRange, m, RangeLabelFormat.Pow10(ndp));
      assert RangeLabelFormat.Pow10(ndp) == RangeLabelFormat.Pow10(ndp - 1) * 10.0;
      ndp := ndp - 1;
      nextDpMinRange := nextDpMinRange * 10.0;
    }
    if ndp > 0 {
      ScaleKeepsOrder(m, nextDpMinRange, RangeLabelFormat.Pow10(ndp));
    }
  }

  /** Ten to the k grows past 1000 from k = 3 and stays at most 100 below. */
  lemma Pow10Steps(k: nat)
    ensures k <= 2 ==> RangeLabelFormat.Pow10(k) <= 100.0
    ensures k >= 3 ==> RangeLabelFormat.Pow10(k) >= 1000.0
  {
  }

  /** A label generator that shows only whether the precision is the default. */
  function PrecisionLabel(fmt: RangeLabelFormat.LabelFormat, lower: real, upper: real): string {
    if fmt.precision == RangeLabelFormat.DEFAULT_PRECISION then "default precision" else "other precision"
  }

  /** One class from 0 to 0.5, labelled by default under the default format. */
  function StaleExample(): (s: seq<Range>)
    ensures |s| == 1 && HasDefaultLabel(s[0], LabelsWith(PrecisionLabel, RangeLabelFormat.DefaultLabelFormat()))
  {
    var f := RangeLabelFormat.DefaultLabelFormat();
    assert LabelsWith(PrecisionLabel, f)(0.0, 0.5) == PrecisionLabel(f, 0.0, 0.5) == "default precision";
    [Range(0.0, 0.5, None, "default precision", true)]
  }

  /** The input that shows calculateLabelPrecision leaving a default label
    * stale: the narrowest width is 0.5, so the precision any run chooses is
    * 2 rather than the default 4, and the class labelled by default under
    * the old format is labelled differently by default under the new one.
    * CalculateLabelPrecision nevertheless returns the classes unchanged,
    * while CalculateLabelPrecisionAsDocumented relabels this class. */
  lemma StaleDefaultLabel(g: RangeLabelFormat.LabelFormat)
    requires SuitsWidth(MinClassWidth(StaleExample()), g.precision)
    ensures MinClassWidth(StaleExample()) == 0.5 && g.precision == 2
    ensures var before := LabelsWith(PrecisionLabel, RangeLabelFormat.DefaultLabelFormat());
      var after := LabelsWith(PrecisionLabel, g);
      RelabelledDefaults(StaleExample(), before, after) != StaleExample()
  {
    var s := StaleExample();
    assert Width(s[0]) == 0.5;
    Pow10Steps(g.precision);
    Pow10Steps(g.precision + 1);
    var r := RelabelledDefaults(s, LabelsWith(PrecisionLabel, RangeLabelFormat.DefaultLabelFormat()), LabelsWith(PrecisionLabel, g));
    assert LabelsWith(PrecisionLabel, g)(0.0, 0.5) == PrecisionLabel(g, 0.0, 0.5) == "other precision";
    assert r[0].labelText == "other precision";
  }

  class GraduatedSymbolRenderer {
    var attrName: string
    var ranges: seq<Range>
    var mode: Mode
    var sourceSymbol: Option<Symbol>
    var sourceColorRamp: Option<ColorRamp>
    var labelFormat: RangeLabelFormat.LabelFormat
    var graduatedMethod: GraduatedMethod
    /** Set while the renderer only counts features: switched-off classes
      * still match then. */
    var counting: bool

    /** The label format is one its constructor and setters can produce. */
    ghost predicate Valid()
      reads this
    {
      RangeLabelFormat.Valid(labelFormat)
    }

    /** QgsGraduatedSymbolRenderer(attrName, ranges): custom classes graduated
      * by colour, no source symbol or ramp, the default label format. */
    constructor(attrName: string := "", ranges: seq<Range> := [])
      ensures this.attrName == attrName && this.ranges == ranges
      ensures mode == Custom && graduatedMethod == GraduatedColor
      ensures sourceSymbol.None? && sourceColorRamp.None? && !counting
      ensures labelFormat == RangeLabelFormat.DefaultLabelFormat() && Valid()
    {
      this.attrName := attrName;
      this.ranges := ranges;
      mode := Custom;
      sourceSymbol := None;
      sourceColorRamp := None;
      labelFormat := RangeLabelFormat.DefaultLabelFormat();
      graduatedMethod := GraduatedColor;
      counting := false;
    }

    // -------------------------------------------------------------------
    // Inline setters, read back by the fields' getters

    method SetClassAttribute(attr: string)
      modifies this`attrName
      ensures attrName == attr
    {
      attrName := attr;
    }

    method SetMode(m: Mode)
      modifies this`mode
      ensures mode == m
    {
      mode := m;
    }

    method SetGraduatedMethod(gm: GraduatedMethod)
      modifies this`graduatedMethod
      ensures graduatedMethod == gm
    {
      graduatedMethod := gm;
    }

    method SetSourceSymbol(sym: Option<Symbol>)
      modifies this`sourceSymbol
      ensures sourceSymbol == sym
    {
      sourceSymbol := sym;
    }

    method SetSourceColorRamp(ramp: Option<ColorRamp>)
      modifies this`sourceColorRamp
      ensures sourceColorRamp == ramp
    {
      sourceColorRamp := ramp;
    }

    // -------------------------------------------------------------------
    // updateRange*: succeed exactly for an index inside the list, and then
    // replace one field of that one range

    method UpdateRangeSymbol(rangeIndex: int, symbol: Option<Symbol>) returns (ok: bool)
      modifies this`ranges
      ensures ok <==> 0 <= rangeIndex < |old(ranges)|
      ensures ok ==> ranges == old(ranges)[rangeIndex := SetSymbol(old(ranges)[rangeIndex], symbol)]
      ensures !ok ==> ranges == old(ranges)
    {
      if rangeIndex < 0 || rangeIndex >= |ranges| {
        return false;
      }
      ranges := ranges[rangeIndex := SetSymbol(ranges[rangeIndex], symbol)];
      return true;
    }

    method UpdateRangeLabel(rangeIndex: int, text: string) returns (ok: bool)
      modifies this`ranges
      ensures ok <==> 0 <= rangeIndex < |old(ranges)|
      ensures ok ==> ranges == old(ranges)[rangeIndex := SetLabel(old(ranges)[rangeIndex], text)]
      ensures !ok ==> ranges == old(ranges)
    {
      if rangeIndex < 0 || rangeIndex >= |ranges| {
        return false;
      }
      ranges := ranges[rangeIndex := SetLabel(ranges[rangeIndex], text)];
      return true;
    }

    method UpdateRangeUpperValue(rangeIndex: int, value: real) returns (ok: bool)
      modifies this`ranges
      ensures ok <==> 0 <= rangeIndex < |old(ranges)|
      ensures ok ==> ranges == old(ranges)[rangeIndex := SetUpperValue(old(ranges)[rangeIndex], value)]
      ensures !ok ==> ranges == old(ranges)
    {
      if rangeIndex < 0 || rangeIndex >= |ranges| {
        return false;
      }
      ranges := ranges[rangeIndex := SetUpperValue(ranges[rangeIndex], value)];
      return true;
    }

    method UpdateRangeLowerValue(rangeIndex: int, value: real) returns (ok: bool)
      modifies this`ranges
      ensures ok <==> 0 <= rangeIndex < |old(ranges)|
      ensures ok ==> ranges == old(ranges)[rangeIndex := SetLowerValue(old(ranges)[rangeIndex], value)]
      ensures !ok ==> ranges == old(ranges)
    {
      if rangeIndex < 0 || rangeIndex >= |ranges| {
        return false;
      }
      ranges := ranges[rangeIndex := SetLowerValue(ranges[rangeIndex], value)];
      return true;
    }

    method UpdateRangeRenderState(rangeIndex: int, render: bool) returns (ok: bool)
      modifies this`ranges
      ensures ok <==> 0 <= rangeIndex < |old(ranges)|
      ensures ok ==> ranges == old(ranges)[rangeIndex := SetRenderState(old(ranges)[rangeIndex], render)]
      ensures !ok ==> ranges == old(ranges)
    {
      if rangeIndex < 0 || rangeIndex >= |ranges| {
        return false;
      }
      ranges := ranges[rangeIndex := SetRenderState(ranges[rangeIndex], render)];
      return true;
    }

    // -------------------------------------------------------------------
    // Adding and removing classes

    /** addClass(symbol): a class [0, 0] with a copy of the symbol, labelled
      * "0.0 - 0.0", goes to the FRONT of the list. */
    method AddClassSymbol(symbol: Symbol)
      modifies this`ranges
      ensures ranges == [NewRange(0.0, 0.0, symbol, "0.0 - 0.0")] + old(ranges)
    {
      ranges := [NewRange(0.0, 0.0, symbol, "0.0 - 0.0")] + ranges;
    }

    /** addClass(range): appends the range. */
    method AddClassRange(range: Range)
      modifies this`ranges
      ensures ranges == old(ranges) + [range]
    {
      ranges := ranges + [range];
    }

    /** addClass(lower, upper): appends a class with a copy of the source
      * symbol, which must be set, and the label the format generates. */
    method AddClassBounds(lower: real, upper: real, labelFor: LabelGenerator)
      requires sourceSymbol.Some?
      modifies this`ranges
      ensures ranges == old(ranges) + [NewRange(lower, upper, sourceSymbol.value, labelFor(labelFormat, lower, upper))]
    {
      ranges := ranges + [NewRange(lower, upper, sourceSymbol.value, labelFor(labelFormat, lower, upper))];
    }

    /** deleteClass: removes the class at idx; an index outside the list
      * changes nothing. */
    method DeleteClass(idx: int)
      modifies this`ranges
      ensures 0 <= idx < |old(ranges)| ==> ranges == Remove(old(ranges), idx)
      ensures !(0 <= idx < |old(ranges)|) ==> ranges == old(ranges)
    {
      if 0 <= idx < |ranges| {
        ranges := Remove(ranges, idx);
      }
    }

    method DeleteAllClasses()
      modifies this`ranges
      ensures ranges == []
    {
      ranges := [];
    }

    /** moveClass: QList::move when both indices lie inside the list, and
      * nothing otherwise. */
    method MoveClass(from: int, to: int)
      modifies this`ranges
      ensures 0 <= from < |old(ranges)| && 0 <= to < |old(ranges)| ==> ranges == Move(old(ranges), from, to)
      ensures !(0 <= from < |old(ranges)| && 0 <= to < |old(ranges)|) ==> ranges == old(ranges)
    {
      if from < 0 || from >= |ranges| || to < 0 || to >= |ranges| {
        return;
      }
      ranges := Move(ranges, from, to);
    }

    method SortByValue(order: SortOrder := AscendingOrder)
      modifies this`ranges
      ensures ranges == SortedByValue(old(ranges), order)
    {
      ranges := SortedByValue(ranges, order);
    }

    method SortByLabel(order: SortOrder := AscendingOrder)
      modifies this`ranges
      ensures ranges == SortedByLabel(old(ranges), order)
    {
      ranges := SortedByLabel(ranges, order);
    }

    // -------------------------------------------------------------------
    // The two checks: a scan of a copy sorted by value

    /** rangesOverlap: some class is inverted, or, in value order, begins
      * below the upper bound of the class before it. */
    method RangesOverlap() returns (r: bool)
      ensures r == Overlapping(ranges)
    {
      var t := SortedByValue(ranges, AscendingOrder);
      ghost var k := Keys(t);
      if |t| == 0 {
        return false;
      }
      if t[0].upperValue < t[0].lowerValue {
        assert k[0].upper < k[0].lower;
        return true;
      }
      var prevMax := t[0].upperValue;
      var i := 1;
      while i < |t|
        invariant 1 <= i <= |t|
        invariant prevMax == t[i - 1].upperValue
        invariant forall j :: 0 <= j < i ==> t[j].lowerValue <= t[j].upperValue
        invariant forall j :: 1 <= j < i ==> t[j - 1].upperValue <= t[j].lowerValue
      {
        if t[i].upperValue < t[i].lowerValue {
          assert k[i].upper < k[i].lower;
          return true;
        }
        if t[i].lowerValue < prevMax {
          assert k[i].lower < k[i - 1].upper;
          return true;
        }
        prevMax := t[i].upperValue;
        i := i + 1;
      }
      return false;
    }

    /** rangesHaveGaps: in value order, some class does not begin exactly at
      * the upper bound of the class before it. */
    method RangesHaveGaps() returns (r: bool)
      ensures r == HaveGaps(ranges)
    {
      var t := SortedByValue(ranges, AscendingOrder);
      ghost var k := Keys(t);
      if |t| == 0 {
        return false;
      }
      var prevMax := t[0].upperValue;
      var i := 1;
      while i < |t|
        invariant 1 <= i <= |t|
        invariant prevMax == t[i - 1].upperValue
        invariant forall j :: 1 <= j < i ==> t[j].lowerValue == t[j - 1].upperValue
      {
        if t[i].lowerValue != prevMax {
          assert k[i].lower != k[i - 1].upper;
          return true;
        }
        prevMax := t[i].upperValue;
        i := i + 1;
      }
      return false;
    }

    // -------------------------------------------------------------------
    // Lookups: the first class, in stored order, holding the value

    method SymbolForValue(value: real) returns (sym: Option<Symbol>)
      ensures sym == SymbolFor(ranges, value, counting)
    {
      var i := 0;
      while i < |ranges|
        invariant 0 <= i <= |ranges|
        invariant forall j :: 0 <= j < i ==> !Contains(ranges[j], value)
      {
        if ranges[i].lowerValue <= value && ranges[i].upperValue >= value {
          assert FirstContaining(ranges, value) == Some(i);
          if ranges[i].render || counting {
            return ranges[i].symbol;
          } else {
            return None;
          }
        }
        i := i + 1;
      }
      return None;
    }

    method LegendKeyForValue(value: real) returns (key: Option<nat>)
      ensures key == LegendKeyFor(ranges, value, counting)
    {
      var i := 0;
      while i < |ranges|
        invariant 0 <= i <= |ranges|
        invariant forall j :: 0 <= j < i ==> !Contains(ranges[j], value)
      {
        if ranges[i].lowerValue <= value && ranges[i].upperValue >= value {
          assert FirstContaining(ranges, value) == Some(i);
          if ranges[i].render || counting {
            return Some(i);
          } else {
            return None;
          }
        }
        i := i + 1;
      }
      return None;
    }

    // -------------------------------------------------------------------
    // Repainting the classes

    /** updateColorRamp: a given ramp becomes the source ramp; then, if there
      * is a source ramp, every class takes the ramp colour of its position.
      * The breaks are left alone (RecoloredSpec). */
    method UpdateColorRamp(colorAt: (ColorRamp, real) -> Color, ramp: Option<ColorRamp> := None)
      modifies this`ranges, this`sourceColorRamp
      ensures sourceColorRamp == (if ramp.Some? then ramp else old(sourceColorRamp))
      ensures sourceColorRamp.Some? ==> ranges == Recolored(old(ranges), sourceColorRamp.value, colorAt)
      ensures sourceColorRamp.None? ==> ranges == old(ranges)
    {
      if ramp.Some? {
        SetSourceColorRamp(ramp);
      }
      if sourceColorRamp.Some? {
        var cr := sourceColorRamp.value;
        var i := 0;
        while i < |ranges|
          invariant |ranges| == |old(ranges)| && 0 <= i <= |ranges|
          invariant forall j :: 0 <= j < i ==> ranges[j] == Recolored(old(ranges), cr, colorAt)[j]
          invariant forall j :: i <= j < |ranges| ==> ranges[j] == old(ranges)[j]
          modifies this`ranges
        {
          var sym := RecolorSymbol(ranges[i].symbol, colorAt(cr, RampFraction(i, |ranges|)));
          var ok := UpdateRangeSymbol(i, sym);
          i := i + 1;
        }
      }
    }

    /** setSymbolSizes: the classes' marker sizes or line widths run evenly
      * from minSize to maxSize. Every class must have a symbol. */
    method SetSymbolSizes(minSize: real, maxSize: real)
      requires AllHaveSymbols(ranges)
      modifies this`ranges
      ensures ranges == Resized(old(ranges), minSize, maxSize)
    {
      var i := 0;
      while i < |ranges|
        invariant |ranges| == |old(ranges)| && 0 <= i <= |ranges|
        invariant forall j :: 0 <= j < i ==> ranges[j] == Resized(old(ranges), minSize, maxSize)[j]
        invariant forall j :: i <= j < |ranges| ==> ranges[j] == old(ranges)[j]
      {
        var sym := WithSize(ranges[i].symbol.value, SizeAt(i, |ranges|, minSize, maxSize));
        var ok := UpdateRangeSymbol(i, Some(sym));
        i := i + 1;
      }
    }

    /** minSymbolSize: the smallest class size. Every class must have a symbol. */
    method MinSymbolSize() returns (m: real)
      requires AllHaveSymbols(ranges)
      ensures m == MinSize(ranges)
    {
      m := DBL_MAX;
      var i := 0;
      while i < |ranges|
        invariant 0 <= i <= |ranges|
        invariant m == MinSize(ranges[..i])
      {
        var sz := SizeOf(ranges[i].symbol.value);
        assert ranges[..i + 1][..i] == ranges[..i];
        m := if m < sz then m else sz;
        i := i + 1;
      }
      assert ranges[..i] == ranges;
    }

    /** maxSymbolSize: the largest class size. Every class must have a symbol. */
    method MaxSymbolSize() returns (m: real)
      requires AllHaveSymbols(ranges)
      ensures m == MaxSize(ranges)
    {
      m := DBL_MIN;
      var i := 0;
      while i < |ranges|
        invariant 0 <= i <= |ranges|
        invariant m == MaxSize(ranges[..i])
      {
        var sz := SizeOf(ranges[i].symbol.value);
        assert ranges[..i + 1][..i] == ranges[..i];
        m := if sz < m then m else sz;
        i := i + 1;
      }
      assert ranges[..i] == ranges;
    }

    /** updateSymbols: with a symbol, every class takes a copy of it keeping
      * its own colour (colour method) or size (size method), and the symbol
      * becomes the source symbol; with none, nothing changes. */
    method UpdateSymbols(sym: Option<Symbol>)
      requires sym.Some? && ReadsClassSymbol(sym.value, graduatedMethod) ==> AllHaveSymbols(ranges)
      modifies this`ranges, this`sourceSymbol
      ensures sym.None? ==> ranges == old(ranges) && sourceSymbol == old(sourceSymbol)
      ensures sym.Some? ==> ranges == Restyled(old(ranges), sym.value, graduatedMethod) && sourceSymbol == sym
    {
      if sym.None? {
        return;
      }
      var template := sym.value;
      var i := 0;
      while i < |ranges|
        invariant |ranges| == |old(ranges)| && 0 <= i <= |ranges|
        invariant forall j :: 0 <= j < i ==> ranges[j] == Restyled(old(ranges), template, graduatedMethod)[j]
        invariant forall j :: i <= j < |ranges| ==> ranges[j] == old(ranges)[j]
        modifies this`ranges
      {
        var restyled := RestyleSymbol(template, ranges[i].symbol, graduatedMethod);
        var ok := UpdateRangeSymbol(i, Some(restyled));
        i := i + 1;
      }
      SetSourceSymbol(sym);
    }

    /** addBreak: the first class whose interior holds the value is split
      * there (the new upper part takes a copy of the source symbol, which
      * must then be set); then, if asked, the symbols are repainted: by the
      * source ramp under the colour method, by sizes running between the
      * current smallest and largest under the size method. */
    method AddBreak(breakValue: real, labelFor: LabelGenerator, colorAt: (ColorRamp, real) -> Color,
                    updateSymbols: bool := true)
      requires sourceSymbol.Some? || FirstStrictlyInside(ranges, breakValue).None?
      requires updateSymbols && graduatedMethod == GraduatedSize ==> AllHaveSymbols(ranges)
      modifies this`ranges, this`sourceColorRamp
      ensures sourceColorRamp == old(sourceColorRamp)
      ensures var split := WithBreak(old(ranges), breakValue, sourceSymbol, LabelsWith(labelFor, labelFormat));
        SameClasses(ranges, split) &&
        ranges == (if !updateSymbols then split
                   else if graduatedMethod == GraduatedSize then Resized(split, MinSize(split), MaxSize(split))
                   else if sourceColorRamp.Some? then Recolored(split, sourceColorRamp.value, colorAt)
                   else split)
    {
      var labels := LabelsWith(labelFor, labelFormat);
      ghost var split := WithBreak(ranges, breakValue, sourceSymbol, labels);
      var i := 0;
      while i < |ranges| && !StrictlyInside(ranges[i], breakValue)
        invariant 0 <= i <= |ranges|
        invariant forall j :: 0 <= j < i ==> !StrictlyInside(ranges[j], breakValue)
      {
        i := i + 1;
      }
      if i < |ranges| {
        assert FirstStrictlyInside(ranges, breakValue) == Some(i);
        ranges := SplitAt(ranges, i, breakValue, sourceSymbol, labels);
      }
      assert ranges == split;
      if updateSymbols {
        if graduatedMethod == GraduatedColor {
          UpdateColorRamp(colorAt, sourceColorRamp);
          if sourceColorRamp.Some? {
            RecoloredSpec(split, sourceColorRamp.value, colorAt);
          }
        } else {
          var lo := MinSymbolSize();
          var hi := MaxSymbolSize();
          SetSymbolSizes(lo, hi);
          ResizedSpec(split, lo, hi);
        }
      }
    }

    // -------------------------------------------------------------------
    // Labels

    /** setLabelFormat: the format is replaced; if asked, and only when the
      * new format differs from the old one in pattern, precision or trimming,
      * every class first takes the label the new format generates for its
      * bounds. */
    method SetLabelFormat(fmt: RangeLabelFormat.LabelFormat, labelFor: LabelGenerator, updateRanges: bool := false)
      requires RangeLabelFormat.Valid(fmt)
      modifies this`ranges, this`labelFormat
      ensures labelFormat == fmt && Valid()
      ensures updateRanges && RangeLabelFormat.NotEqual(fmt, old(labelFormat)) ==>
        ranges == Relabelled(old(ranges), LabelsWith(labelFor, fmt))
      ensures !(updateRanges && RangeLabelFormat.NotEqual(fmt, old(labelFormat))) ==> ranges == old(ranges)
    {
      if updateRanges && RangeLabelFormat.NotEqual(fmt, labelFormat) {
        var labels := LabelsWith(labelFor, fmt);
        var i := 0;
        while i < |ranges|
          invariant |ranges| == |old(ranges)| && 0 <= i <= |ranges|
          invariant forall j :: 0 <= j < i ==> ranges[j] == Relabelled(old(ranges), labels)[j]
          invariant forall j :: i <= j < |ranges| ==> ranges[j] == old(ranges)[j]
          modifies this`ranges
        {
          ranges := ranges[i := SetLabel(ranges[i], labels(ranges[i].lowerValue, ranges[i].upperValue))];
          i := i + 1;
        }
      }
      labelFormat := fmt;
    }

    /** Every class labelled by the default of format `from` takes the default
      * of format `to`; hand-written labels stay. */
    method UpdateDefaultLabels(from: RangeLabelFormat.LabelFormat, to: RangeLabelFormat.LabelFormat,
                               labelFor: LabelGenerator)
      modifies this`ranges
      ensures ranges == RelabelledDefaults(old(ranges), LabelsWith(labelFor, from), LabelsWith(labelFor, to))
    {
      var oldLabels := LabelsWith(labelFor, from);
      var newLabels := LabelsWith(labelFor, to);
      var i := 0;
      while i < |ranges|
        invariant |ranges| == |old(ranges)| && 0 <= i <= |ranges|
        invariant forall j :: 0 <= j < i ==> ranges[j] == RelabelledDefaults(old(ranges), oldLabels, newLabels)[j]
        invariant forall j :: i <= j < |ranges| ==> ranges[j] == old(ranges)[j]
      {
        var r := ranges[i];
        assert r == old(ranges)[i];
        assert RelabelledDefaults(old(ranges), oldLabels, newLabels)[i] ==
          if HasDefaultLabel(r, oldLabels) then r.(labelText := newLabels(r.lowerValue, r.upperValue)) else r;
        if r.labelText == oldLabels(r.lowerValue, r.upperValue) {
          ranges := ranges[i := SetLabel(r, newLabels(r.lowerValue, r.upperValue))];
        }
        i := i + 1;
      }
    }

    /** The first loop of calculateLabelPrecision: the narrowest positive class width. */
    method MinClassRange() returns (minClassRange: real)
      ensures minClassRange == MinClassWidth(ranges)
    {
      minClassRange := 0.0;
      var i := 0;
      while i < |ranges|
        invariant 0 <= i <= |ranges|
        invariant minClassRange == MinClassWidth(ranges[..i])
      {
        var range := ranges[i].upperValue - ranges[i].lowerValue;
        assert ranges[..i + 1][..i] == ranges[..i];
        if range > 0.0 && (minClassRange == 0.0 || range < minClassRange) {
          minClassRange := range;
        }
        i := i + 1;
      }
      assert ranges[..i] == ranges;
    }

    /** calculateLabelPrecision as implemented: when some class has a
      * positive width, the precision becomes the number of decimals that
      * suits the narrowest such width. The labels are then to be regenerated
      * through setLabelFormat, but that call passes the format the renderer
      * already holds, so no label ever changes (see StaleDefaultLabel). With
      * no class of positive width nothing changes. */
    method CalculateLabelPrecision(labelFor: LabelGenerator, updateRanges: bool := true)
      requires Valid()
      modifies this`ranges, this`labelFormat
      ensures Valid() && ranges == old(ranges)
      ensures MinClassWidth(old(ranges)) == 0.0 ==> labelFormat == old(labelFormat)
      ensures MinClassWidth(old(ranges)) > 0.0 ==>
        SuitsWidth(MinClassWidth(old(ranges)), labelFormat.precision) &&
        labelFormat.format == old(labelFormat).format &&
        labelFormat.trimTrailingZeroes == old(labelFormat).trimTrailingZeroes
    {
      var minClassRange := MinClassRange();
      if minClassRange <= 0.0 {
        return;
      }
      var ndp := DecimalPlaces(minClassRange);
      var fmt := RangeLabelFormat.SetPrecision(labelFormat, ndp);
      assert fmt.precision == ndp;
      labelFormat := fmt;
      if updateRanges {
        SetLabelFormat(labelFormat, labelFor, true);
      }
    }

    /** calculateLabelPrecision as documented: the precision is chosen as
      * above, and if asked the classes still carrying the default label of
      * the old format take the default label of the new one, while
      * hand-written labels stay (RelabelledDefaultsSpec). */
    method CalculateLabelPrecisionAsDocumented(labelFor: LabelGenerator, updateRanges: bool := true)
      requires Valid()
      modifies this`ranges, this`labelFormat
      ensures Valid()
      ensures MinClassWidth(old(ranges)) == 0.0 ==> ranges == old(ranges) && labelFormat == old(labelFormat)
      ensures MinClassWidth(old(ranges)) > 0.0 ==>
        SuitsWidth(MinClassWidth(old(ranges)), labelFormat.precision) &&
        labelFormat.format == old(labelFormat).format &&
        labelFormat.trimTrailingZeroes == old(labelFormat).trimTrailingZeroes &&
        (updateRanges ==>
          ranges == RelabelledDefaults(old(ranges), LabelsWith(labelFor, old(labelFormat)), LabelsWith(labelFor, labelFormat))) &&
        (!updateRanges ==> ranges == old(ranges))
    {
      var minClassRange := MinClassRange();
      if minClassRange <= 0.0 {
        return;
      }
      var ndp := DecimalPlaces(minClassRange);
      var previous := labelFormat;
      var fmt := RangeLabelFormat.SetPrecision(labelFormat, ndp);
      assert fmt.precision == ndp;
      labelFormat := fmt;
      if updateRanges {
        UpdateDefaultLabels(previous, fmt, labelFor);
      }
    }
  }
}
