// QgsRendererRange: one class of a graduated renderer, a value interval with
// its symbol, its legend label and its render state. The source copies ranges
// by value (copy-and-swap), so a range is a datatype here and its setters
// return the updated range.

module RendererRange {
  import opened Symbols

  /** A class of the graduated renderer. The symbol pointer may be null in the
    * source (default constructor), hence the Option. */
  datatype Range = Range(
    lowerValue: real,
    upperValue: real,
    symbol: Option<Symbol>,
    labelText: string,
    render: bool)

  /** QgsRendererRange(): bounds 0, no symbol, empty label, rendered. */
  function DefaultRange(): (r: Range)
    ensures r.lowerValue == 0.0 && r.upperValue == 0.0
    ensures r.symbol == None && r.labelText == "" && r.render
  {
    Range(0.0, 0.0, None, "", true)
  }

  /** QgsRendererRange(lower, upper, symbol, label, render = true). */
  function NewRange(lower: real, upper: real, symbol: Symbol, text: string, render: bool := true): Range {
    Range(lower, upper, Some(symbol), text, render)
  }

  function SetSymbol(r: Range, s: Option<Symbol>): Range { r.(symbol := s) }
  function SetLabel(r: Range, text: string): Range { r.(labelText := text) }
  function SetLowerValue(r: Range, v: real): Range { r.(lowerValue := v) }
  function SetUpperValue(r: Range, v: real): Range { r.(upperValue := v) }
  function SetRenderState(r: Range, render: bool): Range { r.(render := render) }

  /** Each setter is read back by its getter and leaves the other four fields alone;
    * a range built without a render flag is rendered. */
  lemma AccessorRoundTrips(r: Range, s: Option<Symbol>, text: string, v: real, u: real, b: bool, sym: Symbol)
    ensures var q := SetSymbol(r, s);
      q.symbol == s && q.lowerValue == r.lowerValue && q.upperValue == r.upperValue && q.labelText == r.labelText && q.render == r.render
    ensures var q := SetLabel(r, text);
      q.labelText == text && q.lowerValue == r.lowerValue && q.upperValue == r.upperValue && q.symbol == r.symbol && q.render == r.render
    ensures var q := SetLowerValue(r, v);
      q.lowerValue == v && q.upperValue == r.upperValue && q.symbol == r.symbol && q.labelText == r.labelText && q.render == r.render
    ensures var q := SetUpperValue(r, v);
      q.upperValue == v && q.lowerValue == r.lowerValue && q.symbol == r.symbol && q.labelText == r.labelText && q.render == r.render
    ensures var q := SetRenderState(r, b);
      q.render == b && q.lowerValue == r.lowerValue && q.upperValue == r.upperValue && q.symbol == r.symbol && q.labelText == r.labelText
    ensures NewRange(v, u, sym, text).render
  {
  }

  // ---------------------------------------------------------------------
  // Orders on ranges

  /** operator<: by lower value, then by upper value. The source compares the
    * lower values with a tolerance (qgsDoubleNear); here they are compared exactly. */
  predicate Less(a: Range, b: Range) {
    a.lowerValue < b.lowerValue || (a.lowerValue == b.lowerValue && a.upperValue < b.upperValue)
  }

  /** Two ranges that neither precedes are the ones with the same bounds. */
  predicate SameBounds(a: Range, b: Range) {
    a.lowerValue == b.lowerValue && a.upperValue == b.upperValue
  }

  /** operator< is a strict order whose incomparable pairs are exactly the
    * pairs with equal bounds. */
  lemma LessIsStrictOrder(a: Range, b: Range, c: Range)
    ensures !Less(a, a)
    ensures Less(a, b) ==> !Less(b, a)
    ensures Less(a, b) && Less(b, c) ==> Less(a, c)
    ensures Less(a, b) || Less(b, a) || SameBounds(a, b)
    ensures SameBounds(a, b) ==> !Less(a, b) && !Less(b, a)
  {
  }

  /** "a does not come after b" in value order. */
  predicate ValueLe(a: Range, b: Range) {
    !Less(b, a)
  }

  /** "a does not come before b" in value order: the descending counterpart. */
  predicate ValueGe(a: Range, b: Range) {
    !Less(a, b)
  }

  /** Strict lexicographic order on strings by code unit. The source compares
    * labels with QString::localeAwareCompare; locale collation is not modelled. */
  predicate StringLess(a: string, b: string) {
    if a == [] then b != []
    else if b == [] then false
    else a[0] < b[0] || (a[0] == b[0] && StringLess(a[1..], b[1..]))
  }

  lemma {:induction false} StringLessIrreflexive(a: string)
    ensures !StringLess(a, a)
  {
    if a != [] {
      StringLessIrreflexive(a[1..]);
    }
  }

  /** Lexicographic order is total and transitive. */
  lemma {:induction false} StringLessTotal(a: string, b: string)
    ensures a == b || StringLess(a, b) || StringLess(b, a)
  {
    if a != [] && b != [] && a[0] == b[0] {
      StringLessTotal(a[1..], b[1..]);
      if a[1..] == b[1..] {
        assert a == [a[0]] + a[1..] && b == [b[0]] + b[1..];
      }
    }
  }

  lemma {:induction false} StringLessTransitive(a: string, b: string, c: string)
    requires StringLess(a, b) && StringLess(b, c)
    ensures StringLess(a, c)
  {
    if a != [] && b != [] && c != [] && a[0] == b[0] && b[0] == c[0] {
      StringLessTransitive(a[1..], b[1..], c[1..]);
    }
  }

  /** "a does not come after b" in label order. */
  predicate LabelLe(a: Range, b: Range) {
    !StringLess(b.labelText, a.labelText)
  }

  /** "a does not come before b" in label order. */
  predicate LabelGe(a: Range, b: Range) {
    !StringLess(a.labelText, b.labelText)
  }
}
