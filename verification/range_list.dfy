// The range list of the graduated renderer (QgsRangeList) as a value:
// the orders it is sorted by, the overlap and gap checks, the value lookup,
// moving and removing a class, and splitting a class at a break.
// The renderer class edits its list through these definitions.

module RangeList {
  import opened Symbols
  import opened RendererRange

  // ---------------------------------------------------------------------
  // Sorting

  /** Qt::SortOrder. */
  datatype SortOrder = AscendingOrder | DescendingOrder

  ghost predicate TotalPreorder(le: (Range, Range) -> bool) {
    (forall a, b :: le(a, b) || le(b, a)) &&
    (forall a, b, c :: le(a, b) && le(b, c) ==> le(a, c))
  }

  ghost predicate SortedBy(t: seq<Range>, le: (Range, Range) -> bool) {
    forall i, j :: 0 <= i < j < |t| ==> le(t[i], t[j])
  }

  function Insert(x: Range, t: seq<Range>, le: (Range, Range) -> bool): (r: seq<Range>)
    ensures |r| == |t| + 1 && multiset(r) == multiset(t) + multiset{x}
  {
    if t == [] then [x]
    else if le(x, t[0]) then [x] + t
    else
      assert t == [t[0]] + t[1..];
      [t[0]] + Insert(x, t[1..], le)
  }

  /** The sort the renderer hands to std::sort, as an insertion sort. Any
    * sorted permutation gives the same bounds (SortedBoundsAreUnique), which
    * is all the checks below look at. */
  function Sort(s: seq<Range>, le: (Range, Range) -> bool): (r: seq<Range>)
    ensures |r| == |s| && multiset(r) == multiset(s)
  {
    if s == [] then []
    else
      assert s == [s[0]] + s[1..];
      Insert(s[0], Sort(s[1..], le), le)
  }

  /** A head that comes before every element of a sorted list keeps it sorted. */
  lemma SortedCons(h: Range, r: seq<Range>, le: (Range, Range) -> bool)
    requires SortedBy(r, le) && forall y :: y in r ==> le(h, y)
    ensures SortedBy([h] + r, le)
  {
    var t := [h] + r;
    forall i, j | 0 <= i < j < |t| ensures le(t[i], t[j]) {
      if i == 0 {
        assert t[j] == r[j - 1] && r[j - 1] in r;
      } else {
        assert t[i] == r[i - 1] && t[j] == r[j - 1];
      }
    }
  }

  lemma {:induction false} InsertSorted(x: Range, t: seq<Range>, le: (Range, Range) -> bool)
    requires TotalPreorder(le) && SortedBy(t, le)
    ensures SortedBy(Insert(x, t, le), le)
  {
    if t == [] {
    } else if le(x, t[0]) {
      forall y | y in t ensures le(x, y) {
        var j :| 0 <= j < |t| && t[j] == y;
        if j > 0 {
          assert le(t[0], t[j]);
        }
      }
      SortedCons(x, t, le);
    } else {
      var rest := Insert(x, t[1..], le);
      InsertSorted(x, t[1..], le);
      assert le(t[0], x);
      forall y | y in rest ensures le(t[0], y) {
        assert y in multiset(rest);
        if y != x {
          assert y in multiset(t[1..]);
          var j :| 0 <= j < |t[1..]| && t[1..][j] == y;
          assert t[j + 1] == y;
        }
      }
      assert SortedBy(t[1..], le);
      SortedCons(t[0], rest, le);
    }
  }

  lemma {:induction false} SortSorted(s: seq<Range>, le: (Range, Range) -> bool)
    requires TotalPreorder(le)
    ensures SortedBy(Sort(s, le), le)
  {
    if s != [] {
      SortSorted(s[1..], le);
      InsertSorted(s[0], Sort(s[1..], le), le);
    }
  }

  /** The two orders of each sort are total preorders. */
  lemma OrdersAreTotalPreorders()
    ensures TotalPreorder(ValueLe) && TotalPreorder(ValueGe)
    ensures TotalPreorder(LabelLe) && TotalPreorder(LabelGe)
  {
    forall a: Range, b: Range, c: Range
      ensures ValueLe(a, b) || ValueLe(b, a)
      ensures ValueLe(a, b) && ValueLe(b, c) ==> ValueLe(a, c)
      ensures ValueGe(a, b) || ValueGe(b, a)
      ensures ValueGe(a, b) && ValueGe(b, c) ==> ValueGe(a, c)
    {
      LessIsStrictOrder(a, b, c);
    }
    forall a: Range, b: Range, c: Range
      ensures LabelLe(a, b) || LabelLe(b, a)
      ensures LabelLe(a, b) && LabelLe(b, c) ==> LabelLe(a, c)
      ensures LabelGe(a, b) || LabelGe(b, a)
      ensures LabelGe(a, b) && LabelGe(b, c) ==> LabelGe(a, c)
    {
      StringLessIsTotalPreorder(a.labelText, b.labelText, c.labelText);
      StringLessIsTotalPreorder(c.labelText, b.labelText, a.labelText);
    }
  }

  /** "not after" in lexicographic order is total and transitive. */
  lemma StringLessIsTotalPreorder(a: string, b: string, c: string)
    ensures !StringLess(a, b) || !StringLess(b, a)
    ensures !StringLess(a, b) && !StringLess(b, c) ==> !StringLess(a, c)
  {
    StringLessIrreflexive(a);
    if StringLess(a, b) && StringLess(b, a) {
      StringLessTransitive(a, b, a);
    }
    if !StringLess(a, b) && !StringLess(b, c) && StringLess(a, c) {
      StringLessTotal(a, b);
      if StringLess(b, a) {
        StringLessTransitive(b, a, c);
      }
    }
  }

  function ValueOrder(order: SortOrder): (Range, Range) -> bool {
    if order == AscendingOrder then ValueLe else ValueGe
  }

  function LabelOrder(order: SortOrder): (Range, Range) -> bool {
    if order == AscendingOrder then LabelLe else LabelGe
  }

  /** sortByValue: the ranges ordered by operator<. */
  function SortedByValue(s: seq<Range>, order: SortOrder): seq<Range> {
    Sort(s, ValueOrder(order))
  }

  /** sortByLabel: the ranges ordered by label. */
  function SortedByLabel(s: seq<Range>, order: SortOrder): seq<Range> {
    Sort(s, LabelOrder(order))
  }

  /** sortByValue yields a permutation of the ranges in which, ascending, no
    * range is operator<-smaller than one before it, and descending, no range
    * is operator<-smaller than one after it. */
  lemma SortedByValueSpec(s: seq<Range>, order: SortOrder)
    ensures var r := SortedByValue(s, order);
      |r| == |s| && multiset(r) == multiset(s) &&
      (order == AscendingOrder ==> forall i, j :: 0 <= i < j < |r| ==> !Less(r[j], r[i])) &&
      (order == DescendingOrder ==> forall i, j :: 0 <= i < j < |r| ==> !Less(r[i], r[j]))
  {
    OrdersAreTotalPreorders();
    SortSorted(s, ValueOrder(order));
  }

  /** sortByLabel yields a permutation of the ranges whose labels are in
    * ascending or descending order. */
  lemma SortedByLabelSpec(s: seq<Range>, order: SortOrder)
    ensures var r := SortedByLabel(s, order);
      |r| == |s| && multiset(r) == multiset(s) &&
      (order == AscendingOrder ==> forall i, j :: 0 <= i < j < |r| ==> !StringLess(r[j].labelText, r[i].labelText)) &&
      (order == DescendingOrder ==> forall i, j :: 0 <= i < j < |r| ==> !StringLess(r[i].labelText, r[j].labelText))
  {
    OrdersAreTotalPreorders();
    SortSorted(s, LabelOrder(order));
  }

  // ---------------------------------------------------------------------
  // Bounds of a sorted list are unique

  datatype Bounds = Bounds(lower: real, upper: real)

  function BoundsOf(r: Range): Bounds {
    Bounds(r.lowerValue, r.upperValue)
  }

  /** The bounds of each range, in list order. */
  function Keys(s: seq<Range>): seq<Bounds> {
    seq(|s|, i requires 0 <= i < |s| => BoundsOf(s[i]))
  }

  /** Lexicographic order on bounds: the order operator< induces. */
  predicate BoundsLe(p: Bounds, q: Bounds) {
    p.lower < q.lower || (p.lower == q.lower && p.upper <= q.upper)
  }

  ghost predicate SortedBounds(k: seq<Bounds>) {
    forall i, j :: 0 <= i < j < |k| ==> BoundsLe(k[i], k[j])
  }

  lemma RemoveOne<T>(b: seq<T>, k: nat)
    requires k < |b|
    ensures multiset(b[..k] + b[k + 1..]) == multiset(b) - multiset{b[k]}
  {
    assert b == b[..k] + [b[k]] + b[k + 1..];
  }

  lemma KeysRemove(b: seq<Range>, k: nat)
    requires k < |b|
    ensures multiset(Keys(b[..k] + b[k + 1..])) == multiset(Keys(b)) - multiset{BoundsOf(b[k])}
  {
    assert Keys(b[..k] + b[k + 1..]) == Keys(b)[..k] + Keys(b)[k + 1..];
    RemoveOne(Keys(b), k);
  }

  lemma {:induction false} PermutedKeys(a: seq<Range>, b: seq<Range>)
    requires multiset(a) == multiset(b)
    ensures multiset(Keys(a)) == multiset(Keys(b))
    decreases |a|
  {
    if |a| == 0 {
      assert |multiset(b)| == 0;
      assert b == [];
    } else {
      var x := a[0];
      assert x in multiset(b);
      var k :| 0 <= k < |b| && b[k] == x;
      var a', b' := a[..0] + a[1..], b[..k] + b[k + 1..];
      assert multiset(a') == multiset(b') by {
        RemoveOne(a, 0);
        RemoveOne(b, k);
      }
      assert multiset(Keys(a')) == multiset(Keys(b')) by {
        assert a' == a[1..];
        PermutedKeys(a[1..], b');
      }
      KeysRemove(a, 0);
      KeysRemove(b, k);
      assert Keys(a)[0] == BoundsOf(x) && Keys(b)[k] == BoundsOf(x);
      MultisetCancel(multiset(Keys(a)), multiset(Keys(b)), BoundsOf(x));
    }
  }

  lemma MultisetCancel<T>(m: multiset<T>, n: multiset<T>, x: T)
    requires x in m && x in n && m - multiset{x} == n - multiset{x}
    ensures m == n
  {
    assert m == (m - multiset{x}) + multiset{x};
    assert n == (n - multiset{x}) + multiset{x};
  }

  /** Two sorted permutations of each other start with the same bounds. */
  lemma SortedHeadsAgree(p: seq<Bounds>, q: seq<Bounds>)
    requires |p| > 0 && SortedBounds(p) && SortedBounds(q) && multiset(p) == multiset(q)
    ensures |q| > 0 && p[0] == q[0]
  {
    assert p[0] in multiset(q) && q[0] in multiset(p);
    var j :| 0 <= j < |q| && q[j] == p[0];
    var i :| 0 <= i < |p| && p[i] == q[0];
    assert j > 0 ==> BoundsLe(q[0], q[j]);
    assert i > 0 ==> BoundsLe(p[0], p[i]);
  }

  /** Dropping the same first element from two permutations of each other
    * leaves permutations of each other. */
  lemma TailsPermuted(p: seq<Bounds>, q: seq<Bounds>)
    requires |p| > 0 && |q| > 0 && p[0] == q[0] && multiset(p) == multiset(q)
    ensures multiset(p[1..]) == multiset(q[1..])
  {
    assert p == [p[0]] + p[1..] && q == [q[0]] + q[1..];
    assert multiset(p[1..]) == multiset(p) - multiset{p[0]};
    assert multiset(q[1..]) == multiset(q) - multiset{q[0]};
  }

  lemma {:induction false} SortedBoundsAreUnique(p: seq<Bounds>, q: seq<Bounds>)
    requires SortedBounds(p) && SortedBounds(q) && multiset(p) == multiset(q)
    ensures p == q
    decreases |p|
  {
    if |p| == 0 {
      assert |multiset(q)| == 0;
    } else {
      SortedHeadsAgree(p, q);
      TailsPermuted(p, q);
      assert SortedBounds(p[1..]) && SortedBounds(q[1..]);
      SortedBoundsAreUnique(p[1..], q[1..]);
      assert p == [p[0]] + p[1..] && q == [q[0]] + q[1..];
    }
  }

  lemma ValueSortedKeys(t: seq<Range>)
    requires SortedBy(t, ValueLe)
    ensures SortedBounds(Keys(t))
  {
    forall i, j | 0 <= i < j < |t| ensures BoundsLe(Keys(t)[i], Keys(t)[j]) {
      assert ValueLe(t[i], t[j]);
    }
  }

  /** Every ascending sorted permutation of a range list has the same bounds,
    * whatever order std::sort leaves ranges with equal bounds in. */
  lemma SortedPermutationsShareBounds(s: seq<Range>, t: seq<Range>)
    requires multiset(t) == multiset(s) && SortedBy(t, ValueLe)
    ensures Keys(t) == Keys(SortedByValue(s, AscendingOrder))
  {
    var u := SortedByValue(s, AscendingOrder);
    OrdersAreTotalPreorders();
    SortSorted(s, ValueLe);
    ValueSortedKeys(t);
    ValueSortedKeys(u);
    PermutedKeys(t, u);
    SortedBoundsAreUnique(Keys(t), Keys(u));
  }

  // ---------------------------------------------------------------------
  // rangesOverlap and rangesHaveGaps

  /** In value order: some range is inverted, or begins below the upper
    * bound of the range before it. */
  predicate OverlapsInOrder(k: seq<Bounds>) {
    (exists i :: 0 <= i < |k| && k[i].upper < k[i].lower) ||
    (exists i :: 1 <= i < |k| && k[i].lower < k[i - 1].upper)
  }

  /** In value order: some range does not begin exactly at the upper bound
    * of the range before it. */
  predicate GapsInOrder(k: seq<Bounds>) {
    exists i :: 1 <= i < |k| && k[i].lower != k[i - 1].upper
  }

  /** rangesOverlap: the check on a copy of the list sorted by value. */
  predicate Overlapping(s: seq<Range>) {
    OverlapsInOrder(Keys(SortedByValue(s, AscendingOrder)))
  }

  /** rangesHaveGaps: the check on a copy of the list sorted by value. */
  predicate HaveGaps(s: seq<Range>) {
    GapsInOrder(Keys(SortedByValue(s, AscendingOrder)))
  }

  /** Both checks give the same answer on every sorted copy of the list. */
  lemma ChecksOnAnySortedCopy(s: seq<Range>, t: seq<Range>)
    requires multiset(t) == multiset(s) && SortedBy(t, ValueLe)
    ensures OverlapsInOrder(Keys(t)) == Overlapping(s)
    ensures GapsInOrder(Keys(t)) == HaveGaps(s)
  {
    SortedPermutationsShareBounds(s, t);
  }

  /** Both checks depend only on the multiset of ranges. */
  lemma ChecksArePermutationInvariant(s: seq<Range>, s': seq<Range>)
    requires multiset(s) == multiset(s')
    ensures Overlapping(s) == Overlapping(s')
    ensures HaveGaps(s) == HaveGaps(s')
  {
    var t := SortedByValue(s', AscendingOrder);
    OrdersAreTotalPreorders();
    SortSorted(s', ValueLe);
    ChecksOnAnySortedCopy(s, t);
  }

  // ---------------------------------------------------------------------
  // rangesOverlap compares neighbours only, yet sees every overlapping pair

  /** Two classes share more than a boundary value. */
  predicate Overlap(a: Range, b: Range) {
    a.lowerValue < b.upperValue && b.lowerValue < a.upperValue
  }

  ghost predicate SomeInverted(s: seq<Range>) {
    exists i :: 0 <= i < |s| && s[i].upperValue < s[i].lowerValue
  }

  ghost predicate SomePairOverlaps(s: seq<Range>) {
    exists p, q :: 0 <= p < q < |s| && Overlap(s[p], s[q])
  }

  /** Two positions of s hold values that a permutation t of s also holds at
    * two positions. */
  lemma TwoPositions(s: seq<Range>, t: seq<Range>, p: nat, q: nat) returns (p': nat, q': nat)
    requires multiset(s) == multiset(t) && p < q < |s|
    ensures p' < |t| && q' < |t| && p' != q' && t[p'] == s[p] && t[q'] == s[q]
  {
    assert s[p] in multiset(t);
    p' :| 0 <= p' < |t| && t[p'] == s[p];
    var s', t' := s[..p] + s[p + 1..], t[..p'] + t[p' + 1..];
    assert multiset(s') == multiset(t') by {
      RemoveOne(s, p);
      RemoveOne(t, p');
    }
    assert s'[q - 1] == s[q];
    assert s[q] in multiset(t');
    var j :| 0 <= j < |t'| && t'[j] == s[q];
    q' := if j < p' then j else j + 1;
  }

  lemma PairsArePermutationInvariant(s: seq<Range>, t: seq<Range>)
    requires multiset(s) == multiset(t)
    ensures SomePairOverlaps(s) ==> SomePairOverlaps(t)
    ensures SomeInverted(s) ==> SomeInverted(t)
  {
    if SomePairOverlaps(s) {
      var p, q :| 0 <= p < q < |s| && Overlap(s[p], s[q]);
      var p', q' := TwoPositions(s, t, p, q);
      if p' < q' {
        assert Overlap(t[p'], t[q']);
      } else {
        assert Overlap(t[q'], t[p']);
      }
    }
    if SomeInverted(s) {
      var i :| 0 <= i < |s| && s[i].upperValue < s[i].lowerValue;
      assert s[i] in multiset(t);
      var j :| 0 <= j < |t| && t[j] == s[i];
    }
  }

  /** Without inverted classes, neighbours that do not overlap are ordered
    * end to start all along the list. */
  lemma {:induction false} ChainOrdered(k: seq<Bounds>, p: nat, q: nat)
    requires p < q < |k|
    requires forall i :: 0 <= i < |k| ==> k[i].lower <= k[i].upper
    requires forall i :: 1 <= i < |k| ==> k[i - 1].upper <= k[i].lower
    ensures k[p].upper <= k[q].lower
    decreases q - p
  {
    if q > p + 1 {
      ChainOrdered(k, p, q - 1);
      assert k[q - 1].lower <= k[q - 1].upper <= k[q].lower;
    }
  }

  /** Neighbours in value order that overlap make an overlapping pair. */
  lemma NeighboursOverlap(t: seq<Range>, i: nat)
    requires 1 <= i < |t| && ValueLe(t[i - 1], t[i])
    requires t[i].lowerValue < t[i - 1].upperValue && t[i].lowerValue <= t[i].upperValue
    ensures SomePairOverlaps(t)
  {
    assert Overlap(t[i - 1], t[i]);
  }

  /** Without an overlap between neighbours or an inverted class, no two
    * classes overlap. */
  lemma NoNeighbourOverlapNoPair(t: seq<Range>)
    requires !OverlapsInOrder(Keys(t))
    ensures !SomeInverted(t) && !SomePairOverlaps(t)
  {
    var k := Keys(t);
    forall i | 0 <= i < |t| ensures t[i].lowerValue <= t[i].upperValue {
      assert k[i].lower <= k[i].upper;
    }
    if SomePairOverlaps(t) {
      var p, q :| 0 <= p < q < |t| && Overlap(t[p], t[q]);
      ChainOrdered(k, p, q);
      assert false;
    }
  }

  /** On a list sorted by value, comparing neighbours finds every inverted
    * class and every overlapping pair. */
  lemma SortedOverlapsInOrder(t: seq<Range>)
    requires forall i :: 1 <= i < |t| ==> ValueLe(t[i - 1], t[i])
    ensures OverlapsInOrder(Keys(t)) <==> SomeInverted(t) || SomePairOverlaps(t)
  {
    var k := Keys(t);
    if !OverlapsInOrder(k) {
      NoNeighbourOverlapNoPair(t);
    } else if !SomeInverted(t) {
      var i :| 1 <= i < |k| && k[i].lower < k[i - 1].upper;
      assert t[i].lowerValue <= t[i].upperValue;
      NeighboursOverlap(t, i);
    }
  }

  /** rangesOverlap holds exactly when some class is inverted or some two
    * classes, anywhere in the list, overlap. */
  lemma OverlappingMeansSomePairOverlaps(s: seq<Range>)
    ensures Overlapping(s) <==> SomeInverted(s) || SomePairOverlaps(s)
  {
    var t := SortedByValue(s, AscendingOrder);
    assert multiset(t) == multiset(s);
    assert forall i :: 1 <= i < |t| ==> ValueLe(t[i - 1], t[i]) by {
      OrdersAreTotalPreorders();
      SortSorted(s, ValueLe);
      assert SortedBy(t, ValueLe);
    }
    PairsArePermutationInvariant(s, t);
    PairsArePermutationInvariant(t, s);
    SortedOverlapsInOrder(t);
  }

  /** A value lies in a range when lower <= value <= upper (the lookup test). */
  predicate Contains(r: Range, v: real) {
    r.lowerValue <= v <= r.upperValue
  }

  /** Some class of the list holds the value. */
  ghost predicate Covered(s: seq<Range>, v: real) {
    exists r :: r in s && Contains(r, v)
  }

  lemma {:induction false} ChainCovers(k: seq<Bounds>, x: real)
    requires |k| > 0
    requires forall i :: 0 <= i < |k| ==> k[i].lower <= k[i].upper
    requires forall i :: 1 <= i < |k| ==> k[i].lower == k[i - 1].upper
    ensures k[0].lower <= k[|k| - 1].upper
    ensures (exists i :: 0 <= i < |k| && k[i].lower <= x <= k[i].upper) <==> k[0].lower <= x <= k[|k| - 1].upper
  {
    if |k| > 1 {
      var rest := k[1..];
      ChainCovers(rest, x);
      ChainCovers(rest, rest[0].lower);
      assert rest[0].lower <= rest[0].lower <= rest[0].upper;
      if exists i :: 0 <= i < |k| && k[i].lower <= x <= k[i].upper {
        var i :| 0 <= i < |k| && k[i].lower <= x <= k[i].upper;
        if i > 0 {
          assert rest[i - 1].lower <= x <= rest[i - 1].upper;
        }
      }
      if k[0].lower <= x <= k[|k| - 1].upper && x > k[0].upper {
        var i :| 0 <= i < |rest| && rest[i].lower <= x <= rest[i].upper;
        assert k[i + 1].lower <= x <= k[i + 1].upper;
      }
    }
  }

  /** A list without overlaps and gaps covers exactly one interval: from the
    * lowest lower bound to the highest upper bound, with no value missing. */
  lemma ContiguousClassesCoverOneInterval(s: seq<Range>, x: real)
    requires |s| > 0 && !Overlapping(s) && !HaveGaps(s)
    ensures var t := SortedByValue(s, AscendingOrder);
      Covered(s, x) <==> t[0].lowerValue <= x <= t[|t| - 1].upperValue
  {
    var t := SortedByValue(s, AscendingOrder);
    var k := Keys(t);
    assert forall i :: 0 <= i < |k| ==> k[i].lower <= k[i].upper;
    assert forall i :: 1 <= i < |k| ==> k[i].lower == k[i - 1].upper;
    ChainCovers(k, x);
    if Covered(s, x) {
      var r :| r in s && Contains(r, x);
      assert r in multiset(t);
      var i :| 0 <= i < |t| && t[i] == r;
      assert k[i].lower <= x <= k[i].upper;
    }
    if t[0].lowerValue <= x <= t[|t| - 1].upperValue {
      var i :| 0 <= i < |k| && k[i].lower <= x <= k[i].upper;
      assert t[i] in multiset(s);
      assert t[i] in s && Contains(t[i], x);
    }
  }

  /** In a chain of ordered bounds, a value strictly between the end of one
    * link and the start of the next lies in no link, yet between the first
    * lower bound and the last upper bound. */
  lemma ChainGap(k: seq<Bounds>, i: nat, x: real)
    requires 1 <= i < |k|
    requires forall j :: 0 <= j < |k| ==> k[j].lower <= k[j].upper
    requires forall j :: 1 <= j < |k| ==> k[j - 1].upper <= k[j].lower
    requires k[i - 1].upper < x < k[i].lower
    ensures forall j :: 0 <= j < |k| ==> !(k[j].lower <= x <= k[j].upper)
    ensures k[0].lower <= x <= k[|k| - 1].upper
  {
    forall j | 0 <= j < |k| ensures !(k[j].lower <= x <= k[j].upper) {
      if j < i - 1 {
        ChainOrdered(k, j, i - 1);
      } else if j > i {
        ChainOrdered(k, i, j);
      }
    }
    if i - 1 > 0 {
      ChainOrdered(k, 0, i - 1);
    }
    if i < |k| - 1 {
      ChainOrdered(k, i, |k| - 1);
    }
  }

  /** Without overlaps, a gap between two neighbours in value order leaves a
    * value between the lowest lower bound and the highest upper bound that
    * no class holds: the midpoint of the gap. */
  lemma GapLeavesUncoveredValue(s: seq<Range>)
    requires !Overlapping(s) && HaveGaps(s)
    ensures var t := SortedByValue(s, AscendingOrder);
      |t| > 0 && exists x :: t[0].lowerValue <= x <= t[|t| - 1].upperValue && !Covered(s, x)
  {
    var t := SortedByValue(s, AscendingOrder);
    var k := Keys(t);
    assert multiset(t) == multiset(s);
    var i :| 1 <= i < |k| && k[i].lower != k[i - 1].upper;
    var x := (k[i - 1].upper + k[i].lower) / 2.0;
    ChainGap(k, i, x);
    assert t[0].lowerValue <= x <= t[|t| - 1].upperValue;
    forall r | r in s ensures !Contains(r, x) {
      assert r in multiset(t);
      var j :| 0 <= j < |t| && t[j] == r;
      assert k[j] == BoundsOf(r);
    }
    assert !Covered(s, x);
  }

  /** rangesHaveGaps on a non-empty list without overlaps holds exactly when
    * some value between the lowest lower bound and the highest upper bound
    * lies in no class. */
  lemma GapsMeanUncoveredValues(s: seq<Range>)
    requires |s| > 0 && !Overlapping(s)
    ensures var t := SortedByValue(s, AscendingOrder);
      |t| == |s| &&
      (HaveGaps(s) <==> exists x :: t[0].lowerValue <= x <= t[|t| - 1].upperValue && !Covered(s, x))
  {
    var t := SortedByValue(s, AscendingOrder);
    assert |t| == |multiset(t)| == |multiset(s)| == |s|;
    if HaveGaps(s) {
      GapLeavesUncoveredValue(s);
    } else {
      forall x | t[0].lowerValue <= x <= t[|t| - 1].upperValue ensures Covered(s, x) {
        ContiguousClassesCoverOneInterval(s, x);
      }
    }
  }

  /** rangesHaveGaps also reports overlaps: when no class is inverted, an
    * overlapping list has a neighbour that begins before the previous class
    * ends, hence not exactly where it ends. */
  lemma OverlapsAreGaps(s: seq<Range>)
    requires !SomeInverted(s) && Overlapping(s)
    ensures HaveGaps(s)
  {
    var t := SortedByValue(s, AscendingOrder);
    var k := Keys(t);
    assert multiset(t) == multiset(s);
    PairsArePermutationInvariant(t, s);
    assert forall i :: 0 <= i < |k| ==> k[i].lower <= k[i].upper by {
      forall i | 0 <= i < |k| ensures k[i].lower <= k[i].upper {
        assert k[i] == BoundsOf(t[i]);
      }
    }
    var i :| 1 <= i < |k| && k[i].lower < k[i - 1].upper;
    assert k[i].lower != k[i - 1].upper;
  }

  // ---------------------------------------------------------------------
  // Lookup

  function FirstMatchFrom(s: seq<Range>, p: Range -> bool, k: nat): (r: Option<nat>)
    requires k <= |s|
    ensures r.Some? ==> k <= r.value < |s| && p(s[r.value]) && forall j :: k <= j < r.value ==> !p(s[j])
    ensures r.None? ==> forall j :: k <= j < |s| ==> !p(s[j])
    decreases |s| - k
  {
    if k == |s| then None
    else if p(s[k]) then Some(k)
    else FirstMatchFrom(s, p, k + 1)
  }

  /** The index of the first range, in stored order, that holds the value. */
  function FirstContaining(s: seq<Range>, v: real): (r: Option<nat>)
    ensures r.Some? ==> r.value < |s| && Contains(s[r.value], v) && forall j :: 0 <= j < r.value ==> !Contains(s[j], v)
    ensures r.None? ==> forall j :: 0 <= j < |s| ==> !Contains(s[j], v)
  {
    FirstMatchFrom(s, r => Contains(r, v), 0)
  }

  /** symbolForValue: the symbol of the first range holding the value, or
    * none when no range holds it or that range is switched off (unless the
    * renderer is only counting features). */
  function SymbolFor(s: seq<Range>, v: real, counting: bool): Option<Symbol> {
    match FirstContaining(s, v)
    case None => None
    case Some(i) => if s[i].render || counting then s[i].symbol else None
  }

  /** legendKeyForValue: the index of that range, which the source renders
    * as a decimal string. */
  function LegendKeyFor(s: seq<Range>, v: real, counting: bool): Option<nat> {
    match FirstContaining(s, v)
    case None => None
    case Some(i) => if s[i].render || counting then Some(i) else None
  }

  /** First match wins: a rendered range that holds the value, with no range
    * before it holding it, supplies the symbol and the legend key; a value
    * no range holds has neither. */
  lemma LookupFindsFirstMatch(s: seq<Range>, v: real, counting: bool, i: nat)
    requires i < |s| && Contains(s[i], v) && s[i].render
    requires forall j :: 0 <= j < i ==> !Contains(s[j], v)
    ensures SymbolFor(s, v, counting) == s[i].symbol
    ensures LegendKeyFor(s, v, counting) == Some(i)
  {
  }

  lemma LookupMissesUncovered(s: seq<Range>, v: real, counting: bool)
    requires !Covered(s, v)
    ensures SymbolFor(s, v, counting) == None && LegendKeyFor(s, v, counting) == None
  {
  }

  // ---------------------------------------------------------------------
  // Removing and moving a class

  function Remove(s: seq<Range>, i: nat): seq<Range>
    requires i < |s|
  {
    s[..i] + s[i + 1..]
  }

  /** deleteClass removes exactly one range: the others keep their order. */
  lemma RemoveSpec(s: seq<Range>, i: nat)
    requires i < |s|
    ensures var r := Remove(s, i);
      |r| == |s| - 1 && multiset(r) == multiset(s) - multiset{s[i]} &&
      (forall j :: 0 <= j < i ==> r[j] == s[j]) &&
      (forall j :: i <= j < |r| ==> r[j] == s[j + 1])
  {
    RemoveOne(s, i);
  }

  /** QList::move: take the range out at `from`, put it back at `to`. */
  function Move(s: seq<Range>, from: nat, to: nat): seq<Range>
    requires from < |s| && to < |s|
  {
    var rest := Remove(s, from);
    rest[..to] + [s[from]] + rest[to..]
  }

  /** After a move the list has the same length and the same ranges, the moved
    * range sits at `to`, and the other ranges keep their relative order. */
  lemma MoveSpec(s: seq<Range>, from: nat, to: nat)
    requires from < |s| && to < |s|
    ensures var r := Move(s, from, to);
      |r| == |s| && r[to] == s[from] && multiset(r) == multiset(s) && Remove(r, to) == Remove(s, from)
  {
    var rest := Remove(s, from);
    var r := Move(s, from, to);
    assert s == s[..from] + [s[from]] + s[from + 1..];
    assert multiset(s) == multiset(rest) + multiset{s[from]};
    assert rest == rest[..to] + rest[to..];
    assert r[..to] == rest[..to] && r[to + 1..] == rest[to..];
  }

  /** Moving a class changes neither check. */
  lemma MoveKeepsChecks(s: seq<Range>, from: nat, to: nat)
    requires from < |s| && to < |s|
    ensures Overlapping(Move(s, from, to)) == Overlapping(s)
    ensures HaveGaps(Move(s, from, to)) == HaveGaps(s)
  {
    MoveSpec(s, from, to);
    ChecksArePermutationInvariant(s, Move(s, from, to));
  }

  /** Neither does sorting, by value or by label. */
  lemma SortKeepsChecks(s: seq<Range>, order: SortOrder)
    ensures Overlapping(SortedByValue(s, order)) == Overlapping(s)
    ensures HaveGaps(SortedByValue(s, order)) == HaveGaps(s)
    ensures Overlapping(SortedByLabel(s, order)) == Overlapping(s)
    ensures HaveGaps(SortedByLabel(s, order)) == HaveGaps(s)
  {
    ChecksArePermutationInvariant(s, SortedByValue(s, order));
    ChecksArePermutationInvariant(s, SortedByLabel(s, order));
  }

  // ---------------------------------------------------------------------
  // addBreak

  predicate StrictlyInside(r: Range, v: real) {
    r.lowerValue < v < r.upperValue
  }

  /** The first range, in stored order, whose interior holds the value. */
  function FirstStrictlyInside(s: seq<Range>, v: real): (r: Option<nat>)
    ensures r.Some? ==> r.value < |s| && StrictlyInside(s[r.value], v) && forall j :: 0 <= j < r.value ==> !StrictlyInside(s[j], v)
    ensures r.None? ==> forall j :: 0 <= j < |s| ==> !StrictlyInside(s[j], v)
  {
    FirstMatchFrom(s, r => StrictlyInside(r, v), 0)
  }

  /** Range i cut at v: it keeps [lower, v], with its label regenerated only if
    * it was the default label; a new rendered range [v, upper] with the given
    * symbol and a default label is inserted right after it. */
  function SplitAt(s: seq<Range>, i: nat, v: real, symbol: Option<Symbol>, labelFor: (real, real) -> string): seq<Range>
    requires i < |s| && StrictlyInside(s[i], v)
  {
    var whole := s[i];
    var isDefaultLabel := whole.labelText == labelFor(whole.lowerValue, whole.upperValue);
    var lowerPart := whole.(upperValue := v,
                            labelText := if isDefaultLabel then labelFor(whole.lowerValue, v) else whole.labelText);
    var upperPart := DefaultRange().(lowerValue := v, upperValue := whole.upperValue,
                                     symbol := symbol, labelText := labelFor(v, whole.upperValue));
    s[..i] + [lowerPart, upperPart] + s[i + 1..]
  }

  ghost predicate AllHaveSymbols(s: seq<Range>) {
    forall i :: 0 <= i < |s| ==> s[i].symbol.Some?
  }

  /** The range list after addBreak(v), before any symbol update. If every
    * class had a symbol and the new class gets one, every class still has one. */
  function WithBreak(s: seq<Range>, v: real, symbol: Option<Symbol>, labelFor: (real, real) -> string): (r: seq<Range>)
    ensures AllHaveSymbols(s) && (symbol.Some? || FirstStrictlyInside(s, v).None?) ==> AllHaveSymbols(r)
  {
    match FirstStrictlyInside(s, v)
    case None => s
    case Some(i) => SplitAt(s, i, v, symbol, labelFor)
  }

  /** addBreak makes v a break: when v lies strictly inside a range, that range
    * now ends at v and the next one starts at v, the two together span the
    * old range, there is one class more and nothing else moves. The new
    * class takes the default label of its bounds; the split class takes the
    * default label of its new bounds if it carried the default label of its
    * old ones, and keeps its label otherwise. When v
    * already lies on no interior and the list is unchanged. */
  lemma WithBreakSpec(s: seq<Range>, v: real, symbol: Option<Symbol>, labelFor: (real, real) -> string)
    ensures var r := WithBreak(s, v, symbol, labelFor);
      match FirstStrictlyInside(s, v)
      case None =>
        r == s && forall j :: 0 <= j < |s| ==> !StrictlyInside(s[j], v)
      case Some(i) =>
        |r| == |s| + 1 &&
        r[i].lowerValue == s[i].lowerValue && r[i].upperValue == v &&
        r[i + 1].lowerValue == v && r[i + 1].upperValue == s[i].upperValue &&
        r[i].symbol == s[i].symbol && r[i].render == s[i].render &&
        r[i + 1].symbol == symbol && r[i + 1].render &&
        r[i + 1].labelText == labelFor(v, s[i].upperValue) &&
        r[i].labelText == (if s[i].labelText == labelFor(s[i].lowerValue, s[i].upperValue)
                           then labelFor(s[i].lowerValue, v) else s[i].labelText) &&
        r[..i] == s[..i] && r[i + 2..] == s[i + 1..]
  {
    match FirstStrictlyInside(s, v)
    case None =>
    case Some(i) =>
      var r := WithBreak(s, v, symbol, labelFor);
      assert r[i + 2..] == s[i + 1..];
  }

  /** addBreak covers the same values as before: splitting is lossless on the
    * value axis. */
  lemma WithBreakKeepsCoverage(s: seq<Range>, v: real, symbol: Option<Symbol>, labelFor: (real, real) -> string, x: real)
    ensures Covered(WithBreak(s, v, symbol, labelFor), x) <==> Covered(s, x)
  {
    var r := WithBreak(s, v, symbol, labelFor);
    match FirstStrictlyInside(s, v)
    case None =>
    case Some(i) =>
      WithBreakSpec(s, v, symbol, labelFor);
      if Covered(s, x) {
        var q :| q in s && Contains(q, x);
        var j :| 0 <= j < |s| && s[j] == q;
        if j < i {
          assert r[j] == q;
        } else if j > i {
          assert r[j + 1] == s[j];
        } else if x <= v {
          assert r[i] in r && Contains(r[i], x);
        } else {
          assert r[i + 1] in r && Contains(r[i + 1], x);
        }
      }
      if Covered(r, x) {
        var q :| q in r && Contains(q, x);
        var j :| 0 <= j < |r| && r[j] == q;
        if j < i {
          assert s[j] == q;
        } else if j > i + 1 {
          assert s[j - 1] == r[j];
        } else {
          assert s[i] in s && Contains(s[i], x);
        }
      }
  }
  /** Interval a lies within interval b. */
  predicate Within(a: Range, b: Range) {
    b.lowerValue <= a.lowerValue && a.upperValue <= b.upperValue
  }

  /** The position in the old list that position j of the list split at i
    * comes from. */
  function Origin(i: nat, j: nat): nat {
    if j <= i then j else j - 1
  }

  /** Each class of a list split at i lies within the class it comes from,
    * is inverted only if that class is, and the two halves do not overlap. */
  lemma SplitRefines(s: seq<Range>, i: nat, v: real, symbol: Option<Symbol>, labelFor: (real, real) -> string)
    requires i < |s| && StrictlyInside(s[i], v)
    ensures var r := SplitAt(s, i, v, symbol, labelFor);
      |r| == |s| + 1 && !Overlap(r[i], r[i + 1]) &&
      forall j :: 0 <= j < |r| ==>
        Origin(i, j) < |s| && Within(r[j], s[Origin(i, j)]) &&
        (r[j].upperValue < r[j].lowerValue ==> s[Origin(i, j)].upperValue < s[Origin(i, j)].lowerValue)
  {
    var r := SplitAt(s, i, v, symbol, labelFor);
    forall j | 0 <= j < |r|
      ensures Origin(i, j) < |s| && Within(r[j], s[Origin(i, j)])
      ensures r[j].upperValue < r[j].lowerValue ==> s[Origin(i, j)].upperValue < s[Origin(i, j)].lowerValue
    {
      if j < i {
        assert r[j] == s[j];
      } else if j > i + 1 {
        assert r[j] == s[j - 1];
      }
    }
  }

  /** A list whose classes each lie within a class of a list without
    * overlaps, two of them within the same class only at positions i and
    * i + 1, which do not overlap, has no overlaps either. */
  lemma RefinementKeepsNoOverlap(s: seq<Range>, r: seq<Range>, i: nat)
    requires !SomeInverted(s) && !SomePairOverlaps(s)
    requires i + 1 < |r| && !Overlap(r[i], r[i + 1])
    requires forall j :: 0 <= j < |r| ==>
      Origin(i, j) < |s| && Within(r[j], s[Origin(i, j)]) &&
      (r[j].upperValue < r[j].lowerValue ==> s[Origin(i, j)].upperValue < s[Origin(i, j)].lowerValue)
    ensures !SomeInverted(r) && !SomePairOverlaps(r)
  {
    forall j | 0 <= j < |r| ensures r[j].lowerValue <= r[j].upperValue {
      assert !(s[Origin(i, j)].upperValue < s[Origin(i, j)].lowerValue);
    }
    forall p, q | 0 <= p < q < |r| ensures !Overlap(r[p], r[q]) {
      if Origin(i, p) != Origin(i, q) {
        assert Origin(i, p) < Origin(i, q);
        assert !Overlap(s[Origin(i, p)], s[Origin(i, q)]);
      }
    }
  }

  /** addBreak never makes the classes overlap. */
  lemma WithBreakKeepsNoOverlap(s: seq<Range>, v: real, symbol: Option<Symbol>, labelFor: (real, real) -> string)
    requires !Overlapping(s)
    ensures !Overlapping(WithBreak(s, v, symbol, labelFor))
  {
    OverlappingMeansSomePairOverlaps(s);
    OverlappingMeansSomePairOverlaps(WithBreak(s, v, symbol, labelFor));
    match FirstStrictlyInside(s, v)
    case None =>
    case Some(i) =>
      SplitRefines(s, i, v, symbol, labelFor);
      RefinementKeepsNoOverlap(s, SplitAt(s, i, v, symbol, labelFor), i);
  }
}
