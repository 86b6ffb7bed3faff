# Graduated symbol renderer: the range table

A model, in Dafny, of the class table of the QGIS graduated symbol renderer
(`QgsGraduatedSymbolRenderer`). The renderer sorts features into classes by
the value of one attribute. Each class (`QgsRendererRange`) is an interval
`[lower, upper]` with a symbol, a legend label and a render flag. The
renderer keeps its classes in an ordered list. It edits that list in place:
it updates one field of one class, adds, deletes and moves classes, splits
a class at a break, and sorts by value or by label. It checks the list for
overlaps and gaps and looks up the class that holds a value. It also
repaints the classes' symbols from a colour ramp, from graduated sizes or
from a new template symbol. Class labels come from a label format
(`QgsRendererRangeLabelFormat`): a template, a decimal precision clamped to
[-6, 15], and a trailing-zero policy.

Files:

- `symbols.dfy` (`Symbols`): what the renderer sees of a symbol. That is its
  kind, colour and size (the marker size or line width). A colour ramp is an
  opaque value.
- `renderer_range.dfy` (`RendererRange`): the class record, its accessors,
  `operator<`, and the label order.
- `label_format.dfy` (`RangeLabelFormat`): the label format, its precision
  bounds and the scale and suffix derived from the precision.
- `range_list.dfy` (`RangeList`): the list operations as functions on
  `seq<Range>`, with their properties:
  - sorting (a permutation, in order);
  - the overlap and gap checks (independent of list order; an overlap
    between neighbours after sorting means an overlapping pair anywhere);
  - first-match lookup;
  - delete and move;
  - splitting at a break (lossless on the value axis, and never creates an
    overlap);
  - coverage: without overlaps, the gap check holds exactly when some value
    between the outermost bounds lies in no class.
- `symbol_assignment.dfy` (`SymbolAssignment`): recolouring, graduated
  sizes, the smallest and largest size, restyling and relabelling, each as a
  function on the list with a lemma saying what it keeps.
- `graduated_renderer.dfy` (`GraduatedRenderer`): the renderer as a class.
  Its fields are the ones the source updates. Every mutator names the
  fields it may change and states the new state through the functions
  above. The read-only queries are loop methods proved equal to those
  functions.

Only the header `qgsgraduatedsymbolrenderer.h` is cited below. Members it
only declares follow the QGIS implementation `qgsgraduatedsymbolrenderer.cpp`,
which is not part of this model. Where that implementation and the
behaviour one might read from the declarations differ, the model follows
the implementation:

- `addClass(symbol)` puts a `[0, 0]` class labelled `0.0 - 0.0` at the
  front of the list.
- `addClass(lower, upper)` copies the source symbol without recolouring it.
- `addBreak` splits the first class with `lower < v < upper`, strictly on
  both sides.
- `deleteClass` ignores an index outside the list; `QList::removeAt` does so.
- `rangesOverlap` also reports a class whose upper bound is below its lower
  bound.
- `setLabelFormat(f, true)` regenerates every label, not only those ending
  with the old unit string, but only when `f` differs from the current
  format in template, precision or trim flag (`operator!=`).
- `calculateLabelPrecision(true)` stores the new precision first and then
  passes the format it now holds to `setLabelFormat`, so no label changes.
  The header promises that default labels are updated; see "## Findings".
- `updateSymbols` under the size method gives every class the template's
  colour, although the header says colours are left.

## Model

All source paths are relative to the repository root.

| member | source | states |
|---|---|---|
| Symbols.WithSize | src/core/symbology-ng/qgsgraduatedsymbolrenderer.h:297-300 | setting a size changes only the size of a marker or line symbol, which then reads back; a fill symbol is unchanged |
| RendererRange.DefaultRange | src/core/symbology-ng/qgsgraduatedsymbolrenderer.h:34 | the default class has bounds 0, no symbol, an empty label, and is rendered |
| RendererRange.AccessorRoundTrips | src/core/symbology-ng/qgsgraduatedsymbolrenderer.h:35-56 | each class setter is read back by its getter and leaves the other four fields as they were; a class built without a render flag is rendered |
| RendererRange.LessIsStrictOrder | src/core/symbology-ng/qgsgraduatedsymbolrenderer.h:41 | `operator<` is irreflexive, asymmetric and transitive; two classes it cannot order are exactly those with the same bounds |
| RendererRange.StringLessIrreflexive | src/core/symbology-ng/qgsgraduatedsymbolrenderer.h:198 | no label sorts before itself |
| RendererRange.StringLessTotal | src/core/symbology-ng/qgsgraduatedsymbolrenderer.h:198 | any two different labels are ordered one way or the other |
| RendererRange.StringLessTransitive | src/core/symbology-ng/qgsgraduatedsymbolrenderer.h:198 | the label order is transitive |
| RangeLabelFormat.DefaultLabelFormat | src/core/symbology-ng/qgsgraduatedsymbolrenderer.h:90 | the default format is `" %1 - %2 "` with precision 4, zeroes kept, scale 1 and no suffix, and it is valid |
| RangeLabelFormat.BoundPrecision | src/core/symbology-ng/qgsgraduatedsymbolrenderer.h:99-114 | the precision is clamped into [MIN_PRECISION, MAX_PRECISION]; a value inside is kept and one outside goes to the nearer bound |
| RangeLabelFormat.SetPrecision | src/core/symbology-ng/qgsgraduatedsymbolrenderer.h:99-100 | the precision read back is the clamped one; the scale is 10^precision for a negative precision and 1 otherwise, with one suffix zero per negative place; the format and trim flag are kept |
| RangeLabelFormat.NewLabelFormat | src/core/symbology-ng/qgsgraduatedsymbolrenderer.h:91 | a format built from a template, precision and trim flag reads them back, with the precision clamped, and is valid |
| RangeLabelFormat.SetterRoundTrips | src/core/symbology-ng/qgsgraduatedsymbolrenderer.h:96-103 | setFormat and setTrimTrailingZeroes are read back by their getters, change nothing else the getters show, and keep the format valid |
| RangeLabelFormat.EqualIsValueEquality | src/core/symbology-ng/qgsgraduatedsymbolrenderer.h:93-94 | on valid formats `operator==` holds exactly for equal formats, and `operator!=` is its negation |
| RangeList.Sort | src/core/symbology-ng/qgsgraduatedsymbolrenderer.h:197-198 | sorting keeps the multiset of classes |
| RangeList.SortSorted | src/core/symbology-ng/qgsgraduatedsymbolrenderer.h:197-198 | under any total preorder the sorted list is in order |
| RangeList.OrdersAreTotalPreorders | src/core/symbology-ng/qgsgraduatedsymbolrenderer.h:41-198 | the value order and the label order, ascending and descending, are total preorders |
| RangeList.SortedByValueSpec | src/core/symbology-ng/qgsgraduatedsymbolrenderer.h:197 | sortByValue gives a permutation of the classes; ascending, no class is `operator<`-below one before it; descending, none is above one before it |
| RangeList.SortedByLabelSpec | src/core/symbology-ng/qgsgraduatedsymbolrenderer.h:198 | sortByLabel gives a permutation of the classes with labels in ascending or descending order |
| RangeList.SortedPermutationsShareBounds | src/core/symbology-ng/qgsgraduatedsymbolrenderer.h:185-195 | every copy sorted by value has the same sequence of bounds, whatever order the sort leaves equal classes in |
| RangeList.ChecksOnAnySortedCopy | src/core/symbology-ng/qgsgraduatedsymbolrenderer.h:185-195 | both checks give the same answer on any sorted permutation of the list |
| RangeList.ChecksArePermutationInvariant | src/core/symbology-ng/qgsgraduatedsymbolrenderer.h:185-195 | rangesOverlap and rangesHaveGaps depend only on the multiset of classes |
| RangeList.PairsArePermutationInvariant | src/core/symbology-ng/qgsgraduatedsymbolrenderer.h:185-189 | an overlapping pair or an inverted class survives any permutation |
| RangeList.SortedOverlapsInOrder | src/core/symbology-ng/qgsgraduatedsymbolrenderer.h:185-189 | on a list sorted by value, comparing neighbours finds an overlap exactly when some class is inverted or some two classes overlap |
| RangeList.OverlappingMeansSomePairOverlaps | src/core/symbology-ng/qgsgraduatedsymbolrenderer.h:185-189 | rangesOverlap is true exactly when some class is inverted or two classes, anywhere in the list, share more than a boundary value |
| RangeList.ContiguousClassesCoverOneInterval | src/core/symbology-ng/qgsgraduatedsymbolrenderer.h:185-195 | a non-empty list without overlaps and gaps covers exactly the values from its lowest lower bound to its highest upper bound |
| RangeList.GapLeavesUncoveredValue | src/core/symbology-ng/qgsgraduatedsymbolrenderer.h:185-195 | a list without overlaps for which rangesHaveGaps holds leaves some value between its lowest lower bound and highest upper bound in no class |
| RangeList.GapsMeanUncoveredValues | src/core/symbology-ng/qgsgraduatedsymbolrenderer.h:185-195 | on a non-empty list without overlaps, rangesHaveGaps holds exactly when some value between the outermost bounds lies in no class |
| RangeList.OverlapsAreGaps | src/core/symbology-ng/qgsgraduatedsymbolrenderer.h:185-195 | with no inverted class, every list rangesOverlap reports is also reported by rangesHaveGaps |
| RangeList.FirstContaining | src/core/symbology-ng/qgsgraduatedsymbolrenderer.h:370-374 | the index found holds the value and no class before it does; when there is none, no class holds the value |
| RangeList.LookupFindsFirstMatch | src/core/symbology-ng/qgsgraduatedsymbolrenderer.h:370-374 | a rendered class holding the value, with no earlier class holding it, supplies the symbol and its index as legend key |
| RangeList.LookupMissesUncovered | src/core/symbology-ng/qgsgraduatedsymbolrenderer.h:370-374 | a value no class holds gets no symbol and no legend key |
| RangeList.RemoveSpec | src/core/symbology-ng/qgsgraduatedsymbolrenderer.h:179 | deleting class i removes exactly that class: one fewer, the others in their order |
| RangeList.MoveSpec | src/core/symbology-ng/qgsgraduatedsymbolrenderer.h:182-183 | a move keeps the length and the multiset, puts the moved class at `to`, and keeps the others in their relative order |
| RangeList.MoveKeepsChecks | src/core/symbology-ng/qgsgraduatedsymbolrenderer.h:182-195 | moving a class changes neither check |
| RangeList.SortKeepsChecks | src/core/symbology-ng/qgsgraduatedsymbolrenderer.h:185-198 | sorting by value or by label changes neither check |
| RangeList.FirstStrictlyInside | src/core/symbology-ng/qgsgraduatedsymbolrenderer.h:170-177 | the class addBreak splits has the value strictly inside it and is the first such; when there is none, no class has it strictly inside |
| RangeList.WithBreak | src/core/symbology-ng/qgsgraduatedsymbolrenderer.h:170-177 | if every class had a symbol and the new class gets one, every class still has one |
| RangeList.WithBreakSpec | src/core/symbology-ng/qgsgraduatedsymbolrenderer.h:170-177 | a value strictly inside a class becomes a break: one class more, the split class ends at v and the new one starts at v and ends where the old one did, and nothing else moves; the new class takes the default label of its bounds, and the split class takes the default label of its new bounds if it carried the default label, else keeps its label; otherwise the list is unchanged |
| RangeList.WithBreakKeepsCoverage | src/core/symbology-ng/qgsgraduatedsymbolrenderer.h:170-177 | a value is held by some class after addBreak exactly when it was before |
| RangeList.SplitRefines | src/core/symbology-ng/qgsgraduatedsymbolrenderer.h:170-177 | each class after a split lies within the class it came from, and the two halves do not overlap |
| RangeList.RefinementKeepsNoOverlap | src/core/symbology-ng/qgsgraduatedsymbolrenderer.h:170-189 | refining a list without overlaps in this way leaves no overlaps |
| RangeList.WithBreakKeepsNoOverlap | src/core/symbology-ng/qgsgraduatedsymbolrenderer.h:170-189 | addBreak on a list without overlaps leaves none |
| SymbolAssignment.RampFraction | src/core/symbology-ng/qgsgraduatedsymbolrenderer.h:284-288 | the ramp position of a class lies in [0, 1], is 0 for the first class and 1 for the last of several |
| SymbolAssignment.RampFractionIncreases | src/core/symbology-ng/qgsgraduatedsymbolrenderer.h:284-288 | later classes take strictly later ramp positions |
| SymbolAssignment.RecoloredSpec | src/core/symbology-ng/qgsgraduatedsymbolrenderer.h:284-288 | recolouring keeps the breaks, labels and render states, and changes only the colour of each symbol, to the ramp colour of its position |
| SymbolAssignment.SizeAtBounds | src/core/symbology-ng/qgsgraduatedsymbolrenderer.h:297-300 | graduated sizes lie between the two bounds, with the first and last class at the bounds |
| SymbolAssignment.ResizedSpec | src/core/symbology-ng/qgsgraduatedsymbolrenderer.h:297-300 | setSymbolSizes keeps the breaks, labels, render states and colours, and gives each marker or line class its graduated size |
| SymbolAssignment.MinSize | src/core/symbology-ng/qgsgraduatedsymbolrenderer.h:302-304 | minSymbolSize is at most every class size and is one of them, or DBL_MAX when no class size is below it (no classes, or only sizes at or above DBL_MAX) |
| SymbolAssignment.MaxSize | src/core/symbology-ng/qgsgraduatedsymbolrenderer.h:306-308 | maxSymbolSize is at least every class size and is one of them, or DBL_MIN when no class size exceeds it (no classes, or only fill symbols, whose size counts as 0) |
| SymbolAssignment.RestyledSpec | src/core/symbology-ng/qgsgraduatedsymbolrenderer.h:290-295 | updateSymbols keeps the breaks, labels and render states; every class takes the template's kind and shape, keeping its colour (colour method) or taking the template's colour and keeping its size, 0 for a fill class (size method) |
| SymbolAssignment.RelabelledDefaultsSpec | src/core/symbology-ng/qgsgraduatedsymbolrenderer.h:228-231 | a class labelled by default under the old format is labelled by default under the new one; every other class and every bound, symbol and render flag stays |
| GraduatedRenderer.MinClassWidth | src/core/symbology-ng/qgsgraduatedsymbolrenderer.h:228-231 | the narrowest positive class width: no more than any positive width and equal to one; 0 exactly when no class has a positive width |
| GraduatedRenderer.DecimalPlaces | src/core/symbology-ng/qgsgraduatedsymbolrenderer.h:228-231 | the precision chosen for a width m is the largest p in 0..10 at which m is at most 99 units of the p-th decimal place, or 0 when m exceeds 99 units even at place 0 |
| GraduatedRenderer.StaleDefaultLabel | src/core/symbology-ng/qgsgraduatedsymbolrenderer.h:228-231 | for one class from 0 to 0.5 under the default format, every precision suiting the width is 2, and the class's default label under precision 4 differs from its default label under precision 2 |
| GraduatedRenderer.GraduatedSymbolRenderer.constructor | src/core/symbology-ng/qgsgraduatedsymbolrenderer.h:137 | a new renderer holds the given attribute and classes, custom mode, colour method, no source symbol or ramp, the default label format |
| GraduatedRenderer.GraduatedSymbolRenderer.SetClassAttribute | src/core/symbology-ng/qgsgraduatedsymbolrenderer.h:152-153 | the attribute set is the one read back; nothing else changes |
| GraduatedRenderer.GraduatedSymbolRenderer.SetMode | src/core/symbology-ng/qgsgraduatedsymbolrenderer.h:210-211 | the mode set is the one read back; nothing else changes |
| GraduatedRenderer.GraduatedSymbolRenderer.SetGraduatedMethod | src/core/symbology-ng/qgsgraduatedsymbolrenderer.h:318-322 | the method set is the one read back; nothing else changes |
| GraduatedRenderer.GraduatedSymbolRenderer.SetSourceSymbol | src/core/symbology-ng/qgsgraduatedsymbolrenderer.h:257-271 | the source symbol set is the one read back; nothing else changes |
| GraduatedRenderer.GraduatedSymbolRenderer.SetSourceColorRamp | src/core/symbology-ng/qgsgraduatedsymbolrenderer.h:273-282 | the source ramp set is the one read back; nothing else changes |
| GraduatedRenderer.GraduatedSymbolRenderer.UpdateRangeSymbol | src/core/symbology-ng/qgsgraduatedsymbolrenderer.h:157 | succeeds exactly for an index inside the list, then replaces that class's symbol only; on failure the list is unchanged |
| GraduatedRenderer.GraduatedSymbolRenderer.UpdateRangeLabel | src/core/symbology-ng/qgsgraduatedsymbolrenderer.h:158 | succeeds exactly for an index inside the list, then replaces that class's label only; on failure the list is unchanged |
| GraduatedRenderer.GraduatedSymbolRenderer.UpdateRangeUpperValue | src/core/symbology-ng/qgsgraduatedsymbolrenderer.h:159 | succeeds exactly for an index inside the list, then replaces that class's upper bound only; on failure the list is unchanged |
| GraduatedRenderer.GraduatedSymbolRenderer.UpdateRangeLowerValue | src/core/symbology-ng/qgsgraduatedsymbolrenderer.h:160 | succeeds exactly for an index inside the list, then replaces that class's lower bound only; on failure the list is unchanged |
| GraduatedRenderer.GraduatedSymbolRenderer.UpdateRangeRenderState | src/core/symbology-ng/qgsgraduatedsymbolrenderer.h:161-162 | succeeds exactly for an index inside the list, then replaces that class's render flag only; on failure the list is unchanged |
| GraduatedRenderer.GraduatedSymbolRenderer.AddClassSymbol | src/core/symbology-ng/qgsgraduatedsymbolrenderer.h:164 | one class `[0, 0]` with the symbol, labelled `0.0 - 0.0`, is put before the existing classes |
| GraduatedRenderer.GraduatedSymbolRenderer.AddClassRange | src/core/symbology-ng/qgsgraduatedsymbolrenderer.h:165-166 | the class is appended; the others stay as they were |
| GraduatedRenderer.GraduatedSymbolRenderer.AddClassBounds | src/core/symbology-ng/qgsgraduatedsymbolrenderer.h:167-168 | one class with the bounds, the source symbol and the label the current format generates is appended |
| GraduatedRenderer.GraduatedSymbolRenderer.DeleteClass | src/core/symbology-ng/qgsgraduatedsymbolrenderer.h:179 | an index inside the list removes that class (RangeList.RemoveSpec); any other index changes nothing |
| GraduatedRenderer.GraduatedSymbolRenderer.DeleteAllClasses | src/core/symbology-ng/qgsgraduatedsymbolrenderer.h:180 | the list is empty afterwards |
| GraduatedRenderer.GraduatedSymbolRenderer.MoveClass | src/core/symbology-ng/qgsgraduatedsymbolrenderer.h:182-183 | with both indices inside the list the class moves (RangeList.MoveSpec); otherwise nothing changes |
| GraduatedRenderer.GraduatedSymbolRenderer.SortByValue | src/core/symbology-ng/qgsgraduatedsymbolrenderer.h:197 | the list becomes its value-sorted permutation (RangeList.SortedByValueSpec) |
| GraduatedRenderer.GraduatedSymbolRenderer.SortByLabel | src/core/symbology-ng/qgsgraduatedsymbolrenderer.h:198 | the list becomes its label-sorted permutation (RangeList.SortedByLabelSpec) |
| GraduatedRenderer.GraduatedSymbolRenderer.RangesOverlap | src/core/symbology-ng/qgsgraduatedsymbolrenderer.h:185-189 | the neighbour scan of a value-sorted copy reports an overlap exactly when some class is inverted or two classes overlap (RangeList.OverlappingMeansSomePairOverlaps) |
| GraduatedRenderer.GraduatedSymbolRenderer.RangesHaveGaps | src/core/symbology-ng/qgsgraduatedsymbolrenderer.h:191-195 | the scan of a value-sorted copy reports a gap exactly when, in value order, some class does not start where the one before it ends |
| GraduatedRenderer.GraduatedSymbolRenderer.SymbolForValue | src/core/symbology-ng/qgsgraduatedsymbolrenderer.h:370 | the symbol of the first class in stored order holding the value, none if that class is switched off and the renderer is not counting, none if no class holds it |
| GraduatedRenderer.GraduatedSymbolRenderer.LegendKeyForValue | src/core/symbology-ng/qgsgraduatedsymbolrenderer.h:372-374 | the index of that same first class under the same conditions |
| GraduatedRenderer.GraduatedSymbolRenderer.UpdateColorRamp | src/core/symbology-ng/qgsgraduatedsymbolrenderer.h:284-288 | a given ramp becomes the source ramp; with a source ramp every class is recoloured by its position without its breaks changing (SymbolAssignment.RecoloredSpec); without one nothing changes |
| GraduatedRenderer.GraduatedSymbolRenderer.SetSymbolSizes | src/core/symbology-ng/qgsgraduatedsymbolrenderer.h:297-300 | every class takes its graduated size between the bounds (SymbolAssignment.ResizedSpec, SizeAtBounds) |
| GraduatedRenderer.GraduatedSymbolRenderer.MinSymbolSize | src/core/symbology-ng/qgsgraduatedsymbolrenderer.h:302-304 | the loop returns the least class size (SymbolAssignment.MinSize) |
| GraduatedRenderer.GraduatedSymbolRenderer.MaxSymbolSize | src/core/symbology-ng/qgsgraduatedsymbolrenderer.h:306-308 | the loop returns the greatest class size (SymbolAssignment.MaxSize) |
| GraduatedRenderer.GraduatedSymbolRenderer.UpdateSymbols | src/core/symbology-ng/qgsgraduatedsymbolrenderer.h:290-295 | with a symbol, every class is restyled from it keeping breaks and colours or sizes (SymbolAssignment.RestyledSpec), and it becomes the source symbol; with none nothing changes |
| GraduatedRenderer.GraduatedSymbolRenderer.AddBreak | src/core/symbology-ng/qgsgraduatedsymbolrenderer.h:170-177 | the list is split at the value (RangeList.WithBreakSpec), then optionally recoloured or resized; the breaks are those of the split list either way |
| GraduatedRenderer.GraduatedSymbolRenderer.SetLabelFormat | src/core/symbology-ng/qgsgraduatedsymbolrenderer.h:221-226 | a valid format replaces the current one and stays valid; if asked and the new format differs from the old by `operator!=`, every class takes the label the new format generates for its bounds; otherwise no class changes |
| GraduatedRenderer.GraduatedSymbolRenderer.UpdateDefaultLabels | src/core/symbology-ng/qgsgraduatedsymbolrenderer.h:228-231 | the classes labelled by default under one format take the default label of another, and the rest stay (SymbolAssignment.RelabelledDefaultsSpec) |
| GraduatedRenderer.GraduatedSymbolRenderer.MinClassRange | src/core/symbology-ng/qgsgraduatedsymbolrenderer.h:228-231 | the loop finds the narrowest positive class width (MinClassWidth) |
| GraduatedRenderer.GraduatedSymbolRenderer.CalculateLabelPrecision | src/core/symbology-ng/qgsgraduatedsymbolrenderer.h:228-231 | as implemented: with a class of positive width, the precision becomes the number of decimals that suits the narrowest positive width (SuitsWidth) and the format keeps its template and trim flag and stays valid; no class changes, whether or not an update was asked |
| GraduatedRenderer.GraduatedSymbolRenderer.CalculateLabelPrecisionAsDocumented | src/core/symbology-ng/qgsgraduatedsymbolrenderer.h:228-231 | as documented: the precision is chosen the same way and, if asked, the classes carrying the old format's default label take the new format's default label while hand-written labels stay |

## Left out

- The bodies of the declared members are in `qgsgraduatedsymbolrenderer.cpp`, which is not part of this model.
- Floating point is not modelled. Bounds and sizes are `real`, and `qgsDoubleNear` (used in `operator<` and the gap check) is exact equality.
- RendererRange.StringLessTotal: labels are ordered by code unit. `QString::localeAwareCompare` collation is not modelled.
- `formatNumber` and `labelForRange` are left out: they build text from a number with regular expressions. The model takes the label generator as a function parameter (`LabelGenerator`), applied to the current format and the bounds.
- The colour a ramp gives at a position is a function parameter (`colorAt`). The ramp's internals are not modelled.
- GraduatedRenderer.GraduatedSymbolRenderer.LegendKeyForValue returns the class index. The source renders that index as a decimal string.
- GraduatedRenderer.GraduatedSymbolRenderer.SortByValue fixes one order for classes the comparator cannot tell apart: the order of a stable insertion sort. `std::sort` leaves that order unspecified. Every property proved about the checks holds for any such order (RangeList.SortedPermutationsShareBounds).
- GraduatedRenderer.GraduatedSymbolRenderer.SortByLabel: the same holds for classes with equal labels.
- GraduatedRenderer.GraduatedSymbolRenderer.SortByValue and SortByLabel in descending order: the source's descending comparators are the negations of the ascending ones (`!(a < b)`). Such a comparator holds for a class against itself, so it is not a strict weak ordering, and `std::sort` with it has undefined behaviour as soon as two classes compare equal. The model does not capture that behaviour; it sorts by a well-defined "no earlier than" order in the reverse direction.
- GraduatedRenderer.GraduatedSymbolRenderer.UpdateSymbols: under the size method every class takes the template's colour, as the implementation does, although the header (line 290) says colours are left. The model follows the implementation (SymbolAssignment.RestyledSpec states it).
- SymbolAssignment.RestyledSpec: under the size method the source casts each class symbol to the template's symbol type to read its size or width. When the class symbol is of another kind that cast is undefined behaviour. The model reads the class symbol's size as `SizeOf` does: a marker's size or a line's width, and 0 for a fill symbol.
- GraduatedRenderer.GraduatedSymbolRenderer.SetLabelFormat: the header (line 224) says only labels ending with the old unit string are updated; the implementation regenerates every label when the format differs, and the model follows the implementation. Labels are not built as text here, so the unit-string test is not modelled.
- GraduatedRenderer.GraduatedSymbolRenderer.SetLabelFormat and CalculateLabelPrecision require a valid format (a precision inside the clamping bounds, with its scale and suffix derived from it). Every format the model builds is valid, because the source builds formats only through setPrecision.
- `updateClasses`, `createRenderer` and the classification modes (equal interval, quantile, Jenks, standard deviation, pretty breaks) are left out. They read a vector layer and compute floating-point statistics. `Mode` is kept only as the value `setMode` stores.
- XML and SLD reading and writing (`save`, `create`, `toSld`, `setFromDomElement`, `saveToDomElement`) are left out: document I/O.
- Rendering and legend plumbing are left out: symbolForFeature, originalSymbolForFeature, startRender, stopRender, usedAttributes, symbols, dump, clone, capabilities, legendSymbolItems, legendKeysForFeature, the legend check-box members, convertFromRenderer, the data-defined size legend and graduatedMethodStr. They work on features, render contexts and Qt legend types. `counting` (set by startRender) is kept as a field the lookups read.
- Symbol ownership (`SIP_TRANSFER`, cloning, deletion) is not modelled. Symbols are values, and a copy of a symbol is the symbol itself.
- GraduatedRenderer.GraduatedSymbolRenderer.AddClassBounds and AddBreak require a source symbol (AddBreak only when it actually splits). The same goes for SetSymbolSizes, MinSymbolSize, MaxSymbolSize and UpdateSymbols, which require a symbol on every class they read. The source dereferences these pointers without a check, so a null there is outside its contract.
- RangeList.WithBreakKeepsNoOverlap: there is no companion lemma about gaps. addBreak never opens a gap (its two halves meet at the break), but that is not proved.

## Findings

| source | as written | input that shows it | evidently intended | confidence | as-written member | corrected member |
|---|---|---|---|---|---|---|
| src/core/symbology-ng/qgsgraduatedsymbolrenderer.h:228-231 | calculateLabelPrecision stores the new precision in the renderer's format and then calls setLabelFormat with that same format; setLabelFormat relabels only when the format differs, so no label is regenerated | one class from 0 to 0.5 carrying the default label of the default format (precision 4): the precision becomes 2, but the class keeps its precision-4 label | classes still carrying the default label of the old format take the default label of the new precision; hand-written labels stay | medium, not executed | GraduatedRenderer.GraduatedSymbolRenderer.CalculateLabelPrecision with GraduatedRenderer.StaleDefaultLabel | GraduatedRenderer.GraduatedSymbolRenderer.CalculateLabelPrecisionAsDocumented |
