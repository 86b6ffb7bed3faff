// Opaque collaborators of the graduated renderer: symbols and colour ramps.
// The renderer never looks inside a symbol beyond its kind, its colour and
// its size (marker size or line width); everything else a symbol holds is
// summarised by an opaque `shape` number.

module Symbols {

  datatype Option<T> = None | Some(value: T)

  /** An opaque colour value. */
  type Color = nat

  datatype SymbolKind = Marker | Line | Fill

  /** A symbol as seen by the renderer. `size` is the marker size of a marker
    * symbol and the width of a line symbol; fill symbols have neither. */
  datatype Symbol = Symbol(kind: SymbolKind, shape: nat, color: Color, size: real)

  /** An opaque colour ramp; the colour it gives at a fraction of its length
    * is looked up by a function passed in where needed. */
  datatype ColorRamp = ColorRamp(id: nat)

  predicate HasSize(s: Symbol) {
    s.kind == Marker || s.kind == Line
  }

  /** The marker size or line width of a symbol, 0 for a fill symbol. */
  function SizeOf(s: Symbol): real {
    if HasSize(s) then s.size else 0.0
  }

  /** setSize on a marker symbol, setWidth on a line symbol, nothing on a fill symbol. */
  function WithSize(s: Symbol, size: real): (r: Symbol)
    ensures r.kind == s.kind && r.shape == s.shape && r.color == s.color
    ensures HasSize(s) ==> SizeOf(r) == size
    ensures !HasSize(s) ==> r == s
  {
    if HasSize(s) then s.(size := size) else s
  }
}
