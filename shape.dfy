/** What the XFIXES region requests and SetWindowShapeRegion mean on the server:
    regions are named lists of rectangles; setting a window's shape of some kind
    from a region copies the region's rectangles into that shape, and setting it
    from None removes the shape, so the window's own rectangle applies again. A
    request naming a region that does not exist (or creating one whose id is
    taken) is answered with an error event instead of taking effect. */
module ShapeModel {
  import opened XProto

  datatype Shape = Unshaped | Rects(rectangles: seq<Rectangle>)

  datatype ShapeState = ShapeState(
    regions: map<Region, seq<Rectangle>>,
    shapes: map<(Window, ShapeKind), Shape>,
    errors: seq<Request>)

  /** A window's current shape of the given kind; never set means unshaped. */
  function ShapeOf(s: ShapeState, w: Window, kind: ShapeKind): Shape
  {
    if (w, kind) in s.shapes then s.shapes[(w, kind)] else Unshaped
  }

  /** The effect of one request. Requests other than the region and shape ones
      leave the shape state alone. */
  function Apply(s: ShapeState, q: Request): ShapeState
  {
    match q
    case CreateRegion(r, rects) =>
      if r in s.regions then s.(errors := s.errors + [q])
      else s.(regions := s.regions[r := rects])
    case DestroyRegion(r) =>
      if r in s.regions then s.(regions := s.regions - {r})
      else s.(errors := s.errors + [q])
    case SetWindowShapeRegion(w, kind, _, _, r) =>
      if r == NONE then s.(shapes := s.shapes[(w, kind) := Unshaped])
      else if r in s.regions then s.(shapes := s.shapes[(w, kind) := Rects(s.regions[r])])
      else s.(errors := s.errors + [q])
    case _ => s
  }

  /** The effect of a sequence of requests, in order. */
  function ApplyAll(s: ShapeState, qs: seq<Request>): ShapeState
    decreases |qs|
  {
    if qs == [] then s else ApplyAll(Apply(s, qs[0]), qs[1..])
  }

  lemma {:induction false} ApplyAllAppend(s: ShapeState, qs: seq<Request>, q: Request)
    ensures ApplyAll(s, qs + [q]) == Apply(ApplyAll(s, qs), q)
    decreases |qs|
  {
    if qs == [] {
      assert [q][1..] == [];
    } else {
      assert (qs + [q])[1..] == qs[1..] + [q];
      ApplyAllAppend(Apply(s, qs[0]), qs[1..], q);
    }
  }
}
