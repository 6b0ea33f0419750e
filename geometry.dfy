/**
 * Rectangles of the scroll view's content space and the two pure computations
 * of the thumbnail preheat window: the preheat rectangle built from the
 * visible bounds, the hysteresis test, and the difference between the old and
 * the new preheat rectangle as lists of full-width bands.
 *
 * Coordinates are reals (the source only compares, adds, subtracts and scales
 * them); sizes are non-negative, as they are for a collection view's bounds.
 */
module Geometry {

  type Length = r: real | 0.0 <= r

  datatype Rect = Rect(x: real, y: real, width: Length, height: Length)
  {
    function MinY(): real { y }
    function MaxY(): real { y + height }
    function MidY(): real { y + height / 2.0 }
    function MaxX(): real { x + width }

    /** `y` lies in the half-open vertical extent [MinY, MaxY). */
    predicate CoversY(v: real) { MinY() <= v < MaxY() }
  }

  /** `CGRect.zero`. */
  const Zero: Rect := Rect(0.0, 0.0, 0.0, 0.0)

  /**
   * `CGRect.intersects`, taken as: the two rectangles share an area of
   * positive size (on each axis the greater start lies below the smaller end),
   * so a rectangle of zero width or height intersects nothing.
   */
  predicate Intersects(a: Rect, b: Rect)
  {
    a.width > 0.0 && b.width > 0.0 && a.x < b.MaxX() && b.x < a.MaxX() &&
    a.height > 0.0 && b.height > 0.0 && a.MinY() < b.MaxY() && b.MinY() < a.MaxY()
  }

  /** `CGRect.insetBy(dx:dy:)`: moves every edge inwards by dx or dy (outwards when negative). */
  function InsetBy(r: Rect, dx: real, dy: real): Rect
    requires 2.0 * dx <= r.width && 2.0 * dy <= r.height
  {
    Rect(r.x + dx, r.y + dy, r.width - 2.0 * dx, r.height - 2.0 * dy)
  }

  /**
   * The preheat rectangle: the visible bounds inset by minus half their
   * height, i.e. extended by half a screen above and below.
   */
  function Preheat(visible: Rect): (r: Rect)
    ensures r.x == visible.x && r.width == visible.width
    ensures r.height == 2.0 * visible.height
    ensures r.MidY() == visible.MidY()
    ensures r.MinY() == visible.MinY() - visible.height / 2.0
    ensures r.MaxY() == visible.MaxY() + visible.height / 2.0
  {
    InsetBy(visible, 0.0, -0.5 * visible.height)
  }

  function Abs(v: real): real { if v < 0.0 then -v else v }

  /**
   * The hysteresis test: the preheat window is recomputed only when its
   * centre has moved by more than a third of the visible height.
   */
  predicate MovedEnough(preheat: Rect, previous: Rect, visibleHeight: real): (moved: bool)
    ensures moved <==> (preheat.MidY() > previous.MidY() + visibleHeight / 3.0 ||
                        preheat.MidY() < previous.MidY() - visibleHeight / 3.0)
  {
    Abs(preheat.MidY() - previous.MidY()) > visibleHeight / 3.0
  }

  /** The bands entering (`added`) and leaving (`removed`) the window, in emission order. */
  datatype Diff = Diff(added: seq<Rect>, removed: seq<Rect>)

  /** A full-width band of the new rectangle over the vertical extent [top, top + h). */
  function Band(newRect: Rect, top: real, h: Length): Rect
  {
    Rect(newRect.x, top, newRect.width, h)
  }

  /** Band `b` is vertically inside `inner` and shares no vertical extent with `outer`. */
  predicate InsideAndOutside(b: Rect, inner: Rect, outer: Rect)
  {
    inner.MinY() <= b.MinY() && b.MaxY() <= inner.MaxY() &&
    (b.MaxY() <= outer.MinY() || outer.MaxY() <= b.MinY())
  }

  /**
   * `computeDifferenceBetweenRect`: when the rectangles intersect, the added
   * bands below the old bottom edge and above the old top edge, and the
   * removed bands below the new bottom edge and above the new top edge, each
   * emitted only when its height is positive; otherwise the whole new
   * rectangle is added and the whole old one removed.
   */
  function Difference(oldRect: Rect, newRect: Rect): (d: Diff)
    ensures |d.added| <= 2 && |d.removed| <= 2
    ensures !Intersects(newRect, oldRect) ==> d == Diff([newRect], [oldRect])
  {
    if Intersects(newRect, oldRect) then
      var oldMaxY, oldMinY := oldRect.MaxY(), oldRect.MinY();
      var newMaxY, newMinY := newRect.MaxY(), newRect.MinY();
      var below := if newMaxY > oldMaxY then [Band(newRect, oldMaxY, newMaxY - oldMaxY)] else [];
      var above := if oldMinY > newMinY then [Band(newRect, newMinY, oldMinY - newMinY)] else [];
      var leftBelow := if newMaxY < oldMaxY then [Band(newRect, newMaxY, oldMaxY - newMaxY)] else [];
      var leftAbove := if oldMinY < newMinY then [Band(newRect, oldMinY, newMinY - oldMinY)] else [];
      Diff(below + above, leftBelow + leftAbove)
    else
      Diff([newRect], [oldRect])
  }

  /**
   * For intersecting rectangles every band has positive height and spans the
   * new rectangle's width; added bands lie in the new vertical extent and
   * outside the old one, removed bands in the old extent and outside the new.
   */
  lemma DifferenceBands(oldRect: Rect, newRect: Rect)
    requires Intersects(newRect, oldRect)
    ensures var d := Difference(oldRect, newRect);
      (forall b :: b in d.added + d.removed ==>
         b.x == newRect.x && b.width == newRect.width && b.height > 0.0) &&
      (forall b :: b in d.added ==> InsideAndOutside(b, newRect, oldRect)) &&
      (forall b :: b in d.removed ==> InsideAndOutside(b, oldRect, newRect))
  {
  }

  /** Some band of `bands` covers the vertical position `v`. */
  predicate SomeBandCovers(bands: seq<Rect>, v: real)
  {
    exists b :: b in bands && b.CoversY(v)
  }

  /**
   * For intersecting rectangles the added bands are exact: a vertical
   * position is covered by an added band iff the new rectangle covers it and
   * the old one does not.
   */
  lemma AddedBandsAreExact(oldRect: Rect, newRect: Rect, v: real)
    requires Intersects(newRect, oldRect)
    ensures SomeBandCovers(Difference(oldRect, newRect).added, v)
            <==> newRect.CoversY(v) && !oldRect.CoversY(v)
  {
    var added := Difference(oldRect, newRect).added;
    var oldMaxY, oldMinY := oldRect.MaxY(), oldRect.MinY();
    var newMaxY, newMinY := newRect.MaxY(), newRect.MinY();
    var below := if newMaxY > oldMaxY then [Band(newRect, oldMaxY, newMaxY - oldMaxY)] else [];
    var above := if oldMinY > newMinY then [Band(newRect, newMinY, oldMinY - newMinY)] else [];
    assert added == below + above;
    if newRect.CoversY(v) && !oldRect.CoversY(v) {
      if v >= oldMaxY {
        assert below[0] in added && below[0].CoversY(v);
      } else {
        assert above[0] in added && above[0].CoversY(v);
      }
    }
  }

  /**
   * For intersecting rectangles the removed bands are exact: a vertical
   * position is covered by a removed band iff the old rectangle covers it and
   * the new one does not.
   */
  lemma RemovedBandsAreExact(oldRect: Rect, newRect: Rect, v: real)
    requires Intersects(newRect, oldRect)
    ensures SomeBandCovers(Difference(oldRect, newRect).removed, v)
            <==> oldRect.CoversY(v) && !newRect.CoversY(v)
  {
    var removed := Difference(oldRect, newRect).removed;
    var oldMaxY, oldMinY := oldRect.MaxY(), oldRect.MinY();
    var newMaxY, newMinY := newRect.MaxY(), newRect.MinY();
    var leftBelow := if newMaxY < oldMaxY then [Band(newRect, newMaxY, oldMaxY - newMaxY)] else [];
    var leftAbove := if oldMinY < newMinY then [Band(newRect, oldMinY, newMinY - oldMinY)] else [];
    assert removed == leftBelow + leftAbove;
    if oldRect.CoversY(v) && !newRect.CoversY(v) {
      if v >= newMaxY {
        assert leftBelow[0] in removed && leftBelow[0].CoversY(v);
      } else {
        assert leftAbove[0] in removed && leftAbove[0].CoversY(v);
      }
    }
  }

  /** A rectangle of positive size compared with itself yields no bands. */
  lemma DifferenceOfSameRect(r: Rect)
    requires r.width > 0.0 && r.height > 0.0
    ensures Difference(r, r) == Diff([], [])
  {
    assert Intersects(r, r);
  }

  /** A window [0, 100) moved down to [50, 150) adds [100, 150) and removes [0, 50). */
  lemma DifferenceWhenScrollingDown(w: Length)
    requires w > 0.0
    ensures Difference(Rect(0.0, 0.0, w, 100.0), Rect(0.0, 50.0, w, 100.0))
         == Diff([Rect(0.0, 100.0, w, 50.0)], [Rect(0.0, 0.0, w, 50.0)])
  {
    assert Intersects(Rect(0.0, 50.0, w, 100.0), Rect(0.0, 0.0, w, 100.0));
  }

  /** A window [0, 10) replaced by [500, 510) adds all of the new one and removes all of the old. */
  lemma DifferenceWhenJumping(w: Length)
    ensures Difference(Rect(0.0, 0.0, w, 10.0), Rect(0.0, 500.0, w, 10.0))
         == Diff([Rect(0.0, 500.0, w, 10.0)], [Rect(0.0, 0.0, w, 10.0)])
  {
  }

  /**
   * Hysteresis in terms of the scroll offset: for bounds of one height, the
   * window moves iff the bounds moved by more than a third of that height.
   */
  lemma MovedEnoughIffScrolledAThird(before: Rect, after: Rect)
    requires before.height == after.height
    ensures MovedEnough(Preheat(after), Preheat(before), after.height)
        <==> Abs(after.y - before.y) > after.height / 3.0
  {
  }

  /**
   * After `CGRect.zero` has been stored, the next window is recomputed iff
   * the centre of the bounds lies more than a third of their height away
   * from y = 0: a reset does not by itself bypass the hysteresis test.
   */
  lemma MovedFromZeroIffCentreFar(bounds: Rect)
    ensures MovedEnough(Preheat(bounds), Zero, bounds.height) <==> Abs(bounds.MidY()) > bounds.height / 3.0
  {
  }

  /**
   * After `CGRect.zero` has been stored, bounds whose centre is more than a
   * third of their height from y = 0 pass the hysteresis test, and the whole
   * preheat rectangle is added (the zero rectangle has no area to overlap).
   */
  lemma FromZeroWholeWindowIsAdded(bounds: Rect)
    requires Abs(bounds.MidY()) > bounds.height / 3.0
    ensures MovedEnough(Preheat(bounds), Zero, bounds.height)
    ensures Difference(Zero, Preheat(bounds)) == Diff([Preheat(bounds)], [Zero])
  {
    MovedFromZeroIffCentreFar(bounds);
  }
}
