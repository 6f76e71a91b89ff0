/**
 * Polygon geometry of the collision test (SAT.js, lines 38-90): a polygon
 * owns an array of vertices that `move` shifts in place, `polygon_project`
 * folds the vertices into the interval of their dot products with an axis,
 * and `polygon_axes` gives one normalised edge normal per vertex.
 */
module Geometry {
  import opened Vectors

  /** A `[min, max]` pair of projections. */
  datatype Interval = Interval(min: real, max: real)

  /** `Math.min` and `Math.max` on reals. */
  function Min(a: real, b: real): real { if a <= b then a else b }
  function Max(a: real, b: real): real { if a >= b then a else b }

  /**
   * The `[min, max]` fold of `polygon_project` over a list of projections:
   * the first one, widened by every later one in order.
   */
  function Hull(ds: seq<real>): Interval
    requires |ds| >= 1
    decreases |ds|
  {
    if |ds| == 1 then
      Interval(ds[0], ds[0])
    else
      var iv := Hull(ds[..|ds| - 1]);
      var d := ds[|ds| - 1];
      Interval(Min(iv.min, d), Max(iv.max, d))
  }

  /** The fold gives the smallest and the largest element: ordered, containing each, both attained. */
  lemma {:induction false} HullBounds(ds: seq<real>)
    requires |ds| >= 1
    ensures Hull(ds).min <= Hull(ds).max
    ensures forall i :: 0 <= i < |ds| ==> Hull(ds).min <= ds[i] <= Hull(ds).max
    ensures exists i :: 0 <= i < |ds| && ds[i] == Hull(ds).min
    ensures exists i :: 0 <= i < |ds| && ds[i] == Hull(ds).max
    decreases |ds|
  {
    var n := |ds|;
    if n > 1 {
      var init := ds[..n - 1];
      HullBounds(init);
      var iv := Hull(init);
      var lo :| 0 <= lo < n - 1 && init[lo] == iv.min;
      var hi :| 0 <= hi < n - 1 && init[hi] == iv.max;
      assert ds[if ds[n - 1] < iv.min then n - 1 else lo] == Hull(ds).min;
      assert ds[if ds[n - 1] > iv.max then n - 1 else hi] == Hull(ds).max;
    }
  }

  /** `f` applied to every element. */
  function Map(ds: seq<real>, f: real -> real): (r: seq<real>)
    ensures |r| == |ds|
    ensures forall i :: 0 <= i < |ds| ==> r[i] == f(ds[i])
  {
    seq(|ds|, i requires 0 <= i < |ds| => f(ds[i]))
  }

  ghost predicate Monotone(f: real -> real)
  {
    forall a, b :: a <= b ==> f(a) <= f(b)
  }

  /** The fold commutes with a non-decreasing map: such a map keeps the smallest and the largest element. */
  lemma {:induction false} HullMap(ds: seq<real>, f: real -> real)
    requires |ds| >= 1 && Monotone(f)
    ensures Hull(Map(ds, f)) == Interval(f(Hull(ds).min), f(Hull(ds).max))
    decreases |ds|
  {
    var n := |ds|;
    if n > 1 {
      var init := ds[..n - 1];
      var m := Map(ds, f);
      assert m[..n - 1] == Map(init, f);
      HullMap(init, f);
      var iv := Hull(init);
      MonotoneMinMax(f, iv.min, ds[n - 1]);
      MonotoneMinMax(f, iv.max, ds[n - 1]);
    }
  }

  /** A monotone map commutes with the minimum and the maximum of two values. */
  lemma MonotoneMinMax(f: real -> real, a: real, b: real)
    requires Monotone(f)
    ensures Min(f(a), f(b)) == f(Min(a, b))
    ensures Max(f(a), f(b)) == f(Max(a, b))
  {
    if a <= b {
      assert f(a) <= f(b);
    } else {
      assert f(b) <= f(a);
    }
  }


  lemma ShiftIsMonotone(c: real)
    ensures Monotone(x => x + c)
  {
  }

  lemma StretchIsMonotone(k: real)
    requires k > 0.0
    ensures Monotone(x => k * x)
  {
    var f := x => k * x;
    forall a: real, b: real | a <= b
      ensures f(a) <= f(b)
    {
      assert k * (b - a) >= 0.0;
    }
  }

  /** The dot product of `axis` with each vertex, in vertex order. */
  function Dots(vs: seq<Vec2>, axis: Vec2): (r: seq<real>)
    ensures |r| == |vs|
  {
    seq(|vs|, i requires 0 <= i < |vs| => Dot(axis, vs[i]))
  }

  /** The interval `polygon_project` computes for a vertex list. */
  function Project(vs: seq<Vec2>, axis: Vec2): Interval
    requires |vs| >= 1
  {
    Hull(Dots(vs, axis))
  }

  /** The projection is ordered, holds every vertex's dot product, and both ends are attained. */
  lemma ProjectHull(vs: seq<Vec2>, axis: Vec2)
    requires |vs| >= 1
    ensures Project(vs, axis).min <= Project(vs, axis).max
    ensures forall i :: 0 <= i < |vs| ==> Project(vs, axis).min <= Dot(axis, vs[i]) <= Project(vs, axis).max
    ensures exists i :: 0 <= i < |vs| && Dot(axis, vs[i]) == Project(vs, axis).min
    ensures exists i :: 0 <= i < |vs| && Dot(axis, vs[i]) == Project(vs, axis).max
  {
    var ds := Dots(vs, axis);
    HullBounds(ds);
    forall i | 0 <= i < |vs|
      ensures Project(vs, axis).min <= Dot(axis, vs[i]) <= Project(vs, axis).max
    {
      assert ds[i] == Dot(axis, vs[i]);
    }
    var lo :| 0 <= lo < |ds| && ds[lo] == Hull(ds).min;
    var hi :| 0 <= hi < |ds| && ds[hi] == Hull(ds).max;
    assert Dot(axis, vs[lo]) == Project(vs, axis).min;
    assert Dot(axis, vs[hi]) == Project(vs, axis).max;
  }

  /** Index of the vertex that follows vertex `i`, wrapping around after the last. */
  function Next(vs: seq<Vec2>, i: nat): (j: nat)
    requires i < |vs|
    ensures j < |vs|
  {
    (i + 1) % |vs|
  }

  /** Edge `i` of the closed vertex loop, from vertex `i` to the next one. */
  function Edge(vs: seq<Vec2>, i: nat): Vec2
    requires i < |vs|
  {
    Sub(vs[Next(vs, i)], vs[i])
  }

  /** No edge of the loop has zero length. */
  ghost predicate NonDegenerate(vs: seq<Vec2>)
  {
    forall i :: 0 <= i < |vs| ==> Edge(vs, i) != Zero
  }

  /** What the collision test needs of a polygon: a vertex, and no zero-length edge. */
  ghost predicate WellFormed(vs: seq<Vec2>)
  {
    |vs| >= 1 && NonDegenerate(vs)
  }

  /** `polygon_axes`: the normalised perpendicular of each edge, in vertex order. */
  function Axes(vs: seq<Vec2>, mag: Vec2 -> real): (r: seq<Vec2>)
    requires NonDegenerate(vs) && IsMagnitude(mag)
    ensures |r| == |vs|
  {
    seq(|vs|, i requires 0 <= i < |vs| => Normalize(Perp(Edge(vs, i)), mag))
  }

  /**
   * One axis per vertex, in vertex order: axis `i` is a positive multiple of
   * the perpendicular of edge `i` (the last edge closing the loop), hence
   * orthogonal to that edge and never zero.
   */
  lemma AxesNormals(vs: seq<Vec2>, mag: Vec2 -> real)
    requires NonDegenerate(vs) && IsMagnitude(mag)
    ensures forall i :: 0 <= i < |vs| ==> SameDirection(Axes(vs, mag)[i], Perp(Edge(vs, i)))
    ensures forall i :: 0 <= i < |vs| ==> Dot(Axes(vs, mag)[i], Edge(vs, i)) == 0.0
    ensures forall i :: 0 <= i < |vs| ==> Axes(vs, mag)[i] != Zero
  {
    var r := Axes(vs, mag);
    forall i | 0 <= i < |vs|
      ensures SameDirection(r[i], Perp(Edge(vs, i)))
      ensures Dot(r[i], Edge(vs, i)) == 0.0
      ensures r[i] != Zero
    {
      var e := Edge(vs, i);
      assert r[i] == Normalize(Perp(e), mag);
      var k :| k > 0.0 && r[i] == Scale(Perp(e), k);
      DotScale(Perp(e), e, k);
    }
  }

  /** Every vertex shifted by `(dx, dy)`; count and order unchanged. */
  function Translate(vs: seq<Vec2>, dx: real, dy: real): (r: seq<Vec2>)
    ensures |r| == |vs|
    ensures forall i :: 0 <= i < |vs| ==> r[i] == Add(vs[i], Vec2(dx, dy))
  {
    seq(|vs|, i requires 0 <= i < |vs| => Vec2(vs[i].x + dx, vs[i].y + dy))
  }

  /** Moving by `(dx, dy)` and then by `(-dx, -dy)` restores every vertex. */
  lemma TranslateInverse(vs: seq<Vec2>, dx: real, dy: real)
    ensures Translate(Translate(vs, dx, dy), -dx, -dy) == vs
  {
    var back := Translate(Translate(vs, dx, dy), -dx, -dy);
    assert |back| == |vs|;
    forall i | 0 <= i < |vs|
      ensures back[i] == vs[i]
    {
    }
  }

  /** Two moves in a row are one move by the sum. */
  lemma TranslateCompose(vs: seq<Vec2>, dx1: real, dy1: real, dx2: real, dy2: real)
    ensures Translate(Translate(vs, dx1, dy1), dx2, dy2) == Translate(vs, dx1 + dx2, dy1 + dy2)
  {
    var twice := Translate(Translate(vs, dx1, dy1), dx2, dy2);
    var once := Translate(vs, dx1 + dx2, dy1 + dy2);
    assert |twice| == |once|;
    forall i | 0 <= i < |vs|
      ensures twice[i] == once[i]
    {
    }
  }

  /** Translation keeps every edge, hence the axes and well-formedness. */
  lemma AxesTranslate(vs: seq<Vec2>, dx: real, dy: real, mag: Vec2 -> real)
    requires NonDegenerate(vs) && IsMagnitude(mag)
    ensures NonDegenerate(Translate(vs, dx, dy))
    ensures Axes(Translate(vs, dx, dy), mag) == Axes(vs, mag)
  {
    var moved := Translate(vs, dx, dy);
    forall i | 0 <= i < |vs|
      ensures Edge(moved, i) == Edge(vs, i)
    {
    }
    assert NonDegenerate(moved);
    var a, b := Axes(moved, mag), Axes(vs, mag);
    assert |a| == |b|;
    forall i | 0 <= i < |vs|
      ensures a[i] == b[i]
    {
      assert a[i] == Normalize(Perp(Edge(moved, i)), mag);
      assert b[i] == Normalize(Perp(Edge(vs, i)), mag);
    }
  }

  /** Translating a polygon shifts its projection by the axis's dot product with the offset. */
  lemma ProjectTranslate(vs: seq<Vec2>, axis: Vec2, dx: real, dy: real)
    requires |vs| >= 1
    ensures var c := Dot(axis, Vec2(dx, dy));
      var iv := Project(vs, axis);
      Project(Translate(vs, dx, dy), axis) == Interval(iv.min + c, iv.max + c)
  {
    var c := Dot(axis, Vec2(dx, dy));
    var f := x => x + c;
    var ds := Dots(vs, axis);
    assert Dots(Translate(vs, dx, dy), axis) == Map(ds, f) by {
      DotsTranslate(vs, axis, dx, dy);
      assert forall i :: 0 <= i < |vs| ==> Map(ds, f)[i] == ds[i] + c;
    }
    assert Hull(Map(ds, f)) == Interval(f(Hull(ds).min), f(Hull(ds).max)) by {
      ShiftIsMonotone(c);
      HullMap(ds, f);
    }
  }

  /** Translating the vertices adds the same amount to every dot product. */
  lemma DotsTranslate(vs: seq<Vec2>, axis: Vec2, dx: real, dy: real)
    ensures |Dots(Translate(vs, dx, dy), axis)| == |vs|
    ensures forall i :: 0 <= i < |vs| ==>
      Dots(Translate(vs, dx, dy), axis)[i] == Dots(vs, axis)[i] + Dot(axis, Vec2(dx, dy))
  {
    forall i | 0 <= i < |vs|
      ensures Dots(Translate(vs, dx, dy), axis)[i] == Dots(vs, axis)[i] + Dot(axis, Vec2(dx, dy))
    {
      DotAdd(axis, vs[i], Vec2(dx, dy));
    }
  }

  /** Stretching the axis by a positive factor stretches both ends of the projection by it. */
  lemma ProjectScale(vs: seq<Vec2>, axis: Vec2, k: real)
    requires |vs| >= 1 && k > 0.0
    ensures var iv := Project(vs, axis);
      Project(vs, Scale(axis, k)) == Interval(k * iv.min, k * iv.max)
  {
    var f := x => k * x;
    var ds := Dots(vs, axis);
    assert Dots(vs, Scale(axis, k)) == Map(ds, f) by {
      DotsScale(vs, axis, k);
      assert forall i :: 0 <= i < |vs| ==> Map(ds, f)[i] == k * ds[i];
    }
    assert Hull(Map(ds, f)) == Interval(f(Hull(ds).min), f(Hull(ds).max)) by {
      StretchIsMonotone(k);
      HullMap(ds, f);
    }
  }

  /** Scaling the axis scales every dot product by the same factor. */
  lemma DotsScale(vs: seq<Vec2>, axis: Vec2, k: real)
    ensures |Dots(vs, Scale(axis, k))| == |vs|
    ensures forall i :: 0 <= i < |vs| ==> Dots(vs, Scale(axis, k))[i] == k * Dots(vs, axis)[i]
  {
    forall i | 0 <= i < |vs|
      ensures Dots(vs, Scale(axis, k))[i] == k * Dots(vs, axis)[i]
    {
      DotScale(axis, vs[i], k);
    }
  }

  /**
   * The polygon of the demo: a vertex array it shifts in place. The drawing
   * context the source keeps beside the vertices is not modelled.
   */
  class Polygon {
    var vertices: array<Vec2>

    constructor (vertices: array<Vec2>)
      ensures this.vertices == vertices
    {
      this.vertices := vertices;
    }

    /** `move`: adds `x` to every first coordinate and `y` to every second one. */
    method Move(x: real, y: real)
      modifies vertices
      ensures vertices[..] == Translate(old(vertices[..]), x, y)
    {
      var i := 0;
      while i < vertices.Length
        invariant 0 <= i <= vertices.Length
        invariant forall k :: 0 <= k < i ==> vertices[k] == Add(old(vertices[k]), Vec2(x, y))
        invariant forall k :: i <= k < vertices.Length ==> vertices[k] == old(vertices[k])
      {
        vertices[i] := Vec2(vertices[i].x + x, vertices[i].y + y);
        i := i + 1;
      }
    }
  }

  /** `polygon_project`: the loop that widens `[min, max]` one vertex at a time. */
  method ProjectPolygon(polygon: Polygon, axis: Vec2) returns (r: Interval)
    requires polygon.vertices.Length >= 1
    ensures r == Project(polygon.vertices[..], axis)
  {
    var vertices := polygon.vertices;
    ghost var ds := Dots(vertices[..], axis);
    var min := Dot(axis, vertices[0]);
    var max := min;
    var i := 1;
    while i < vertices.Length
      invariant 1 <= i <= vertices.Length
      invariant Interval(min, max) == Hull(ds[..i])
    {
      var vert := vertices[i];
      var dot := Dot(axis, vert);
      assert ds[..i + 1][..i] == ds[..i];
      min := Min(min, dot);
      max := Max(max, dot);
      i := i + 1;
    }
    assert ds[..i] == ds;
    r := Interval(min, max);
  }
}
