/**
 * Two-dimensional vector primitives of the collision test (SAT.js, lines 1-37).
 * A vector is a pair of reals; the source's 2-element arrays become values.
 * The square root behind `vec2_magnitude` is not computed: callers supply the
 * magnitude as a function that is positive on every non-zero vector.
 */
module Vectors {

  datatype Vec2 = Vec2(x: real, y: real)

  const Zero := Vec2(0.0, 0.0)

  /** Component-wise sum; used to state what subtraction and translation do. */
  function Add(v1: Vec2, v2: Vec2): Vec2
  {
    Vec2(v1.x + v2.x, v1.y + v2.y)
  }

  /** `k` times `v`. */
  function Scale(v: Vec2, k: real): Vec2
  {
    Vec2(k * v.x, k * v.y)
  }

  /** `vec2_dot`: the dot product. */
  function Dot(v1: Vec2, v2: Vec2): real
  {
    v1.x * v2.x + v1.y * v2.y
  }

  /** `vec2_sub`: the difference, the inverse of adding `v2`. */
  function Sub(v1: Vec2, v2: Vec2): (r: Vec2)
    ensures Add(r, v2) == v1
    ensures r == Zero <==> v1 == v2
  {
    Vec2(v1.x - v2.x, v1.y - v2.y)
  }

  /** `vec2_perp`: rotation by a quarter turn; orthogonal to `v` and just as long. */
  function Perp(v: Vec2): (r: Vec2)
    ensures Dot(v, r) == 0.0
    ensures Dot(r, r) == Dot(v, v)
    ensures r == Zero <==> v == Zero
  {
    Vec2(-v.y, v.x)
  }

  /** What the model demands of the magnitude that stands for `vec2_magnitude`. */
  ghost predicate IsMagnitude(mag: Vec2 -> real)
  {
    forall v :: v != Zero ==> mag(v) > 0.0
  }

  /** `a` points the same way as `b`: a positive multiple of it. */
  ghost predicate SameDirection(a: Vec2, b: Vec2)
  {
    exists k :: k > 0.0 && a == Scale(b, k)
  }

  /** `vec2_normalize`: each component times 1 divided by the magnitude. */
  function Normalize(v: Vec2, mag: Vec2 -> real): (r: Vec2)
    requires IsMagnitude(mag) && v != Zero
    ensures SameDirection(r, v)
    ensures r != Zero
  {
    var magnitude := mag(v);
    var r := Vec2(v.x * 1.0 / magnitude, v.y * 1.0 / magnitude);
    assert r == Scale(v, 1.0 / magnitude);
    r
  }

  /** Scaling either argument by `k` scales the dot product by `k`. */
  lemma DotScale(a: Vec2, b: Vec2, k: real)
    ensures Dot(Scale(a, k), b) == k * Dot(a, b)
    ensures Dot(b, Scale(a, k)) == k * Dot(b, a)
  {
  }

  /** The dot product distributes over a sum in its second argument. */
  lemma DotAdd(a: Vec2, b: Vec2, c: Vec2)
    ensures Dot(a, Add(b, c)) == Dot(a, b) + Dot(a, c)
  {
  }
}
