/**
 * The separating-axis test with minimum translation vector, `sat_mtv`
 * (SAT.js, lines 91-141).
 *
 * The function `MtvSpec` is the reference: it lists the axes in the order
 * the two loops of the source visit them (A's axes, then B's), and `Scan`
 * folds over that list exactly as the loops do, stopping at the first gap.
 * The method `SatMtv` is the loop code, proved equal to `MtvSpec`; the
 * lemmas at the end say what the result means.
 */
module Sat {
  import opened Vectors
  import opened Geometry

  datatype Option<T> = None | Some(value: T)

  /** The non-null result of `sat_mtv`: a signed distance and the axis it was measured on. */
  datatype Collision = Collision(distance: real, smallest: Vec2)

  /** Which of the two loops tests an axis: the one over A's axes or the one over B's. */
  datatype Owner = OwnA | OwnB

  datatype AxisTest = AxisTest(axis: Vec2, owner: Owner)

  /**
   * The loop state: `overlap` is None until the first candidate is taken
   * (the source starts it at Number.MAX_VALUE); `distance` starts at 0 and
   * `smallest` at the zero vector (the source's empty array).
   */
  datatype Tracker = Tracker(overlap: Option<real>, distance: real, smallest: Vec2)

  const Start := Tracker(None, 0.0, Zero)

  function Abs(r: real): real { if r < 0.0 then -r else r }

  /** The gap test of the loop over A's axes: touching counts as a gap. */
  predicate GapNonStrict(p1: Interval, p2: Interval)
  {
    p1.min - p2.max >= 0.0 || p2.min - p1.max >= 0.0
  }

  /** The gap test of the loop over B's axes: touching does not count. */
  predicate GapStrict(p1: Interval, p2: Interval)
  {
    p1.min - p2.max > 0.0 || p2.min - p1.max > 0.0
  }

  /** The gap test the given loop applies to A's projection `p1` and B's projection `p2`. */
  predicate Gap(owner: Owner, p1: Interval, p2: Interval)
  {
    match owner
    case OwnA => GapNonStrict(p1, p2)
    case OwnB => GapStrict(p1, p2)
  }

  /** The signed candidate distance the given loop computes. */
  function Candidate(owner: Owner, p1: Interval, p2: Interval): real
  {
    match owner
    case OwnA => p2.max - p1.min
    case OwnB => (p1.max - p2.min) * -1.0
  }

  /** Axis test `t` finds a gap between the two vertex lists. */
  predicate Separates(t: AxisTest, pa: seq<Vec2>, pb: seq<Vec2>)
    requires |pa| >= 1 && |pb| >= 1
  {
    Gap(t.owner, Project(pa, t.axis), Project(pb, t.axis))
  }

  /** The candidate distance of axis test `t`. */
  function CandidateOf(t: AxisTest, pa: seq<Vec2>, pb: seq<Vec2>): real
    requires |pa| >= 1 && |pb| >= 1
  {
    Candidate(t.owner, Project(pa, t.axis), Project(pb, t.axis))
  }

  /** Take the candidate if nothing was taken yet or it is strictly smaller in magnitude. */
  function Step(s: Tracker, d: real, axis: Vec2): Tracker
  {
    if s.overlap.None? || Abs(d) < s.overlap.value then Tracker(Some(Abs(d)), d, axis) else s
  }

  /** One iteration of either loop: None is the early `return null`. */
  function Check(s: Tracker, t: AxisTest, pa: seq<Vec2>, pb: seq<Vec2>): Option<Tracker>
    requires |pa| >= 1 && |pb| >= 1
  {
    if Separates(t, pa, pb) then None else Some(Step(s, CandidateOf(t, pa, pb), t.axis))
  }

  /** The loops run over `tests` from state `s`; None once a gap was found. */
  function Fold(tests: seq<AxisTest>, s: Tracker, pa: seq<Vec2>, pb: seq<Vec2>): Option<Tracker>
    requires |pa| >= 1 && |pb| >= 1
    decreases |tests|
  {
    if tests == [] then
      Some(s)
    else
      match Fold(tests[..|tests| - 1], s, pa, pb)
      case None => None
      case Some(t) => Check(t, tests[|tests| - 1], pa, pb)
  }

  /** The loops run over `tests` from the initial state. */
  function Scan(tests: seq<AxisTest>, pa: seq<Vec2>, pb: seq<Vec2>): Option<Tracker>
    requires |pa| >= 1 && |pb| >= 1
  {
    Fold(tests, Start, pa, pb)
  }

  /** One of the two loops: tests each of `axes` in turn from state `s`, as `owner`'s loop does. */
  function Run(axes: seq<Vec2>, owner: Owner, s: Tracker, pa: seq<Vec2>, pb: seq<Vec2>): Option<Tracker>
    requires |pa| >= 1 && |pb| >= 1
    decreases |axes|
  {
    if axes == [] then
      Some(s)
    else
      match Run(axes[..|axes| - 1], owner, s, pa, pb)
      case None => None
      case Some(t) => Check(t, AxisTest(axes[|axes| - 1], owner), pa, pb)
  }

  /** Each axis paired with the loop that tests it. */
  function Tag(axes: seq<Vec2>, owner: Owner): (r: seq<AxisTest>)
    ensures |r| == |axes|
    ensures forall i :: 0 <= i < |axes| ==> r[i] == AxisTest(axes[i], owner)
  {
    seq(|axes|, i requires 0 <= i < |axes| => AxisTest(axes[i], owner))
  }

  /** What the solver needs of its inputs. */
  ghost predicate Inputs(pa: seq<Vec2>, pb: seq<Vec2>, mag: Vec2 -> real)
  {
    WellFormed(pa) && WellFormed(pb) && IsMagnitude(mag)
  }

  /** Every axis tested, in the order of the source: A's axes, then B's. */
  function Tests(pa: seq<Vec2>, pb: seq<Vec2>, mag: Vec2 -> real): seq<AxisTest>
    requires Inputs(pa, pb, mag)
  {
    Tag(Axes(pa, mag), OwnA) + Tag(Axes(pb, mag), OwnB)
  }

  /** The result `sat_mtv` returns for vertex lists `pa` and `pb`. */
  function MtvSpec(pa: seq<Vec2>, pb: seq<Vec2>, mag: Vec2 -> real): Option<Collision>
    requires Inputs(pa, pb, mag)
  {
    match Run(Axes(pa, mag), OwnA, Start, pa, pb)
    case None => None
    case Some(afterA) =>
      match Run(Axes(pb, mag), OwnB, afterA, pa, pb)
      case None => None
      case Some(s) => Some(Collision(s.distance, s.smallest))
  }

  /**
   * `sat_mtv`: the loop over A's axes, then the loop over B's axes from the
   * state the first left, each returning null as soon as it finds a gap.
   */
  method SatMtv(a: Polygon, b: Polygon, mag: Vec2 -> real) returns (r: Option<Collision>)
    requires Inputs(a.vertices[..], b.vertices[..], mag)
    ensures r == MtvSpec(a.vertices[..], b.vertices[..], mag)
  {
    var axesA := Axes(a.vertices[..], mag);
    var afterA := TestAxesOfA(a, b, axesA, Start);
    if afterA.None? {
      return None;
    }
    var axesB := Axes(b.vertices[..], mag);
    var afterB := TestAxesOfB(a, b, axesB, afterA.value);
    if afterB.None? {
      return None;
    }
    r := Some(Collision(afterB.value.distance, afterB.value.smallest));
  }

  /**
   * The first loop of `sat_mtv`: for each axis of A, project both polygons,
   * bail out on a gap (touching counts), else keep the candidate
   * `p2.max - p1.min` if it is strictly smaller in magnitude.
   */
  method TestAxesOfA(a: Polygon, b: Polygon, axesA: seq<Vec2>, s: Tracker) returns (r: Option<Tracker>)
    requires a.vertices.Length >= 1 && b.vertices.Length >= 1
    ensures r == Run(axesA, OwnA, s, a.vertices[..], b.vertices[..])
  {
    ghost var pa, pb := a.vertices[..], b.vertices[..];
    var overlap, distance, smallest := s.overlap, s.distance, s.smallest;
    var i := 0;
    while i < |axesA|
      invariant 0 <= i <= |axesA|
      invariant Run(axesA[..i], OwnA, s, pa, pb) == Some(Tracker(overlap, distance, smallest))
    {
      var axis := axesA[i];
      var p1 := ProjectPolygon(a, axis);
      var p2 := ProjectPolygon(b, axis);
      ghost var before := Tracker(overlap, distance, smallest);
      if p1.min - p2.max >= 0.0 || p2.min - p1.max >= 0.0 {
        // there is a gap: bail out
        RunGap(axesA, i, OwnA, s, pa, pb, p1, p2);
        RunStaysNone(axesA, i + 1, OwnA, s, pa, pb);
        return None;
      }
      var minDistance := p2.max - p1.min;
      RunTake(axesA, i, OwnA, s, before, pa, pb, p1, p2);
      var minDistanceAbs := Abs(minDistance);
      if overlap.None? || minDistanceAbs < overlap.value {
        overlap := Some(minDistanceAbs);
        distance := minDistance;
        smallest := axis;
      }
      i := i + 1;
    }
    assert axesA[..i] == axesA;
    r := Some(Tracker(overlap, distance, smallest));
  }

  /**
   * The second loop of `sat_mtv`: for each axis of B, project both polygons,
   * bail out on a gap (touching does not count), else keep the candidate
   * `(p1.max - p2.min) * -1` if it is strictly smaller in magnitude.
   */
  method TestAxesOfB(a: Polygon, b: Polygon, axesB: seq<Vec2>, s: Tracker) returns (r: Option<Tracker>)
    requires a.vertices.Length >= 1 && b.vertices.Length >= 1
    ensures r == Run(axesB, OwnB, s, a.vertices[..], b.vertices[..])
  {
    ghost var pa, pb := a.vertices[..], b.vertices[..];
    var overlap, distance, smallest := s.overlap, s.distance, s.smallest;
    var j := 0;
    while j < |axesB|
      invariant 0 <= j <= |axesB|
      invariant Run(axesB[..j], OwnB, s, pa, pb) == Some(Tracker(overlap, distance, smallest))
    {
      var axis := axesB[j];
      var p1 := ProjectPolygon(a, axis);
      var p2 := ProjectPolygon(b, axis);
      ghost var before := Tracker(overlap, distance, smallest);
      if p1.min - p2.max > 0.0 || p2.min - p1.max > 0.0 {
        // there is a gap: bail out
        RunGap(axesB, j, OwnB, s, pa, pb, p1, p2);
        RunStaysNone(axesB, j + 1, OwnB, s, pa, pb);
        return None;
      }
      var minDistance := (p1.max - p2.min) * -1.0;
      RunTake(axesB, j, OwnB, s, before, pa, pb, p1, p2);
      var minDistanceAbs := Abs(minDistance);
      if overlap.None? || minDistanceAbs < overlap.value {
        overlap := Some(minDistanceAbs);
        distance := minDistance;
        smallest := axis;
      }
      j := j + 1;
    }
    assert axesB[..j] == axesB;
    r := Some(Tracker(overlap, distance, smallest));
  }

  /** An axis without a gap extends the loop by one step with its candidate. */
  lemma RunTake(axes: seq<Vec2>, n: nat, owner: Owner, s: Tracker, before: Tracker, pa: seq<Vec2>, pb: seq<Vec2>, p1: Interval, p2: Interval)
    requires |pa| >= 1 && |pb| >= 1 && n < |axes|
    requires p1 == Project(pa, axes[n]) && p2 == Project(pb, axes[n])
    requires Run(axes[..n], owner, s, pa, pb) == Some(before) && !Gap(owner, p1, p2)
    ensures Run(axes[..n + 1], owner, s, pa, pb) == Some(Step(before, Candidate(owner, p1, p2), axes[n]))
  {
    assert axes[..n + 1][..n] == axes[..n];
  }

  /** An axis with a gap stops the loop. */
  lemma RunGap(axes: seq<Vec2>, n: nat, owner: Owner, s: Tracker, pa: seq<Vec2>, pb: seq<Vec2>, p1: Interval, p2: Interval)
    requires |pa| >= 1 && |pb| >= 1 && n < |axes|
    requires p1 == Project(pa, axes[n]) && p2 == Project(pb, axes[n])
    requires Gap(owner, p1, p2)
    ensures Run(axes[..n + 1], owner, s, pa, pb) == None
  {
    assert axes[..n + 1][..n] == axes[..n];
  }

  /** Once a loop has met a gap, later axes do not change that. */
  lemma {:induction false} RunStaysNone(axes: seq<Vec2>, n: nat, owner: Owner, s: Tracker, pa: seq<Vec2>, pb: seq<Vec2>)
    requires |pa| >= 1 && |pb| >= 1
    requires n <= |axes| && Run(axes[..n], owner, s, pa, pb).None?
    ensures Run(axes, owner, s, pa, pb).None?
    decreases |axes| - n
  {
    if n < |axes| {
      assert axes[..n + 1][..n] == axes[..n];
      RunStaysNone(axes, n + 1, owner, s, pa, pb);
    } else {
      assert axes[..n] == axes;
    }
  }

  /** One loop over `axes` is the fold over the same axes tagged with the loop's owner. */
  lemma {:induction false} RunIsFold(axes: seq<Vec2>, owner: Owner, s: Tracker, pa: seq<Vec2>, pb: seq<Vec2>)
    requires |pa| >= 1 && |pb| >= 1
    ensures Run(axes, owner, s, pa, pb) == Fold(Tag(axes, owner), s, pa, pb)
    decreases |axes|
  {
    if axes != [] {
      var n := |axes|;
      RunIsFold(axes[..n - 1], owner, s, pa, pb);
      assert Tag(axes, owner)[..n - 1] == Tag(axes[..n - 1], owner);
    }
  }

  /** The two loops one after the other are one fold over all the tests, A's first. */
  lemma MtvScan(pa: seq<Vec2>, pb: seq<Vec2>, mag: Vec2 -> real)
    requires Inputs(pa, pb, mag)
    ensures MtvSpec(pa, pb, mag) ==
      match Scan(Tests(pa, pb, mag), pa, pb)
      case None => None
      case Some(s) => Some(Collision(s.distance, s.smallest))
  {
    var axesA, axesB := Axes(pa, mag), Axes(pb, mag);
    FoldAppend(Tag(axesA, OwnA), Tag(axesB, OwnB), Start, pa, pb);
    RunIsFold(axesA, OwnA, Start, pa, pb);
    match Run(axesA, OwnA, Start, pa, pb)
    case None =>
    case Some(t) => RunIsFold(axesB, OwnB, t, pa, pb);
  }

  /** Running over `xs + ys` is running over `xs`, then over `ys` from where that stopped. */
  lemma {:induction false} FoldAppend(xs: seq<AxisTest>, ys: seq<AxisTest>, s: Tracker, pa: seq<Vec2>, pb: seq<Vec2>)
    requires |pa| >= 1 && |pb| >= 1
    ensures Fold(xs + ys, s, pa, pb) ==
      match Fold(xs, s, pa, pb)
      case None => None
      case Some(t) => Fold(ys, t, pa, pb)
    decreases |ys|
  {
    if ys == [] {
      assert xs + ys == xs;
    } else {
      var m := |ys| - 1;
      assert (xs + ys)[..|xs + ys| - 1] == xs + ys[..m];
      assert (xs + ys)[|xs + ys| - 1] == ys[m];
      FoldAppend(xs, ys[..m], s, pa, pb);
    }
  }

  /** The fold gives up exactly when some tested axis shows a gap. */
  lemma {:induction false} FoldNoneIff(tests: seq<AxisTest>, s: Tracker, pa: seq<Vec2>, pb: seq<Vec2>)
    requires |pa| >= 1 && |pb| >= 1
    ensures Fold(tests, s, pa, pb).None? <==> exists i :: 0 <= i < |tests| && Separates(tests[i], pa, pb)
    decreases |tests|
  {
    if tests != [] {
      var n := |tests|;
      var init := tests[..n - 1];
      FoldNoneIff(init, s, pa, pb);
      assert forall i :: 0 <= i < n - 1 ==> init[i] == tests[i];
      if Fold(init, s, pa, pb).None? {
        var i :| 0 <= i < n - 1 && Separates(init[i], pa, pb);
        assert Separates(tests[i], pa, pb);
      } else if Separates(tests[n - 1], pa, pb) {
      } else {
        forall i | 0 <= i < n
          ensures !Separates(tests[i], pa, pb)
        {
          if i < n - 1 {
            assert tests[i] == init[i];
          }
        }
      }
    }
  }

  /**
   * Axis `k` is the first one whose candidate distance is smallest in
   * magnitude: no candidate is smaller, every earlier one is strictly larger.
   */
  ghost predicate FirstMinimum(tests: seq<AxisTest>, pa: seq<Vec2>, pb: seq<Vec2>, k: int)
    requires |pa| >= 1 && |pb| >= 1
  {
    && 0 <= k < |tests|
    && (forall j :: 0 <= j < |tests| ==> Abs(CandidateOf(tests[k], pa, pb)) <= Abs(CandidateOf(tests[j], pa, pb)))
    && (forall j :: 0 <= j < k ==> Abs(CandidateOf(tests[k], pa, pb)) < Abs(CandidateOf(tests[j], pa, pb)))
  }

  /**
   * One more test keeps the fold's state at the first least candidate: a
   * strictly smaller candidate replaces it, a tie or a larger one does not.
   */
  lemma FirstMinimumStep(tests: seq<AxisTest>, pa: seq<Vec2>, pb: seq<Vec2>, s0: Tracker, k0: int)
    requires |pa| >= 1 && |pb| >= 1 && |tests| >= 2
    requires FirstMinimum(tests[..|tests| - 1], pa, pb, k0)
    requires s0.overlap == Some(Abs(s0.distance))
    requires s0.distance == CandidateOf(tests[k0], pa, pb) && s0.smallest == tests[k0].axis
    ensures var last := tests[|tests| - 1];
      var s := Step(s0, CandidateOf(last, pa, pb), last.axis);
      && s.overlap == Some(Abs(s.distance))
      && exists k :: FirstMinimum(tests, pa, pb, k)
           && s.distance == CandidateOf(tests[k], pa, pb)
           && s.smallest == tests[k].axis
  {
    var n := |tests|;
    var init := tests[..n - 1];
    var d := CandidateOf(tests[n - 1], pa, pb);
    assert forall j :: 0 <= j < n - 1 ==> init[j] == tests[j];
    if Abs(d) < s0.overlap.value {
      assert FirstMinimum(tests, pa, pb, n - 1);
    } else {
      assert FirstMinimum(tests, pa, pb, k0);
    }
  }

  /**
   * When the fold gets through a non-empty list, it holds the candidate and
   * the axis of the first test of least absolute candidate distance.
   */
  lemma {:induction false} ScanFirstMinimum(tests: seq<AxisTest>, pa: seq<Vec2>, pb: seq<Vec2>)
    requires |pa| >= 1 && |pb| >= 1
    requires |tests| >= 1 && Scan(tests, pa, pb).Some?
    ensures var s := Scan(tests, pa, pb).value;
      && s.overlap == Some(Abs(s.distance))
      && exists k :: FirstMinimum(tests, pa, pb, k)
           && s.distance == CandidateOf(tests[k], pa, pb)
           && s.smallest == tests[k].axis
    decreases |tests|
  {
    var n := |tests|;
    var init := tests[..n - 1];
    var last := tests[n - 1];
    var s0 := Scan(init, pa, pb).value;
    assert Scan(tests, pa, pb).value == Step(s0, CandidateOf(last, pa, pb), last.axis);
    if n == 1 {
      assert s0 == Start;
      assert FirstMinimum(tests, pa, pb, 0);
    } else {
      ScanFirstMinimum(init, pa, pb);
      var k0 :| FirstMinimum(init, pa, pb, k0)
        && s0.distance == CandidateOf(init[k0], pa, pb)
        && s0.smallest == init[k0].axis;
      assert init[k0] == tests[k0];
      FirstMinimumStep(tests, pa, pb, s0, k0);
    }
  }

  /** The fold over all the tests gives up exactly when one of them shows a gap. */
  lemma ScanNullIff(pa: seq<Vec2>, pb: seq<Vec2>, mag: Vec2 -> real)
    requires Inputs(pa, pb, mag)
    ensures Scan(Tests(pa, pb, mag), pa, pb).None? <==>
      || (exists i :: 0 <= i < |pa| && GapNonStrict(Project(pa, Axes(pa, mag)[i]), Project(pb, Axes(pa, mag)[i])))
      || (exists j :: 0 <= j < |pb| && GapStrict(Project(pa, Axes(pb, mag)[j]), Project(pb, Axes(pb, mag)[j])))
  {
    TaggedNoneIff(Axes(pa, mag), Axes(pb, mag), Start, pa, pb);
  }

  /** The fold over A's tagged axes followed by B's gives up exactly when one axis shows its loop's gap. */
  lemma TaggedNoneIff(xs: seq<Vec2>, ys: seq<Vec2>, s: Tracker, pa: seq<Vec2>, pb: seq<Vec2>)
    requires |pa| >= 1 && |pb| >= 1
    ensures Fold(Tag(xs, OwnA) + Tag(ys, OwnB), s, pa, pb).None? <==>
      || (exists i :: 0 <= i < |xs| && GapNonStrict(Project(pa, xs[i]), Project(pb, xs[i])))
      || (exists j :: 0 <= j < |ys| && GapStrict(Project(pa, ys[j]), Project(pb, ys[j])))
  {
    var tests := Tag(xs, OwnA) + Tag(ys, OwnB);
    FoldNoneIff(tests, s, pa, pb);
    if Fold(tests, s, pa, pb).None? {
      var t :| 0 <= t < |tests| && Separates(tests[t], pa, pb);
      if t < |xs| {
        assert tests[t] == AxisTest(xs[t], OwnA);
      } else {
        assert tests[t] == AxisTest(ys[t - |xs|], OwnB);
      }
    } else {
      forall i | 0 <= i < |xs|
        ensures !GapNonStrict(Project(pa, xs[i]), Project(pb, xs[i]))
      {
        assert tests[i] == AxisTest(xs[i], OwnA);
      }
      forall j | 0 <= j < |ys|
        ensures !GapStrict(Project(pa, ys[j]), Project(pb, ys[j]))
      {
        assert tests[|xs| + j] == AxisTest(ys[j], OwnB);
      }
    }
  }

  /**
   * `sat_mtv` returns null exactly when one of A's axes shows a gap with
   * `>= 0` or one of B's axes shows a gap with `> 0`.
   */
  lemma MtvNullIff(pa: seq<Vec2>, pb: seq<Vec2>, mag: Vec2 -> real)
    requires Inputs(pa, pb, mag)
    ensures MtvSpec(pa, pb, mag).None? <==>
      || (exists i :: 0 <= i < |pa| && GapNonStrict(Project(pa, Axes(pa, mag)[i]), Project(pb, Axes(pa, mag)[i])))
      || (exists j :: 0 <= j < |pb| && GapStrict(Project(pa, Axes(pb, mag)[j]), Project(pb, Axes(pb, mag)[j])))
  {
    MtvScan(pa, pb, mag);
    ScanNullIff(pa, pb, mag);
  }

  /**
   * A non-null result: every axis of A overlaps strictly and every axis of B
   * at least touches.
   */
  lemma MtvOverlaps(pa: seq<Vec2>, pb: seq<Vec2>, mag: Vec2 -> real)
    requires Inputs(pa, pb, mag) && MtvSpec(pa, pb, mag).Some?
    ensures forall i :: 0 <= i < |pa| ==>
      var p1, p2 := Project(pa, Axes(pa, mag)[i]), Project(pb, Axes(pa, mag)[i]);
      p1.min - p2.max < 0.0 && p2.min - p1.max < 0.0
    ensures forall j :: 0 <= j < |pb| ==>
      var p1, p2 := Project(pa, Axes(pb, mag)[j]), Project(pb, Axes(pb, mag)[j]);
      p1.min - p2.max <= 0.0 && p2.min - p1.max <= 0.0
  {
    MtvNullIff(pa, pb, mag);
  }

  /**
   * A non-null result is the signed candidate and the axis of the first test
   * (A's axes before B's) of least absolute candidate distance.
   */
  lemma MtvMinimal(pa: seq<Vec2>, pb: seq<Vec2>, mag: Vec2 -> real)
    requires Inputs(pa, pb, mag) && MtvSpec(pa, pb, mag).Some?
    ensures var c := MtvSpec(pa, pb, mag).value;
      var tests := Tests(pa, pb, mag);
      exists k :: FirstMinimum(tests, pa, pb, k)
        && c.distance == CandidateOf(tests[k], pa, pb)
        && c.smallest == tests[k].axis
    ensures var c := MtvSpec(pa, pb, mag).value;
      c.smallest in Axes(pa, mag) || c.smallest in Axes(pb, mag)
  {
    var tests := Tests(pa, pb, mag);
    assert |tests| >= 1 && Scan(tests, pa, pb).Some? by {
      MtvScan(pa, pb, mag);
    }
    var c := MtvSpec(pa, pb, mag).value;
    assert c == Collision(Scan(tests, pa, pb).value.distance, Scan(tests, pa, pb).value.smallest) by {
      MtvScan(pa, pb, mag);
    }
    ScanFirstMinimum(tests, pa, pb);
    var k :| FirstMinimum(tests, pa, pb, k) && c.smallest == tests[k].axis;
    if k < |pa| {
      assert tests[k].axis == Axes(pa, mag)[k];
    } else {
      assert tests[k].axis == Axes(pb, mag)[k - |pa|];
    }
  }

  /**
   * A non-null result has the least absolute candidate over all axes: no
   * axis of A or of B has a smaller one, and some axis attains it.
   */
  lemma MtvLeast(pa: seq<Vec2>, pb: seq<Vec2>, mag: Vec2 -> real)
    requires Inputs(pa, pb, mag) && MtvSpec(pa, pb, mag).Some?
    ensures var d, axesA := MtvSpec(pa, pb, mag).value.distance, Axes(pa, mag);
      forall i :: 0 <= i < |pa| ==>
        Abs(d) <= Abs(Candidate(OwnA, Project(pa, axesA[i]), Project(pb, axesA[i])))
    ensures var d, axesB := MtvSpec(pa, pb, mag).value.distance, Axes(pb, mag);
      forall j :: 0 <= j < |pb| ==>
        Abs(d) <= Abs(Candidate(OwnB, Project(pa, axesB[j]), Project(pb, axesB[j])))
    ensures var d, axesA, axesB := MtvSpec(pa, pb, mag).value.distance, Axes(pa, mag), Axes(pb, mag);
      || (exists i :: 0 <= i < |pa| &&
            Abs(d) == Abs(Candidate(OwnA, Project(pa, axesA[i]), Project(pb, axesA[i]))))
      || (exists j :: 0 <= j < |pb| &&
            Abs(d) == Abs(Candidate(OwnB, Project(pa, axesB[j]), Project(pb, axesB[j]))))
  {
    var tests := Tests(pa, pb, mag);
    var d := MtvSpec(pa, pb, mag).value.distance;
    MtvMinimal(pa, pb, mag);
    var k :| FirstMinimum(tests, pa, pb, k) && d == CandidateOf(tests[k], pa, pb);
    TaggedLeast(Axes(pa, mag), Axes(pb, mag), pa, pb, k, d);
  }

  /** The first least test of A's tagged axes followed by B's, read back per axis list. */
  lemma TaggedLeast(xs: seq<Vec2>, ys: seq<Vec2>, pa: seq<Vec2>, pb: seq<Vec2>, k: int, d: real)
    requires |pa| >= 1 && |pb| >= 1
    requires FirstMinimum(Tag(xs, OwnA) + Tag(ys, OwnB), pa, pb, k)
    requires d == CandidateOf((Tag(xs, OwnA) + Tag(ys, OwnB))[k], pa, pb)
    ensures forall i :: 0 <= i < |xs| ==> Abs(d) <= Abs(Candidate(OwnA, Project(pa, xs[i]), Project(pb, xs[i])))
    ensures forall j :: 0 <= j < |ys| ==> Abs(d) <= Abs(Candidate(OwnB, Project(pa, ys[j]), Project(pb, ys[j])))
    ensures || (exists i :: 0 <= i < |xs| && Abs(d) == Abs(Candidate(OwnA, Project(pa, xs[i]), Project(pb, xs[i]))))
            || (exists j :: 0 <= j < |ys| && Abs(d) == Abs(Candidate(OwnB, Project(pa, ys[j]), Project(pb, ys[j]))))
  {
    var tests := Tag(xs, OwnA) + Tag(ys, OwnB);
    forall i | 0 <= i < |xs|
      ensures Abs(d) <= Abs(Candidate(OwnA, Project(pa, xs[i]), Project(pb, xs[i])))
    {
      assert tests[i] == AxisTest(xs[i], OwnA);
    }
    forall j | 0 <= j < |ys|
      ensures Abs(d) <= Abs(Candidate(OwnB, Project(pa, ys[j]), Project(pb, ys[j])))
    {
      assert tests[|xs| + j] == AxisTest(ys[j], OwnB);
    }
    if k < |xs| {
      assert tests[k] == AxisTest(xs[k], OwnA);
    } else {
      assert tests[k] == AxisTest(ys[k - |xs|], OwnB);
    }
  }

  /**
   * The other loop's candidate on the swapped projections is the same
   * distance, negated, so its absolute value is the same.
   */
  lemma CandidateSwap(p1: Interval, p2: Interval)
    ensures Candidate(OwnA, p1, p2) == -Candidate(OwnB, p2, p1)
    ensures Candidate(OwnB, p1, p2) == -Candidate(OwnA, p2, p1)
    ensures Abs(Candidate(OwnA, p1, p2)) == Abs(Candidate(OwnB, p2, p1))
    ensures Abs(Candidate(OwnB, p1, p2)) == Abs(Candidate(OwnA, p2, p1))
  {
  }

  /** Swapping the polygons cannot give a deeper result than the one before the swap. */
  lemma MtvSwapBound(pa: seq<Vec2>, pb: seq<Vec2>, mag: Vec2 -> real)
    requires Inputs(pa, pb, mag) && MtvSpec(pa, pb, mag).Some? && MtvSpec(pb, pa, mag).Some?
    ensures Abs(MtvSpec(pb, pa, mag).value.distance) <= Abs(MtvSpec(pa, pb, mag).value.distance)
  {
    var axesA, axesB := Axes(pa, mag), Axes(pb, mag);
    var d1, d2 := MtvSpec(pa, pb, mag).value.distance, MtvSpec(pb, pa, mag).value.distance;
    assert || (exists i :: 0 <= i < |pa| && Abs(d1) == Abs(Candidate(OwnA, Project(pa, axesA[i]), Project(pb, axesA[i]))))
           || (exists j :: 0 <= j < |pb| && Abs(d1) == Abs(Candidate(OwnB, Project(pa, axesB[j]), Project(pb, axesB[j])))) by {
      MtvLeast(pa, pb, mag);
    }
    if i :| 0 <= i < |pa| && Abs(d1) == Abs(Candidate(OwnA, Project(pa, axesA[i]), Project(pb, axesA[i]))) {
      assert Abs(d2) <= Abs(Candidate(OwnB, Project(pb, axesA[i]), Project(pa, axesA[i]))) by {
        MtvLeast(pb, pa, mag);
      }
      CandidateSwap(Project(pa, axesA[i]), Project(pb, axesA[i]));
    } else {
      var j :| 0 <= j < |pb| && Abs(d1) == Abs(Candidate(OwnB, Project(pa, axesB[j]), Project(pb, axesB[j])));
      assert Abs(d2) <= Abs(Candidate(OwnA, Project(pb, axesB[j]), Project(pa, axesB[j]))) by {
        MtvLeast(pb, pa, mag);
      }
      CandidateSwap(Project(pa, axesB[j]), Project(pb, axesB[j]));
    }
  }

  /**
   * When `sat_mtv(A, B)` and `sat_mtv(B, A)` both report a collision, they
   * report the same penetration depth: swapping the polygons swaps the two
   * loops' roles and negates every candidate, so the least absolute
   * candidate is the same. (The axis and the sign may differ.)
   */
  lemma MtvSwapDepth(pa: seq<Vec2>, pb: seq<Vec2>, mag: Vec2 -> real)
    requires Inputs(pa, pb, mag) && MtvSpec(pa, pb, mag).Some? && MtvSpec(pb, pa, mag).Some?
    ensures Abs(MtvSpec(pa, pb, mag).value.distance) == Abs(MtvSpec(pb, pa, mag).value.distance)
  {
    MtvSwapBound(pa, pb, mag);
    MtvSwapBound(pb, pa, mag);
  }

  /** Moving both vertex lists by the same vector leaves every gap test and candidate as it was. */
  lemma CheckTranslate(s: Tracker, t: AxisTest, pa: seq<Vec2>, pb: seq<Vec2>, dx: real, dy: real)
    requires |pa| >= 1 && |pb| >= 1
    ensures Check(s, t, Translate(pa, dx, dy), Translate(pb, dx, dy)) == Check(s, t, pa, pb)
  {
    ProjectTranslate(pa, t.axis, dx, dy);
    ProjectTranslate(pb, t.axis, dx, dy);
  }

  /** Either loop gives the same result on two vertex lists moved by the same vector. */
  lemma {:induction false} RunTranslate(axes: seq<Vec2>, owner: Owner, s: Tracker, pa: seq<Vec2>, pb: seq<Vec2>, dx: real, dy: real)
    requires |pa| >= 1 && |pb| >= 1
    ensures Run(axes, owner, s, Translate(pa, dx, dy), Translate(pb, dx, dy)) == Run(axes, owner, s, pa, pb)
    decreases |axes|
  {
    if axes != [] {
      var n := |axes|;
      RunTranslate(axes[..n - 1], owner, s, pa, pb, dx, dy);
      match Run(axes[..n - 1], owner, s, pa, pb)
      case None =>
      case Some(t) => CheckTranslate(t, AxisTest(axes[n - 1], owner), pa, pb, dx, dy);
    }
  }

  /**
   * Only the relative position matters: moving both polygons by the same
   * vector (as `Polygon.move` does) changes neither whether `sat_mtv`
   * returns null nor the distance and axis it returns.
   */
  lemma MtvTranslate(pa: seq<Vec2>, pb: seq<Vec2>, mag: Vec2 -> real, dx: real, dy: real)
    requires Inputs(pa, pb, mag)
    ensures Inputs(Translate(pa, dx, dy), Translate(pb, dx, dy), mag)
    ensures MtvSpec(Translate(pa, dx, dy), Translate(pb, dx, dy), mag) == MtvSpec(pa, pb, mag)
  {
    var qa, qb := Translate(pa, dx, dy), Translate(pb, dx, dy);
    AxesTranslate(pa, dx, dy, mag);
    AxesTranslate(pb, dx, dy, mag);
    RunTranslate(Axes(pa, mag), OwnA, Start, pa, pb, dx, dy);
    match Run(Axes(pa, mag), OwnA, Start, pa, pb)
    case None =>
    case Some(t) => RunTranslate(Axes(pb, mag), OwnB, t, pa, pb, dx, dy);
  }

  /** Multiplying by a positive factor keeps the sign of a number. */
  lemma SignScale(k: real, x: real)
    requires k > 0.0
    ensures k * x > 0.0 <==> x > 0.0
    ensures k * x >= 0.0 <==> x >= 0.0
  {
    if x > 0.0 {
      assert k * x > 0.0;
    } else if x < 0.0 {
      assert k * -x > 0.0;
    }
  }

  /** Both gap tests give the same answer on intervals stretched by a positive factor. */
  lemma GapScale(owner: Owner, p1: Interval, p2: Interval, q1: Interval, q2: Interval, k: real)
    requires k > 0.0
    requires q1 == Interval(k * p1.min, k * p1.max) && q2 == Interval(k * p2.min, k * p2.max)
    ensures Gap(owner, q1, q2) == Gap(owner, p1, p2)
  {
    assert k * p1.min - k * p2.max == k * (p1.min - p2.max);
    assert k * p2.min - k * p1.max == k * (p2.min - p1.max);
    SignScale(k, p1.min - p2.max);
    SignScale(k, p2.min - p1.max);
  }

  /** Projections on a positive multiple `axis` of `v` are the projections on `v`, stretched. */
  lemma ProjectAlong(pa: seq<Vec2>, pb: seq<Vec2>, axis: Vec2, v: Vec2, k: real)
    requires |pa| >= 1 && |pb| >= 1 && k > 0.0 && axis == Scale(v, k)
    ensures Project(pa, axis) == Interval(k * Project(pa, v).min, k * Project(pa, v).max)
    ensures Project(pb, axis) == Interval(k * Project(pb, v).min, k * Project(pb, v).max)
  {
    ProjectScale(pa, v, k);
    ProjectScale(pb, v, k);
  }

  /** The gap test along an axis depends only on the axis's direction, not its length. */
  lemma GapAlongDirection(owner: Owner, pa: seq<Vec2>, pb: seq<Vec2>, axis: Vec2, v: Vec2)
    requires |pa| >= 1 && |pb| >= 1 && SameDirection(axis, v)
    ensures Gap(owner, Project(pa, axis), Project(pb, axis)) == Gap(owner, Project(pa, v), Project(pb, v))
  {
    var k :| k > 0.0 && axis == Scale(v, k);
    GapAlongScaled(owner, pa, pb, axis, v, k);
  }

  /** The gap test along `k` times `v` agrees with the one along `v`. */
  lemma GapAlongScaled(owner: Owner, pa: seq<Vec2>, pb: seq<Vec2>, axis: Vec2, v: Vec2, k: real)
    requires |pa| >= 1 && |pb| >= 1 && k > 0.0 && axis == Scale(v, k)
    ensures Gap(owner, Project(pa, axis), Project(pb, axis)) == Gap(owner, Project(pa, v), Project(pb, v))
  {
    ProjectAlong(pa, pb, axis, v, k);
    GapScale(owner, Project(pa, v), Project(pb, v), Project(pa, axis), Project(pb, axis), k);
  }

  /**
   * Whether `sat_mtv` returns null does not depend on the magnitude used to
   * normalise the axes: any two magnitudes give the same answer.
   */
  lemma MtvNullMagnitude(pa: seq<Vec2>, pb: seq<Vec2>, mag1: Vec2 -> real, mag2: Vec2 -> real)
    requires Inputs(pa, pb, mag1) && Inputs(pa, pb, mag2)
    ensures MtvSpec(pa, pb, mag1).None? <==> MtvSpec(pa, pb, mag2).None?
  {
    MtvNullIff(pa, pb, mag1);
    MtvNullIff(pa, pb, mag2);
    var a1, a2, b1, b2 := Axes(pa, mag1), Axes(pa, mag2), Axes(pb, mag1), Axes(pb, mag2);
    AxesNormals(pa, mag1);
    AxesNormals(pa, mag2);
    AxesNormals(pb, mag1);
    AxesNormals(pb, mag2);
    forall i | 0 <= i < |pa|
      ensures GapNonStrict(Project(pa, a1[i]), Project(pb, a1[i])) == GapNonStrict(Project(pa, a2[i]), Project(pb, a2[i]))
    {
      GapAlongDirection(OwnA, pa, pb, a1[i], Perp(Edge(pa, i)));
      GapAlongDirection(OwnA, pa, pb, a2[i], Perp(Edge(pa, i)));
    }
    forall j | 0 <= j < |pb|
      ensures GapStrict(Project(pa, b1[j]), Project(pb, b1[j])) == GapStrict(Project(pa, b2[j]), Project(pb, b2[j]))
    {
      GapAlongDirection(OwnB, pa, pb, b1[j], Perp(Edge(pb, j)));
      GapAlongDirection(OwnB, pa, pb, b2[j], Perp(Edge(pb, j)));
    }
  }
}
