/** The red line drawn around the cube (src/components/WrappingLine.jsx):
    only its corner points, which the fuse point follows. */
module WrappingLine {
  import opened Geometry

  const LinePoints: seq<Vec3> := [
    Vec3(-1.25, -1.25, 1.25),  // front bottom left
    Vec3(1.25, 1.25, 1.25),    // front top right
    Vec3(1.25, 1.25, -1.25),   // back top right
    Vec3(0.0, 0.0, -1.25)      // back centre
  ]
}

/** The yellow fuse point of src/components/MovingPoint.jsx. Every frame in
    which the fuse is active, the point is placed on the polyline at progress
    `t`, and `t` moves on by 0.005, wrapping back to 0 at 1. */
module MovingPoint {
  import opened JsRuntime
  import opened Geometry
  import WrappingLine

  /** The polyline the point travels, in traversal order. */
  const Path: seq<Vec3> := [
    Vec3(-1.25, -1.25, 1.25),
    Vec3(1.25, 1.25, 1.25),
    Vec3(1.25, 1.25, -1.25),
    Vec3(0.0, 0.0, -1.25)
  ]

  /** `points.length - 1`. */
  const SegmentCount: int := |Path| - 1

  /** How far `t` moves in one frame. */
  const Speed: real := 0.005

  /** Half the edge of the cube the path is drawn on. */
  const HalfExtent: real := 1.25

  /** Inside the cube that carries the path. */
  predicate InCube(p: Vec3) {
    -HalfExtent <= p.x <= HalfExtent &&
    -HalfExtent <= p.y <= HalfExtent &&
    -HalfExtent <= p.z <= HalfExtent
  }

  /** The progress after one frame: `(t + 0.005) % 1`. */
  function Advance(t: real): (next: real)
    requires 0.0 <= t < 1.0
    ensures 0.0 <= next < 1.0
    ensures t + Speed < 1.0 ==> next == t + Speed
    ensures t + Speed >= 1.0 ==> next == t + Speed - 1.0
  {
    Rem(t + Speed, 1.0)
  }

  /** `Math.floor(t * segmentCount)`: the segment that progress `t` is on. */
  function SegmentIndex(t: real): (k: int)
    requires 0.0 <= t < 1.0
    ensures 0 <= k < SegmentCount
    ensures k as real <= t * SegmentCount as real < k as real + 1.0
  {
    (t * SegmentCount as real).Floor
  }

  /** `(t * segmentCount) % 1`: how far along its segment progress `t` is. */
  function SegmentT(t: real): (s: real)
    requires 0.0 <= t < 1.0
    ensures 0.0 <= s < 1.0
    ensures s == t * SegmentCount as real - SegmentIndex(t) as real
  {
    Rem(t * SegmentCount as real, 1.0)
  }

  /** Where the point is drawn for progress `t`: `startPoint` lerped toward
      `endPoint` by `segmentT`. */
  function Position(t: real): (p: Vec3)
    requires 0.0 <= t < 1.0
    ensures Between(p, Path[SegmentIndex(t)], Path[SegmentIndex(t) + 1])
    ensures InCube(p)
  {
    var k := SegmentIndex(t);
    var startPoint := Path[k];
    var endPoint := Path[Min(k + 1, |Path| - 1)];
    LerpBetween(startPoint, endPoint, SegmentT(t));
    Lerp(startPoint, endPoint, SegmentT(t))
  }

  /** The polyline is the one drawn as the red line. */
  lemma PathIsRedLine()
    ensures Path == WrappingLine.LinePoints
  {
  }

  /** The clamp `Math.min(segmentIndex + 1, points.length - 1)` never bites:
      the position is the lerp along segment `k` from its start, with
      fraction `3t - k`. */
  lemma PositionOnSegment(t: real)
    requires 0.0 <= t < 1.0
    ensures var k := SegmentIndex(t);
      Min(k + 1, |Path| - 1) == k + 1 &&
      Position(t) == Lerp(Path[k], Path[k + 1], t * SegmentCount as real - k as real)
  {
  }

  /** At progress 0 the point is at the first corner. */
  lemma PositionAtStart()
    ensures Position(0.0) == Path[0]
  {
    assert SegmentIndex(0.0) == 0;
    LerpBetween(Path[0], Path[1], 0.0);
  }

  /** At progress `k / 3` the point is exactly on corner `k`, for each corner
      that begins a segment. */
  lemma PositionAtCorner(k: int)
    requires 0 <= k < SegmentCount
    ensures Position(k as real / SegmentCount as real) == Path[k]
  {
    var t := k as real / SegmentCount as real;
    assert t * SegmentCount as real == k as real;
    assert SegmentIndex(t) == k;
    assert SegmentT(t) == 0.0;
    LerpBetween(Path[k], Path[k + 1], 0.0);
  }

  /** Where a segment ends is where the next one starts: lerping segment
      `k - 1` all the way gives the position at progress `k / 3`. */
  lemma SegmentsJoin(k: int)
    requires 1 <= k < SegmentCount
    ensures Lerp(Path[k - 1], Path[k], 1.0) == Position(k as real / SegmentCount as real)
  {
    LerpBetween(Path[k - 1], Path[k], 1.0);
    PositionAtCorner(k);
  }

  /** The point never sits on the last corner (where the small cube is): the
      progress wraps to 0 before the last segment is finished. */
  lemma PositionNeverAtLastCorner(t: real)
    requires 0.0 <= t < 1.0
    ensures Position(t) != Path[SegmentCount]
  {
    var k, s := SegmentIndex(t), SegmentT(t);
    PositionOnSegment(t);
    if k == 2 {
      assert Position(t).x == 1.25 - 1.25 * s;
    }
  }

  /** Progress after `n` frames from `t`. */
  function AdvanceN(t: real, n: nat): (r: real)
    requires 0.0 <= t < 1.0
    ensures 0.0 <= r < 1.0
  {
    if n == 0 then t else Advance(AdvanceN(t, n - 1))
  }

  /** Starting from 0, after `n` frames of one lap the progress is `n * 0.005`. */
  lemma {:induction false} AdvanceFromStart(n: nat)
    requires n < 200
    ensures AdvanceN(0.0, n) == n as real * Speed
  {
    if n > 0 {
      AdvanceFromStart(n - 1);
    }
  }

  /** A lap takes exactly 200 frames: progress then returns to 0. */
  lemma FullLap()
    ensures AdvanceN(0.0, 200) == 0.0
    ensures forall n: nat :: 0 < n < 200 ==> AdvanceN(0.0, n) != 0.0
  {
    AdvanceFromStart(199);
    forall n: nat | 0 < n < 200 ensures AdvanceN(0.0, n) != 0.0 {
      AdvanceFromStart(n);
    }
  }

  /** The mesh whose position the frame callback sets, together with the
      React state `t` of the component. */
  class FusePoint {
    var t: real
    var position: Vec3

    ghost predicate Valid()
      reads this
    {
      0.0 <= t < 1.0
    }

    /** `useState(0)`; a fresh mesh stands at the origin. */
    constructor ()
      ensures Valid()
      ensures t == 0.0 && position == Origin
    {
      t := 0.0;
      position := Origin;
    }

    /** One `useFrame` callback. It acts only when the mesh is mounted and the
        fuse is active; the position is computed from `t` as it stood before
        the frame's own increment. */
    method Frame(mounted: bool, fuseActive: bool)
      requires Valid()
      modifies this
      ensures Valid()
      ensures mounted && fuseActive ==> t == Advance(old(t)) && position == Position(old(t))
      ensures !(mounted && fuseActive) ==> t == old(t) && position == old(position)
    {
      if mounted && fuseActive {
        var current := t;
        t := Advance(current);
        position := Position(current);
      }
    }
  }
}
