/**
 * The geometry shared by both editors' getSnappedPoint: meeting the ground plane
 * y = 0, Java's Math.round, rounding to the grid, and the scan for the nearest
 * stored wall endpoint under the 0.5 threshold.
 */
module Snapping {
  import opened Wrappers
  import opened Vectors
  import opened Scene

  /** A ray whose direction has |y| below this is treated as parallel to the plane. */
  const ParallelEpsilon: real := 0.001
  /** The endpoint snap threshold 0.5, squared: distances are compared squared. */
  const SnapThresholdSq: real := 0.25

  function Abs(v: real): real {
    if v < 0.0 then -v else v
  }

  predicate Parallel(ray: Ray) {
    Abs(ray.dir.y) < ParallelEpsilon
  }

  /** The ray parameter t = -origin.y / dir.y at which the ray's line meets the plane. */
  function HitParam(ray: Ray): real
    requires !Parallel(ray)
  {
    -ray.origin.y / ray.dir.y
  }

  /** origin + dir * t for t = HitParam(ray): a point on the ray's line in the plane y = 0. */
  function PlaneHit(ray: Ray): (p: Vec3)
    requires !Parallel(ray)
    ensures p.y == 0.0
  {
    Add(ray.origin, Scale(ray.dir, HitParam(ray)))
  }

  /** Java's Math.round on exact values: floor(v + 1/2), so halves round up, not away from zero. */
  function JavaRound(v: real): (r: int)
    ensures r as real - 0.5 <= v < r as real + 0.5
  {
    (v + 0.5).Floor
  }

  /** The editors' gridSize field; it is never changed. */
  const GridSize: real := 1.0

  /** v is an integer multiple of the grid size. */
  predicate OnGrid(v: real) {
    (v / GridSize).Floor as real * GridSize == v
  }

  /** snapToGrid: y is 0 and x, z are rounded to the nearest multiples of the grid size, ties going up. */
  function SnapToGrid(pos: Vec3): (r: Vec3)
    ensures r.y == 0.0
    ensures OnGrid(r.x) && OnGrid(r.z)
    ensures r.x - GridSize / 2.0 <= pos.x < r.x + GridSize / 2.0
    ensures r.z - GridSize / 2.0 <= pos.z < r.z + GridSize / 2.0
  {
    Vec3(JavaRound(pos.x / GridSize) as real * GridSize, 0.0, JavaRound(pos.z / GridSize) as real * GridSize)
  }

  /** A point whose x and z already lie on the grid only loses its height. */
  lemma SnapToGridFixesGridPoints(pos: Vec3)
    requires OnGrid(pos.x) && OnGrid(pos.z)
    ensures SnapToGrid(pos) == Vec3(pos.x, 0.0, pos.z)
  {
    assert JavaRound(pos.x / GridSize) == (pos.x / GridSize).Floor;
    assert JavaRound(pos.z / GridSize) == (pos.z / GridSize).Floor;
  }

  lemma SnapToGridIdempotent(pos: Vec3)
    ensures SnapToGrid(SnapToGrid(pos)) == SnapToGrid(pos)
  {
    SnapToGridFixesGridPoints(SnapToGrid(pos));
  }

  /** The running minimum of the scan: the squared distance to beat and the endpoint found so far. */
  datatype ScanState = ScanState(minDistSq: real, nearest: Option<Vec3>)

  /** One `if (d < minDist) { minDist = d; nearest = p; }` step: strict, so an earlier tie stays. */
  function ScanStep(st: ScanState, pos: Vec3, p: Vec3): ScanState {
    if DistSq(pos, p) < st.minDistSq then ScanState(DistSq(pos, p), Some(p)) else st
  }

  /** The scan over the endpoints in order, starting from the threshold and no endpoint. */
  function Scan(pts: seq<Vec3>, pos: Vec3): ScanState
    decreases |pts|
  {
    if |pts| == 0 then ScanState(SnapThresholdSq, None)
    else ScanStep(Scan(pts[..|pts| - 1], pos), pos, pts[|pts| - 1])
  }

  function NearestEndpoint(pts: seq<Vec3>, pos: Vec3): Option<Vec3> {
    Scan(pts, pos).nearest
  }

  /**
   * pts[k] is under the threshold, no endpoint is closer, and every endpoint
   * before it is strictly farther: the first of the nearest endpoints.
   */
  predicate IsFirstNearest(pts: seq<Vec3>, pos: Vec3, k: int) {
    0 <= k < |pts| && DistSq(pos, pts[k]) < SnapThresholdSq
    && (forall j :: 0 <= j < |pts| ==> DistSq(pos, pts[k]) <= DistSq(pos, pts[j]))
    && (forall j :: 0 <= j < k ==> DistSq(pos, pts[k]) < DistSq(pos, pts[j]))
  }

  lemma ScanAppend(pts: seq<Vec3>, p: Vec3, pos: Vec3)
    ensures Scan(pts + [p], pos) == ScanStep(Scan(pts, pos), pos, p)
  {
    assert (pts + [p])[..|pts|] == pts;
  }

  /** One candidate of the scan: it replaces the best so far iff it is strictly closer. */
  method Consider(minDistSq: real, nearest: Option<Vec3>, pos: Vec3, p: Vec3) returns (minDistSq': real, nearest': Option<Vec3>)
    ensures ScanState(minDistSq', nearest') == ScanStep(ScanState(minDistSq, nearest), pos, p)
  {
    minDistSq', nearest' := minDistSq, nearest;
    var d := DistSq(pos, p);
    if d < minDistSq {
      minDistSq', nearest' := d, Some(p);
    }
  }

  lemma {:induction false} ScanInvariant(pts: seq<Vec3>, pos: Vec3)
    ensures var st := Scan(pts, pos);
      st.nearest.None? ==>
        st.minDistSq == SnapThresholdSq && forall j :: 0 <= j < |pts| ==> DistSq(pos, pts[j]) >= SnapThresholdSq
    ensures var st := Scan(pts, pos);
      st.nearest.Some? ==>
        exists k :: IsFirstNearest(pts, pos, k) && pts[k] == st.nearest.value && st.minDistSq == DistSq(pos, pts[k])
    decreases |pts|
  {
    if |pts| > 0 {
      var n := |pts| - 1;
      var init, p := pts[..n], pts[n];
      ScanInvariant(init, pos);
      var st := Scan(init, pos);
      assert forall j :: 0 <= j < n ==> init[j] == pts[j];
      if DistSq(pos, p) < st.minDistSq {
        if st.nearest.Some? {
          var k :| IsFirstNearest(init, pos, k) && init[k] == st.nearest.value && st.minDistSq == DistSq(pos, init[k]);
        }
        assert IsFirstNearest(pts, pos, n);
      } else if st.nearest.Some? {
        var k :| IsFirstNearest(init, pos, k) && init[k] == st.nearest.value && st.minDistSq == DistSq(pos, init[k]);
        assert IsFirstNearest(pts, pos, k);
      }
    }
  }

  /**
   * The scan yields no endpoint exactly when none lies within the threshold,
   * and otherwise the first nearest endpoint.
   */
  lemma NearestEndpointSpec(pts: seq<Vec3>, pos: Vec3)
    ensures NearestEndpoint(pts, pos).None? <==> forall j :: 0 <= j < |pts| ==> DistSq(pos, pts[j]) >= SnapThresholdSq
    ensures NearestEndpoint(pts, pos).Some? ==>
      exists k :: IsFirstNearest(pts, pos, k) && NearestEndpoint(pts, pos).value == pts[k]
  {
    ScanInvariant(pts, pos);
    if NearestEndpoint(pts, pos).Some? {
      var k :| IsFirstNearest(pts, pos, k) && pts[k] == NearestEndpoint(pts, pos).value;
      assert DistSq(pos, pts[k]) < SnapThresholdSq;
    }
  }

  /** The first nearest endpoint is unique, so the scan's answer is fully determined. */
  lemma FirstNearestUnique(pts: seq<Vec3>, pos: Vec3, k1: int, k2: int)
    requires IsFirstNearest(pts, pos, k1) && IsFirstNearest(pts, pos, k2)
    ensures k1 == k2
  {
  }
}
