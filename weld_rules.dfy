/**
  The rules the welding gun applies to single beads and to a finished pass:
  the size and heat classification of a bead, the guards that decide whether a
  bead is placed, the seam-coverage scan and the three-tier verdict
  (Assets/Scripts/WeldingGunInteraction.cs).

  Distances compared with tolerances are decided on squared distances
  (see `Geometry`). Two distances that the code uses as numbers, not only in a
  comparison, are carried with the data they belong to: the tip-to-hit distance
  of a raycast hit and the length of the seam.
*/
module WeldRules {
  import opened Options
  import opened Geometry

  /** The gun's inspector settings. */
  datatype Settings = Settings(
    rayDistance: real,
    weldSparkDistance: real,
    weldMarkSpacing: real,
    seamThreshold: real,
    minWeldDistance: real,
    maxWeldDistance: real,
    optimalWeldDistance: real,
    optimalBand: real,
    fatScale: real,
    goodScale: real,
    thinScale: real)

  /** The values the gun ships with. */
  const DefaultSettings := Settings(3.0, 0.08, 0.015, 0.02, 0.01, 0.06, 0.03, 0.01, 1.5, 1.0, 0.5)

  /** The default arguments of the coverage scan. */
  const SampleSpacing: real := 0.018
  const BeadTolerance: real := 0.025

  /** The seam: its two ends and the distance between them. */
  datatype Seam = Seam(start: Point, end: Point, length: real)

  ghost predicate ValidSeam(seam: Seam)
  {
    IsDistance(seam.length, seam.start, seam.end)
  }

  /** A raycast hit on the metal: the point hit and its distance from the gun tip. */
  datatype RaycastHit = RaycastHit(point: Point, distance: real)

  datatype BeadScale = Fat | GoodSize | Thin

  datatype HeatMaterial = ModerateMolten | OptimalMolten | RedHot

  datatype HeatState = HeatState(material: HeatMaterial, colorOptimal: bool)

  /** The entry recorded in `beadResults` for one bead. */
  datatype BeadResult = BeadResult(stateOptimal: bool, sizeOptimal: bool)

  /** A bead as placed in the scene: where, how large, which material, and its result. */
  datatype Mark = Mark(position: Point, scale: BeadScale, material: HeatMaterial, result: BeadResult)

  datatype Verdict = Excellent | Good | Bad

  function Abs(x: real): real
  {
    if x < 0.0 then -x else x
  }

  // ---------------------------------------------------------------------------
  // Per-bead classification
  // ---------------------------------------------------------------------------

  /** The size test of a bead: the tip distance is within the band around the optimum. */
  predicate SizeOptimal(cfg: Settings, dist: real)
  {
    Abs(dist - cfg.optimalWeldDistance) <= cfg.optimalBand
  }

  /** `SizeOptimal` is membership of the closed window [optimal - band, optimal + band]. */
  lemma SizeOptimalWindow(cfg: Settings, dist: real)
    ensures SizeOptimal(cfg, dist)
        <==> cfg.optimalWeldDistance - cfg.optimalBand <= dist <= cfg.optimalWeldDistance + cfg.optimalBand
  {
  }

  /** The scale chosen for a bead from the tip distance. */
  function ScaleFor(cfg: Settings, dist: real): (k: BeadScale)
    ensures k == Fat <==> dist < cfg.minWeldDistance
    ensures k == GoodSize <==> cfg.minWeldDistance <= dist && SizeOptimal(cfg, dist)
    ensures k == Thin <==> cfg.minWeldDistance <= dist && !SizeOptimal(cfg, dist)
  {
    if dist < cfg.minWeldDistance then Fat
    else if Abs(dist - cfg.optimalWeldDistance) <= cfg.optimalBand then GoodSize
    else Thin
  }

  /** The `localScale` factor of a bead of scale `k`. */
  function ScaleFactor(cfg: Settings, k: BeadScale): real
  {
    match k
    case Fat => cfg.fatScale
    case GoodSize => cfg.goodScale
    case Thin => cfg.thinScale
  }

  /**
    When the fat threshold lies at or below the lower edge of the optimal band,
    a bead is recorded as size-optimal exactly when it gets the good scale.
  */
  lemma SizeOptimalIffGoodScale(cfg: Settings, dist: real)
    requires cfg.minWeldDistance <= cfg.optimalWeldDistance - cfg.optimalBand
    ensures SizeOptimal(cfg, dist) <==> ScaleFor(cfg, dist) == GoodSize
  {
    SizeOptimalWindow(cfg, dist);
  }

  /** The shipped settings satisfy that condition. */
  lemma DefaultSizeOptimalIffGoodScale(dist: real)
    ensures SizeOptimal(DefaultSettings, dist) <==> ScaleFor(DefaultSettings, dist) == GoodSize
  {
    SizeOptimalIffGoodScale(DefaultSettings, dist);
  }

  /**
    With a fat threshold inside the optimal band the two tests disagree: a bead can be
    fat and still be recorded as size-optimal, because `sizeOptimal` is computed
    independently of the scale.
  */
  lemma FatButSizeOptimal()
    ensures var cfg := DefaultSettings.(minWeldDistance := 0.025);
            ScaleFor(cfg, 0.022) == Fat && SizeOptimal(cfg, 0.022)
  {
  }

  /** A bead 0.005 from the tip under the shipped settings is fat and not size-optimal. */
  lemma TooCloseBeadIsFat()
    ensures ScaleFor(DefaultSettings, 0.005) == Fat && !SizeOptimal(DefaultSettings, 0.005)
  {
  }

  /**
    The thermal state read off the heat display: (80, 100] is optimal molten,
    (100, 140] is red hot, every other value is moderate.
  */
  function ClassifyHeat(v: int): (h: HeatState)
    ensures h.colorOptimal <==> 80 < v <= 100
    ensures h.material == OptimalMolten <==> 80 < v <= 100
    ensures h.material == RedHot <==> 100 < v <= 140
    ensures h.material == ModerateMolten <==> v <= 80 || 140 < v
  {
    if v > 80 && v <= 100 then HeatState(OptimalMolten, true)
    else if v > 100 && v <= 140 then HeatState(RedHot, false)
    else HeatState(ModerateMolten, false)
  }

  // ---------------------------------------------------------------------------
  // Placement guards
  // ---------------------------------------------------------------------------

  /**
    The tip is on the seam when its distance to the nearest point of the seam
    segment (the clamped projection) is at most the threshold; without a seam it
    never is.
  */
  predicate TipOnSeam(cfg: Settings, seam: Option<Seam>, p: Point)
  {
    seam.Some? &&
    WithinClosed(DistSq(p, ClosestPointOnSegment(p, seam.value.start, seam.value.end)), cfg.seamThreshold)
  }

  /** A segment whose ends coincide or whose squared length is positive. */
  predicate ProperOrPoint(seam: Seam)
  {
    seam.start == seam.end || 0.0 < Dot(Sub(seam.end, seam.start), Sub(seam.end, seam.start))
  }

  /** The tip is on the seam iff some point of the seam segment is within the threshold. */
  lemma TipOnSeamIffNearSegment(cfg: Settings, seam: Seam, p: Point)
    requires ProperOrPoint(seam)
    ensures TipOnSeam(cfg, Some(seam), p)
        <==> exists s :: 0.0 <= s <= 1.0 && WithinClosed(DistSq(p, PointAt(seam.start, seam.end, s)), cfg.seamThreshold)
  {
    var c := ClampedParameter(p, seam.start, seam.end);
    if TipOnSeam(cfg, Some(seam), p) {
      assert WithinClosed(DistSq(p, PointAt(seam.start, seam.end, c)), cfg.seamThreshold);
    }
    if exists s :: 0.0 <= s <= 1.0 && WithinClosed(DistSq(p, PointAt(seam.start, seam.end, s)), cfg.seamThreshold) {
      var s :| 0.0 <= s <= 1.0 && WithinClosed(DistSq(p, PointAt(seam.start, seam.end, s)), cfg.seamThreshold);
      ClosestPointIsNearest(p, seam.start, seam.end, s);
    }
  }

  /** `Mathf.Clamp`: `t` limited to [lo, hi]. */
  function ClampTo(t: real, lo: real, hi: real): real
  {
    if t < lo then lo else if t > hi then hi else t
  }

  /** How far along the seam the tip projects: the projection on the unit direction, clamped to [0, length]. */
  function ProjectionOffset(seam: Seam, p: Point): real
  {
    ClampTo(Dot(Sub(p, seam.start), UnitDirection(seam)), 0.0, seam.length)
  }

  /** The nearest seam point as the on-seam test writes it: start plus unit direction times the offset. */
  function DirectionClosestPoint(seam: Seam, p: Point): Point
  {
    Add(seam.start, Scale(UnitDirection(seam), ProjectionOffset(seam, p)))
  }

  /**
    For a seam whose length is its true length, positive or with coinciding ends,
    the nearest point written with the unit direction is the clamped projection
    `TipOnSeam` uses.
  */
  lemma ClosestPointForms(seam: Seam, p: Point)
    requires ValidSeam(seam)
    requires 0.0 < seam.length || seam.start == seam.end
    ensures DirectionClosestPoint(seam, p) == ClosestPointOnSegment(p, seam.start, seam.end)
    ensures ProperOrPoint(seam)
  {
    if 0.0 < seam.length {
      SeamLengthSquared(seam);
      ClosestPointFormsProper(seam, p);
    }
  }

  lemma ClosestPointFormsProper(seam: Seam, p: Point)
    requires 0.0 < seam.length
    requires Dot(Sub(seam.end, seam.start), Sub(seam.end, seam.start)) == seam.length * seam.length
    requires 0.0 < Dot(Sub(seam.end, seam.start), Sub(seam.end, seam.start))
    ensures DirectionClosestPoint(seam, p) == ClosestPointOnSegment(p, seam.start, seam.end)
  {
    var v := Sub(seam.end, seam.start);
    var t := ProjectionOffset(seam, p);
    var c := ClampedParameter(p, seam.start, seam.end);
    ProjectionOffsetForm(seam, p);
    ClampedParameterForm(p, seam.start, seam.end);
    ClampForms(Dot(Sub(p, seam.start), v), seam.length, Dot(v, v), t, c);
    Compose(seam.start, v, UnitDirection(seam), t, c, seam.length);
  }

  lemma SeamLengthSquared(seam: Seam)
    requires ValidSeam(seam) && 0.0 < seam.length
    ensures Dot(Sub(seam.end, seam.start), Sub(seam.end, seam.start)) == seam.length * seam.length
    ensures 0.0 < Dot(Sub(seam.end, seam.start), Sub(seam.end, seam.start))
  {
    DistSqOfDifference(seam.start, seam.end);
    DistanceComparisons(seam.length, seam.start, seam.end, 0.0);
  }

  lemma ProjectionOffsetForm(seam: Seam, p: Point)
    requires 0.0 < seam.length
    ensures ProjectionOffset(seam, p)
         == ClampTo(Dot(Sub(p, seam.start), Sub(seam.end, seam.start)) / seam.length, 0.0, seam.length)
  {
    DotScaled(Sub(p, seam.start), Sub(seam.end, seam.start), seam.length);
  }

  lemma Compose(a: Point, v: Point, u: Point, t: real, c: real, len: real)
    requires len != 0.0 && u == Scale(v, 1.0 / len) && (1.0 / len) * t == c
    ensures Add(a, Scale(u, t)) == Add(a, Scale(v, c))
  {
    ScaleTwice(v, 1.0 / len, t);
  }

  /** Clamping the offset to [0, len] and the ratio to [0, 1] agree, up to the factor len. */
  lemma ClampForms(q: real, len: real, vv: real, t: real, c: real)
    requires 0.0 < len && 0.0 < vv && vv == len * len
    requires t == ClampTo(q / len, 0.0, len)
    requires c == Clamp01(q / vv)
    ensures (1.0 / len) * t == c
  {
    DivByLength(q, len, vv);
  }

  lemma DivByLength(q: real, len: real, vv: real)
    requires 0.0 < len && 0.0 < vv && vv == len * len
    ensures q / len < 0.0 <==> q / vv < 0.0
    ensures q / len > len <==> q / vv > 1.0
    ensures (1.0 / len) * (q / len) == q / vv
    ensures (1.0 / len) * len == 1.0
  {
  }

  /** The guards a hit must pass before a bead is placed at it. */
  predicate MarkAllowed(cfg: Settings, seam: Option<Seam>, hasPlacedMark: bool, lastMark: Point, hit: RaycastHit)
  {
    hit.distance <= cfg.maxWeldDistance
    && TipOnSeam(cfg, seam, hit.point)
    && (!hasPlacedMark || Beyond(DistSq(lastMark, hit.point), cfg.weldMarkSpacing))
  }

  /** The bead placed at `hit` with heat reading `heat`. */
  function NewMark(cfg: Settings, hit: RaycastHit, heat: int): (m: Mark)
    ensures m.position == hit.point
    ensures m.result.stateOptimal <==> 80 < heat <= 100
    ensures m.result.sizeOptimal <==> SizeOptimal(cfg, hit.distance)
    ensures (m.scale == GoodSize) ==> m.result.sizeOptimal
    ensures m.scale == ScaleFor(cfg, hit.distance)
    ensures ScaleFactor(cfg, m.scale) ==
      if hit.distance < cfg.minWeldDistance then cfg.fatScale
      else if SizeOptimal(cfg, hit.distance) then cfg.goodScale
      else cfg.thinScale
    ensures m.material == ClassifyHeat(heat).material
    ensures m.material == OptimalMolten <==> m.result.stateOptimal
  {
    var h := ClassifyHeat(heat);
    Mark(hit.point, ScaleFor(cfg, hit.distance), h.material,
         BeadResult(h.colorOptimal, SizeOptimal(cfg, hit.distance)))
  }

  /**
    One placement attempt: no prefab or no hit places nothing; otherwise a bead is
    placed exactly when the hit passes the guards.
  */
  function PlaceMark(cfg: Settings, seam: Option<Seam>, prefabAssigned: bool,
                     hasPlacedMark: bool, lastMark: Point, hit: Option<RaycastHit>, heat: int): (r: Option<Mark>)
    ensures r.Some? <==> prefabAssigned && hit.Some? && MarkAllowed(cfg, seam, hasPlacedMark, lastMark, hit.value)
    ensures r.Some? ==> r.value == NewMark(cfg, hit.value, heat)
  {
    if !prefabAssigned then None
    else if hit.None? then None
    else if hit.value.distance > cfg.maxWeldDistance then None
    else if !TipOnSeam(cfg, seam, hit.value.point) then None
    else if !hasPlacedMark || Beyond(DistSq(lastMark, hit.value.point), cfg.weldMarkSpacing) then
      Some(NewMark(cfg, hit.value, heat))
    else None
  }

  /** No bead is placed at a hit farther from the tip than the maximum weld distance. */
  lemma NoMarkTooFar(cfg: Settings, seam: Option<Seam>, prefab: bool, placed: bool, last: Point,
                     hit: RaycastHit, heat: int)
    requires cfg.maxWeldDistance < hit.distance
    ensures PlaceMark(cfg, seam, prefab, placed, last, Some(hit), heat).None?
  {
  }

  /** No bead is placed at a hit whose every seam point lies farther than the threshold. */
  lemma NoMarkOffSeam(cfg: Settings, seam: Seam, prefab: bool, placed: bool, last: Point,
                      hit: RaycastHit, heat: int)
    requires forall s :: 0.0 <= s <= 1.0 ==> Beyond(DistSq(hit.point, PointAt(seam.start, seam.end, s)), cfg.seamThreshold)
    ensures PlaceMark(cfg, Some(seam), prefab, placed, last, Some(hit), heat).None?
  {
    var c := ClampedParameter(hit.point, seam.start, seam.end);
    assert Beyond(DistSq(hit.point, PointAt(seam.start, seam.end, c)), cfg.seamThreshold);
  }

  /**
    After a first bead, no bead is placed at a hit whose true distance `d` from the
    last mark is at most the mark spacing.
  */
  lemma NoMarkTooClose(cfg: Settings, seam: Option<Seam>, prefab: bool, last: Point,
                       hit: RaycastHit, heat: int, d: real)
    requires IsDistance(d, last, hit.point) && d <= cfg.weldMarkSpacing
    ensures PlaceMark(cfg, seam, prefab, true, last, Some(hit), heat).None?
  {
    DistanceComparisons(d, last, hit.point, cfg.weldMarkSpacing);
  }

  /** The spark test: the tip is strictly closer to the metal than the spark distance. */
  predicate SparksOn(cfg: Settings, tip: Point, metal: Point)
  {
    WithinOpen(DistSq(tip, metal), cfg.weldSparkDistance)
  }

  /** The spark test decides exactly `distance < weldSparkDistance`. */
  lemma SparksOnIffClose(cfg: Settings, tip: Point, metal: Point, d: real)
    requires IsDistance(d, tip, metal)
    ensures SparksOn(cfg, tip, metal) <==> d < cfg.weldSparkDistance
  {
    DistanceComparisons(d, tip, metal, cfg.weldSparkDistance);
  }

  // ---------------------------------------------------------------------------
  // Seam coverage
  // ---------------------------------------------------------------------------

  /** The number of samples: the floor of length / spacing, but never fewer than two. */
  function SampleCount(length: real, spacing: real): (n: int)
    requires 0.0 < spacing
    ensures 2 <= n
    ensures (length / spacing).Floor <= n
    ensures n == 2 || n == (length / spacing).Floor
  {
    var k := (length / spacing).Floor;
    if 2 >= k then 2 else k
  }

  /** The `i`-th of `n` evenly spaced sample points from the seam's start to its end. */
  function SamplePoint(seam: Seam, i: int, n: int): Point
    requires 2 <= n
  {
    PointAt(seam.start, seam.end, (i as real) / ((n - 1) as real))
  }

  /** The first sample is the seam's start and the last is its end. */
  lemma SamplesSpanSeam(seam: Seam, n: int)
    requires 2 <= n
    ensures SamplePoint(seam, 0, n) == seam.start
    ensures SamplePoint(seam, n - 1, n) == seam.end
  {
  }

  /**
    The unit vector from the seam's start towards its end; the zero vector for a
    seam of length zero, as `normalized` gives for a zero vector.
  */
  function UnitDirection(seam: Seam): Point
  {
    if seam.length == 0.0 then Origin else Scale(Sub(seam.end, seam.start), 1.0 / seam.length)
  }

  /** How far along the seam the `i`-th of `n` samples lies: length * i / (n - 1). */
  function SampleOffset(seam: Seam, i: int, n: int): real
    requires 2 <= n
  {
    seam.length * (i as real) / ((n - 1) as real)
  }

  /** The sample point as the scan writes it: the start plus the unit direction times the offset. */
  function DirectionSamplePoint(seam: Seam, i: int, n: int): Point
    requires 2 <= n
  {
    Add(seam.start, Scale(UnitDirection(seam), SampleOffset(seam, i, n)))
  }

  /**
    Both forms give the same point for a seam of non-zero length and for a seam
    whose ends coincide.
  */
  lemma SamplePointForms(seam: Seam, i: int, n: int)
    requires 2 <= n
    requires seam.length != 0.0 || seam.start == seam.end
    ensures DirectionSamplePoint(seam, i, n) == SamplePoint(seam, i, n)
  {
    if seam.length != 0.0 {
      var v := Sub(seam.end, seam.start);
      var k := SampleOffset(seam, i, n);
      ScaleTwice(v, 1.0 / seam.length, k);
      InverseTimes(seam.length, i as real, (n - 1) as real, k);
    }
  }

  lemma InverseTimes(len: real, i: real, m: real, k: real)
    requires len != 0.0 && m != 0.0 && k == len * i / m
    ensures (1.0 / len) * k == i / m
  {
  }

  /** Some bead lies strictly within `tol` of `p`. */
  predicate SampleHit(p: Point, beads: seq<Point>, tol: real)
  {
    exists k :: 0 <= k < |beads| && WithinOpen(DistSq(p, beads[k]), tol)
  }

  /** The coverage verdict: a seam, some beads, and a bead near every sample point. */
  predicate SeamCovered(seam: Option<Seam>, beads: seq<Point>, spacing: real, tol: real)
    requires 0.0 < spacing
  {
    seam.Some? && |beads| > 0 &&
    var n := SampleCount(seam.value.length, spacing);
    forall i :: 0 <= i < n ==> SampleHit(SamplePoint(seam.value, i, n), beads, tol)
  }

  /** Adding beads never turns a covered seam into an uncovered one. */
  lemma CoverageMonotone(seam: Option<Seam>, beads: seq<Point>, more: seq<Point>, spacing: real, tol: real)
    requires 0.0 < spacing
    requires forall b :: b in beads ==> b in more
    ensures SeamCovered(seam, beads, spacing, tol) ==> SeamCovered(seam, more, spacing, tol)
  {
    if SeamCovered(seam, beads, spacing, tol) {
      var n := SampleCount(seam.value.length, spacing);
      assert beads[0] in more;
      forall i | 0 <= i < n
        ensures SampleHit(SamplePoint(seam.value, i, n), more, tol)
      {
        var p := SamplePoint(seam.value, i, n);
        assert SampleHit(p, beads, tol);
        var k :| 0 <= k < |beads| && WithinOpen(DistSq(p, beads[k]), tol);
        assert beads[k] in more;
        var k' :| 0 <= k' < |more| && more[k'] == beads[k];
      }
    }
  }

  /** Appending a bead keeps a covered seam covered. */
  lemma CoverageKeptByAppend(seam: Option<Seam>, beads: seq<Point>, b: Point, spacing: real, tol: real)
    requires 0.0 < spacing
    ensures SeamCovered(seam, beads, spacing, tol) ==> SeamCovered(seam, beads + [b], spacing, tol)
  {
    forall x | x in beads
      ensures x in beads + [b]
    {
    }
    CoverageMonotone(seam, beads, beads + [b], spacing, tol);
  }

  /** A sample point with no bead strictly within tolerance leaves the seam uncovered. */
  lemma GapUncovers(seam: Seam, beads: seq<Point>, spacing: real, tol: real, i: int)
    requires 0.0 < spacing
    requires 0 <= i < SampleCount(seam.length, spacing)
    requires forall k :: 0 <= k < |beads| ==>
      !WithinOpen(DistSq(SamplePoint(seam, i, SampleCount(seam.length, spacing)), beads[k]), tol)
    ensures !SeamCovered(Some(seam), beads, spacing, tol)
  {
    var n := SampleCount(seam.length, spacing);
    assert !SampleHit(SamplePoint(seam, i, n), beads, tol);
  }

  /** A bead placed exactly at every sample point covers the seam, for any positive tolerance. */
  lemma BeadAtEverySampleCovers(seam: Seam, beads: seq<Point>, spacing: real, tol: real)
    requires 0.0 < spacing && 0.0 < tol
    requires forall i :: 0 <= i < SampleCount(seam.length, spacing) ==>
      SamplePoint(seam, i, SampleCount(seam.length, spacing)) in beads
    ensures SeamCovered(Some(seam), beads, spacing, tol)
  {
    var n := SampleCount(seam.length, spacing);
    PositiveProduct(tol, tol);
    assert SamplePoint(seam, 0, n) in beads;
    forall i | 0 <= i < n
      ensures SampleHit(SamplePoint(seam, i, n), beads, tol)
    {
      var p := SamplePoint(seam, i, n);
      var k :| 0 <= k < |beads| && beads[k] == p;
      assert DistSq(p, beads[k]) == 0.0;
    }
  }

  /**
    A seam whose two ends coincide is covered as soon as one bead lies strictly within
    tolerance of that point: both samples fall on it.
  */
  lemma PointSeamCoverable(seam: Seam, beads: seq<Point>, k: int)
    requires seam.start == seam.end && seam.length == 0.0
    requires 0 <= k < |beads| && WithinOpen(DistSq(seam.start, beads[k]), BeadTolerance)
    ensures SeamCovered(Some(seam), beads, SampleSpacing, BeadTolerance)
  {
    var n := SampleCount(seam.length, SampleSpacing);
    assert n == 2;
    forall i | 0 <= i < n
      ensures SampleHit(SamplePoint(seam, i, n), beads, BeadTolerance)
    {
      SamplesSpanSeam(seam, n);
      assert SamplePoint(seam, i, n) == seam.start;
    }
  }

  /** A seam 0.2 long is scanned at 11 samples with the default spacing. */
  lemma ElevenSamples()
    ensures SampleCount(0.2, SampleSpacing) == 11
  {
  }

  // ---------------------------------------------------------------------------
  // Verdict
  // ---------------------------------------------------------------------------

  predicate AllExcellent(results: seq<BeadResult>)
  {
    forall i :: 0 <= i < |results| ==> results[i].stateOptimal && results[i].sizeOptimal
  }

  predicate AllBad(results: seq<BeadResult>)
  {
    forall i :: 0 <= i < |results| ==> !results[i].stateOptimal && !results[i].sizeOptimal
  }

  /**
    The verdict on a finished pass: none without beads; bad when the seam is not
    covered; excellent when every bead is optimal in both state and size; bad when
    every bead is optimal in neither; good otherwise.
  */
  function PassVerdict(results: seq<BeadResult>, covered: bool): (v: Option<Verdict>)
    ensures v.None? <==> |results| == 0
    ensures |results| > 0 && !covered ==> v == Some(Bad)
    ensures covered ==> (v == Some(Excellent) <==> |results| > 0 && AllExcellent(results))
    ensures v == Some(Good) <==>
      covered
      && (exists i :: 0 <= i < |results| && !(results[i].stateOptimal && results[i].sizeOptimal))
      && (exists j :: 0 <= j < |results| && (results[j].stateOptimal || results[j].sizeOptimal))
  {
    if |results| == 0 then None
    else if !covered then Some(Bad)
    else if AllExcellent(results) then Some(Excellent)
    else if AllBad(results) then Some(Bad)
    else Some(Good)
  }

  /** The text stored in `lastScoreResult` for a verdict. */
  function VerdictText(v: Verdict): string
  {
    match v
    case Excellent => "excellent"
    case Good => "good"
    case Bad => "bad"
  }

  /** The score panel the reveal step selects for a stored text; other texts select none. */
  function PanelFor(text: string): (v: Option<Verdict>)
    ensures v.Some? ==> VerdictText(v.value) == text
  {
    if text == "excellent" then Some(Excellent)
    else if text == "good" then Some(Good)
    else if text == "bad" then Some(Bad)
    else None
  }

  /** Every stored verdict text selects the panel of that verdict. */
  lemma PanelForVerdictText(v: Verdict)
    ensures PanelFor(VerdictText(v)) == Some(v)
  {
  }

  /** `lastScoreResult` after scoring: unchanged without beads, else the verdict's text. */
  function ScoreAfter(results: seq<BeadResult>, covered: bool, previous: string): (t: string)
    ensures |results| == 0 ==> t == previous
    ensures |results| > 0 ==> PanelFor(t) == PassVerdict(results, covered)
  {
    match PassVerdict(results, covered)
    case None => previous
    case Some(v) => PanelForVerdictText(v); VerdictText(v)
  }
}
