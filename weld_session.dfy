/**
  The state of one welding session of the gun and how each event changes it
  (Assets/Scripts/WeldingGunInteraction.cs). The `WeldingGun` class keeps these
  fields and its methods are proved to perform exactly these transitions; the
  lemmas here state what the transitions keep and what they decide.
*/
module WeldSession {
  import opened Options
  import opened Geometry
  import opened WeldRules

  /** The gun's internal state. */
  datatype Session = Session(
    isWeldingMode: bool,
    triggerHeld: bool,
    weldDuration: real,
    timeInOptimalZone: real,
    lastMarkPosition: Point,
    hasPlacedMark: bool,
    lastScoreResult: string,
    beadResults: seq<BeadResult>,
    beadPositions: seq<Point>)

  /** The state the gun starts in. */
  const InitialSession := Session(false, false, 0.0, 0.0, Origin, false, "bad", [], [])

  /** Welding is active: frames advance the timers and may place beads. */
  predicate Active(s: Session)
  {
    s.isWeldingMode && s.triggerHeld
  }

  /**
    What every reachable state satisfies: the two timers agree and are not negative;
    there is one result per bead position; a placed mark belongs to an active pass
    and is its last bead; an active pass without a placed mark has no beads yet;
    the score text names a verdict; every bead was on the seam; and consecutive
    beads are more than the mark spacing apart.
  */
  predicate SessionInv(cfg: Settings, seam: Option<Seam>, s: Session)
  {
    s.weldDuration == s.timeInOptimalZone && 0.0 <= s.weldDuration
    && |s.beadResults| == |s.beadPositions|
    && (s.hasPlacedMark ==>
          Active(s) && |s.beadPositions| > 0 && s.beadPositions[|s.beadPositions| - 1] == s.lastMarkPosition)
    && (Active(s) && !s.hasPlacedMark ==> s.beadPositions == [] && s.beadResults == [])
    && PanelFor(s.lastScoreResult).Some?
    && (forall i :: 0 <= i < |s.beadPositions| ==> TipOnSeam(cfg, seam, s.beadPositions[i]))
    && (forall i :: 0 < i < |s.beadPositions| ==>
          Beyond(DistSq(s.beadPositions[i - 1], s.beadPositions[i]), cfg.weldMarkSpacing))
  }

  lemma InitialSessionInv(cfg: Settings, seam: Option<Seam>)
    ensures SessionInv(cfg, seam, InitialSession)
  {
    assert PanelFor("bad") == Some(Bad);
  }

  /**
    The trigger is pressed: when the ray from the tip hits metal (at `hit`) a new
    pass starts with cleared timers and bead lists; a miss changes nothing.
  */
  function TriggerPressed(s: Session, hit: Option<Point>): (r: Session)
    ensures hit.None? ==> r == s
    ensures hit.Some? ==> Active(r) && !r.hasPlacedMark && r.beadPositions == [] && r.beadResults == []
    ensures hit.Some? ==> r.weldDuration == 0.0 && r.timeInOptimalZone == 0.0 && r.lastMarkPosition == hit.value
    ensures r.lastScoreResult == s.lastScoreResult
  {
    match hit
    case None => s
    case Some(p) =>
      s.(isWeldingMode := true, triggerHeld := true, weldDuration := 0.0, timeInOptimalZone := 0.0,
         lastMarkPosition := p, hasPlacedMark := false, beadResults := [], beadPositions := [])
  }

  /** The trigger is let go: welding pauses and the next bead starts a new spacing chain. */
  function TriggerReleased(s: Session): (r: Session)
    ensures !Active(r) && !r.triggerHeld && !r.hasPlacedMark
    ensures r.beadPositions == s.beadPositions && r.beadResults == s.beadResults
    ensures r.isWeldingMode == s.isWeldingMode && r.lastScoreResult == s.lastScoreResult
    ensures r.weldDuration == s.weldDuration && r.timeInOptimalZone == s.timeInOptimalZone
    ensures r.lastMarkPosition == s.lastMarkPosition
  {
    s.(triggerHeld := false, hasPlacedMark := false)
  }

  /** Letting go of the trigger twice is the same as letting go once. */
  lemma TriggerReleasedIdempotent(s: Session)
    ensures TriggerReleased(TriggerReleased(s)) == TriggerReleased(s)
  {
  }

  /**
    One frame of `dt` seconds. Only an active pass reacts: both timers advance by
    `dt` and a placement is attempted at the raycast hit with the current heat
    reading; a placed bead is appended to both lists and becomes the last mark.
  */
  function Tick(cfg: Settings, seam: Option<Seam>, prefabAssigned: bool, s: Session,
                dt: real, hit: Option<RaycastHit>, heat: int): (r: (Session, Option<Mark>))
    ensures !Active(s) ==> r == (s, None)
    ensures Active(s) ==> r.0.weldDuration == s.weldDuration + dt && Active(r.0)
    ensures Active(s) ==> r.0.timeInOptimalZone == s.timeInOptimalZone + dt
    ensures Active(s) ==> r.1 == PlaceMark(cfg, seam, prefabAssigned, s.hasPlacedMark, s.lastMarkPosition, hit, heat)
    ensures r.1.None? ==> r.0.beadPositions == s.beadPositions && r.0.beadResults == s.beadResults
    ensures r.1.None? ==> r.0.hasPlacedMark == s.hasPlacedMark && r.0.lastMarkPosition == s.lastMarkPosition
    ensures Active(s) && r.1.None? ==>
      r.0 == s.(weldDuration := s.weldDuration + dt, timeInOptimalZone := s.timeInOptimalZone + dt)
    ensures r.1.Some? ==>
      r.0.beadPositions == s.beadPositions + [r.1.value.position]
      && r.0.beadResults == s.beadResults + [r.1.value.result]
      && r.0.hasPlacedMark && r.0.lastMarkPosition == r.1.value.position
    ensures r.0.lastScoreResult == s.lastScoreResult
  {
    if !Active(s) then (s, None)
    else
      var t := s.(weldDuration := s.weldDuration + dt, timeInOptimalZone := s.timeInOptimalZone + dt);
      var m := PlaceMark(cfg, seam, prefabAssigned, t.hasPlacedMark, t.lastMarkPosition, hit, heat);
      match m
      case None => (t, None)
      case Some(mark) =>
        (t.(beadResults := t.beadResults + [mark.result], beadPositions := t.beadPositions + [mark.position],
            lastMarkPosition := mark.position, hasPlacedMark := true), m)
  }

  /**
    The gun is let go: welding mode ends, the pass is scored into `lastScoreResult`
    (a pass without beads keeps the previous text), and the spacing chain ends.
  */
  function Released(seam: Option<Seam>, s: Session): (r: Session)
    ensures !r.isWeldingMode && !r.hasPlacedMark
    ensures r.beadPositions == s.beadPositions && r.beadResults == s.beadResults
    ensures r.triggerHeld == s.triggerHeld && r.lastMarkPosition == s.lastMarkPosition
    ensures r.weldDuration == s.weldDuration && r.timeInOptimalZone == s.timeInOptimalZone
    ensures |s.beadResults| == 0 ==> r.lastScoreResult == s.lastScoreResult
    ensures |s.beadResults| > 0 ==>
      PanelFor(r.lastScoreResult)
        == PassVerdict(s.beadResults, SeamCovered(seam, s.beadPositions, SampleSpacing, BeadTolerance))
  {
    var t := s.(isWeldingMode := false);
    var covered := SeamCovered(seam, t.beadPositions, SampleSpacing, BeadTolerance);
    t.(lastScoreResult := ScoreAfter(t.beadResults, covered, t.lastScoreResult), hasPlacedMark := false)
  }

  /** A second release (such as the forced release of a refused grab) leaves the score as it was. */
  lemma ReleasedIdempotent(seam: Option<Seam>, s: Session)
    ensures Released(seam, Released(seam, s)) == Released(seam, s)
  {
  }

  /** A pass whose bead positions cover the seam is never scored bad unless every bead is bad in both respects. */
  lemma CoveredPassScore(seam: Option<Seam>, s: Session)
    requires |s.beadResults| > 0
    requires SeamCovered(seam, s.beadPositions, SampleSpacing, BeadTolerance)
    ensures PanelFor(Released(seam, s).lastScoreResult) == Some(Bad) <==> AllBad(s.beadResults)
  {
    if AllBad(s.beadResults) {
      assert !s.beadResults[0].stateOptimal;
    }
  }

  lemma TriggerPressedPreservesInv(cfg: Settings, seam: Option<Seam>, s: Session, hit: Option<Point>)
    requires SessionInv(cfg, seam, s)
    ensures SessionInv(cfg, seam, TriggerPressed(s, hit))
  {
  }

  lemma TriggerReleasedPreservesInv(cfg: Settings, seam: Option<Seam>, s: Session)
    requires SessionInv(cfg, seam, s)
    ensures SessionInv(cfg, seam, TriggerReleased(s))
  {
  }

  lemma TickPreservesInv(cfg: Settings, seam: Option<Seam>, prefab: bool, s: Session,
                         dt: real, hit: Option<RaycastHit>, heat: int)
    requires SessionInv(cfg, seam, s) && 0.0 <= dt
    ensures SessionInv(cfg, seam, Tick(cfg, seam, prefab, s, dt, hit, heat).0)
  {
    var r := Tick(cfg, seam, prefab, s, dt, hit, heat);
    if Active(s) && r.1.Some? {
      var ps := r.0.beadPositions;
      var n := |s.beadPositions|;
      assert MarkAllowed(cfg, seam, s.hasPlacedMark, s.lastMarkPosition, hit.value);
      assert ps[n] == hit.value.point;
      forall i | 0 <= i < |ps|
        ensures TipOnSeam(cfg, seam, ps[i])
      {
        if i < n {
          assert ps[i] == s.beadPositions[i];
        }
      }
      forall i | 0 < i < |ps|
        ensures Beyond(DistSq(ps[i - 1], ps[i]), cfg.weldMarkSpacing)
      {
        if i < n {
          assert ps[i - 1] == s.beadPositions[i - 1] && ps[i] == s.beadPositions[i];
        } else {
          assert s.hasPlacedMark;
          assert ps[i - 1] == s.lastMarkPosition;
        }
      }
    }
  }

  lemma ReleasedPreservesInv(cfg: Settings, seam: Option<Seam>, s: Session)
    requires SessionInv(cfg, seam, s)
    ensures SessionInv(cfg, seam, Released(seam, s))
  {
    var r := Released(seam, s);
    if |s.beadResults| > 0 {
      var v := PassVerdict(s.beadResults, SeamCovered(seam, s.beadPositions, SampleSpacing, BeadTolerance));
      assert PanelFor(r.lastScoreResult) == v && v.Some?;
    }
  }

  /**
    Whether a grab is kept: gas must be on, and an assigned display switch must be
    on (`None` stands for no switch assigned, which does not block the grab).
  */
  function GrabAllowed(gasOn: bool, switchState: Option<bool>): (ok: bool)
    ensures ok ==> gasOn
    ensures switchState.None? ==> (ok <==> gasOn)
    ensures switchState.Some? ==> (ok <==> gasOn && switchState.value)
  {
    !(!gasOn || (switchState.Some? && !switchState.value))
  }

  /** The events the gun receives. */
  datatype Event =
    | Grab(allowed: bool)              // picked up; a refused grab is released again at once
    | TriggerPress(pressHit: Option<Point>)  // the ray from the tip on press
    | Frame(dt: real, frameHit: Option<RaycastHit>, heat: int)
    | TriggerRelease
    | Release

  /** The session after one event. */
  function Step(cfg: Settings, seam: Option<Seam>, prefab: bool, s: Session, e: Event): Session
  {
    match e
    case Grab(allowed) => if allowed then s else Released(seam, s)
    case TriggerPress(hit) => TriggerPressed(s, hit)
    case Frame(dt, hit, heat) => Tick(cfg, seam, prefab, s, dt, hit, heat).0
    case TriggerRelease => TriggerReleased(s)
    case Release => Released(seam, s)
  }

  /** Every single event with a non-negative frame length keeps the invariant. */
  lemma StepPreservesInv(cfg: Settings, seam: Option<Seam>, prefab: bool, s: Session, e: Event)
    requires SessionInv(cfg, seam, s)
    requires e.Frame? ==> 0.0 <= e.dt
    ensures SessionInv(cfg, seam, Step(cfg, seam, prefab, s, e))
  {
    match e {
      case Grab(allowed) => ReleasedPreservesInv(cfg, seam, s);
      case TriggerPress(hit) => TriggerPressedPreservesInv(cfg, seam, s, hit);
      case Frame(dt, hit, heat) => TickPreservesInv(cfg, seam, prefab, s, dt, hit, heat);
      case TriggerRelease => TriggerReleasedPreservesInv(cfg, seam, s);
      case Release => ReleasedPreservesInv(cfg, seam, s);
    }
  }

  /** The session after a sequence of events. */
  function Run(cfg: Settings, seam: Option<Seam>, prefab: bool, s: Session, events: seq<Event>): Session
    decreases |events|
  {
    if events == [] then s
    else Run(cfg, seam, prefab, Step(cfg, seam, prefab, s, events[0]), events[1..])
  }

  /** Frame lengths are never negative. */
  predicate FramesForward(events: seq<Event>)
  {
    forall i :: 0 <= i < |events| && events[i].Frame? ==> 0.0 <= events[i].dt
  }

  /** Every sequence of events keeps the invariant. */
  lemma {:induction false} RunPreservesInv(cfg: Settings, seam: Option<Seam>, prefab: bool,
                                           s: Session, events: seq<Event>)
    requires SessionInv(cfg, seam, s) && FramesForward(events)
    ensures SessionInv(cfg, seam, Run(cfg, seam, prefab, s, events))
    decreases |events|
  {
    if events != [] {
      var next := Step(cfg, seam, prefab, s, events[0]);
      StepPreservesInv(cfg, seam, prefab, s, events[0]);
      assert FramesForward(events[1..]) by {
        forall i | 0 <= i < |events[1..]| && events[1..][i].Frame?
          ensures 0.0 <= events[1..][i].dt
        {
          assert events[1..][i] == events[i + 1];
        }
      }
      RunPreservesInv(cfg, seam, prefab, next, events[1..]);
    }
  }

  /** Every state reached from the start satisfies the invariant. */
  lemma ReachableSatisfiesInv(cfg: Settings, seam: Option<Seam>, prefab: bool, events: seq<Event>)
    requires FramesForward(events)
    ensures SessionInv(cfg, seam, Run(cfg, seam, prefab, InitialSession, events))
  {
    InitialSessionInv(cfg, seam);
    RunPreservesInv(cfg, seam, prefab, InitialSession, events);
  }
}
