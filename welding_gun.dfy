/**
  The welding gun (Assets/Scripts/WeldingGunInteraction.cs, class
  `WeldingGunInteraction`): its session fields, its event handlers and the
  per-frame update. Each handler is proved to perform the corresponding
  transition of `WeldSession` on the fields and to keep `SessionInv`.

  The raycast from the tip, the frame time and the gas flag are inputs of the
  handlers; the scene references the gun holds are fixed when it is built.
*/
module WeldingGun {
  import opened Options
  import opened Geometry
  import opened WeldRules
  import opened WeldSession
  import opened Switch
  import opened HeatDisplay
  import opened GasTank

  class WeldingGunInteraction {
    const cfg: Settings
    /** The seam's two ends and length; `None` when either end is unassigned. */
    const seam: Option<Seam>
    const prefabAssigned: bool
    const hasSparks: bool
    const hasLockPopup: bool
    const displaySwitch: SwitchToggle?
    const displayScript: DisplayClickIncrement?

    var isWeldingMode: bool
    var triggerHeld: bool
    var weldDuration: real
    var timeInOptimalZone: real
    var lastMarkPosition: Point
    var hasPlacedMark: bool
    var lastScoreResult: string
    var beadResults: seq<BeadResult>
    var beadPositions: seq<Point>

    /** The spark particles are emitting. */
    var sparksEmitting: bool
    /** The lock popup is shown. */
    var lockPopupActive: bool
    /** The score panel on show, if any. */
    var shownPanel: Option<Verdict>

    /** The session fields as a value. */
    function State(): Session
      reads this
    {
      Session(isWeldingMode, triggerHeld, weldDuration, timeInOptimalZone, lastMarkPosition,
              hasPlacedMark, lastScoreResult, beadResults, beadPositions)
    }

    predicate Valid()
      reads this
    {
      SessionInv(cfg, seam, State())
    }

    /** The heat reading: the display's value, or 0 without a display. */
    function HeatReading(): int
      reads this, displayScript
    {
      if displayScript == null then 0 else displayScript.value
    }

    /** The display switch's state, `None` without a switch. */
    function SwitchState(): Option<bool>
      reads this, displaySwitch
    {
      if displaySwitch == null then None else Some(displaySwitch.isOn)
    }

    /** Field initialisers and `Awake`: sparks stopped, no score panel shown. */
    constructor(cfg: Settings, seam: Option<Seam>, prefabAssigned: bool, hasSparks: bool, hasLockPopup: bool,
                displaySwitch: SwitchToggle?, displayScript: DisplayClickIncrement?)
      ensures this.cfg == cfg && this.seam == seam && this.prefabAssigned == prefabAssigned
      ensures this.hasSparks == hasSparks && this.hasLockPopup == hasLockPopup
      ensures this.displaySwitch == displaySwitch && this.displayScript == displayScript
      ensures State() == InitialSession
      ensures !sparksEmitting && !lockPopupActive && shownPanel == None
      ensures Valid()
    {
      this.cfg := cfg;
      this.seam := seam;
      this.prefabAssigned := prefabAssigned;
      this.hasSparks := hasSparks;
      this.hasLockPopup := hasLockPopup;
      this.displaySwitch := displaySwitch;
      this.displayScript := displayScript;
      isWeldingMode := false;
      triggerHeld := false;
      weldDuration := 0.0;
      timeInOptimalZone := 0.0;
      lastMarkPosition := Origin;
      hasPlacedMark := false;
      lastScoreResult := "bad";
      beadResults := [];
      beadPositions := [];
      sparksEmitting := false;
      lockPopupActive := false;
      shownPanel := None;
      new;
      InitialSessionInv(cfg, seam);
    }

    /**
      The gun is picked up. The score panels are hidden; the grab is refused, and
      the lock popup shown, when gas is off or an assigned display switch is off.
      `forcedRelease` reports the refusal: the caller then releases the gun.
    */
    method OnGrab(gas: GasSupply) returns (forcedRelease: bool)
      modifies this
      ensures forcedRelease == !GrabAllowed(gas.isGasOn, SwitchState())
      ensures shownPanel == None
      ensures lockPopupActive == (if hasLockPopup then forcedRelease else old(lockPopupActive))
      ensures State() == old(State()) && sparksEmitting == old(sparksEmitting)
    {
      HideAllScorePanels();
      if !gas.isGasOn || (displaySwitch != null && !displaySwitch.isOn) {
        forcedRelease := true;
        if hasLockPopup {
          lockPopupActive := true;
        }
        return;
      }
      forcedRelease := false;
      if hasLockPopup {
        lockPopupActive := false;
      }
    }

    /** The lock popup's hide timer runs out. */
    method OnLockTimerElapsed()
      modifies this
      ensures lockPopupActive == (if hasLockPopup then false else old(lockPopupActive))
      ensures State() == old(State()) && shownPanel == old(shownPanel) && sparksEmitting == old(sparksEmitting)
    {
      if hasLockPopup {
        lockPopupActive := false;
      }
    }

    /** The trigger is pressed; `hit` is where the ray from the tip meets metal, if it does. */
    method OnTriggerPressed(hit: Option<Point>)
      requires Valid()
      modifies this
      ensures State() == TriggerPressed(old(State()), hit)
      ensures sparksEmitting == old(sparksEmitting) && lockPopupActive == old(lockPopupActive)
      ensures shownPanel == old(shownPanel)
      ensures Valid()
    {
      if hit.Some? {
        isWeldingMode := true;
        triggerHeld := true;
        weldDuration := 0.0;
        timeInOptimalZone := 0.0;
        lastMarkPosition := hit.value;
        hasPlacedMark := false;
        beadResults := [];
        beadPositions := [];
      }
      TriggerPressedPreservesInv(cfg, seam, old(State()), hit);
    }

    /** The trigger is let go: the sparks stop. */
    method OnTriggerReleased()
      requires Valid()
      modifies this
      ensures State() == TriggerReleased(old(State()))
      ensures !sparksEmitting
      ensures lockPopupActive == old(lockPopupActive) && shownPanel == old(shownPanel)
      ensures Valid()
    {
      triggerHeld := false;
      sparksEmitting := false;
      hasPlacedMark := false;
      TriggerReleasedPreservesInv(cfg, seam, old(State()));
    }

    /** Both timers advance by the frame time. */
    method EvaluateWeldingQuality(dt: real)
      modifies this
      ensures weldDuration == old(weldDuration) + dt && timeInOptimalZone == old(timeInOptimalZone) + dt
      ensures isWeldingMode == old(isWeldingMode) && triggerHeld == old(triggerHeld)
      ensures lastMarkPosition == old(lastMarkPosition) && hasPlacedMark == old(hasPlacedMark)
      ensures lastScoreResult == old(lastScoreResult)
      ensures beadResults == old(beadResults) && beadPositions == old(beadPositions)
      ensures sparksEmitting == old(sparksEmitting) && lockPopupActive == old(lockPopupActive)
      ensures shownPanel == old(shownPanel)
    {
      weldDuration := weldDuration + dt;
      timeInOptimalZone := timeInOptimalZone + dt;
    }

    /**
      The sparks emit while the tip is strictly closer to the metal than the spark
      distance; without particles or without a metal reference nothing changes.
    */
    method UpdateWeldSparks(tip: Point, metalSurface: Option<Point>)
      modifies this
      ensures sparksEmitting
           == (if hasSparks && metalSurface.Some? then SparksOn(cfg, tip, metalSurface.value) else old(sparksEmitting))
      ensures State() == old(State()) && lockPopupActive == old(lockPopupActive) && shownPanel == old(shownPanel)
    {
      if !hasSparks || metalSurface.None? {
        return;
      }
      if WithinOpen(DistSq(tip, metalSurface.value), cfg.weldSparkDistance) {
        sparksEmitting := true;
      } else {
        sparksEmitting := false;
      }
    }

    /**
      One placement attempt at the raycast hit `hit`. A placed bead is appended to
      both lists and becomes the last mark; otherwise nothing changes.
    */
    method TryPlaceWeldMark(hit: Option<RaycastHit>) returns (placed: Option<Mark>)
      modifies this
      ensures placed == PlaceMark(cfg, seam, prefabAssigned, old(hasPlacedMark), old(lastMarkPosition), hit, old(HeatReading()))
      ensures placed.None? ==> State() == old(State())
      ensures placed.Some? ==>
        State() == old(State()).(beadResults := old(beadResults) + [placed.value.result],
                                 beadPositions := old(beadPositions) + [placed.value.position],
                                 lastMarkPosition := placed.value.position, hasPlacedMark := true)
      ensures sparksEmitting == old(sparksEmitting) && lockPopupActive == old(lockPopupActive)
      ensures shownPanel == old(shownPanel)
    {
      placed := None;
      if !prefabAssigned {
        return;
      }
      if hit.None? {
        return;
      }
      var dist := hit.value.distance;
      if dist > cfg.maxWeldDistance {
        return;
      }
      if !TipOnSeam(cfg, seam, hit.value.point) {
        return;
      }
      if !hasPlacedMark || Beyond(DistSq(lastMarkPosition, hit.value.point), cfg.weldMarkSpacing) {
        var scale := ScaleFor(cfg, dist);
        var displayValue := if displayScript == null then 0 else displayScript.value;
        var heat := ClassifyHeat(displayValue);
        var sizeOptimal := Abs(dist - cfg.optimalWeldDistance) <= cfg.optimalBand;
        var result := BeadResult(heat.colorOptimal, sizeOptimal);
        beadResults := beadResults + [result];
        beadPositions := beadPositions + [hit.value.point];
        lastMarkPosition := hit.value.point;
        hasPlacedMark := true;
        placed := Some(Mark(hit.value.point, scale, heat.material, result));
      }
    }

    /**
      One frame of `dt` seconds. While welding with the trigger held the timers
      advance, the sparks follow the tip-to-metal distance and a bead may be placed
      at `hit`; otherwise the sparks stop. The spark test and the hit's distance are
      both measured from the same tip.
    */
    method Update(dt: real, tip: Point, metalSurface: Option<Point>, hit: Option<RaycastHit>)
      returns (placed: Option<Mark>)
      requires Valid() && 0.0 <= dt
      requires hit.Some? ==> IsDistance(hit.value.distance, tip, hit.value.point)
      modifies this
      ensures (State(), placed) == Tick(cfg, seam, prefabAssigned, old(State()), dt, hit, old(HeatReading()))
      ensures sparksEmitting
           == if !Active(old(State())) then false
              else if hasSparks && metalSurface.Some? then SparksOn(cfg, tip, metalSurface.value)
              else old(sparksEmitting)
      ensures lockPopupActive == old(lockPopupActive) && shownPanel == old(shownPanel)
      ensures Valid()
    {
      if isWeldingMode && triggerHeld {
        EvaluateWeldingQuality(dt);
        UpdateWeldSparks(tip, metalSurface);
        placed := TryPlaceWeldMark(hit);
      } else {
        sparksEmitting := false;
        placed := None;
      }
      TickPreservesInv(cfg, seam, prefabAssigned, old(State()), dt, hit, old(HeatReading()));
    }

    /**
      Every seam sample point has a bead strictly within `beadTolerance`; false
      without a seam or without beads.
    */
    method IsSeamCovered(sampleSpacing: real, beadTolerance: real) returns (covered: bool)
      requires 0.0 < sampleSpacing
      ensures covered == SeamCovered(seam, beadPositions, sampleSpacing, beadTolerance)
    {
      if seam.None? || |beadPositions| == 0 {
        return false;
      }
      var s := seam.value;
      var numSamples := SampleCount(s.length, sampleSpacing);
      var i := 0;
      while i < numSamples
        invariant 0 <= i <= numSamples
        invariant forall j :: 0 <= j < i ==> SampleHit(SamplePoint(s, j, numSamples), beadPositions, beadTolerance)
      {
        var testPoint := SamplePoint(s, i, numSamples);
        var hitFound := false;
        var k := 0;
        while k < |beadPositions|
          invariant 0 <= k <= |beadPositions|
          invariant !hitFound
          invariant forall m :: 0 <= m < k ==> !WithinOpen(DistSq(testPoint, beadPositions[m]), beadTolerance)
        {
          if WithinOpen(DistSq(testPoint, beadPositions[k]), beadTolerance) {
            hitFound := true;
            break;
          }
          k := k + 1;
        }
        if !hitFound {
          return false;
        }
        i := i + 1;
      }
      return true;
    }

    /** The pass is scored into `lastScoreResult`; a pass without beads keeps the previous text. */
    method CalculateFinalScore()
      modifies this
      ensures lastScoreResult
           == ScoreAfter(beadResults, SeamCovered(seam, beadPositions, SampleSpacing, BeadTolerance), old(lastScoreResult))
      ensures isWeldingMode == old(isWeldingMode) && triggerHeld == old(triggerHeld)
      ensures weldDuration == old(weldDuration) && timeInOptimalZone == old(timeInOptimalZone)
      ensures lastMarkPosition == old(lastMarkPosition) && hasPlacedMark == old(hasPlacedMark)
      ensures beadResults == old(beadResults) && beadPositions == old(beadPositions)
      ensures sparksEmitting == old(sparksEmitting) && lockPopupActive == old(lockPopupActive)
      ensures shownPanel == old(shownPanel)
    {
      if |beadResults| == 0 {
        return;
      }
      var seamCovered := IsSeamCovered(SampleSpacing, BeadTolerance);
      if !seamCovered {
        lastScoreResult := "bad";
        return;
      }
      var allExcellent := AllExcellent(beadResults);
      var allBad := AllBad(beadResults);
      if allExcellent {
        lastScoreResult := "excellent";
      } else if allBad {
        lastScoreResult := "bad";
      } else {
        lastScoreResult := "good";
      }
    }

    /** The gun is let go: effects stop, welding mode ends, the pass is scored, the spacing chain ends. */
    method OnRelease()
      requires Valid()
      modifies this
      ensures State() == Released(seam, old(State()))
      ensures !sparksEmitting
      ensures lockPopupActive == old(lockPopupActive) && shownPanel == old(shownPanel)
      ensures Valid()
    {
      sparksEmitting := false;
      isWeldingMode := false;
      CalculateFinalScore();
      hasPlacedMark := false;
      ReleasedPreservesInv(cfg, seam, old(State()));
    }

    /** The score reveal after a release: the panel named by `lastScoreResult` is shown. */
    method ShowFinalScorePanel()
      modifies this
      ensures shownPanel == PanelFor(lastScoreResult)
      ensures State() == old(State()) && sparksEmitting == old(sparksEmitting)
      ensures lockPopupActive == old(lockPopupActive)
    {
      HideAllScorePanels();
      if lastScoreResult == "excellent" {
        shownPanel := Some(Excellent);
      } else if lastScoreResult == "good" {
        shownPanel := Some(Good);
      } else if lastScoreResult == "bad" {
        shownPanel := Some(Bad);
      }
    }

    method HideAllScorePanels()
      modifies this
      ensures shownPanel == None
      ensures State() == old(State()) && sparksEmitting == old(sparksEmitting)
      ensures lockPopupActive == old(lockPopupActive)
    {
      shownPanel := None;
    }
  }

  /**
    With the shipped display settings and the switch on from the start, the bead
    after `k` clicks is optimal in colour exactly when `k` is 17 to 20 clicks past
    a wrap (a reading of 85 to 100).
  */
  lemma DefaultDialOptimalHeat(k: nat)
    ensures ClassifyHeat(DefaultClicks(k)).colorOptimal <==> 17 <= k % 41 <= 20
  {
    DefaultClicksCycle(k);
  }
}
