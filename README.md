# Welding trainer: weld-pass engine

A Dafny model of the welding gun of a VR welding trainer, and of the three small
objects that feed it. The model has four parts.

- **The gun** (`WeldingGunInteraction`). It lays beads along a seam while welding
  mode is on and the trigger is held. Each bead is classified by tip distance
  (fat / good / thin, and a size-optimal flag) and by the heat reading (moderate /
  optimal molten / red hot, and a colour-optimal flag).
- **Placement guards.** A bead is placed only when three conditions hold:
  - the hit is within reach;
  - it lies on the seam (within a threshold of its nearest point on the seam segment);
  - it lies strictly beyond the mark spacing from the previous bead.
- **Scoring at release.** The gun samples the seam at evenly spaced points and checks
  that each sample has a bead near it. It then scores the pass excellent, good or bad.
- **The inputs.** The heat reading comes from a click counter on the heat display.
  Grabbing the gun is gated by a global gas flag and by the display power switch.

Modules:

- `Options`: an optional value (an unassigned reference, a raycast that missed).
- `Geometry`: points, squared distances, and the nearest point of a segment.
  - Every comparison of a distance with a tolerance is decided on squares.
  - `DistanceComparisons` proves that the squared test answers as the true distance would.
  - `ClosestPointIsNearest` proves that the clamped projection is a nearest point of the segment.
- `WeldRules`: the pure rules.
  - Bead size and heat classification.
  - The on-seam test and the placement decision.
  - The coverage scan and the verdict.
- `WeldSession`: the gun's session fields as a value.
  - The transition for each event (trigger press, frame, trigger release, release, grab).
  - The invariant every reachable state satisfies. `RunPreservesInv` proves it for any sequence of events.
- `WeldingGun`: the gun as a class whose fields the handlers update.
  - Each handler is proved to perform the `WeldSession` transition and to keep the invariant.
  - `IsSeamCovered` is the nested sampling loop, proved equal to `SeamCovered`.
- `Switch`, `GasTank`, `HeatDisplay`: the display power switch, the gas tank toggle
  with its global flag, and the heat display counter with its "D3" text.

Behaviour of the code that the model keeps as written:

- A seam whose two ends coincide can be covered. Both samples fall on that point,
  and one bead near it covers the seam (`WeldRules.PointSeamCoverable`).
- Grabbing is refused when gas is off. It is refused for the display switch only
  when a switch is assigned and off: with no switch assigned, gas alone decides
  (`WeldSession.GrabAllowed`).
- `sizeOptimal` is computed on its own as |dist − optimal| ≤ band. It is not derived
  from the scale category.
  - The two agree whenever the fat threshold is at or below the lower edge of the
    optimal band, which holds for the shipped settings (`WeldRules.SizeOptimalIffGoodScale`).
  - Otherwise a fat bead can count as size-optimal (`WeldRules.FatButSizeOptimal`).

## Model

| member | source | states |
|---|---|---|
| Geometry.DistanceComparisons | Assets/Scripts/WeldingGunInteraction.cs:393-394 | given the true distance d between two points, d ≤ tol, d < tol and d > tol each hold exactly when the corresponding squared-distance test does |
| Geometry.ClosestPointIsNearest | Assets/Scripts/WeldingGunInteraction.cs:388-393 | the clamped projection of a point onto a segment is no farther from it than any point of the segment |
| WeldRules.ScaleFor | Assets/Scripts/WeldingGunInteraction.cs:335-337 | fat exactly when dist < minWeldDistance; good exactly when not fat and \|dist − optimal\| ≤ band; thin exactly when neither |
| WeldRules.SizeOptimalWindow | Assets/Scripts/WeldingGunInteraction.cs:374 | size-optimal is membership of the closed window [optimal − band, optimal + band] |
| WeldRules.SizeOptimalIffGoodScale | Assets/Scripts/WeldingGunInteraction.cs:334-337 | when minWeldDistance ≤ optimal − band, a bead is size-optimal exactly when it gets the good scale |
| WeldRules.DefaultSizeOptimalIffGoodScale | Assets/Scripts/WeldingGunInteraction.cs:36-39 | under the shipped settings, size-optimal and good scale coincide for every distance |
| WeldRules.FatButSizeOptimal | Assets/Scripts/WeldingGunInteraction.cs:374 | with the fat threshold inside the optimal band, a bead can be both fat and size-optimal |
| WeldRules.TooCloseBeadIsFat | Assets/Scripts/WeldingGunInteraction.cs:335 | a bead 0.005 from the tip under the shipped settings is fat and not size-optimal |
| WeldRules.ClassifyHeat | Assets/Scripts/WeldingGunInteraction.cs:354-368 | optimal molten and colour-optimal exactly on (80, 100]; red hot exactly on (100, 140]; moderate exactly on v ≤ 80 or v > 140 |
| WeldRules.TipOnSeamIffNearSegment | Assets/Scripts/WeldingGunInteraction.cs:385-395 | the tip is on the seam exactly when some point of the seam segment is within the threshold (non-strict) |
| WeldRules.ClosestPointForms | Assets/Scripts/WeldingGunInteraction.cs:388-392 | for a seam whose length is its true length, the start plus the unit direction times the projection clamped to [0, length] is the clamped-parameter nearest point |
| WeldRules.NewMark | Assets/Scripts/WeldingGunInteraction.cs:334-376 | the new bead sits at the hit point, is colour-optimal exactly on (80, 100], is size-optimal exactly within the band, and a good-scale bead is always size-optimal; its scale is the one `ScaleFor` picks, its `localScale` factor is fatScale below minWeldDistance, else goodScale within the band, else thinScale; its material is the one `ClassifyHeat` picks and is the optimal molten one exactly when the bead is colour-optimal |
| WeldRules.PlaceMark | Assets/Scripts/WeldingGunInteraction.cs:323-382 | a bead is placed exactly when a prefab is assigned, the ray hits, the hit is within maxWeldDistance, on the seam, and (after a first mark) strictly beyond the mark spacing; the bead is the one `NewMark` builds |
| WeldRules.NoMarkTooFar | Assets/Scripts/WeldingGunInteraction.cs:329-330 | no bead at a hit farther than maxWeldDistance |
| WeldRules.NoMarkOffSeam | Assets/Scripts/WeldingGunInteraction.cs:331 | no bead at a hit every seam point of which lies beyond the threshold |
| WeldRules.NoMarkTooClose | Assets/Scripts/WeldingGunInteraction.cs:332 | after a first mark, no bead at a hit whose true distance from the last mark is at most the spacing |
| WeldRules.SparksOnIffClose | Assets/Scripts/WeldingGunInteraction.cs:309-310 | the spark test holds exactly when the true tip-to-metal distance is strictly below weldSparkDistance |
| WeldRules.SampleCount | Assets/Scripts/WeldingGunInteraction.cs:257-258 | at least two samples, at least floor(length / spacing), and exactly one of the two |
| WeldRules.SamplesSpanSeam | Assets/Scripts/WeldingGunInteraction.cs:262-264 | the first sample is the seam's start and the last is its end |
| WeldRules.SamplePointForms | Assets/Scripts/WeldingGunInteraction.cs:260-264 | the start plus the unit direction times length·i/(n−1) is the point at fraction i/(n−1) of the seam, for a non-zero length and for coinciding ends |
| WeldRules.CoverageMonotone | Assets/Scripts/WeldingGunInteraction.cs:262-277 | a covered seam stays covered when the bead set grows |
| WeldRules.CoverageKeptByAppend | Assets/Scripts/WeldingGunInteraction.cs:376 | appending a bead never turns coverage from true to false |
| WeldRules.GapUncovers | Assets/Scripts/WeldingGunInteraction.cs:266-275 | a sample point with no bead strictly within tolerance makes coverage false |
| WeldRules.BeadAtEverySampleCovers | Assets/Scripts/WeldingGunInteraction.cs:262-277 | a bead at every sample point covers the seam for any positive tolerance |
| WeldRules.PointSeamCoverable | Assets/Scripts/WeldingGunInteraction.cs:257-264 | a seam with coinciding ends is covered by one bead strictly within tolerance of that point |
| WeldRules.ElevenSamples | Assets/Scripts/WeldingGunInteraction.cs:252-258 | a 0.2-long seam is scanned at 11 samples with the default spacing 0.018 |
| WeldRules.PassVerdict | Assets/Scripts/WeldingGunInteraction.cs:283-300 | no verdict without beads; bad when uncovered; excellent exactly when covered and every bead is optimal in both; good exactly when covered, some bead misses an optimum and some bead meets one |
| WeldRules.PanelFor | Assets/Scripts/WeldingGunInteraction.cs:189-203 | a text selects a panel only if it is that verdict's text |
| WeldRules.PanelForVerdictText | Assets/Scripts/WeldingGunInteraction.cs:189-203 | each verdict's text selects that verdict's panel |
| WeldRules.ScoreAfter | Assets/Scripts/WeldingGunInteraction.cs:281-301 | the stored text is unchanged without beads, else it names the pass verdict |
| WeldSession.InitialSessionInv | Assets/Scripts/WeldingGunInteraction.cs:71-79 | the initial field values satisfy the session invariant |
| WeldSession.TriggerPressed | Assets/Scripts/WeldingGunInteraction.cs:212-228 | on a hit, welding and trigger on, weldDuration and timeInOptimalZone both zero, lists empty, no placed mark, last mark at the hit; on a miss nothing changes |
| WeldSession.TriggerReleased | Assets/Scripts/WeldingGunInteraction.cs:233-240 | trigger and placed-mark flags cleared whatever the mode, so welding pauses; bead lists, welding mode, score, both timers and the last mark position kept |
| WeldSession.TriggerReleasedIdempotent | Assets/Scripts/WeldingGunInteraction.cs:235-239 | letting go of the trigger twice equals letting go once |
| WeldSession.Tick | Assets/Scripts/WeldingGunInteraction.cs:118-129 | outside an active pass nothing changes; in one, weldDuration and timeInOptimalZone each grow by dt, the placement decision is `PlaceMark`, and a placed bead is appended to both lists and becomes the last mark; a frame that places nothing changes only the two timers, so the spacing chain (placed-mark flag and last mark) survives it |
| WeldSession.Released | Assets/Scripts/WeldingGunInteraction.cs:170-181 | welding mode and placed mark cleared, lists kept, trigger flag, both timers and last mark position kept, score unchanged without beads and otherwise the pass verdict |
| WeldSession.ReleasedIdempotent | Assets/Scripts/WeldingGunInteraction.cs:177-179 | a second release changes nothing, so a forced release after scoring keeps the score |
| WeldSession.CoveredPassScore | Assets/Scripts/WeldingGunInteraction.cs:292-300 | a covered pass with beads is scored bad exactly when every bead misses both optima |
| WeldSession.TriggerPressedPreservesInv | Assets/Scripts/WeldingGunInteraction.cs:219-226 | a trigger press keeps the session invariant |
| WeldSession.TriggerReleasedPreservesInv | Assets/Scripts/WeldingGunInteraction.cs:235-239 | a trigger release keeps the session invariant |
| WeldSession.TickPreservesInv | Assets/Scripts/WeldingGunInteraction.cs:375-379 | a frame with dt ≥ 0 keeps the invariant: equal timers, equal list lengths, last bead = last mark, every bead on the seam, consecutive beads beyond the spacing |
| WeldSession.ReleasedPreservesInv | Assets/Scripts/WeldingGunInteraction.cs:177-179 | a release keeps the session invariant |
| WeldSession.GrabAllowed | Assets/Scripts/WeldingGunInteraction.cs:147 | a grab is kept exactly when gas is on and no assigned switch is off |
| WeldSession.StepPreservesInv | Assets/Scripts/WeldingGunInteraction.cs:96-129 | any single grab, trigger, frame or release event with a non-negative frame time keeps the invariant |
| WeldSession.RunPreservesInv | Assets/Scripts/WeldingGunInteraction.cs:96-116 | any sequence of grab, trigger, frame and release events with non-negative frame times keeps the invariant |
| WeldSession.ReachableSatisfiesInv | Assets/Scripts/WeldingGunInteraction.cs:71-79 | every state reached from the initial one satisfies the invariant |
| WeldingGun.WeldingGunInteraction.constructor | Assets/Scripts/WeldingGunInteraction.cs:81-88 | initial session fields, sparks stopped, no panel shown |
| WeldingGun.WeldingGunInteraction.OnGrab | Assets/Scripts/WeldingGunInteraction.cs:142-159 | panels hidden; forced release exactly when the grab is not allowed; lock popup shown on refusal and hidden on acceptance |
| WeldingGun.WeldingGunInteraction.OnLockTimerElapsed | Assets/Scripts/WeldingGunInteraction.cs:161-165 | the lock popup is hidden |
| WeldingGun.WeldingGunInteraction.OnTriggerPressed | Assets/Scripts/WeldingGunInteraction.cs:212-228 | the fields undergo `TriggerPressed` and the invariant is kept |
| WeldingGun.WeldingGunInteraction.OnTriggerReleased | Assets/Scripts/WeldingGunInteraction.cs:233-240 | the fields undergo `TriggerReleased`, sparks stop, invariant kept |
| WeldingGun.WeldingGunInteraction.EvaluateWeldingQuality | Assets/Scripts/WeldingGunInteraction.cs:245-249 | both timers grow by dt, nothing else changes |
| WeldingGun.WeldingGunInteraction.UpdateWeldSparks | Assets/Scripts/WeldingGunInteraction.cs:306-318 | with particles and a metal reference, sparks emit exactly when the spark test holds; otherwise unchanged |
| WeldingGun.WeldingGunInteraction.TryPlaceWeldMark | Assets/Scripts/WeldingGunInteraction.cs:323-382 | the placed bead is `PlaceMark`'s, and the lists grow by it, or nothing changes |
| WeldingGun.WeldingGunInteraction.Update | Assets/Scripts/WeldingGunInteraction.cs:118-137 | the fields and placed bead are `Tick`'s with the display's heat reading; sparks stop outside an active pass; invariant kept |
| WeldingGun.WeldingGunInteraction.IsSeamCovered | Assets/Scripts/WeldingGunInteraction.cs:252-278 | the nested loop answers exactly `SeamCovered` |
| WeldingGun.WeldingGunInteraction.CalculateFinalScore | Assets/Scripts/WeldingGunInteraction.cs:281-301 | the stored text becomes `ScoreAfter` of the bead lists and the previous text; nothing else changes |
| WeldingGun.WeldingGunInteraction.OnRelease | Assets/Scripts/WeldingGunInteraction.cs:170-181 | the fields undergo `Released`, sparks stop, invariant kept |
| WeldingGun.WeldingGunInteraction.ShowFinalScorePanel | Assets/Scripts/WeldingGunInteraction.cs:184-203 | the panel shown is the one the stored text names, if any |
| WeldingGun.WeldingGunInteraction.HideAllScorePanels | Assets/Scripts/WeldingGunInteraction.cs:398-403 | no panel is shown |
| WeldingGun.DefaultDialOptimalHeat | Assets/Scripts/WeldingGunInteraction.cs:348-357 | from the shipped display settings, the bead after k clicks is colour-optimal exactly when k mod 41 is 17 to 20 |
| Switch.SwitchToggle.constructor | Assets/Scripts/ToggleOnOff.cs:7 | a new switch is off |
| Switch.SwitchToggle.IsOn | Assets/Scripts/ToggleOnOff.cs:8 | reports the current state |
| Switch.SwitchToggle.OnTogglePressed | Assets/Scripts/ToggleOnOff.cs:29-34 | the state flips and the animator receives the new state |
| Switch.PressTwice | Assets/Scripts/ToggleOnOff.cs:31 | two presses restore the state |
| GasTank.GasSupply.constructor | Assets/Scripts/GasTankToggle.cs:24 | gas starts off |
| GasTank.MaterialFor | Assets/Scripts/GasTankToggle.cs:82-85 | the on-material exactly when gas is on, else the off-material |
| GasTank.GasTankToggle.constructor | Assets/Scripts/GasTankToggle.cs:30-46 | an assigned renderer shows the material of the gas state and an assigned warning is active exactly while gas is off |
| GasTank.GasTankToggle.OnTogglePressed | Assets/Scripts/GasTankToggle.cs:62-75 | the gas flag flips; the renderer and warning follow the new state |
| GasTank.GasTankToggle.UpdateVisual | Assets/Scripts/GasTankToggle.cs:80-86 | an assigned renderer gets the material of the current gas state |
| GasTank.PressTwice | Assets/Scripts/GasTankToggle.cs:64 | two presses restore the gas flag and the visuals still agree with it |
| HeatDisplay.NextValue | Assets/Scripts/DisplayClickIncrement.cs:30-31 | value + step, or minValue once that exceeds maxValue; a value in [min, max] with step ≥ 0 stays in range |
| HeatDisplay.DefaultClicksCycle | Assets/Scripts/DisplayClickIncrement.cs:9-12 | from the shipped settings, k clicks give 5·(k mod 41): 5, 10, …, 200, then 0 |
| HeatDisplay.FormatD3 | Assets/Scripts/DisplayClickIncrement.cs:33 | at least three digits, exactly three below 1000, a leading minus for negatives; padding zeros only up to three digits: a text longer than three digits (four or more from 1000, after the minus from −1000) never starts with '0' |
| HeatDisplay.FormatD3RoundTrip | Assets/Scripts/DisplayClickIncrement.cs:33 | reading the text back gives the value |
| HeatDisplay.DisplayClickIncrement.constructor | Assets/Scripts/DisplayClickIncrement.cs:9-12 | value, range and step are the inspector's (shipped: 0, 0–200, 5), and the text starts empty |
| HeatDisplay.DisplayClickIncrement.OnDisplayClicked | Assets/Scripts/DisplayClickIncrement.cs:26-35 | the value steps with wrap, and the text shows it, only while a switch is assigned and on |
| HeatDisplay.DisplayClickIncrement.Update | Assets/Scripts/DisplayClickIncrement.cs:37-49 | the text is the "D3" value while powered and empty otherwise, when a text is assigned |

## Left out

- Unity event wiring (listener registration in `OnEnable`, `OnDisable`, `Awake` and `OnDestroy`). The handlers are called directly.
- `Physics.Raycast`. The hit is an input, an optional point with its distance from the tip. The reach (`rayDistance`) and the layer mask are the raycast's business.
- The forced release of a refused grab. `OnGrab` reports it as `forcedRelease`; in the event model a refused grab is followed by a release.
- Coroutines and their delays (2 s, 0.5 s, 3 s). The lock-popup timer is `OnLockTimerElapsed`. The score reveal is `ShowFinalScorePanel`, followed later by `HideAllScorePanels`.
- Rendering, audio, light, cameras, `Instantiate` and logging. A bead's scale and material appear only as tags.
- Null checks on panels, audio sources, cameras and the animator. Scene references the handlers dereference without a check (`rayOrigin`, `xrCamera`, `weldingZoomCam`, the switch's animator) are taken to be assigned.
- The start-up instructor audio, `KnobDisplay`, `DoorUiPanel` and `VolumeProfileRefresher`. These are not part of this model.
- Floating point. Coordinates, distances and frame times are `real`, and rounding is not modelled.
- `normalized` returns zero for vectors shorter than 1e-5. The model treats only a zero length as degenerate.
- Square roots. `Vector3.Distance` comparisons are decided on squares. The two distances used as numbers, the tip-to-hit distance and the seam length, are carried as data. Lemmas that need them to be true distances say so (`IsDistance`, `ValidSeam`).
- Moving seam ends. The seam is fixed for the lifetime of the gun.
- Geometry.ClosestPointIsNearest: requires the segment's ends to coincide or its squared length to be positive. That a non-zero difference vector has a positive squared length is not proved.
- WeldRules.TipOnSeamIffNearSegment: carries the same requirement on the seam.
- WeldRules.ClosestPointForms: requires a positive length or coinciding ends. For a valid seam of length zero, the ends coinciding is not derived.
- WeldRules.SamplePointForms: likewise requires a non-zero length or coinciding ends.
- HeatDisplay.NextValue: integers are unbounded, so the 32-bit wrap-around of `value + step` is not modelled. It cannot occur with range 0–200 and step 5.
- WeldingGun.WeldingGunInteraction.Update: requires a non-negative frame time, as the engine supplies, so that the timer invariant holds.
  It also requires a hit's distance to be the true distance from the tip used for the spark test, since both come from `rayOrigin.position` (lines 309 and 329).
- `Mathf.FloorToInt` overflow for huge seam lengths is not modelled.
- Several gas tanks in one scene share the one flag. A tank's visuals are proved to follow the flag only after that tank's own `Awake` or press.
- The display text before the first frame starts empty.
