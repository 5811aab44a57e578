/** The built-in registry of src/game.rs (`initialize_default_actions`,
    src/game.rs:27-93): six actions, the first three as in src/app.rs, then
    three in phase 4 (general parking, mini parking and the staged stacking
    bonus). */
module GameDefaults {
  import opened Actions
  import opened Scoring
  import opened Controls
  import opened PhaseGrouping
  import AppDefaults

  /** Number of actions in the built-in registry. */
  const COUNT := 6

  function GeneralParking(id: Id): ScoringAction {
    DefaultAction(id).(name := "General parking", description := "AVR, RVR, and DEXI has parked.",
                       pointValue := 3, phase := 4, maxCount := 1)
  }

  function MiniParking(id: Id): ScoringAction {
    DefaultAction(id).(name := "Mini parking", description := "This number of sphero mini drivers that have parked.",
                       pointValue := 1, phase := 4, maxCount := 3)
  }

  function Stacking(id: Id): ScoringAction {
    DefaultAction(id).(name := "Stacking",
                       description := "Creating a single unsupported stack of conex boxes with AVR. Enter height.",
                       pointValue := STAGED, phase := 4, pointStages := [0, 0, 1, 3, 5, 7, 20])
  }

  /** The registry the function returns, given the six generated ids. The
      phase 1-3 records are literally those of src/app.rs. */
  function DefaultActions(ids: seq<Id>): seq<ScoringAction>
    requires |ids| == COUNT
  {
    [AppDefaults.GoalZone(ids[0]), AppDefaults.Railway(ids[1]), AppDefaults.Hotspots(ids[2]),
     GeneralParking(ids[3]), MiniParking(ids[4]), Stacking(ids[5])]
  }

  /** Builds the registry the way the source does, one `push` at a time. */
  method InitializeDefaultActions(ids: seq<Id>) returns (ret: seq<ScoringAction>)
    requires |ids| == COUNT
    ensures ret == DefaultActions(ids)
  {
    ret := [];
    ret := ret + [AppDefaults.GoalZone(ids[0])];
    ret := ret + [AppDefaults.Railway(ids[1])];
    ret := ret + [AppDefaults.Hotspots(ids[2])];
    ret := ret + [GeneralParking(ids[3])];
    ret := ret + [MiniParking(ids[4])];
    ret := ret + [Stacking(ids[5])];
  }

  /** Six well-typed actions carrying the generated ids, in phases 1, 2, 3, 4,
      4, 4, all with count 0. */
  lemma DefaultActionsShape(ids: seq<Id>)
    requires |ids| == COUNT
    ensures var r := DefaultActions(ids);
      |r| == 6 && PhaseList(r) == [1, 2, 3, 4, 4, 4] &&
      forall i :: 0 <= i < 6 ==> r[i].id == ids[i] && r[i].count == 0 && WellTyped(r[i])
  {
  }

  /** Exactly one action is staged, "Stacking", the last one; its table is
      non-empty and starts with 0. */
  lemma OnlyStackingStaged(ids: seq<Id>)
    requires |ids| == COUNT
    ensures var r := DefaultActions(ids);
      (forall i :: 0 <= i < 6 ==> (IsStaged(r[i]) <==> i == 5)) &&
      r[5].name == "Stacking" && |r[5].pointStages| > 0 && r[5].pointStages[0] == 0
  {
  }

  /** The slider bound is the default 10 everywhere except general parking (1)
      and mini parking (3). */
  lemma DefaultMaxCounts(ids: seq<Id>)
    requires |ids| == COUNT
    ensures var r := DefaultActions(ids);
      forall i :: 0 <= i < 6 ==> r[i].maxCount == [10, 10, 10, 1, 3, 10][i]
  {
  }

  /** Every linear action is worth at least one point per unit and keeps the
      default empty table. */
  lemma LinearDefaults(ids: seq<Id>)
    requires |ids| == COUNT
    ensures var r := DefaultActions(ids);
      forall i :: 0 <= i < 6 && !IsStaged(r[i]) ==> r[i].pointValue >= 1 && r[i].pointStages == []
  {
  }

  /** The freshly built registry scores 0. */
  lemma DefaultScoreZero(ids: seq<Id>)
    requires |ids| == COUNT
    ensures AllInBounds(DefaultActions(ids)) && Score(DefaultActions(ids)) == 0
  {
    DefaultActionsShape(ids);
    OnlyStackingStaged(ids);
    ScoreZeroCounts(DefaultActions(ids));
  }

  /** The sections shown are phases 1, 2, 3 and 4, in that order. */
  lemma DefaultPhases(ids: seq<Id>)
    requires |ids| == COUNT
    ensures Phases(DefaultActions(ids)) == [1, 2, 3, 4]
  {
    DefaultActionsShape(ids);
    AppDefaults.UniquePhases();
  }

  /** Under the count-range rule the widgets are: sliders up to 10 for phases
      1-3, a slider up to 1 for general parking, a slider over the seven table
      entries for stacking, and a checkbox for mini parking. Mini parking
      therefore only ever records 0 or 1 drivers although its bound is 3. */
  lemma DefaultControls(ids: seq<Id>)
    requires |ids| == COUNT
    ensures var r := DefaultActions(ids);
      ControlFor(r[0]) == LinearSlider(10) && ControlFor(r[1]) == LinearSlider(10) &&
      ControlFor(r[2]) == LinearSlider(10) && ControlFor(r[3]) == LinearSlider(1) &&
      ControlFor(r[4]) == Checkbox && ControlFor(r[5]) == StagedSlider(6)
    ensures var r := DefaultActions(ids);
      r[4].maxCount == 3 && forall c :: ValidCount(r[4], c) <==> c == 0 || c == 1
  {
  }
}
