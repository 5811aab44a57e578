/** The built-in registry of src/app.rs (`initialize_default_actions`,
    src/app.rs:203-257): five actions, one per phase 1-3 and two in phase 4,
    the last of them scored by a table. Each record starts from the derived
    default, so its id is the one the UUID generator supplies. */
module AppDefaults {
  import opened Options
  import opened Actions
  import opened Scoring
  import opened Controls
  import opened PhaseGrouping

  /** Number of actions in the built-in registry. */
  const COUNT := 5

  function GoalZone(id: Id): ScoringAction {
    DefaultAction(id).(name := "Phase 1", description := "Score in the goal zone", pointValue := 2, phase := 1)
  }

  function Railway(id: Id): ScoringAction {
    DefaultAction(id).(name := "Phase 2", description := "Score in the railway", pointValue := 4, phase := 2)
  }

  function Hotspots(id: Id): ScoringAction {
    DefaultAction(id).(name := "Phase 3", description := "Score in the hotspots", pointValue := 8, phase := 3)
  }

  function Stack(id: Id): ScoringAction {
    DefaultAction(id).(name := "Phase 4", description := "Score in the stack", pointValue := 1, phase := 4)
  }

  function StackStages(id: Id): ScoringAction {
    DefaultAction(id).(name := "Phase 4 2", description := "Score in the stacksd", pointValue := STAGED,
                       phase := 4, pointStages := [0, 3, 7, 4, 5, 8])
  }

  /** The registry the function returns, given the five generated ids. */
  function DefaultActions(ids: seq<Id>): seq<ScoringAction>
    requires |ids| == COUNT
  {
    [GoalZone(ids[0]), Railway(ids[1]), Hotspots(ids[2]), Stack(ids[3]), StackStages(ids[4])]
  }

  /** Builds the registry the way the source does, one `push` at a time. */
  method InitializeDefaultActions(ids: seq<Id>) returns (ret: seq<ScoringAction>)
    requires |ids| == COUNT
    ensures ret == DefaultActions(ids)
  {
    ret := [];
    ret := ret + [GoalZone(ids[0])];
    ret := ret + [Railway(ids[1])];
    ret := ret + [Hotspots(ids[2])];
    ret := ret + [Stack(ids[3])];
    ret := ret + [StackStages(ids[4])];
  }

  /** Five well-typed actions carrying the generated ids, in phases 1, 2, 3, 4,
      4, all with count 0; only the last one is staged, with table
      [0, 3, 7, 4, 5, 8]. */
  lemma DefaultActionsShape(ids: seq<Id>)
    requires |ids| == COUNT
    ensures var r := DefaultActions(ids);
      |r| == 5 && PhaseList(r) == [1, 2, 3, 4, 4] &&
      (forall i :: 0 <= i < 5 ==> r[i].id == ids[i] && r[i].count == 0 && WellTyped(r[i])) &&
      (forall i :: 0 <= i < 5 ==> (IsStaged(r[i]) <==> i == 4)) &&
      r[4].pointStages == [0, 3, 7, 4, 5, 8]
  {
  }

  /** The sections shown are phases 1, 2, 3 and 4, in that order. */
  lemma DefaultPhases(ids: seq<Id>)
    requires |ids| == COUNT
    ensures Phases(DefaultActions(ids)) == [1, 2, 3, 4]
  {
    DefaultActionsShape(ids);
    UniquePhases();
  }

  /** The distinct phases of 1, 2, 3, 4 followed by a repeated 4. */
  lemma UniquePhases()
    ensures Unique([1, 2, 3, 4, 4]) == [1, 2, 3, 4]
    ensures Unique([1, 2, 3, 4, 4, 4]) == [1, 2, 3, 4]
  {
    UniqueAscending();
    assert [1, 2, 3, 4, 4][..4] == [1, 2, 3, 4];
    assert Unique([1, 2, 3, 4, 4]) == [1, 2, 3, 4];
    assert [1, 2, 3, 4, 4, 4][..5] == [1, 2, 3, 4, 4];
  }

  lemma UniqueAscending()
    ensures Unique([1, 2, 3, 4]) == [1, 2, 3, 4]
  {
    assert [1, 2, 3, 4][..3] == [1, 2, 3];
    assert [1, 2, 3][..2] == [1, 2];
    assert [1, 2][..1] == [1];
    assert [1][..0] == [];
    assert Unique([1]) == [1];
    assert Unique([1, 2]) == [1, 2];
    assert Unique([1, 2, 3]) == [1, 2, 3];
  }

  /** The registry's ids are distinct exactly when the generated ids are. */
  lemma DefaultIdsDistinct(ids: seq<Id>)
    requires |ids| == COUNT
    ensures DistinctIds(DefaultActions(ids)) <==> forall i, j :: 0 <= i < j < COUNT ==> ids[i] != ids[j]
  {
    DefaultActionsShape(ids);
  }

  /** The widgets: sliders up to 10 for the three single-phase actions, a
      checkbox for the phase 4 action with point value 1, and a slider over
      the six table entries for the staged action. */
  lemma DefaultControls(ids: seq<Id>)
    requires |ids| == COUNT
    ensures var r := DefaultActions(ids);
      ControlFor(r[0]) == LinearSlider(10) && ControlFor(r[1]) == LinearSlider(10) &&
      ControlFor(r[2]) == LinearSlider(10) && ControlFor(r[3]) == Checkbox &&
      ControlFor(r[4]) == StagedSlider(5)
  {
  }

  /** The freshly built registry scores 0: every count is 0 and the one table
      starts with 0. */
  lemma DefaultScoreZero(ids: seq<Id>)
    requires |ids| == COUNT
    ensures AllInBounds(DefaultActions(ids)) && Score(DefaultActions(ids)) == 0
  {
    DefaultActionsShape(ids);
    ScoreZeroCounts(DefaultActions(ids));
  }

  /** The registry after the user has set every count through its widget. */
  predicate Reachable(ids: seq<Id>, s: seq<ScoringAction>)
    requires |ids| == COUNT
  {
    var r := DefaultActions(ids);
    |s| == COUNT &&
    forall i :: 0 <= i < COUNT ==> s[i] == r[i].(count := s[i].count) && ValidCount(r[i], s[i].count)
  }

  /** The freshly built registry is reachable: count 0 is one every widget
      of it can store. */
  lemma DefaultReachable(ids: seq<Id>)
    requires |ids| == COUNT
    ensures Reachable(ids, DefaultActions(ids))
  {
    DefaultActionsShape(ids);
    DefaultControls(ids);
  }

  /** Every reachable registry evaluates without indexing out of bounds, to
      2, 4 and 8 points per unit of the three linear actions, 1 for the
      checkbox, plus the table entry of the staged one. */
  lemma ReachableScore(ids: seq<Id>, s: seq<ScoringAction>)
    requires |ids| == COUNT && Reachable(ids, s)
    ensures AllInBounds(s) && 0 <= s[4].count < 6
    ensures 0 <= s[0].count <= 10 && 0 <= s[1].count <= 10 && 0 <= s[2].count <= 10 && 0 <= s[3].count <= 1
    ensures Score(s) == 2 * s[0].count + 4 * s[1].count + 8 * s[2].count + s[3].count +
                        [0, 3, 7, 4, 5, 8][s[4].count]
  {
    var stages := [0, 3, 7, 4, 5, 8];
    assert s[4].pointStages == stages && 0 <= s[4].count <= 5;
    assert forall i :: 0 <= i < 5 ==> InBounds(s[i]);
    assert s == [s[0]] + ([s[1]] + ([s[2]] + ([s[3]] + [s[4]])));
    ScoreSingleton(s[4]);
    ScoreCons(s[3], [s[4]]);
    ScoreCons(s[2], [s[3]] + [s[4]]);
    ScoreCons(s[1], [s[2]] + ([s[3]] + [s[4]]));
    ScoreCons(s[0], [s[1]] + ([s[2]] + ([s[3]] + [s[4]])));
  }

  /** Every reachable score lies between 0 and 149, and 149 is reached exactly
      with every widget at its maximum. */
  lemma ReachableScoreRange(ids: seq<Id>, s: seq<ScoringAction>)
    requires |ids| == COUNT && Reachable(ids, s)
    ensures AllInBounds(s) && 0 <= Score(s) <= 149
    ensures Score(s) == 149 <==> (s[0].count == s[1].count == s[2].count == 10 && s[3].count == 1 && s[4].count == 5)
  {
    ReachableScore(ids, s);
    ScoreFormulaRange(s[0].count, s[1].count, s[2].count, s[3].count, s[4].count);
  }

  lemma ScoreFormulaRange(c0: int, c1: int, c2: int, c3: int, c4: int)
    requires 0 <= c0 <= 10 && 0 <= c1 <= 10 && 0 <= c2 <= 10 && 0 <= c3 <= 1 && 0 <= c4 < 6
    ensures var v := 2 * c0 + 4 * c1 + 8 * c2 + c3 + [0, 3, 7, 4, 5, 8][c4];
      0 <= v <= 149 && (v == 149 <==> c0 == c1 == c2 == 10 && c3 == 1 && c4 == 5)
  {
    var stages := [0, 3, 7, 4, 5, 8];
    assert 0 <= stages[c4] <= 8 && (stages[c4] == 8 <==> c4 == 5);
  }

  /** The source evaluates in `i8`. With the three sliders at 10 the running
      total reaches 140 after the third action, beyond `i8`'s 127: the
      evaluation panics (wraps, in a release build) although every count was
      set through its widget. With a 32-bit total the same registry scores
      140. */
  lemma DefaultOverflowsI8(ids: seq<Id>)
    requires |ids| == COUNT
    ensures var r := DefaultActions(ids);
      var s := [r[0].(count := 10), r[1].(count := 10), r[2].(count := 10), r[3], r[4]];
      Reachable(ids, s) && AllInBounds(s) && Score(s) == 140 &&
      CheckedScore(s, I8) == None && CheckedScore(s, I32) == Some(140)
  {
    var r := DefaultActions(ids);
    var s := [r[0].(count := 10), r[1].(count := 10), r[2].(count := 10), r[3], r[4]];
    DefaultActionsShape(ids);
    assert ValidCount(r[3], 0);
    assert Reachable(ids, s);
    ReachableScore(ids, s);
    assert s[..3] == [s[0]] + ([s[1]] + [s[2]]);
    ScoreSingleton(s[2]);
    ScoreCons(s[1], [s[2]]);
    ScoreCons(s[0], [s[1]] + [s[2]]);
    assert Score(s[..3]) == 140;
    WideNeverOverflows(s);
  }
}
