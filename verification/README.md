# AVR 2024 scoring calculator — Dafny model

This project models the scoring core of the AVR 2024 scoring calculator, a small
egui desktop/web application written in Rust. The core consists of:

- **The scoring record** `ScoringAction` (`Actions`). Each record has a phase, a
  point value and a slider bound (`max_count`). It also has the count the user
  entered and an optional table of point stages. A point value of -1 marks a
  *staged* action, which is scored by looking its count up in that table. Every
  numeric field is a Rust `i8`. The model uses mathematical integers plus the
  `IsI8` range predicate.
- **The evaluator** `scoring_processor` (`Scoring`). It sums per-action
  contributions. `Score` is the mathematical sum. `CheckedScore` is the same fold
  carried out in a fixed-width integer type with debug-build checks: an
  out-of-range table index, an overflowing product or an overflowing running total
  ends the evaluation with a panic, read as `None`.
- **The count-range rule** of the action list (`Controls`). It decides which
  widget each action gets, and so which counts the user can store:
  - a slider up to `len as i8 - 1` for a staged action with a non-empty table;
  - a slider up to `max_count` for a point value above 1;
  - a checkbox otherwise.

  A slider whose upper end is negative runs from high to low and stores the
  values between that end and 0. When the `i8` subtraction `len as i8 - 1`
  overflows, a debug build panics before any widget is shown.
- **Phase grouping** (`PhaseGrouping`). The distinct phases are listed in
  first-occurrence order, and each phase shows the registry filtered to that
  phase.
- **The two built-in registries**: `AppDefaults` for src/app.rs and
  `GameDefaults` for src/game.rs.
- **The application state** `TemplateApp` (`Calculator.App`). It holds the
  registry and the last score. Its operations are the default constructor, a
  widget storing a count, the "Calculate" button and the "Reset Actions" button.

Ids are produced by a random UUID generator in the source. Here they are
parameters: the constructor and `Reset` receive the freshly generated ids and
require them to be pairwise distinct. The lookup `iter_mut().find(..)` relies on
that distinctness. The application keeps the ids of its last build as ghost
state, so its invariant can say that the registry is the built-in one with
counts set through the widgets.

## Model

| member | source | states |
|---|---|---|
| Actions.WrapI8 | src/app.rs:137 | `len() as i8` gives an `i8` congruent to the length modulo 256, and equals the length whenever the length is at most 127 |
| Actions.DefaultAction | src/app.rs:6-27 | the derived default record carries the generated id, description "N/A", an empty name, phase 0, point value 0, maximum 10, count 0 and an empty table; it is well typed and not staged |
| Scoring.Contribution | src/app.rs:193-198 | one action's term: an entry of its table when staged, otherwise the product of point value and count, which lies within ±16384 for a well-typed action |
| Scoring.Score | src/app.rs:190-201 | the sum of all terms over mathematical integers; for `n` well-typed actions it lies within ±16384·n |
| Scoring.ScoreAppend | src/app.rs:190-201 | the score of two registries laid end to end is the sum of their scores |
| Scoring.ScoreRemove | src/app.rs:190-201 | removing one action from the registry removes exactly its contribution from the score |
| Scoring.ScorePermutation | src/app.rs:190-201 | two registries holding the same actions in any order have the same mathematical score (the `i8` fold is order dependent; see `Scoring.I8FoldOrderDependent`) |
| Scoring.ScoreZeroCounts | src/app.rs:19-26 | with every count 0, and every staged table starting with 0, the evaluator stays in bounds and the score is 0 |
| Scoring.CheckedContribution | src/app.rs:193-198 | one action's term completes exactly when the staged index lies inside the table and the linear product fits the width; it is then `pointStages[count]` or `pointValue * count` |
| Scoring.CheckedScore | src/app.rs:190-201 | the checked fold completes exactly when every lookup is in bounds and every product and running total fits the width; it then yields the mathematical score, which fits the width |
| Scoring.SafeToSumPrefixes | src/app.rs:190-201 | when the checked fold completes, every partial sum it passed through is representable in the width |
| Scoring.CheckedScoreOrder | src/app.rs:190-201 | when the checked fold completes on two orderings of the same actions, both give the same value |
| Scoring.I8FoldOrderDependent | src/app.rs:190-201 | whether the `i8` fold completes depends on the order: terms 100, 100, -100 panic, while 100, -100, 100 give 100 |
| Scoring.ProductOfI8Bound | src/app.rs:197 | the product of two `i8` values lies within ±16384 |
| Scoring.WideNeverOverflows | src/app.rs:190-201 | with a 32-bit total the fold never panics on well-typed, in-bounds registries of up to 131071 actions, and it yields the mathematical score |
| Controls.ControlFor | src/app.rs:132-150 | the widget of an action: a staged slider only for a staged action, with an `i8` upper end below the table length; a linear slider up to `max_count` only for a non-staged action; a panic exactly when `len as i8` is -128 |
| Controls.Writes | src/app.rs:135-149 | a slider stores the values between 0 and its upper end, in either direction; the checkbox stores 0 or 1; a panicking frame stores nothing |
| Controls.ValidCount | src/app.rs:132-150 | the counts the widget of an action can store |
| Controls.UnsafeTable | src/app.rs:132-138 | the staged actions whose widget can store a count outside the table: an empty table, or a length whose `as i8` reading lies in -127..=0 |
| Controls.StagedSliderRange | src/app.rs:132-138 | the staged slider never stores a count at or past the table's end; for tables of 1 to 127 entries it stores exactly the table's indices; it stores -1 exactly when the table is unsafe |
| Controls.LinearSliderRange | src/app.rs:140-144 | a non-staged action with point value above 1 takes exactly the counts between 0 and `max_count`, which is `0..=max_count` when `max_count` is non-negative |
| Controls.CheckboxRange | src/app.rs:145-149 | every other action takes exactly the counts 0 and 1 |
| Controls.ValidCountIsI8 | src/app.rs:132-150 | every count a widget stores into a well-typed action fits the `i8` count field |
| Controls.ReachableCountsInBounds | src/app.rs:132-150 | every count the widgets can store keeps the evaluator's lookup in bounds if and only if the action has no unsafe table |
| PhaseGrouping.FirstIndex | src/app.rs:101-106 | the position returned holds the element, and the element does not occur before it |
| PhaseGrouping.Unique | src/app.rs:101-106 | the phase list has no duplicates and holds exactly the phases present in the input |
| PhaseGrouping.UniqueFirstOccurrenceOrder | src/app.rs:101-106 | the phases are listed in the order of their first occurrence in the registry |
| PhaseGrouping.PhaseList | src/app.rs:101-104 | the mapped list has one entry per action, holding that action's phase |
| PhaseGrouping.Phases | src/app.rs:101-106 | the section list has no duplicates and lists the phase of every action |
| PhaseGrouping.PhasesPresent | src/app.rs:101-106 | every listed phase is carried by some action |
| PhaseGrouping.InPhase | src/app.rs:109-110 | an action is in a phase's filtered copy exactly when it is in the registry and has that phase |
| PhaseGrouping.GroupsOf | src/app.rs:108-110 | one filtered copy per phase of the given list |
| PhaseGrouping.GroupsOfAt | src/app.rs:108-110 | the k-th group is the registry filtered to the k-th listed phase |
| PhaseGrouping.PhaseGroups | src/app.rs:101-110 | the sections: one group per listed phase |
| PhaseGrouping.GroupsOfSnoc | src/app.rs:108-110 | an appended action is appended to the group of its own phase, and every other group stays as it was |
| PhaseGrouping.FlattenGroupsSnoc | src/app.rs:108-110 | an appended action adds one copy of itself to the groups laid end to end when its phase is listed, and none otherwise |
| PhaseGrouping.PhaseGroupsPartition | src/app.rs:101-110 | the groups laid end to end hold every action of the registry exactly as often as the registry does |
| PhaseGrouping.PhaseGroupsPlacement | src/app.rs:101-110 | there is one group per phase; each group is non-empty and holds only actions of its phase; every action lies in the group of its own phase |
| AppDefaults.GoalZone | src/app.rs:207-213 | the phase 1 record: 2 points per unit |
| AppDefaults.Railway | src/app.rs:217-223 | the phase 2 record: 4 points per unit |
| AppDefaults.Hotspots | src/app.rs:227-233 | the phase 3 record: 8 points per unit |
| AppDefaults.Stack | src/app.rs:237-243 | the first phase 4 record: 1 point per unit |
| AppDefaults.StackStages | src/app.rs:246-253 | the staged phase 4 record with table [0, 3, 7, 4, 5, 8] |
| AppDefaults.DefaultActions | src/app.rs:203-257 | the five records in push order, carrying the generated ids |
| AppDefaults.InitializeDefaultActions | src/app.rs:203-257 | building with five pushes yields the five-action registry |
| AppDefaults.DefaultActionsShape | src/app.rs:203-257 | the registry has five well-typed actions with the generated ids, in phases 1, 2, 3, 4, 4, all at count 0; only the last one is staged, with table [0, 3, 7, 4, 5, 8] |
| AppDefaults.DefaultPhases | src/app.rs:101-106 | the sections shown for the registry are phases 1, 2, 3 and 4, in that order |
| AppDefaults.DefaultIdsDistinct | src/app.rs:116-120 | the registry's ids are distinct exactly when the generated ids are |
| AppDefaults.DefaultControls | src/app.rs:132-150 | the first three actions get sliders up to 10, "Phase 4" gets a checkbox and the staged action gets a slider over indices 0..=5 |
| AppDefaults.DefaultScoreZero | src/app.rs:203-257 | the freshly built registry evaluates in bounds to 0 |
| AppDefaults.Reachable | src/app.rs:115-150 | the registries the user reaches from the built-in one by setting counts through the widgets |
| AppDefaults.DefaultReachable | src/app.rs:38-45 | the freshly built registry is itself reachable |
| AppDefaults.ReachableScore | src/app.rs:190-201 | after any counts the widgets allow, each count lies in its widget's range and the score is 2, 4 and 8 times the three slider counts, plus the checkbox, plus the table entry of the staged count |
| AppDefaults.ReachableScoreRange | src/app.rs:190-201 | every reachable score lies within 0..=149, and 149 is reached exactly with every widget at its maximum |
| AppDefaults.DefaultOverflowsI8 | src/app.rs:190-201 | with the three sliders at 10 the registry is reachable and scores 140, so the `i8` fold panics while the 32-bit fold yields 140 |
| GameDefaults.GeneralParking | src/game.rs:61-68 | the general parking record: 3 points, bound 1 |
| GameDefaults.MiniParking | src/game.rs:71-78 | the mini parking record: 1 point per driver, bound 3 |
| GameDefaults.Stacking | src/game.rs:81-89 | the staged stacking record with table [0, 0, 1, 3, 5, 7, 20] |
| GameDefaults.DefaultActions | src/game.rs:27-93 | the six records in push order, carrying the generated ids |
| GameDefaults.InitializeDefaultActions | src/game.rs:27-93 | building with six pushes yields the six-action registry |
| GameDefaults.DefaultActionsShape | src/game.rs:27-93 | the registry has six well-typed actions with the generated ids, in phases 1, 2, 3, 4, 4, 4, all at count 0 |
| GameDefaults.OnlyStackingStaged | src/game.rs:81-90 | exactly one action is staged, the last one, "Stacking"; its table is non-empty and starts with 0 |
| GameDefaults.DefaultMaxCounts | src/game.rs:17-18 | the slider bound is 10 everywhere except general parking (1) and mini parking (3) |
| GameDefaults.LinearDefaults | src/game.rs:23-24 | every non-staged action scores at least 1 point per unit and keeps the empty default table |
| GameDefaults.DefaultScoreZero | src/game.rs:27-93 | the freshly built registry evaluates in bounds to 0 |
| GameDefaults.DefaultPhases | src/game.rs:27-93 | the sections shown for the registry are phases 1, 2, 3 and 4, in that order |
| GameDefaults.DefaultControls | src/game.rs:61-79 | phases 1-3 get sliders up to 10, general parking a slider up to 1 and stacking a slider over indices 0..=6; mini parking gets a checkbox, so it only ever records 0 or 1 although its bound is 3 |
| Calculator.IsRegistry | src/app.rs:132-150 | a registry of well-typed actions with distinct ids, counts their widgets can store and no unsafe table |
| Calculator.RegistryInBounds | src/app.rs:132-150 | such a registry never makes the evaluator index outside a table |
| Calculator.DefaultIsRegistry | src/app.rs:203-257 | the built-in registry with distinct generated ids is such a registry |
| Calculator.ReachableIsRegistry | src/app.rs:115-150 | so is every registry reached from it by setting counts through the widgets |
| Calculator.FindById | src/app.rs:116-120 | the lookup returns the first position carrying the id, or nothing when no action carries it |
| Calculator.App.constructor | src/app.rs:38-45 | the default state holds the built-in registry and score 0, and satisfies the application invariant |
| Calculator.App.Reset | src/app.rs:88-91 | the registry becomes the built-in one and the score 0, whatever the state was; the invariant holds afterwards |
| Calculator.App.SetCount | src/app.rs:115-150 | storing a count its widget allows changes exactly that action's count; the score and the invariant are kept |
| Calculator.App.Calculate | src/app.rs:171-176 | the score becomes the mathematical score of the unchanged registry, which lies within 0..=149 |

## Left out

- The egui/eframe presentation: panels, collapsing headers, labels, the author line, the dark/light buttons and the Quit command. Only the count-range rule they encode is modelled.
- Persistence through eframe storage and serde (`TemplateApp::new`, `save`). These are I/O at a foreign-library boundary. The model starts from `TemplateApp::default()`.
- Loading a registry from a file is not modelled: `actions` is `#[serde(skip)]` (src/app.rs:33-34), so the registry only ever comes from `initialize_default_actions`.
- UUID generation. Ids are parameters, and callers must supply pairwise distinct ones.
- Names and descriptions are carried as opaque strings; nothing is proved about them.
- Release-build `i8` arithmetic, where an overflow wraps silently instead of panicking. `CheckedScore` and `ControlFor` model the debug-build panic only.
- Calculator.App.SetCount: a widget only writes when the user moves it. What happens to a pre-existing out-of-range count (egui slider clamping) is not modelled. The method requires the stored count to be one the widget allows.
- Calculator.App.Calculate: this method uses the corrected 32-bit accumulator described under Findings. The code as written is `CheckedScore(_, I8)`; `AppDefaults.DefaultOverflowsI8` shows where the two differ.
- Calculator.App: its invariant fixes the registry at five actions, the src/app.rs registry. src/game.rs's six-action registry is modelled on its own in `GameDefaults`, because no code path in src/app.rs installs it.

## Findings

| source | as written | input that shows it | evidently intended | confidence | as-written member | corrected member |
|---|---|---|---|---|---|---|
| src/app.rs:190-201 | the score is summed in `i8`, the type of the fields and of `score` | the src/app.rs registry (src/app.rs:207-234) with the three sliders at their maximum of 10: the running total reaches 20 + 40 + 80 = 140 > 127, so a debug build panics and a release build shows a wrapped score | a total every reachable registry fits into, e.g. a 32-bit accumulator (reachable scores lie in 0..=149) | not executed | AppDefaults.DefaultOverflowsI8 | Scoring.WideNeverOverflows |
