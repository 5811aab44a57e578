/** The application state of src/app.rs (`TemplateApp`): the registry of
    actions and the last computed score, with the three ways the interaction
    layer changes them — a widget storing a count, the "Calculate" button and
    the "Reset Actions" button. */
module Calculator {
  import opened Options
  import opened Actions
  import opened Scoring
  import opened Controls
  import AppDefaults

  /** A registry the evaluator can always handle: well-typed actions with
      distinct ids, each count one its widget can store, and no unsafe table. */
  predicate IsRegistry(s: seq<ScoringAction>) {
    DistinctIds(s) &&
    forall i :: 0 <= i < |s| ==>
      WellTyped(s[i]) && ValidCount(s[i], s[i].count) && !UnsafeTable(s[i])
  }

  /** Such a registry never makes the evaluator index outside a table. */
  lemma RegistryInBounds(s: seq<ScoringAction>)
    requires IsRegistry(s)
    ensures AllInBounds(s)
  {
    forall i | 0 <= i < |s| ensures InBounds(s[i]) {
      ReachableCountsInBounds(s[i]);
      assert s[i].(count := s[i].count) == s[i];
    }
  }

  /** The built-in registry is one, given distinct generated ids. */
  lemma DefaultIsRegistry(ids: seq<Id>)
    requires |ids| == AppDefaults.COUNT
    requires forall i, j :: 0 <= i < j < |ids| ==> ids[i] != ids[j]
    ensures IsRegistry(AppDefaults.DefaultActions(ids))
  {
    AppDefaults.DefaultActionsShape(ids);
    AppDefaults.DefaultIdsDistinct(ids);
    AppDefaults.DefaultControls(ids);
  }

  /** So is every registry the user reaches from it by setting counts through
      the widgets. */
  lemma ReachableIsRegistry(ids: seq<Id>, s: seq<ScoringAction>)
    requires |ids| == AppDefaults.COUNT
    requires forall i, j :: 0 <= i < j < |ids| ==> ids[i] != ids[j]
    requires AppDefaults.Reachable(ids, s)
    ensures IsRegistry(s)
  {
    var r := AppDefaults.DefaultActions(ids);
    DefaultIsRegistry(ids);
    forall i | 0 <= i < |s|
      ensures s[i].id == r[i].id && WellTyped(s[i]) && ValidCount(s[i], s[i].count) && !UnsafeTable(s[i])
    {
      ValidCountIsI8(r[i], s[i].count);
      assert ControlFor(s[i]) == ControlFor(r[i]);
    }
  }

  /** The lookup `iter_mut().find(|act| act.id == id)`: the first action
      carrying `id`, or `None` when there is none. */
  method FindById(s: seq<ScoringAction>, id: Id) returns (r: Option<nat>)
    ensures r.Some? ==> r.value < |s| && s[r.value].id == id
    ensures r.Some? ==> forall j :: 0 <= j < r.value ==> s[j].id != id
    ensures r.None? ==> forall j :: 0 <= j < |s| ==> s[j].id != id
  {
    var i := 0;
    while i < |s|
      invariant 0 <= i <= |s|
      invariant forall j :: 0 <= j < i ==> s[j].id != id
    {
      if s[i].id == id {
        return Some(i);
      }
      i := i + 1;
    }
    return None;
  }

  class App {
    var actions: seq<ScoringAction>
    var score: int
    /** The ids generated when the registry was last built. */
    ghost var ids: seq<Id>

    /** The application holds the built-in registry, built from distinct ids,
        with counts its widgets stored. */
    ghost predicate Valid()
      reads this
    {
      |ids| == AppDefaults.COUNT &&
      (forall i, j :: 0 <= i < j < |ids| ==> ids[i] != ids[j]) &&
      AppDefaults.Reachable(ids, actions)
    }

    /** `TemplateApp::default()`: the built-in registry and score 0. */
    constructor (ids: seq<Id>)
      requires |ids| == AppDefaults.COUNT
      requires forall i, j :: 0 <= i < j < |ids| ==> ids[i] != ids[j]
      ensures Valid() && this.ids == ids
      ensures actions == AppDefaults.DefaultActions(ids) && score == 0
    {
      var built := AppDefaults.InitializeDefaultActions(ids);
      actions := built;
      score := 0;
      this.ids := ids;
      AppDefaults.DefaultReachable(ids);
    }

    /** "Reset Actions": the registry is rebuilt from the defaults, whatever the
        counts were, and the score goes back to 0. */
    method Reset(newIds: seq<Id>)
      requires |newIds| == AppDefaults.COUNT
      requires forall i, j :: 0 <= i < j < |newIds| ==> newIds[i] != newIds[j]
      modifies this
      ensures Valid() && ids == newIds
      ensures actions == AppDefaults.DefaultActions(newIds) && score == 0
    {
      actions := AppDefaults.InitializeDefaultActions(newIds);
      score := 0;
      ids := newIds;
      AppDefaults.DefaultReachable(newIds);
    }

    /** A widget stores count `c` into the action with id `id`; the count is
        one that action's widget can produce. Only that action's count
        changes. */
    method SetCount(id: Id, c: int)
      requires Valid()
      requires exists k :: 0 <= k < |actions| && actions[k].id == id
      requires forall k :: 0 <= k < |actions| && actions[k].id == id ==> ValidCount(actions[k], c)
      modifies this
      ensures Valid() && ids == old(ids) && score == old(score)
      ensures |actions| == |old(actions)|
      ensures forall k :: 0 <= k < |actions| ==>
        actions[k] == if old(actions)[k].id == id then old(actions)[k].(count := c) else old(actions)[k]
    {
      ReachableIsRegistry(ids, actions);
      var r := FindById(actions, id);
      var k := r.value;
      assert ControlFor(actions[k].(count := c)) == ControlFor(actions[k]);
      actions := actions[k := actions[k].(count := c)];
    }

    /** "Calculate": the score becomes the sum of all contributions. The sum is
        carried in 32 bits, where it cannot overflow; it lies between 0 and
        149. */
    method Calculate()
      requires Valid()
      modifies this
      ensures Valid() && actions == old(actions) && ids == old(ids)
      ensures AllInBounds(actions) && score == Score(actions)
      ensures 0 <= score <= 149
    {
      ReachableIsRegistry(ids, actions);
      RegistryInBounds(actions);
      WideNeverOverflows(actions);
      AppDefaults.ReachableScoreRange(ids, actions);
      score := CheckedScore(actions, I32).value;
    }
  }
}
