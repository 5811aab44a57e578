/** The count-range rule of the calculator's action list (src/app.rs:132-150):
    which widget an action gets, and therefore which counts the user can write
    into it. The widgets themselves are not modelled; only the values they
    can store. */
module Controls {
  import opened Actions
  import opened Scoring

  /** The widget shown for one action. A slider over `0..=hi` with `hi < 0`
      runs from high to low and stores the values of `hi..=0`. */
  datatype Control =
    | StagedSlider(hi: int)   // slider over 0..=hi, hi derived from the table length
    | LinearSlider(hi: int)   // slider over 0..=maxCount
    | Checkbox                // stores 1 when ticked, 0 when cleared
    | RangeOverflow           // `len as i8 - 1` overflows: the frame panics before a widget is shown

  /** The upper end `len as i8 - 1` of a staged slider, as an integer. */
  function StagedBound(n: nat): int {
    WrapI8(n) - 1
  }

  /** A staged action with a non-empty table gets a slider up to
      `len as i8 - 1` (an `i8` subtraction that panics when it overflows);
      otherwise a point value above 1 gets a slider up to `maxCount`;
      everything else gets a checkbox. */
  function ControlFor(a: ScoringAction): (r: Control)
    ensures r.StagedSlider? ==> IsStaged(a) && IsI8(r.hi) && r.hi < |a.pointStages|
    ensures r.LinearSlider? ==> !IsStaged(a) && r.hi == a.maxCount
    ensures r.RangeOverflow? <==> IsStaged(a) && |a.pointStages| != 0 && WrapI8(|a.pointStages|) == I8_MIN
  {
    if IsStaged(a) && |a.pointStages| != 0 then
      var hi := StagedBound(|a.pointStages|);
      if IsI8(hi) then StagedSlider(hi) else RangeOverflow
    else if a.pointValue > 1 then LinearSlider(a.maxCount)
    else Checkbox
  }

  function Min(x: int, y: int): int {
    if x <= y then x else y
  }

  function Max(x: int, y: int): int {
    if x <= y then y else x
  }

  /** The widget can store value `v`. */
  predicate Writes(c: Control, v: int) {
    match c
    case StagedSlider(hi) => Min(0, hi) <= v <= Max(0, hi)
    case LinearSlider(hi) => Min(0, hi) <= v <= Max(0, hi)
    case Checkbox => v == 0 || v == 1
    case RangeOverflow => false
  }

  /** `c` is a count the interaction layer can give action `a`. */
  predicate ValidCount(a: ScoringAction, c: int) {
    Writes(ControlFor(a), c)
  }

  /** A staged action whose widget can store a count outside its table: an
      empty table falls through to the checkbox, whose 0 already indexes past
      it; a table whose length read as `i8` lies in -127..=0 (e.g. 129 to 256
      entries) gets a reversed slider that stores negative counts. */
  predicate UnsafeTable(a: ScoringAction) {
    IsStaged(a) && (|a.pointStages| == 0 || -127 <= WrapI8(|a.pointStages|) <= 0)
  }

  /** The staged slider never stores a count at or beyond the table's end. For
      tables of 1 to 127 entries it stores exactly the table's indices; for
      other lengths it either panics or reaches negative counts. */
  lemma StagedSliderRange(a: ScoringAction, c: int)
    requires IsStaged(a) && |a.pointStages| != 0
    ensures ValidCount(a, c) ==> c < |a.pointStages|
    ensures |a.pointStages| <= I8_MAX ==> (ValidCount(a, c) <==> 0 <= c < |a.pointStages|)
    ensures UnsafeTable(a) <==> ValidCount(a, -1)
  {
    var n := |a.pointStages|;
    if n > I8_MAX {
      assert WrapI8(n) <= I8_MAX < n;
    }
  }

  /** A linear action with point value above 1 takes exactly the counts between
      0 and maxCount, which for a non-negative maxCount is `0..=maxCount`. */
  lemma LinearSliderRange(a: ScoringAction, c: int)
    requires !IsStaged(a) && a.pointValue > 1
    ensures ValidCount(a, c) <==> Min(0, a.maxCount) <= c <= Max(0, a.maxCount)
    ensures a.maxCount >= 0 ==> (ValidCount(a, c) <==> 0 <= c <= a.maxCount)
  {
  }

  /** Every other action (point value at most 1, or staged with an empty
      table) only ever holds 0 or 1. */
  lemma CheckboxRange(a: ScoringAction, c: int)
    requires !(IsStaged(a) && |a.pointStages| != 0) && a.pointValue <= 1
    ensures ValidCount(a, c) <==> c == 0 || c == 1
  {
  }

  /** What the widget stores fits the `i8` count field. */
  lemma ValidCountIsI8(a: ScoringAction, c: int)
    requires WellTyped(a) && ValidCount(a, c)
    ensures IsI8(c)
  {
  }

  /** Every count the interaction layer can produce keeps the evaluator in
      bounds exactly when the action has no unsafe table. */
  lemma ReachableCountsInBounds(a: ScoringAction)
    ensures (forall c :: ValidCount(a, c) ==> InBounds(a.(count := c))) <==> !UnsafeTable(a)
  {
    if IsStaged(a) && |a.pointStages| == 0 {
      assert ValidCount(a, 0) && !InBounds(a.(count := 0));
    } else if UnsafeTable(a) {
      StagedSliderRange(a, -1);
      assert ValidCount(a, -1) && !InBounds(a.(count := -1));
    } else {
      forall c | ValidCount(a, c) ensures InBounds(a.(count := c)) {
        if IsStaged(a) {
          StagedSliderRange(a, c);
        }
      }
    }
  }
}
