/** The score evaluator `scoring_processor` (src/app.rs:190-201): each action
    contributes `pointStages[count]` when staged and `pointValue * count`
    otherwise, and the contributions are summed.

    `Score` is the evaluator over mathematical integers. `CheckedScore` is the
    same fold as the source computes it in a fixed-width integer type: every
    product and every partial sum is checked, and an out-of-range table index
    or an overflow stops the evaluation (a panic), which reads as `None`. */
module Scoring {
  import opened Options
  import opened Actions

  /** Looking up this action's contribution does not index outside its table. */
  predicate InBounds(a: ScoringAction) {
    IsStaged(a) ==> 0 <= a.count < |a.pointStages|
  }

  predicate AllInBounds(s: seq<ScoringAction>) {
    forall i :: 0 <= i < |s| ==> InBounds(s[i])
  }

  /** What one action adds to the score: an entry of its table when staged,
      otherwise a product of two `i8` values, within +-2^14. */
  function Contribution(a: ScoringAction): (r: int)
    requires InBounds(a)
    ensures IsStaged(a) ==> r in a.pointStages
    ensures WellTyped(a) ==> -16384 <= r <= 16384
  {
    if IsStaged(a) then a.pointStages[a.count]
    else
      ProductBound(a);
      a.pointValue * a.count
  }

  lemma ProductBound(a: ScoringAction)
    ensures WellTyped(a) ==> -16384 <= a.pointValue * a.count <= 16384
  {
    if WellTyped(a) {
      ProductOfI8Bound(a.pointValue, a.count);
    }
  }

  /** The sum of all contributions, accumulated from the front as `sum` does.
      For `n` well-typed actions it lies within +-n * 2^14. */
  function Score(s: seq<ScoringAction>): (r: int)
    requires AllInBounds(s)
    ensures (forall i :: 0 <= i < |s| ==> WellTyped(s[i])) ==> -16384 * |s| <= r <= 16384 * |s|
  {
    if s == [] then 0 else Score(s[..|s| - 1]) + Contribution(s[|s| - 1])
  }

  lemma {:induction false} ScoreAppend(s: seq<ScoringAction>, t: seq<ScoringAction>)
    requires AllInBounds(s) && AllInBounds(t)
    ensures AllInBounds(s + t)
    ensures Score(s + t) == Score(s) + Score(t)
    decreases |t|
  {
    if t == [] {
      assert s + t == s;
    } else {
      var t' := t[..|t| - 1];
      assert (s + t)[..|s + t| - 1] == s + t';
      ScoreAppend(s, t');
    }
  }

  lemma AllInBoundsSlice(t: seq<ScoringAction>, i: nat, j: nat)
    requires AllInBounds(t) && i <= j <= |t|
    ensures AllInBounds(t[i..j])
  {
    forall m | 0 <= m < j - i ensures InBounds(t[i..j][m]) {
      assert t[i..j][m] == t[i + m];
    }
  }

  lemma ScoreSingleton(a: ScoringAction)
    requires InBounds(a)
    ensures AllInBounds([a]) && Score([a]) == Contribution(a)
  {
    assert [a][..0] == [];
  }

  lemma ScoreSplit(before: seq<ScoringAction>, x: ScoringAction, after: seq<ScoringAction>)
    requires AllInBounds(before) && InBounds(x) && AllInBounds(after)
    ensures AllInBounds(before + [x] + after) && AllInBounds(before + after)
    ensures Score(before + [x] + after) == Score(before + after) + Contribution(x)
  {
    ScoreSingleton(x);
    ScoreAppend(before, after);
    ScoreAppend(before, [x]);
    ScoreAppend(before + [x], after);
  }

  lemma Decompose(t: seq<ScoringAction>, k: nat)
    requires k < |t|
    ensures t == t[..k] + [t[k]] + t[k + 1..]
  {
  }

  /** Taking one action out of the registry takes its contribution out of the score. */
  lemma ScoreRemove(t: seq<ScoringAction>, k: nat)
    requires AllInBounds(t) && k < |t|
    ensures AllInBounds(t[..k] + t[k + 1..])
    ensures Score(t) == Score(t[..k] + t[k + 1..]) + Contribution(t[k])
  {
    var before, x, after := t[..k], t[k], t[k + 1..];
    Decompose(t, k);
    AllInBoundsSlice(t, 0, k);
    AllInBoundsSlice(t, k + 1, |t|);
    ScoreSplit(before, x, after);
  }

  lemma ScoreCons(a: ScoringAction, s: seq<ScoringAction>)
    requires InBounds(a) && AllInBounds(s)
    ensures AllInBounds([a] + s) && Score([a] + s) == Contribution(a) + Score(s)
  {
    ScoreSingleton(a);
    ScoreAppend([a], s);
  }

  lemma MultisetRemove(t: seq<ScoringAction>, k: nat)
    requires k < |t|
    ensures multiset(t[..k] + t[k + 1..]) == multiset(t) - multiset{t[k]}
  {
    Decompose(t, k);
  }

  lemma ScoreLast(s: seq<ScoringAction>)
    requires s != [] && AllInBounds(s)
    ensures AllInBounds(s[..|s| - 1]) && Score(s) == Score(s[..|s| - 1]) + Contribution(s[|s| - 1])
  {
  }

  lemma MultisetStep(s: seq<ScoringAction>, t: seq<ScoringAction>, k: nat)
    requires multiset(s) == multiset(t)
    requires s != [] && k < |t| && t[k] == s[|s| - 1]
    ensures multiset(s[..|s| - 1]) == multiset(t[..k] + t[k + 1..])
  {
    MultisetRemove(s, |s| - 1);
    assert s[..|s| - 1] + s[|s|..] == s[..|s| - 1];
    MultisetRemove(t, k);
  }

  /** The score does not depend on the order of the registry. */
  lemma {:induction false} ScorePermutation(s: seq<ScoringAction>, t: seq<ScoringAction>)
    requires AllInBounds(s) && AllInBounds(t)
    requires multiset(s) == multiset(t)
    ensures Score(s) == Score(t)
    decreases |s|
  {
    if s == [] {
      assert |t| == |multiset(t)| == 0;
    } else {
      assert s[|s| - 1] in multiset(t);
      var k :| 0 <= k < |t| && t[k] == s[|s| - 1];
      MultisetStep(s, t, k);
      ScoreLast(s);
      ScoreRemove(t, k);
      ScorePermutation(s[..|s| - 1], t[..k] + t[k + 1..]);
    }
  }

  /** A registry whose counts are all 0, and whose staged tables start with 0,
      scores 0. */
  lemma {:induction false} ScoreZeroCounts(s: seq<ScoringAction>)
    requires forall i :: 0 <= i < |s| ==> s[i].count == 0
    requires forall i :: 0 <= i < |s| && IsStaged(s[i]) ==> |s[i].pointStages| > 0 && s[i].pointStages[0] == 0
    ensures AllInBounds(s) && Score(s) == 0
  {
    if s != [] {
      ScoreZeroCounts(s[..|s| - 1]);
    }
  }

  /** The integer types the fold can be carried out in: the source's `i8`, and
      the 32-bit accumulator the corrected evaluator uses. */
  datatype Width = I8 | I32

  function MinOf(w: Width): int {
    match w
    case I8 => I8_MIN
    case I32 => -0x8000_0000
  }

  function MaxOf(w: Width): int {
    match w
    case I8 => I8_MAX
    case I32 => 0x7FFF_FFFF
  }

  predicate Fits(w: Width, x: int) {
    MinOf(w) <= x <= MaxOf(w)
  }

  /** The linear product of the action does not overflow width `w`. */
  predicate ProductFits(a: ScoringAction, w: Width) {
    IsStaged(a) || Fits(w, a.pointValue * a.count)
  }

  /** The conditions under which the checked fold completes: at every step the
      lookup is in bounds, the product fits and so does the running total. */
  predicate SafeToSum(s: seq<ScoringAction>, w: Width)
    decreases |s|
  {
    s == [] ||
    (SafeToSum(s[..|s| - 1], w) && InBounds(s[|s| - 1]) && ProductFits(s[|s| - 1], w) &&
     AllInBounds(s) && Fits(w, Score(s)))
  }

  /** The closure of `scoring_processor` for one action, in width `w`: an index
      outside the table or an overflowing product panics. */
  function CheckedContribution(a: ScoringAction, w: Width): (r: Option<int>)
    ensures r.Some? <==> InBounds(a) && ProductFits(a, w)
    ensures r.Some? ==> r.value == Contribution(a)
  {
    if IsStaged(a) then
      if 0 <= a.count < |a.pointStages| then Some(a.pointStages[a.count]) else None
    else
      var p := a.pointValue * a.count;
      if Fits(w, p) then Some(p) else None
  }

  /** A fold that completes has every partial sum representable. */
  lemma {:induction false} SafeToSumPrefixes(s: seq<ScoringAction>, w: Width, k: nat)
    requires SafeToSum(s, w) && 0 < k <= |s|
    ensures AllInBounds(s[..k]) && Fits(w, Score(s[..k]))
  {
    assert s[..|s|] == s;
    if k < |s| {
      var init := s[..|s| - 1];
      SafeToSumPrefixes(init, w, k);
      assert init[..k] == s[..k];
    }
  }

  /** `scoring_processor` evaluated in width `w`, with the overflow checks of a
      debug build: `None` when it would panic. It completes exactly when
      `SafeToSum` holds, and then yields `Score`. */
  function CheckedScore(s: seq<ScoringAction>, w: Width): (r: Option<int>)
    ensures r.Some? <==> SafeToSum(s, w)
    ensures r.Some? ==> AllInBounds(s) && r.value == Score(s) && Fits(w, r.value)
  {
    if s == [] then Some(0)
    else
      match CheckedScore(s[..|s| - 1], w)
      case None => None
      case Some(acc) =>
        match CheckedContribution(s[|s| - 1], w)
        case None => None
        case Some(c) => if Fits(w, acc + c) then Some(acc + c) else None
  }

  lemma MulNonneg(a: int, b: int)
    requires 0 <= a && 0 <= b
    ensures 0 <= a * b
  {
  }

  lemma MulUpTo128(p: int, q: int)
    requires 0 <= p <= 128 && 0 <= q <= 128
    ensures p * q <= 16384
  {
    MulNonneg(128 - p, q);
    MulNonneg(128 - q, 128);
    assert (128 - p) * q == 128 * q - p * q;
  }

  /** A product of two `i8` values lies within +-2^14. */
  lemma ProductOfI8Bound(x: int, y: int)
    requires IsI8(x) && IsI8(y)
    ensures -16384 <= x * y <= 16384
  {
    var p := if x < 0 then -x else x;
    var q := if y < 0 then -y else y;
    MulUpTo128(p, q);
    MulNonneg(p, q);
    assert x * y == p * q || x * y == -(p * q);
  }

  /** With a 32-bit accumulator the fold never panics on a registry of
      well-typed, in-bounds actions of any size up to 131071, and yields the
      mathematical score. */
  lemma {:induction false} WideNeverOverflows(s: seq<ScoringAction>)
    requires forall i :: 0 <= i < |s| ==> WellTyped(s[i])
    requires AllInBounds(s)
    requires |s| <= 131071
    ensures CheckedScore(s, I32) == Some(Score(s))
  {
    if s != [] {
      var last := s[|s| - 1];
      WideNeverOverflows(s[..|s| - 1]);
      if !IsStaged(last) {
        ProductOfI8Bound(last.pointValue, last.count);
      }
      assert 16384 * |s| <= 16384 * 131071;
    }
  }

  /** Where the checked fold completes on two orderings of the same actions,
      it yields the same value. */
  lemma CheckedScoreOrder(s: seq<ScoringAction>, t: seq<ScoringAction>, w: Width)
    requires multiset(s) == multiset(t)
    requires CheckedScore(s, w).Some? && CheckedScore(t, w).Some?
    ensures CheckedScore(s, w) == CheckedScore(t, w)
  {
    ScorePermutation(s, t);
  }

  /** Whether the `i8` fold completes does depend on the order: two actions
      worth 100 and one worth -100 overflow when both 100s come first, and
      total 100 when they are separated. */
  lemma I8FoldOrderDependent()
    ensures var up, down := DefaultAction("up").(pointValue := 10, count := 10),
                            DefaultAction("down").(pointValue := -10, count := 10);
      multiset([up, up, down]) == multiset([up, down, up]) &&
      CheckedScore([up, up, down], I8) == None && CheckedScore([up, down, up], I8) == Some(100)
  {
    var up, down := DefaultAction("up").(pointValue := 10, count := 10),
                    DefaultAction("down").(pointValue := -10, count := 10);
    assert CheckedContribution(up, I8) == Some(100) && CheckedContribution(down, I8) == Some(-100);
    assert [up][..0] == [];
    assert CheckedScore([up], I8) == Some(100);
    assert [up, up][..1] == [up];
    assert CheckedScore([up, up], I8) == None;
    assert [up, up, down][..2] == [up, up];
    assert [up, down][..1] == [up];
    assert CheckedScore([up, down], I8) == Some(0);
    assert [up, down, up][..2] == [up, down];
  }
}
