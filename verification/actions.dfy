/** An optional value, used for lookups that may find nothing and for
    evaluations that may stop with a panic. */
module Options {
  datatype Option<+T> = None | Some(value: T)
}

/** The scoring record of the calculator (`ScoringAction`, declared identically
    in src/app.rs and src/game.rs) and the 8-bit range its numeric fields have. */
module Actions {

  /** Opaque identifier; the source fills it with a random UUID. */
  type Id = string

  const I8_MIN := -128
  const I8_MAX := 127

  /** The value is representable as a Rust `i8`. */
  predicate IsI8(x: int) {
    I8_MIN <= x <= I8_MAX
  }

  /** Rust's `n as i8` for a length `n`: the `i8` congruent to `n` modulo 256. */
  function WrapI8(n: nat): (r: int)
    ensures IsI8(r)
    ensures (r - n) % 256 == 0
    ensures n <= I8_MAX ==> r == n
  {
    (n + 128) % 256 - 128
  }

  /** `pointValue == STAGED` selects scoring by table lookup. */
  const STAGED := -1

  datatype ScoringAction = ScoringAction(
    id: Id,
    description: string,
    name: string,
    phase: int,
    pointValue: int,      // STAGED means: score with pointStages[count]
    maxCount: int,        // upper end of the linear slider; unused when staged
    count: int,           // quantity set by the user; the table index when staged
    pointStages: seq<int>)

  predicate IsStaged(a: ScoringAction) {
    a.pointValue == STAGED
  }

  /** Every numeric field holds a value of its declared type `i8`. */
  predicate WellTyped(a: ScoringAction) {
    IsI8(a.phase) && IsI8(a.pointValue) && IsI8(a.maxCount) && IsI8(a.count) &&
    forall i :: 0 <= i < |a.pointStages| ==> IsI8(a.pointStages[i])
  }

  /** The derived `Default` of the record, given the id the UUID generator produced. */
  function DefaultAction(id: Id): (a: ScoringAction)
    ensures a.id == id && a.description == "N/A" && a.name == "" && WellTyped(a)
    ensures a.phase == 0 && a.pointValue == 0 && !IsStaged(a)
    ensures a.count == 0 && a.maxCount == 10 && a.pointStages == []
  {
    ScoringAction(id, "N/A", "", 0, 0, 10, 0, [])
  }

  /** No two actions of a registry share an id. */
  predicate DistinctIds(s: seq<ScoringAction>) {
    forall i, j :: 0 <= i < j < |s| ==> s[i].id != s[j].id
  }
}
