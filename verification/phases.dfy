/** Grouping of the registry by phase (src/app.rs:101-110): the distinct
    phases in order of first occurrence (itertools' `unique`), then, per phase,
    a copy of the registry with only that phase's actions kept (`retain`). */
module PhaseGrouping {
  import opened Actions

  predicate NoDuplicates<T(==)>(xs: seq<T>) {
    forall i, j :: 0 <= i < j < |xs| ==> xs[i] != xs[j]
  }

  /** The position of the first occurrence of `x`. */
  function FirstIndex<T(==)>(xs: seq<T>, x: T): (k: nat)
    requires x in xs
    ensures k < |xs| && xs[k] == x && x !in xs[..k]
  {
    if xs[0] == x then 0
    else
      var k := FirstIndex(xs[1..], x);
      assert xs[..k + 1] == [xs[0]] + xs[1..][..k];
      1 + k
  }

  /** The distinct elements of `xs`, each kept at its first occurrence. */
  function Unique(xs: seq<int>): (u: seq<int>)
    ensures NoDuplicates(u)
    ensures forall x :: x in u <==> x in xs
  {
    if xs == [] then []
    else
      var init, last := xs[..|xs| - 1], xs[|xs| - 1];
      assert xs == init + [last];
      var u := Unique(init);
      if last in u then u else u + [last]
  }

  lemma FirstIndexIs<T>(xs: seq<T>, x: T, k: nat)
    requires k < |xs| && xs[k] == x && x !in xs[..k]
    ensures FirstIndex(xs, x) == k
  {
  }

  lemma FirstIndexOfPrefix<T>(xs: seq<T>, m: nat, x: T)
    requires m <= |xs| && x in xs[..m]
    ensures x in xs && FirstIndex(xs, x) == FirstIndex(xs[..m], x)
  {
    var k := FirstIndex(xs[..m], x);
    assert xs[..m][..k] == xs[..k];
    FirstIndexIs(xs, x, k);
  }

  /** An element `Unique` appends for the last position comes after all
      elements it already listed. */
  lemma UniqueNewLast(xs: seq<int>, i: nat)
    requires xs != [] && xs[|xs| - 1] !in Unique(xs[..|xs| - 1])
    requires i < |Unique(xs[..|xs| - 1])|
    ensures Unique(xs) == Unique(xs[..|xs| - 1]) + [xs[|xs| - 1]]
    ensures FirstIndex(xs, Unique(xs)[i]) < FirstIndex(xs, xs[|xs| - 1]) == |xs| - 1
  {
    var n := |xs|;
    var u' := Unique(xs[..n - 1]);
    FirstIndexIs(xs, xs[n - 1], n - 1);
    assert Unique(xs)[i] == u'[i];
    FirstIndexOfPrefix(xs, n - 1, u'[i]);
  }

  /** An element `Unique` listed for the shorter sequence keeps its position
      and its first occurrence. */
  lemma UniqueKeepsEntry(xs: seq<int>, i: nat)
    requires xs != [] && i < |Unique(xs[..|xs| - 1])|
    ensures i < |Unique(xs)| && Unique(xs)[i] == Unique(xs[..|xs| - 1])[i]
    ensures FirstIndex(xs, Unique(xs)[i]) == FirstIndex(xs[..|xs| - 1], Unique(xs)[i])
  {
    FirstIndexOfPrefix(xs, |xs| - 1, Unique(xs[..|xs| - 1])[i]);
  }

  /** `Unique` lists the elements in the order in which they first occur. */
  lemma {:induction false} UniqueFirstOccurrenceOrder(xs: seq<int>, i: nat, j: nat)
    requires i < j < |Unique(xs)|
    ensures FirstIndex(xs, Unique(xs)[i]) < FirstIndex(xs, Unique(xs)[j])
  {
    if j < |Unique(xs[..|xs| - 1])| {
      UniqueKeepsEntry(xs, i);
      UniqueKeepsEntry(xs, j);
      UniqueFirstOccurrenceOrder(xs[..|xs| - 1], i, j);
    } else {
      UniqueNewLast(xs, i);
    }
  }

  /** The phase of every action, in registry order. */
  function PhaseList(s: seq<ScoringAction>): (ps: seq<int>)
    ensures |ps| == |s| && forall i :: 0 <= i < |s| ==> ps[i] == s[i].phase
  {
    if s == [] then [] else PhaseList(s[..|s| - 1]) + [s[|s| - 1].phase]
  }

  /** The phases shown as sections, in the order the registry first mentions them. */
  function Phases(s: seq<ScoringAction>): (ps: seq<int>)
    ensures NoDuplicates(ps)
    ensures forall i :: 0 <= i < |s| ==> s[i].phase in ps
  {
    Unique(PhaseList(s))
  }

  /** Only phases some action carries are listed. */
  lemma PhasesPresent(s: seq<ScoringAction>, p: int)
    requires p in Phases(s)
    ensures exists i :: 0 <= i < |s| && s[i].phase == p
  {
    var ps := PhaseList(s);
    var i :| 0 <= i < |ps| && ps[i] == p;
    assert s[i].phase == p;
  }

  /** The registry with only the actions of phase `p` kept, in their order. */
  function InPhase(s: seq<ScoringAction>, p: int): (g: seq<ScoringAction>)
    ensures forall a :: a in g <==> a in s && a.phase == p
  {
    if s == [] then []
    else
      var init, last := s[..|s| - 1], s[|s| - 1];
      assert s == init + [last];
      InPhase(init, p) + (if last.phase == p then [last] else [])
  }

  /** One group per phase of `ps`, in that order. */
  function GroupsOf(s: seq<ScoringAction>, ps: seq<int>): (gs: seq<seq<ScoringAction>>)
    ensures |gs| == |ps|
  {
    if ps == [] then [] else [InPhase(s, ps[0])] + GroupsOf(s, ps[1..])
  }

  lemma {:induction false} GroupsOfAt(s: seq<ScoringAction>, ps: seq<int>, k: nat)
    requires k < |ps|
    ensures GroupsOf(s, ps)[k] == InPhase(s, ps[k])
  {
    if k > 0 {
      GroupsOfAt(s, ps[1..], k - 1);
    }
  }

  /** The sections: one group per listed phase. */
  function PhaseGroups(s: seq<ScoringAction>): (gs: seq<seq<ScoringAction>>)
    ensures |gs| == |Phases(s)|
  {
    GroupsOf(s, Phases(s))
  }

  /** The groups laid end to end, as the sections list them. */
  function Flatten(gs: seq<seq<ScoringAction>>): seq<ScoringAction> {
    if gs == [] then [] else gs[0] + Flatten(gs[1..])
  }

  lemma {:induction false} FlattenGroupsEmpty(ps: seq<int>)
    ensures Flatten(GroupsOf([], ps)) == []
  {
    if ps != [] {
      FlattenGroupsEmpty(ps[1..]);
    }
  }

  lemma InPhaseSnoc(s: seq<ScoringAction>, a: ScoringAction, p: int)
    ensures InPhase(s + [a], p) == InPhase(s, p) + (if a.phase == p then [a] else [])
  {
    var t := s + [a];
    assert t[..|t| - 1] == s && t[|t| - 1] == a;
  }

  /** Appending an action to the registry appends it to the group of its own
      phase and leaves every other group as it was. */
  lemma GroupsOfSnoc(s: seq<ScoringAction>, a: ScoringAction, ps: seq<int>, k: nat)
    requires k < |ps|
    ensures GroupsOf(s + [a], ps)[k] == GroupsOf(s, ps)[k] + (if a.phase == ps[k] then [a] else [])
  {
    GroupsOfAt(s + [a], ps, k);
    GroupsOfAt(s, ps, k);
    InPhaseSnoc(s, a, ps[k]);
  }

  lemma FlattenGroupsCons(s: seq<ScoringAction>, ps: seq<int>)
    requires ps != []
    ensures multiset(Flatten(GroupsOf(s, ps))) == multiset(InPhase(s, ps[0])) + multiset(Flatten(GroupsOf(s, ps[1..])))
  {
    var gs := GroupsOf(s, ps);
    assert gs[1..] == GroupsOf(s, ps[1..]);
  }

  function Once(a: ScoringAction, present: bool): multiset<ScoringAction> {
    if present then multiset{a} else multiset{}
  }

  lemma OnceSplit(a: ScoringAction, here: bool, later: bool)
    requires !(here && later)
    ensures Once(a, here) + Once(a, later) == Once(a, here || later)
  {
  }

  lemma Rearrange<T>(x: multiset<T>, y: multiset<T>, z: multiset<T>, w: multiset<T>)
    ensures (x + y) + (z + w) == (x + z) + (y + w)
  {
  }

  /** Appending an action to the registry adds one copy of it to the groups
      laid end to end when its phase is listed, and none otherwise. */
  lemma {:induction false} FlattenGroupsSnoc(s: seq<ScoringAction>, a: ScoringAction, ps: seq<int>)
    requires NoDuplicates(ps)
    ensures multiset(Flatten(GroupsOf(s + [a], ps))) == multiset(Flatten(GroupsOf(s, ps))) + Once(a, a.phase in ps)
  {
    if ps == [] {
      FlattenGroupsEmpty(ps);
    } else {
      var here, later := a.phase == ps[0], a.phase in ps[1..];
      InPhaseSnoc(s, a, ps[0]);
      FlattenGroupsCons(s, ps);
      FlattenGroupsCons(s + [a], ps);
      assert NoDuplicates(ps[1..]);
      FlattenGroupsSnoc(s, a, ps[1..]);
      assert here ==> !later;
      assert (a.phase in ps) == (here || later);
      OnceSplit(a, here, later);
      Rearrange(multiset(InPhase(s, ps[0])), Once(a, here), multiset(Flatten(GroupsOf(s, ps[1..]))), Once(a, later));
    }
  }

  lemma {:induction false} FlattenGroupsCover(s: seq<ScoringAction>, ps: seq<int>)
    requires NoDuplicates(ps)
    requires forall i :: 0 <= i < |s| ==> s[i].phase in ps
    ensures multiset(Flatten(GroupsOf(s, ps))) == multiset(s)
  {
    if s == [] {
      FlattenGroupsEmpty(ps);
    } else {
      var init, last := s[..|s| - 1], s[|s| - 1];
      assert s == init + [last];
      FlattenGroupsSnoc(init, last, ps);
      FlattenGroupsCover(init, ps);
      assert last.phase in ps;
    }
  }

  /** The per-phase groups partition the registry: laid end to end they hold
      every action exactly as often as the registry does. */
  lemma PhaseGroupsPartition(s: seq<ScoringAction>)
    ensures multiset(Flatten(PhaseGroups(s))) == multiset(s)
  {
    var ps := PhaseList(s);
    forall i | 0 <= i < |s| ensures s[i].phase in Phases(s) {
      assert ps[i] == s[i].phase;
    }
    FlattenGroupsCover(s, Phases(s));
  }

  /** Each group holds only actions of its own phase and is never empty, and
      every action is found in the group of its phase. */
  lemma PhaseGroupsPlacement(s: seq<ScoringAction>)
    ensures |PhaseGroups(s)| == |Phases(s)|
    ensures forall k, a :: 0 <= k < |Phases(s)| && a in PhaseGroups(s)[k] ==> a.phase == Phases(s)[k]
    ensures forall k :: 0 <= k < |Phases(s)| ==> PhaseGroups(s)[k] != []
    ensures forall i :: 0 <= i < |s| ==>
      s[i].phase in Phases(s) && s[i] in PhaseGroups(s)[FirstIndex(Phases(s), s[i].phase)]
  {
    var ps, gs := PhaseList(s), PhaseGroups(s);
    forall k | 0 <= k < |Phases(s)| ensures gs[k] == InPhase(s, Phases(s)[k]) {
      GroupsOfAt(s, Phases(s), k);
    }
    forall k | 0 <= k < |Phases(s)| ensures gs[k] != [] {
      var p := Phases(s)[k];
      assert p in ps;
      var i :| 0 <= i < |ps| && ps[i] == p;
      assert s[i] in gs[k];
    }
    forall i | 0 <= i < |s| ensures s[i].phase in Phases(s) {
      assert ps[i] == s[i].phase;
    }
  }
}
