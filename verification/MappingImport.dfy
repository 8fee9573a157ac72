/** Copying ledger mappings from another engagement: the counting loop of `import_mappings`
    (app/routers/auditease.py) and the planner behind it (app/services/mapping_import.py). */
module MappingImport {
  import opened Prelude

  type Id = nat

  datatype Assignment = Assignment(source: Id, target: Id, group: Id)
  datatype Tally = Tally(updated: nat, alreadyCorrect: nat, preserved: nat)

  /** A table's `mapped_group_id` column. */
  type Mapping = map<Id, Option<Id>>

  function Sources(plan: seq<Assignment>): set<Id> {
    set a | a in plan :: a.source
  }

  function Targets(plan: seq<Assignment>): set<Id> {
    set a | a in plan :: a.target
  }

  /** The three cardinality checks that guard the write. */
  predicate Checked(plan: seq<Assignment>, sourceCount: nat) {
    && |plan| <= sourceCount
    && |Sources(plan)| == |plan|
    && |Targets(plan)| == |plan|
  }

  /** Without overwrite a mapped target keeps its group; otherwise it takes the assigned one. */
  function Settled(current: Option<Id>, group: Id, overwrite: bool): Option<Id> {
    if current.Some? && !overwrite then current else Some(group)
  }

  function ApplyOne(m: Mapping, t: Tally, a: Assignment, overwrite: bool): (Mapping, Tally)
    requires a.target in m
  {
    if m[a.target].Some? && !overwrite then (m, t.(preserved := t.preserved + 1))
    else if m[a.target] == Some(a.group) then (m, t.(alreadyCorrect := t.alreadyCorrect + 1))
    else (m[a.target := Some(a.group)], t.(updated := t.updated + 1))
  }

  function Apply(m: Mapping, plan: seq<Assignment>, overwrite: bool): (r: (Mapping, Tally))
    requires Targets(plan) <= m.Keys
    ensures r.0.Keys == m.Keys
  {
    if plan == [] then (m, Tally(0, 0, 0))
    else
      assert forall x :: x in plan[..|plan| - 1] ==> x in plan;
      var (m', t) := Apply(m, plan[..|plan| - 1], overwrite);
      assert plan[|plan| - 1] in plan;
      ApplyOne(m', t, plan[|plan| - 1], overwrite)
  }

  /** The loop of `import_mappings`, with its three counters. */
  method ApplyAssignments(m: Mapping, plan: seq<Assignment>, overwrite: bool)
    returns (mapped: Mapping, updated: nat, alreadyCorrect: nat, preserved: nat)
    requires Targets(plan) <= m.Keys
    ensures (mapped, Tally(updated, alreadyCorrect, preserved)) == Apply(m, plan, overwrite)
  {
    mapped, updated, alreadyCorrect, preserved := m, 0, 0, 0;
    for i := 0 to |plan|
      invariant Targets(plan[..i]) <= m.Keys && mapped.Keys == m.Keys
      invariant (mapped, Tally(updated, alreadyCorrect, preserved)) == Apply(m, plan[..i], overwrite)
    {
      var a := plan[i];
      assert a in plan && a.target in Targets(plan);
      assert plan[..i + 1][..i] == plan[..i];
      assert forall x :: x in plan[..i + 1] ==> x in plan;
      if mapped[a.target].Some? && !overwrite {
        preserved := preserved + 1;
        continue;
      }
      if mapped[a.target] == Some(a.group) {
        alreadyCorrect := alreadyCorrect + 1;
      } else {
        mapped := mapped[a.target := Some(a.group)];
        updated := updated + 1;
      }
    }
    assert plan[..|plan|] == plan;
  }

  // ---------------------------------------------------------------- sizes and distinctness

  predicate DistinctTargets(plan: seq<Assignment>) {
    forall i, j :: 0 <= i < j < |plan| ==> plan[i].target != plan[j].target
  }

  predicate DistinctSources(plan: seq<Assignment>) {
    forall i, j :: 0 <= i < j < |plan| ==> plan[i].source != plan[j].source
  }

  lemma TargetAt(plan: seq<Assignment>, t: Id)
    ensures t in Targets(plan) <==> exists k :: 0 <= k < |plan| && plan[k].target == t
  {
    if t in Targets(plan) {
      var x :| x in plan && x.target == t;
      var k :| 0 <= k < |plan| && plan[k] == x;
      assert plan[k].target == t;
    }
    if k :| 0 <= k < |plan| && plan[k].target == t { assert plan[k] in plan; }
  }

  lemma DistinctSnoc(init: seq<Assignment>, a: Assignment)
    ensures DistinctTargets(init + [a]) <==> DistinctTargets(init) && a.target !in Targets(init)
  {
    TargetAt(init, a.target);
    var plan := init + [a];
    if DistinctTargets(plan) {
      forall i, j | 0 <= i < j < |init| ensures init[i].target != init[j].target { assert plan[i].target != plan[j].target; }
      forall k | 0 <= k < |init| ensures init[k].target != a.target { assert plan[k].target != plan[|init|].target; }
    }
  }

  lemma TargetsSnoc(init: seq<Assignment>, a: Assignment)
    ensures Targets(init + [a]) == Targets(init) + {a.target}
  {
    assert forall x :: x in init + [a] <==> x in init || x == a;
  }

  lemma {:induction false} TargetSetSize(plan: seq<Assignment>)
    ensures |Targets(plan)| <= |plan|
    ensures |Targets(plan)| == |plan| <==> DistinctTargets(plan)
    decreases |plan|
  {
    if plan == [] {
      assert Targets(plan) == {};
    } else {
      var init, a := plan[..|plan| - 1], plan[|plan| - 1];
      TargetSetSize(init);
      assert plan == init + [a];
      DistinctSnoc(init, a);
      TargetsSnoc(init, a);
    }
  }

  lemma SourceSetSize(plan: seq<Assignment>)
    ensures |Sources(plan)| == |plan| <==> DistinctSources(plan)
  {
    var swapped := seq(|plan|, i requires 0 <= i < |plan| => Assignment(plan[i].target, plan[i].source, plan[i].group));
    assert Targets(swapped) == Sources(plan) by {
      forall x | x in Sources(plan) ensures x in Targets(swapped) {
        var k :| 0 <= k < |plan| && plan[k].source == x;
        assert swapped[k] in swapped;
      }
    }
    TargetSetSize(swapped);
    assert forall i :: 0 <= i < |plan| ==> swapped[i].target == plan[i].source;
    if DistinctTargets(swapped) {
      forall i, j | 0 <= i < j < |plan| ensures plan[i].source != plan[j].source {
        assert swapped[i].target != swapped[j].target;
      }
    }
  }

  /** The size checks hold exactly when the plan is one-to-one and no longer than the sources. */
  lemma ChecksMeanOneToOne(plan: seq<Assignment>, sourceCount: nat)
    ensures Checked(plan, sourceCount) <==>
            |plan| <= sourceCount && DistinctSources(plan) && DistinctTargets(plan)
  {
    TargetSetSize(plan);
    SourceSetSize(plan);
  }

  // ---------------------------------------------------------------- what an import does

  lemma {:induction false} CountsAddUp(m: Mapping, plan: seq<Assignment>, overwrite: bool)
    requires Targets(plan) <= m.Keys
    ensures var t := Apply(m, plan, overwrite).1; t.updated + t.alreadyCorrect + t.preserved == |plan|
    decreases |plan|
  {
    if plan != [] {
      assert forall x :: x in plan[..|plan| - 1] ==> x in plan;
      CountsAddUp(m, plan[..|plan| - 1], overwrite);
    }
  }

  lemma {:induction false} UnassignedKept(m: Mapping, plan: seq<Assignment>, overwrite: bool, x: Id)
    requires Targets(plan) <= m.Keys && x in m && x !in Targets(plan)
    ensures Apply(m, plan, overwrite).0[x] == m[x]
    decreases |plan|
  {
    if plan != [] {
      var n := |plan| - 1;
      assert forall y :: y in plan[..n] ==> y in plan;
      assert plan[n] in plan && plan[n].target in Targets(plan);
      UnassignedKept(m, plan[..n], overwrite, x);
    }
  }

  /** The targets that keep the group they had, those that have the assigned one already, and those
      that get it. */
  function Kept(m: Mapping, plan: seq<Assignment>, overwrite: bool): set<Id> {
    set a | a in plan && a.target in m && m[a.target].Some? && !overwrite :: a.target
  }

  function Right(m: Mapping, plan: seq<Assignment>, overwrite: bool): set<Id> {
    set a | a in plan && a.target in m && overwrite && m[a.target] == Some(a.group) :: a.target
  }

  function Changed(m: Mapping, plan: seq<Assignment>, overwrite: bool): set<Id> {
    set a | a in plan && a.target in m && m[a.target] != Some(a.group) && (overwrite || m[a.target].None?) :: a.target
  }

  lemma CasesOneMore(m: Mapping, init: seq<Assignment>, a: Assignment, overwrite: bool)
    requires Targets(init + [a]) <= m.Keys && a.target !in Targets(init)
    ensures a.target in m && Targets(init) <= m.Keys
    ensures Kept(m, init + [a], overwrite) ==
            Kept(m, init, overwrite) + if m[a.target].Some? && !overwrite then {a.target} else {}
    ensures Right(m, init + [a], overwrite) ==
            Right(m, init, overwrite) + if overwrite && m[a.target] == Some(a.group) then {a.target} else {}
    ensures Changed(m, init + [a], overwrite) ==
            Changed(m, init, overwrite) + if m[a.target] != Some(a.group) && (overwrite || m[a.target].None?) then {a.target} else {}
    ensures a.target !in Kept(m, init, overwrite) + Right(m, init, overwrite) + Changed(m, init, overwrite)
  {
    assert forall x :: x in init + [a] <==> x in init || x == a;
    TargetsSnoc(init, a);
  }

  /** Each counter is the number of targets in its case. */
  lemma NoCases(m: Mapping, overwrite: bool)
    ensures Kept(m, [], overwrite) == Right(m, [], overwrite) == Changed(m, [], overwrite) == {}
  {
  }

  lemma {:induction false} CountsAreCases(m: Mapping, plan: seq<Assignment>, overwrite: bool)
    requires Targets(plan) <= m.Keys && DistinctTargets(plan)
    ensures Apply(m, plan, overwrite).1 ==
            Tally(|Changed(m, plan, overwrite)|, |Right(m, plan, overwrite)|, |Kept(m, plan, overwrite)|)
    decreases |plan|
  {
    hide Kept, Right, Changed, DistinctTargets, Targets;
    if plan == [] {
      NoCases(m, overwrite);
    } else {
      var init, a := plan[..|plan| - 1], plan[|plan| - 1];
      assert plan == init + [a];
      DistinctSnoc(init, a);
      CasesOneMore(m, init, a, overwrite);
      CountsAreCases(m, init, overwrite);
      UnassignedKept(m, init, overwrite, a.target);
    }
  }

  lemma ApplyOneSettles(m: Mapping, t: Tally, a: Assignment, overwrite: bool, x: Id)
    requires a.target in m && x in m
    ensures ApplyOne(m, t, a, overwrite).0.Keys == m.Keys
    ensures ApplyOne(m, t, a, overwrite).0[x] == if x == a.target then Settled(m[x], a.group, overwrite) else m[x]
  {
  }

  lemma {:induction false} AssignedSettled(m: Mapping, plan: seq<Assignment>, overwrite: bool, i: nat)
    requires Targets(plan) <= m.Keys && DistinctTargets(plan) && i < |plan|
    ensures plan[i].target in m
    ensures Apply(m, plan, overwrite).0[plan[i].target] == Settled(m[plan[i].target], plan[i].group, overwrite)
    decreases |plan|
  {
    var n := |plan| - 1;
    var init, last, x := plan[..n], plan[n], plan[i].target;
    assert plan == init + [last];
    TargetsSnoc(init, last);
    DistinctSnoc(init, last);
    TargetAt(plan, x);
    var (m', t) := Apply(m, init, overwrite);
    ApplyOneSettles(m', t, last, overwrite, x);
    if i < n {
      AssignedSettled(m, init, overwrite, i);
      TargetAt(init, x);
    } else {
      UnassignedKept(m, init, overwrite, x);
    }
  }

  /** Main theorem. A checked import conserves its counts within the number of sources, leaves
      every unassigned target and - without overwrite - every mapped one alone, gives every
      other assigned target its group, and applying the same plan again updates nothing. */
  lemma ImportConservesCounts(m: Mapping, plan: seq<Assignment>, overwrite: bool, sourceCount: nat)
    requires Targets(plan) <= m.Keys && Checked(plan, sourceCount)
    ensures var (m', t) := Apply(m, plan, overwrite);
            && t.updated + t.alreadyCorrect + t.preserved == |plan| <= sourceCount
            && m'.Keys == m.Keys
            && (forall x :: x in m && x !in Targets(plan) ==> m'[x] == m[x])
            && (forall x :: x in m && m[x].Some? && !overwrite ==> m'[x] == m[x])
            && (forall a :: a in plan && (overwrite || m[a.target].None?) ==> m'[a.target] == Some(a.group))
            && Apply(m', plan, overwrite).0 == m'
            && Apply(m', plan, overwrite).1.updated == 0
  {
    ChecksMeanOneToOne(plan, sourceCount);
    CountsAddUp(m, plan, overwrite);
    var m' := Apply(m, plan, overwrite).0;
    forall x | x in m && x !in Targets(plan) ensures m'[x] == m[x] { UnassignedKept(m, plan, overwrite, x); }
    forall i | 0 <= i < |plan|
      ensures plan[i].target in m && m'[plan[i].target] == Settled(m[plan[i].target], plan[i].group, overwrite)
    {
      AssignedSettled(m, plan, overwrite, i);
    }
    NothingLeftToDo(m', plan, overwrite);
  }

  lemma {:induction false} NothingLeftToDo(m: Mapping, plan: seq<Assignment>, overwrite: bool)
    requires Targets(plan) <= m.Keys
    requires forall i :: 0 <= i < |plan| ==>
               m[plan[i].target].Some? && (overwrite ==> m[plan[i].target] == Some(plan[i].group))
    ensures Apply(m, plan, overwrite).0 == m && Apply(m, plan, overwrite).1.updated == 0
    decreases |plan|
  {
    if plan != [] {
      var n := |plan| - 1;
      assert forall x :: x in plan[..n] ==> x in plan;
      assert forall i :: 0 <= i < n ==> plan[..n][i] == plan[i];
      NothingLeftToDo(m, plan[..n], overwrite);
    }
  }

  /** The checks carry the last claim: an unchecked plan that names a target twice with two
      groups keeps updating it on every application. */
  lemma UncheckedPlanNeverSettles()
    ensures var plan := [Assignment(1, 9, 5), Assignment(2, 9, 6)];
            !Checked(plan, 2) && forall g: Option<Id> :: Apply(map[9 := g], plan, true).1.updated > 0
  {
    var plan := [Assignment(1, 9, 5), Assignment(2, 9, 6)];
    TargetSetSize(plan);
    assert plan[0].target == plan[1].target;
    forall g: Option<Id>
      ensures Apply(map[9 := g], plan, true).1.updated > 0
    {
      var one := [Assignment(1, 9, 5)];
      assert plan[..1] == one && one[..0] == [];
      var m := map[9 := g];
      assert Apply(m, [], true) == (m, Tally(0, 0, 0));
      assert Apply(m, one, true).0[9] == Some(5);
    }
  }
}
