/** app/services/mapping_import.py: the conservative one-to-one matching of target ledgers with
    the mapped ledgers of another engagement. Codes and names are already normalised; rows come
    in the order the planner sorts them into. */
module MappingPlanner {
  import opened Prelude
  import opened MappingImport

  datatype Row = Row(id: Id, code: Option<string>, name: string, group: Id)
  datatype Reason = Unmatched | SourceExhausted | IdentityDisagreement | AmbiguousSource
  datatype Verdict = Matched(source: Row) | Issue(reason: Reason)

  ghost predicate DistinctIds(rows: seq<Row>) {
    forall i, j :: 0 <= i < j < |rows| ==> rows[i].id != rows[j].id
  }

  function Filter(rows: seq<Row>, p: Row -> bool): (r: seq<Row>)
    ensures |r| <= |rows|
    ensures forall s :: s in r <==> s in rows && p(s)
  {
    if rows == [] then []
    else
      var n := |rows| - 1;
      assert rows == rows[..n] + [rows[n]];
      Filter(rows[..n], p) + (if p(rows[n]) then [rows[n]] else [])
  }

  /** Exact identity: the same non-empty code and the same name. */
  predicate SameIdentity(a: Row, b: Row) {
    a.code.Some? && a.code == b.code && a.name == b.name
  }

  function Exact(rows: seq<Row>, t: Row): seq<Row> {
    Filter(rows, (s: Row) => SameIdentity(s, t))
  }

  predicate OneGroup(rows: seq<Row>) {
    forall i :: 0 <= i < |rows| ==> rows[i].group == rows[0].group
  }

  /** Phase 1: the k-th target of an identity takes the k-th source of that identity, provided
      its sources agree on the group. `None` leaves the target to phase 2. */
  function ByIdentity(sources: seq<Row>, targets: seq<Row>, i: nat): Option<Verdict>
    requires i < |targets|
  {
    var t := targets[i];
    var exact := Exact(sources, t);
    var rank := |Exact(targets[..i], t)|;
    if exact == [] then None
    else if !OneGroup(exact) then Some(Issue(AmbiguousSource))
    else if rank < |exact| then Some(Matched(exact[rank]))
    else Some(Issue(SourceExhausted))
  }

  /** The sources the first `n` verdicts of phase 1 consumed. */
  function ConsumedIn(fixed: seq<Option<Verdict>>, n: nat): set<Id>
    requires n <= |fixed|
  {
    if n == 0 then {}
    else
      ConsumedIn(fixed, n - 1) +
      match fixed[n - 1]
      case Some(Matched(s)) => {s.id}
      case _ => {}
  }

  function ConsumedByIdentity(sources: seq<Row>, targets: seq<Row>, n: nat): set<Id>
    requires n <= |targets|
  {
    ConsumedIn(Fixed(sources, targets), n)
  }

  /** Same name, and at least one side carries no code. */
  predicate Eligible(s: Row, t: Row) {
    s.name == t.name && (s.code.None? || t.code.None?)
  }

  /** Phase 2 and the final classification of one target; `used` are the consumed source ids,
      `first` those consumed in phase 1. */
  function ByName(sources: seq<Row>, t: Row, first: set<Id>, used: set<Id>): Verdict {
    var candidates := Filter(sources, (s: Row) => Eligible(s, t) && s.id !in used);
    if candidates == [] then
      if exists s :: s in sources && Eligible(s, t) && s.id !in first then Issue(SourceExhausted)
      else if exists s :: s in sources && ((t.code.Some? && s.code == t.code) || s.name == t.name)
      then Issue(IdentityDisagreement)
      else Issue(Unmatched)
    else if !OneGroup(candidates) then Issue(AmbiguousSource)
    else Matched(candidates[0])
  }

  function VerdictOn(sources: seq<Row>, targets: seq<Row>, i: nat, used: set<Id>): Verdict
    requires i < |targets|
  {
    match ByIdentity(sources, targets, i)
    case Some(v) => v
    case None => ByName(sources, targets[i], ConsumedByIdentity(sources, targets, |targets|), used)
  }

  function Consumed(v: Verdict, used: set<Id>): set<Id> {
    if v.Matched? then used + {v.source.id} else used
  }

  /** Verdicts for the first `n` targets, and the source ids consumed in all; what phase 1
      matches was consumed from the start. */
  function Decide(sources: seq<Row>, targets: seq<Row>, n: nat): (r: (seq<Verdict>, set<Id>))
    requires n <= |targets|
    ensures |r.0| == n
  {
    if n == 0 then ([], ConsumedByIdentity(sources, targets, |targets|))
    else
      var (verdicts, used) := Decide(sources, targets, n - 1);
      var v := VerdictOn(sources, targets, n - 1, used);
      (verdicts + [v], Consumed(v, used))
  }

  function Assignments(targets: seq<Row>, verdicts: seq<Verdict>): seq<Assignment>
    requires |targets| == |verdicts|
  {
    if targets == [] then []
    else
      var n := |targets| - 1;
      Assignments(targets[..n], verdicts[..n]) +
      (if verdicts[n].Matched? then [Assignment(verdicts[n].source.id, targets[n].id, verdicts[n].source.group)] else [])
  }

  function Plan(sources: seq<Row>, targets: seq<Row>): seq<Assignment> {
    Assignments(targets, Decide(sources, targets, |targets|).0)
  }

  // ---------------------------------------------------------------- sources are used once

  lemma {:induction false} FilterDistinct(rows: seq<Row>, p: Row -> bool)
    requires DistinctIds(rows)
    ensures DistinctIds(Filter(rows, p))
    decreases |rows|
  {
    if rows != [] {
      var n := |rows| - 1;
      FilterDistinct(rows[..n], p);
      var f := Filter(rows[..n], p);
      forall i | 0 <= i < |f| ensures f[i].id != rows[n].id {
        assert f[i] in rows[..n];
        var k :| 0 <= k < n && rows[..n][k] == f[i];
        assert rows[k].id != rows[n].id;
      }
    }
  }

  /** Ranks within one identity grow strictly along the targets. */
  lemma {:induction false} RankGrows(rows: seq<Row>, p: Row -> bool, i: nat, j: nat)
    requires i < j <= |rows| && p(rows[i])
    ensures |Filter(rows[..i], p)| < |Filter(rows[..j], p)|
    decreases j
  {
    assert rows[..j][..j - 1] == rows[..j - 1];
    if j > i + 1 { RankGrows(rows, p, i, j - 1); }
  }

  lemma IdentityUsesOnce(sources: seq<Row>, targets: seq<Row>, i: nat, j: nat)
    requires DistinctIds(sources) && i < j < |targets|
    requires ByIdentity(sources, targets, i).Some? && ByIdentity(sources, targets, i).value.Matched?
    requires ByIdentity(sources, targets, j).Some? && ByIdentity(sources, targets, j).value.Matched?
    ensures ByIdentity(sources, targets, i).value.source.id != ByIdentity(sources, targets, j).value.source.id
  {
    var t, u := targets[i], targets[j];
    var s, r := ByIdentity(sources, targets, i).value.source, ByIdentity(sources, targets, j).value.source;
    assert s in Exact(sources, t) && r in Exact(sources, u);
    if s.id == r.id {
      SameIdSameRow(sources, s, r);
      assert SameIdentity(u, t);
      SameFilters(sources, targets, t, u, i, j);
      RankGrows(targets, (x: Row) => SameIdentity(x, t), i, j);
      FilterDistinct(sources, (x: Row) => SameIdentity(x, t));
    }
  }

  lemma SameIdSameRow(rows: seq<Row>, s: Row, r: Row)
    requires DistinctIds(rows) && s in rows && r in rows && s.id == r.id
    ensures s == r
  {
    var k :| 0 <= k < |rows| && rows[k] == s;
    var m :| 0 <= m < |rows| && rows[m] == r;
  }

  lemma SameFilters(sources: seq<Row>, targets: seq<Row>, t: Row, u: Row, i: nat, j: nat)
    requires SameIdentity(u, t) && i <= |targets| && j <= |targets|
    ensures Exact(sources, t) == Exact(sources, u)
    ensures Exact(targets[..j], t) == Exact(targets[..j], u)
  {
    FilterCongruence(sources, (x: Row) => SameIdentity(x, t), (x: Row) => SameIdentity(x, u));
    FilterCongruence(targets[..j], (x: Row) => SameIdentity(x, t), (x: Row) => SameIdentity(x, u));
  }

  lemma {:induction false} FilterCongruence(rows: seq<Row>, p: Row -> bool, q: Row -> bool)
    requires forall x :: p(x) == q(x)
    ensures Filter(rows, p) == Filter(rows, q)
    decreases |rows|
  {
    if rows != [] { FilterCongruence(rows[..|rows| - 1], p, q); }
  }

  lemma {:induction false} ConsumedContains(fixed: seq<Option<Verdict>>, n: nat, i: nat)
    requires i < n <= |fixed| && fixed[i].Some? && fixed[i].value.Matched?
    ensures fixed[i].value.source.id in ConsumedIn(fixed, n)
    decreases n
  {
    if i < n - 1 { ConsumedContains(fixed, n - 1, i); }
  }

  function Fixed(sources: seq<Row>, targets: seq<Row>): (r: seq<Option<Verdict>>)
    ensures |r| == |targets|
    ensures forall i :: 0 <= i < |targets| ==> r[i] == ByIdentity(sources, targets, i)
  {
    seq(|targets|, i requires 0 <= i < |targets| => ByIdentity(sources, targets, i))
  }

  /** What holds after some targets: every matched source is consumed, comes from the sources,
      and no two matched targets share one. `fixed` are
      the phase 1 verdicts and `first` the ids they consumed. */
  ghost predicate Sound(sources: seq<Row>, fixed: seq<Option<Verdict>>, first: set<Id>, verdicts: seq<Verdict>, used: set<Id>)
    requires |verdicts| <= |fixed|
  {
    && first <= used
    && (forall i :: 0 <= i < |verdicts| && verdicts[i].Matched? ==>
          verdicts[i].source in sources && verdicts[i].source.id in used &&
          (fixed[i].None? ==> verdicts[i].source.id !in first))
    && (forall i :: 0 <= i < |verdicts| && fixed[i].Some? ==> verdicts[i] == fixed[i].value)
    && (forall i, j :: 0 <= i < j < |verdicts| && verdicts[i].Matched? && verdicts[j].Matched? ==>
          verdicts[i].source.id != verdicts[j].source.id)
  }

  lemma IdentityMatchIsFresh(sources: seq<Row>, targets: seq<Row>, verdicts: seq<Verdict>, used: set<Id>)
    requires DistinctIds(sources) && |verdicts| < |targets|
    requires Sound(sources, Fixed(sources, targets), ConsumedByIdentity(sources, targets, |targets|), verdicts, used)
    requires ByIdentity(sources, targets, |verdicts|).Some? && ByIdentity(sources, targets, |verdicts|).value.Matched?
    ensures var s := ByIdentity(sources, targets, |verdicts|).value.source;
            && s in sources && s.id in ConsumedByIdentity(sources, targets, |targets|)
            && forall i :: 0 <= i < |verdicts| && verdicts[i].Matched? ==> verdicts[i].source.id != s.id
  {
    var k := |verdicts|;
    assert ByIdentity(sources, targets, k).value.source in Exact(sources, targets[k]);
    ConsumedContains(Fixed(sources, targets), |targets|, k);
    forall i | 0 <= i < k && verdicts[i].Matched?
      ensures verdicts[i].source.id != ByIdentity(sources, targets, k).value.source.id
    {
      if ByIdentity(sources, targets, i).Some? { IdentityUsesOnce(sources, targets, i, k); }
    }
  }

  lemma NameMatchIsFresh(sources: seq<Row>, t: Row, first: set<Id>, used: set<Id>)
    requires ByName(sources, t, first, used).Matched?
    ensures var s := ByName(sources, t, first, used).source; s in sources && s.id !in used && Eligible(s, t)
  {
    var candidates := Filter(sources, (s: Row) => Eligible(s, t) && s.id !in used);
    assert candidates[0] in candidates;
  }

  lemma SoundAppend(sources: seq<Row>, fixed: seq<Option<Verdict>>, first: set<Id>, verdicts: seq<Verdict>, used: set<Id>,
                    v: Verdict, used': set<Id>)
    requires |verdicts| < |fixed| && Sound(sources, fixed, first, verdicts, used) && used <= used'
    requires v.Matched? ==> v.source in sources && v.source.id in used'
    requires v.Matched? ==> forall i :: 0 <= i < |verdicts| && verdicts[i].Matched? ==> verdicts[i].source.id != v.source.id
    requires if fixed[|verdicts|].Some? then v == fixed[|verdicts|].value else v.Matched? ==> v.source.id !in first
    ensures Sound(sources, fixed, first, verdicts + [v], used')
  {
  }

  lemma VerdictKeepsSound(sources: seq<Row>, targets: seq<Row>, verdicts: seq<Verdict>, used: set<Id>)
    requires DistinctIds(sources) && |verdicts| < |targets|
    requires Sound(sources, Fixed(sources, targets), ConsumedByIdentity(sources, targets, |targets|), verdicts, used)
    ensures var v := VerdictOn(sources, targets, |verdicts|, used);
            Sound(sources, Fixed(sources, targets), ConsumedByIdentity(sources, targets, |targets|),
                  verdicts + [v], Consumed(v, used))
  {
    var first := ConsumedByIdentity(sources, targets, |targets|);
    var byId := ByIdentity(sources, targets, |verdicts|);
    var v := VerdictOn(sources, targets, |verdicts|, used);
    if v.Matched? {
      if byId.Some? {
        IdentityMatchIsFresh(sources, targets, verdicts, used);
      } else {
        NameMatchIsFresh(sources, targets[|verdicts|], first, used);
      }
    }
    SoundAppend(sources, Fixed(sources, targets), first, verdicts, used, v, Consumed(v, used));
  }

  lemma {:induction false} PlanSound(sources: seq<Row>, targets: seq<Row>, n: nat)
    requires DistinctIds(sources) && n <= |targets|
    ensures Sound(sources, Fixed(sources, targets), ConsumedByIdentity(sources, targets, |targets|),
                  Decide(sources, targets, n).0, Decide(sources, targets, n).1)
    decreases n
  {
    if n > 0 {
      PlanSound(sources, targets, n - 1);
      VerdictKeepsSound(sources, targets, Decide(sources, targets, n - 1).0, Decide(sources, targets, n - 1).1);
    }
  }

  // ---------------------------------------------------------------- the plan as a whole

  /** Which verdict an assignment comes from. */
  lemma {:induction false} AssignmentOrigin(targets: seq<Row>, verdicts: seq<Verdict>)
    requires |targets| == |verdicts|
    ensures forall a :: a in Assignments(targets, verdicts) ==>
              exists i :: 0 <= i < |targets| && verdicts[i].Matched? &&
                a == Assignment(verdicts[i].source.id, targets[i].id, verdicts[i].source.group)
    decreases |targets|
  {
    if targets != [] {
      var n := |targets| - 1;
      AssignmentOrigin(targets[..n], verdicts[..n]);
      forall a | a in Assignments(targets, verdicts)
        ensures exists i :: 0 <= i < |targets| && verdicts[i].Matched? &&
                  a == Assignment(verdicts[i].source.id, targets[i].id, verdicts[i].source.group)
      {
        if a in Assignments(targets[..n], verdicts[..n]) {
          var i :| 0 <= i < n && verdicts[..n][i].Matched? &&
                   a == Assignment(verdicts[..n][i].source.id, targets[..n][i].id, verdicts[..n][i].source.group);
          assert verdicts[i].Matched? && a == Assignment(verdicts[i].source.id, targets[i].id, verdicts[i].source.group);
        } else {
          assert verdicts[n].Matched?;
        }
      }
    }
  }

  lemma {:induction false} AssignmentsDistinct(targets: seq<Row>, verdicts: seq<Verdict>)
    requires |targets| == |verdicts| && DistinctIds(targets)
    requires forall i, j :: 0 <= i < j < |targets| && verdicts[i].Matched? && verdicts[j].Matched? ==>
               verdicts[i].source.id != verdicts[j].source.id
    ensures DistinctSources(Assignments(targets, verdicts)) && DistinctTargets(Assignments(targets, verdicts))
    decreases |targets|
  {
    if targets != [] {
      var n := |targets| - 1;
      AssignmentsDistinct(targets[..n], verdicts[..n]);
      AssignmentOrigin(targets[..n], verdicts[..n]);
      var plan := Assignments(targets[..n], verdicts[..n]);
      forall k | 0 <= k < |plan| && verdicts[n].Matched?
        ensures plan[k].target != targets[n].id && plan[k].source != verdicts[n].source.id
      {
        assert plan[k] in plan;
      }
    }
  }

  lemma SetNoLarger(ids: set<Id>, rows: seq<Row>)
    requires forall x :: x in ids ==> exists s :: s in rows && s.id == x
    ensures |ids| <= |rows|
    decreases |rows|
  {
    if rows == [] {
      assert ids == {};
    } else {
      var n := |rows| - 1;
      var rest := ids - {rows[n].id};
      forall x | x in rest ensures exists s :: s in rows[..n] && s.id == x {
        var s :| s in rows && s.id == x;
        assert s in rows[..n];
      }
      SetNoLarger(rest, rows[..n]);
      assert |ids| <= |rest| + 1;
    }
  }

  /** Main theorem: the planner's closing assertions and the three server-error checks of the
      import can never fail, whatever the two trial balances hold. */
  lemma PlanIsChecked(sources: seq<Row>, targets: seq<Row>)
    requires DistinctIds(sources) && DistinctIds(targets)
    ensures Checked(Plan(sources, targets), |sources|)
    ensures forall a :: a in Plan(sources, targets) ==> exists t :: t in targets && t.id == a.target
    ensures forall a :: a in Plan(sources, targets) ==> exists s :: s in sources && s.id == a.source && s.group == a.group
  {
    var plan := Plan(sources, targets);
    var verdicts := Decide(sources, targets, |targets|).0;
    PlanSound(sources, targets, |targets|);
    AssignmentsDistinct(targets, verdicts);
    AssignmentOrigin(targets, verdicts);
    forall x | x in Sources(plan) ensures exists s :: s in sources && s.id == x {
      var a :| a in plan && a.source == x;
    }
    SetNoLarger(Sources(plan), sources);
    SourceSetSize(plan);
    forall a | a in plan ensures exists t :: t in targets && t.id == a.target {
      var i :| 0 <= i < |targets| && verdicts[i].Matched? &&
               a == Assignment(verdicts[i].source.id, targets[i].id, verdicts[i].source.group);
      assert targets[i] in targets;
    }
    forall a | a in plan ensures exists s :: s in sources && s.id == a.source && s.group == a.group {
      var i :| 0 <= i < |targets| && verdicts[i].Matched? &&
               a == Assignment(verdicts[i].source.id, targets[i].id, verdicts[i].source.group);
      assert verdicts[i].source in sources;
    }
    ChecksMeanOneToOne(plan, |sources|);
  }

  /** The planner never guesses: a match has equal names, never two different non-empty codes,
      and carries its source's own group. */
  lemma MatchesAreConservative(sources: seq<Row>, targets: seq<Row>, i: nat)
    requires DistinctIds(sources) && i < |targets|
    requires Decide(sources, targets, |targets|).0[i].Matched?
    ensures var s, t := Decide(sources, targets, |targets|).0[i].source, targets[i];
            && s in sources && s.name == t.name
            && (s.code.Some? && t.code.Some? ==> s.code == t.code)
            && (forall s' :: s' in sources && SameIdentity(s', t) ==> SameIdentity(s, t) && s'.group == s.group)
  {
    DecideExtends(sources, targets, i, |targets|);
    var v := Decide(sources, targets, i + 1).0[i];
    var byId := ByIdentity(sources, targets, i);
    if byId.Some? {
      assert v.source in Exact(sources, targets[i]);
      forall s' | s' in sources && SameIdentity(s', targets[i]) ensures s'.group == v.source.group {
        assert s' in Exact(sources, targets[i]);
      }
    } else {
      NameMatchIsFresh(sources, targets[i], ConsumedByIdentity(sources, targets, |targets|), Decide(sources, targets, i).1);
      assert forall s' :: s' in sources && SameIdentity(s', targets[i]) ==> s' in Exact(sources, targets[i]);
    }
  }

  predicate Unrelated(sources: seq<Row>, t: Row) {
    forall s :: s in sources ==> s.name != t.name && (t.code.Some? ==> s.code != t.code)
  }

  lemma ByNameUnmatched(sources: seq<Row>, t: Row, first: set<Id>, used: set<Id>)
    ensures ByName(sources, t, first, used) == Issue(Unmatched) <==> Unrelated(sources, t)
  {
    var candidates := Filter(sources, (s: Row) => Eligible(s, t) && s.id !in used);
    if candidates != [] { assert candidates[0] in candidates; }
  }

  lemma ByIdentityRelated(sources: seq<Row>, targets: seq<Row>, i: nat)
    requires i < |targets| && ByIdentity(sources, targets, i).Some?
    ensures ByIdentity(sources, targets, i).value != Issue(Unmatched) && !Unrelated(sources, targets[i])
  {
    var exact := Exact(sources, targets[i]);
    assert exact[0] in exact;
  }

  /** A target is reported unmatched exactly when no mapped source shares its name or its code. */
  lemma UnmatchedMeansUnrelated(sources: seq<Row>, targets: seq<Row>, i: nat)
    requires i < |targets|
    ensures Decide(sources, targets, |targets|).0[i] == Issue(Unmatched) <==> Unrelated(sources, targets[i])
  {
    DecideExtends(sources, targets, i, |targets|);
    if ByIdentity(sources, targets, i).Some? {
      ByIdentityRelated(sources, targets, i);
    } else {
      ByNameUnmatched(sources, targets[i], ConsumedByIdentity(sources, targets, |targets|), Decide(sources, targets, i).1);
    }
  }

  lemma {:induction false} DecideExtends(sources: seq<Row>, targets: seq<Row>, i: nat, n: nat)
    requires i < n <= |targets|
    ensures Decide(sources, targets, n).0[i] == Decide(sources, targets, i + 1).0[i]
    decreases n
  {
    if n > i + 1 { DecideExtends(sources, targets, i, n - 1); }
  }
}
