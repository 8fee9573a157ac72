/** Every verdict of the planner, said of the two lists and of the other verdicts. */
module PlannerVerdicts {
  import opened Prelude
  import opened MappingImport
  import opened MappingPlanner

  /** Source and target are one ledger: the same non-empty code and the same name. */
  predicate Twins(s: Row, t: Row) {
    s.code.Some? && t.code.Some? && s.code.value == t.code.value && s.name == t.name
  }

  ghost predicate HasTwin(sources: seq<Row>, t: Row) {
    exists s :: s in sources && Twins(s, t)
  }

  /** How many of these rows are twins of `t`. */
  function Count(rows: seq<Row>, t: Row): nat {
    if rows == [] then 0 else Count(rows[..|rows| - 1], t) + if Twins(rows[|rows| - 1], t) then 1 else 0
  }

  /** The same name, and at least one side carries no code. */
  predicate Compatible(s: Row, t: Row) {
    s.name == t.name && (s.code.None? || t.code.None?)
  }

  /** Some target was matched with the source: an earlier one, or any that has a twin. */
  ghost predicate Taken(sources: seq<Row>, targets: seq<Row>, verdicts: seq<Verdict>, i: nat, s: Row)
    requires |verdicts| == |targets|
  {
    exists j :: 0 <= j < |targets| && (j < i || HasTwin(sources, targets[j])) && verdicts[j].Matched? && verdicts[j].source.id == s.id
  }

  ghost predicate TakenByTwin(sources: seq<Row>, targets: seq<Row>, verdicts: seq<Verdict>, s: Row)
    requires |verdicts| == |targets|
  {
    exists j :: 0 <= j < |targets| && HasTwin(sources, targets[j]) && verdicts[j].Matched? && verdicts[j].source.id == s.id
  }

  /** A source target `i` can have by its name. */
  ghost predicate Free(sources: seq<Row>, targets: seq<Row>, verdicts: seq<Verdict>, i: nat, s: Row)
    requires |verdicts| == |targets| && i < |targets|
  {
    s in sources && Compatible(s, targets[i]) && !Taken(sources, targets, verdicts, i, s)
  }

  ghost predicate Agree(rows: iset<Row>) {
    forall s, r :: s in rows && r in rows ==> s.group == r.group
  }

  // ---------------------------------------------------------------- lists

  lemma {:induction false} CountIsExact(rows: seq<Row>, t: Row)
    ensures Count(rows, t) == |Exact(rows, t)|
    decreases |rows|
  {
    if rows != [] { CountIsExact(rows[..|rows| - 1], t); }
  }

  lemma {:induction false} NthOfFilter(rows: seq<Row>, p: Row -> bool, r: nat) returns (k: nat)
    requires r < |Filter(rows, p)|
    ensures k < |rows| && rows[k] == Filter(rows, p)[r] && p(rows[k]) && |Filter(rows[..k], p)| == r
    decreases |rows|
  {
    var n := |rows| - 1;
    var init := Filter(rows[..n], p);
    assert Filter(rows, p) == init + if p(rows[n]) then [rows[n]] else [];
    if r < |init| {
      k := NthOfFilter(rows[..n], p, r);
      assert rows[..n][..k] == rows[..k];
    } else {
      k := n;
    }
  }

  lemma TwinsAreExact(sources: seq<Row>, t: Row)
    ensures HasTwin(sources, t) <==> Exact(sources, t) != []
    ensures forall s :: s in Exact(sources, t) <==> s in sources && Twins(s, t)
  {
    if Exact(sources, t) != [] { assert Exact(sources, t)[0] in Exact(sources, t); }
  }

  lemma OneGroupIsAgreement(rows: seq<Row>)
    ensures OneGroup(rows) <==> Agree(iset s | s in rows)
  {
    if Agree(iset s | s in rows) {
      forall i | 0 <= i < |rows| ensures rows[i].group == rows[0].group { assert rows[i] in rows && rows[0] in rows; }
    }
  }

  // ---------------------------------------------------------------- what is used up

  lemma {:induction false} ConsumedAre(fixed: seq<Option<Verdict>>, n: nat, x: Id)
    requires n <= |fixed|
    ensures x in ConsumedIn(fixed, n) <==> exists j :: 0 <= j < n && fixed[j].Some? && fixed[j].value.Matched? && fixed[j].value.source.id == x
    decreases n
  {
    if n > 0 { ConsumedAre(fixed, n - 1, x); }
  }

  lemma {:induction false} UsedAre(sources: seq<Row>, targets: seq<Row>, n: nat, x: Id)
    requires n <= |targets|
    ensures x in Decide(sources, targets, n).1 <==>
              x in ConsumedByIdentity(sources, targets, |targets|)
              || exists j :: 0 <= j < n && Decide(sources, targets, n).0[j].Matched? && Decide(sources, targets, n).0[j].source.id == x
    decreases n
  {
    hide VerdictOn, ConsumedByIdentity;
    if n > 0 {
      UsedAre(sources, targets, n - 1, x);
      var (before, after) := (Decide(sources, targets, n - 1), Decide(sources, targets, n));
      var v := after.0[n - 1];
      assert after.0 == before.0 + [v] && after.1 == Consumed(v, before.1);
      if j :| 0 <= j < n - 1 && before.0[j].Matched? && before.0[j].source.id == x { assert after.0[j] == before.0[j]; }
      if j :| 0 <= j < n && after.0[j].Matched? && after.0[j].source.id == x { assert j < n - 1 ==> after.0[j] == before.0[j]; }
    }
  }

  function Final(sources: seq<Row>, targets: seq<Row>): (r: seq<Verdict>)
    ensures |r| == |targets|
  {
    Decide(sources, targets, |targets|).0
  }

  lemma FinalVerdict(sources: seq<Row>, targets: seq<Row>, i: nat)
    requires i < |targets|
    ensures Final(sources, targets)[i] == VerdictOn(sources, targets, i, Decide(sources, targets, i).1)
    ensures HasTwin(sources, targets[i]) ==> ByIdentity(sources, targets, i) == Some(Final(sources, targets)[i])
    ensures !HasTwin(sources, targets[i]) ==> ByIdentity(sources, targets, i).None?
  {
    DecideExtends(sources, targets, i, |targets|);
    TwinsAreExact(sources, targets[i]);
  }

  lemma FirstIsTakenByTwin(sources: seq<Row>, targets: seq<Row>, s: Row)
    ensures s.id in ConsumedByIdentity(sources, targets, |targets|) <==> TakenByTwin(sources, targets, Final(sources, targets), s)
  {
    hide ByIdentity, Decide, HasTwin;
    var fixed, verdicts := Fixed(sources, targets), Final(sources, targets);
    ConsumedAre(fixed, |targets|, s.id);
    forall j | 0 <= j < |targets|
      ensures fixed[j].Some? <==> HasTwin(sources, targets[j])
      ensures fixed[j].Some? ==> fixed[j].value == verdicts[j]
    {
      FinalVerdict(sources, targets, j);
    }
  }

  lemma UsedIsTaken(sources: seq<Row>, targets: seq<Row>, i: nat, s: Row)
    requires i < |targets|
    ensures s.id in Decide(sources, targets, i).1 <==> Taken(sources, targets, Final(sources, targets), i, s)
  {
    hide ByIdentity, Decide, HasTwin;
    var verdicts := Final(sources, targets);
    UsedAre(sources, targets, i, s.id);
    FirstIsTakenByTwin(sources, targets, s);
    forall j | 0 <= j < i ensures Decide(sources, targets, i).0[j] == verdicts[j] {
      DecideExtends(sources, targets, j, i);
      DecideExtends(sources, targets, j, |targets|);
    }
  }

  // ---------------------------------------------------------------- the verdicts

  /** Main theorem, first part: a target with twins among the sources is matched exactly when they agree
      on the group and there are more of them than earlier targets that are the same ledger. Its
      source is then the twin with as many twins before it: they are dealt out in order. */
  lemma TwinsAreDealtInOrder(sources: seq<Row>, targets: seq<Row>, i: nat)
    requires i < |targets| && HasTwin(sources, targets[i])
    ensures var (v, t) := (Final(sources, targets)[i], targets[i]);
            var agree := Agree(iset s | s in sources && Twins(s, t));
            && (v == Issue(AmbiguousSource) <==> !agree)
            && (v.Matched? <==> agree && Count(targets[..i], t) < Count(sources, t))
            && (v == Issue(SourceExhausted) <==> agree && Count(targets[..i], t) >= Count(sources, t))
            && (v.Matched? ==>
                  exists k :: 0 <= k < |sources| && sources[k] == v.source && Twins(v.source, t) && Count(sources[..k], t) == Count(targets[..i], t))
  {
    hide Decide, VerdictOn, HasTwin, OneGroup;
    var t := targets[i];
    var exact, rank := Exact(sources, t), Count(targets[..i], t);
    FinalVerdict(sources, targets, i);
    TwinsAreExact(sources, t);
    OneGroupIsAgreement(exact);
    assert (iset s | s in sources && Twins(s, t)) == iset s | s in exact;
    CountIsExact(sources, t);
    CountIsExact(targets[..i], t);
    if rank < |exact| {
      var k := NthOfFilter(sources, (s: Row) => SameIdentity(s, t), rank);
      CountIsExact(sources[..k], t);
    }
  }

  /** Second part: any other target is matched exactly when there are free sources of its name and they
      agree on the group, with the first of them. With none it is told whether other targets took
      them all, whether name and code contradict each other, or whether nothing is like it. */
  lemma NamesAreDealtOnce(sources: seq<Row>, targets: seq<Row>, i: nat)
    requires i < |targets| && !HasTwin(sources, targets[i])
    ensures var (verdicts, t) := (Final(sources, targets), targets[i]);
            var v := verdicts[i];
            var free := iset s | Free(sources, targets, verdicts, i, s);
            && (v.Matched? <==> free != iset{} && Agree(free))
            && (v == Issue(AmbiguousSource) <==> !Agree(free))
            && (v.Matched? ==>
                  exists k :: 0 <= k < |sources| && sources[k] == v.source && v.source in free && forall m :: 0 <= m < k ==> sources[m] !in free)
            && (v == Issue(SourceExhausted) <==>
                  free == iset{} && exists s :: s in sources && Compatible(s, t) && !TakenByTwin(sources, targets, verdicts, s))
            && (v == Issue(Unmatched) <==> forall s :: s in sources ==> s.name != t.name && (t.code.Some? ==> s.code != t.code))
  {
    hide Decide, ByIdentity, Taken, TakenByTwin, HasTwin, Twins;
    var (verdicts, t) := (Final(sources, targets), targets[i]);
    var used, first := Decide(sources, targets, i).1, ConsumedByIdentity(sources, targets, |targets|);
    var p := (s: Row) => Eligible(s, t) && s.id !in used;
    var candidates := Filter(sources, p);
    var free := iset s | Free(sources, targets, verdicts, i, s);
    FinalVerdict(sources, targets, i);
    forall s ensures s in candidates <==> s in free { UsedIsTaken(sources, targets, i, s); }
    assert free == iset s | s in candidates;
    OneGroupIsAgreement(candidates);
    ByNameUnmatched(sources, t, first, used);
    forall s: Row ensures s.id in first <==> TakenByTwin(sources, targets, verdicts, s) { FirstIsTakenByTwin(sources, targets, s); }
    if candidates != [] {
      assert candidates[0] in free;
      var k := NthOfFilter(sources, p, 0);
      forall m | 0 <= m < k ensures sources[m] !in free { assert sources[m] in sources[..k]; }
    }
  }

  /** The plan assigns exactly the matched targets: each its source, with the source's group. */
  lemma {:induction false} MatchesAreAssigned(targets: seq<Row>, verdicts: seq<Verdict>, i: nat)
    requires |targets| == |verdicts| && i < |targets| && verdicts[i].Matched?
    ensures Assignment(verdicts[i].source.id, targets[i].id, verdicts[i].source.group) in Assignments(targets, verdicts)
    decreases |targets|
  {
    if i < |targets| - 1 { MatchesAreAssigned(targets[..|targets| - 1], verdicts[..|targets| - 1], i); }
  }

  lemma PlanIsTheMatches(sources: seq<Row>, targets: seq<Row>, a: Assignment)
    ensures a in Plan(sources, targets) <==>
              exists i :: 0 <= i < |targets| && Final(sources, targets)[i].Matched? &&
                a == Assignment(Final(sources, targets)[i].source.id, targets[i].id, Final(sources, targets)[i].source.group)
  {
    hide Decide;
    AssignmentOrigin(targets, Final(sources, targets));
    forall i | 0 <= i < |targets| && Final(sources, targets)[i].Matched?
      ensures Assignment(Final(sources, targets)[i].source.id, targets[i].id, Final(sources, targets)[i].source.group) in Plan(sources, targets)
    {
      MatchesAreAssigned(targets, Final(sources, targets), i);
    }
  }
}
