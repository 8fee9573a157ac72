/** Module grants (app/access_modules.py) and their migration in SQL
    (alembic/versions/4f6a8b0c2d1e_split_compliance_module_access.py). */
module AccessModules {
  import opened Prelude

  const LEGACY := "compliance"
  const ROC := "roc"
  const SECRETARIAL := "secretarial"
  const ALL_MODULES: set<string> := {
    "dashboard", "docvault", "sales", "assets", "kra", "auditease", "roc", "secretarial", "notifications", "activity"
  }

  type Names = seq<string>

  function Elements(s: Names): set<string> {
    set x | x in s
  }

  /** The list without repeats, each name where it first occurs. */
  function Firsts(s: Names): Names {
    if s == [] then []
    else
      var init := Firsts(s[..|s| - 1]);
      if s[|s| - 1] in init then init else init + [s[|s| - 1]]
  }

  function Replacements(name: string): Names {
    if name == LEGACY then [ROC, SECRETARIAL] else [name]
  }

  function Expanded(s: Names): Names {
    if s == [] then [] else Expanded(s[..|s| - 1]) + Replacements(s[|s| - 1])
  }

  function Normalized(s: Names): Names {
    Firsts(Expanded(s))
  }

  /** The two nested loops, filling a list and a set. */
  method NormalizeAccessibleModules(modules: Names) returns (normalized: Names)
    ensures normalized == Normalized(modules)
  {
    normalized := [];
    var seen: set<string> := {};
    for i := 0 to |modules|
      invariant normalized == Normalized(modules[..i]) && seen == Elements(normalized)
    {
      assert modules[..i + 1][..i] == modules[..i];
      normalized, seen := AppendNew(normalized, seen, Expanded(modules[..i]), Replacements(modules[i]));
    }
    assert modules[..|modules|] == modules;
  }

  /** The inner loop; `before` is what has been expanded so far. */
  method AppendNew(normalized: Names, seen: set<string>, ghost before: Names, replacements: Names)
    returns (after: Names, known: set<string>)
    requires normalized == Firsts(before) && seen == Elements(normalized)
    ensures after == Firsts(before + replacements) && known == Elements(after)
  {
    after, known := normalized, seen;
    ghost var sofar := before;
    for j := 0 to |replacements|
      invariant sofar == before + replacements[..j]
      invariant after == Firsts(sofar) && known == Elements(after)
    {
      FirstsSnoc(sofar, replacements[j]);
      ElementsSnoc(after, replacements[j]);
      sofar := sofar + [replacements[j]];
      if replacements[j] !in known {
        after := after + [replacements[j]];
        known := known + {replacements[j]};
      }
    }
    assert replacements[..|replacements|] == replacements;
  }

  lemma ElementsSnoc(s: Names, x: string)
    ensures Elements(s + [x]) == Elements(s) + {x}
    ensures x in Elements(s) <==> x in s
  {
  }

  /** `None` where the source raises for unknown ids. */
  function Validated(modules: Names): Option<Names> {
    if Elements(Normalized(modules)) <= ALL_MODULES then Some(Normalized(modules)) else None
  }

  // ---------------------------------------------------------------- first occurrences

  lemma FirstsSnoc(s: Names, x: string)
    ensures Firsts(s + [x]) == if x in Firsts(s) then Firsts(s) else Firsts(s) + [x]
  {
    assert (s + [x])[..|s|] == s;
  }

  predicate NoRepeats(s: Names) {
    forall i, j :: 0 <= i < j < |s| ==> s[i] != s[j]
  }

  /** Where a name first occurs. */
  function Position(s: Names, x: string): (k: nat)
    requires x in s
    ensures k < |s| && s[k] == x && x !in s[..k]
  {
    if s[0] == x then 0 else 1 + Position(s[1..], x)
  }

  /** What `GROUP BY name ORDER BY MIN(position)` returns. */
  ghost predicate ByFirstPosition(s: Names, r: Names) {
    && NoRepeats(r)
    && (forall x :: x in r <==> x in s)
    && (forall i, j :: 0 <= i < j < |r| && r[i] in s && r[j] in s ==> Position(s, r[i]) < Position(s, r[j]))
  }

  lemma {:induction false} PositionUnique(s: Names, x: string, k: nat)
    requires k < |s| && s[k] == x && x !in s[..k]
    ensures Position(s, x) == k
    decreases k
  {
    if k > 0 {
      assert s[0] == s[..k][0];
      assert s[1..][..k - 1] == s[..k][1..];
      PositionUnique(s[1..], x, k - 1);
    }
  }

  lemma PositionSnoc(s: Names, last: string, x: string)
    requires x in s + [last]
    ensures Position(s + [last], x) == if x in s then Position(s, x) else |s|
  {
    var k := if x in s then Position(s, x) else |s|;
    assert (s + [last])[..k] == s[..k];
    PositionUnique(s + [last], x, k);
  }

  lemma {:induction false} FirstsAreFirst(s: Names)
    ensures ByFirstPosition(s, Firsts(s))
    decreases |s|
  {
    if s != [] {
      var init, last := s[..|s| - 1], s[|s| - 1];
      assert s == init + [last];
      FirstsAreFirst(init);
      var r := Firsts(s);
      forall i, j | 0 <= i < j < |r| && r[i] in s && r[j] in s ensures Position(s, r[i]) < Position(s, r[j]) {
        PositionSnoc(init, last, r[i]);
        PositionSnoc(init, last, r[j]);
      }
    }
  }

  /** Main theorem: the loop computes exactly what the SQL grouping describes; there is only one
      such list. */
  lemma FirstsAreTheOnlyOne(s: Names, r: Names)
    ensures ByFirstPosition(s, r) <==> r == Firsts(s)
  {
    FirstsAreFirst(s);
    if ByFirstPosition(s, r) { OrderedAlike(s, r, Firsts(s)); }
  }

  lemma {:induction false} OrderedAlike(s: Names, a: Names, b: Names)
    requires NoRepeats(a) && NoRepeats(b) && (forall x :: x in a <==> x in b) && (forall x :: x in a ==> x in s)
    requires forall i, j :: 0 <= i < j < |a| && a[i] in s && a[j] in s ==> Position(s, a[i]) < Position(s, a[j])
    requires forall i, j :: 0 <= i < j < |b| && b[i] in s && b[j] in s ==> Position(s, b[i]) < Position(s, b[j])
    ensures a == b
    decreases |a|
  {
    assert |b| > 0 ==> b[0] in b;
    if a != [] {
      assert a[0] in a && a[0] in b;
      var k :| 0 <= k < |b| && b[k] == a[0];
      assert b[0] in b && b[0] in a;
      var m :| 0 <= m < |a| && a[m] == b[0];
      assert k == 0;
      forall x ensures x in a[1..] <==> x in b[1..] {
        if x in a[1..] { assert x in a && x != a[0]; }
        if x in b[1..] { assert x in b && x != b[0]; }
      }
      OrderedAlike(s, a[1..], b[1..]);
    }
  }

  lemma {:induction false} FirstsOfDistinct(s: Names)
    requires NoRepeats(s)
    ensures Firsts(s) == s
    decreases |s|
  {
    if s != [] {
      FirstsOfDistinct(s[..|s| - 1]);
      assert s == s[..|s| - 1] + [s[|s| - 1]];
    }
  }

  lemma {:induction false} FirstsConcat(a: Names, b: Names)
    ensures Firsts(a + b) == Firsts(Firsts(a) + b)
    decreases |b|
  {
    if b == [] {
      FirstsAreFirst(a);
      FirstsOfDistinct(Firsts(a));
      assert a + b == a && Firsts(a) + b == Firsts(a);
    } else {
      var init, last := b[..|b| - 1], b[|b| - 1];
      FirstsConcat(a, init);
      assert a + b == (a + init) + [last] && Firsts(a) + b == (Firsts(a) + init) + [last];
      FirstsSnoc(a + init, last);
      FirstsSnoc(Firsts(a) + init, last);
    }
  }

  lemma {:induction false} FirstsConcatRight(a: Names, b: Names)
    ensures Firsts(a + Firsts(b)) == Firsts(a + b)
    decreases |b|
  {
    if b != [] {
      var init, last := b[..|b| - 1], b[|b| - 1];
      FirstsConcatRight(a, init);
      assert b == init + [last] && a + b == (a + init) + [last];
      FirstsSnoc(init, last);
      FirstsSnoc(a + init, last);
      FirstsAreFirst(a + init);
      if last in Firsts(init) {
        FirstsAreFirst(init);
        assert last in a + init;
      } else {
        assert a + Firsts(b) == (a + Firsts(init)) + [last];
        FirstsSnoc(a + Firsts(init), last);
      }
    }
  }

  // ---------------------------------------------------------------- normalisation

  lemma DistinctNames()
    ensures LEGACY != ROC && LEGACY != SECRETARIAL && ROC != SECRETARIAL
  {
    assert |LEGACY| == 10 && |ROC| == 3 && |SECRETARIAL| == 11;
  }

  lemma {:induction false} ExpandedElements(s: Names, x: string)
    ensures x in Expanded(s) <==> (x != LEGACY && x in s) || (LEGACY in s && (x == ROC || x == SECRETARIAL))
    decreases |s|
  {
    if s != [] {
      ExpandedElements(s[..|s| - 1], x);
      assert s == s[..|s| - 1] + [s[|s| - 1]];
      DistinctNames();
    }
  }

  lemma {:induction false} ExpandedCanonical(s: Names)
    requires LEGACY !in s
    ensures Expanded(s) == s
    decreases |s|
  {
    if s != [] {
      ExpandedCanonical(s[..|s| - 1]);
      assert s == s[..|s| - 1] + [s[|s| - 1]];
    }
  }

  lemma {:induction false} ExpandedConcat(a: Names, b: Names)
    ensures Expanded(a + b) == Expanded(a) + Expanded(b)
    decreases |b|
  {
    if b == [] {
      assert a + b == a && Expanded(a) + Expanded(b) == Expanded(a);
    } else {
      ExpandedConcat(a, b[..|b| - 1]);
      assert (a + b)[..|a + b| - 1] == a + b[..|b| - 1];
    }
  }

  /** Which grants a normalised list holds: the canonical ones it was given, and both compliance
      domains for the legacy one, which is gone. */
  lemma NormalizedGrants(s: Names, x: string)
    ensures x in Normalized(s) <==> (x != LEGACY && x in s) || (LEGACY in s && (x == ROC || x == SECRETARIAL))
    ensures NoRepeats(Normalized(s)) && LEGACY !in Normalized(s)
  {
    FirstsAreFirst(Expanded(s));
    ExpandedElements(s, x);
    ExpandedElements(s, LEGACY);
    DistinctNames();
  }

  lemma NormalizingIsIdempotent(s: Names)
    ensures Normalized(Normalized(s)) == Normalized(s)
  {
    NormalizedGrants(s, LEGACY);
    ExpandedCanonical(Normalized(s));
    FirstsOfDistinct(Normalized(s));
  }

  /** Normalising piecewise changes nothing. */
  lemma NormalizingIsCompositional(a: Names, b: Names)
    ensures Normalized(a + b) == Normalized(Normalized(a) + Normalized(b))
  {
    NormalizedGrants(a, LEGACY);
    NormalizedGrants(b, LEGACY);
    ExpandedCanonical(Normalized(a) + Normalized(b));
    ExpandedConcat(a, b);
    FirstsConcat(Expanded(a), Expanded(b));
    FirstsConcatRight(Firsts(Expanded(a)), Expanded(b));
  }

  /** Validation accepts exactly lists of known modules, the legacy one included, and what it
      returns validates to itself. */
  lemma ValidationIsExact(s: Names)
    ensures Validated(s).Some? <==> forall x :: x in s ==> x in ALL_MODULES || x == LEGACY
    ensures Validated(s).Some? ==> Validated(Validated(s).value) == Validated(s)
  {
    NormalizingIsIdempotent(s);
    assert ROC in ALL_MODULES && SECRETARIAL in ALL_MODULES;
    forall x ensures x in Normalized(s) <==> (x != LEGACY && x in s) || (LEGACY in s && (x == ROC || x == SECRETARIAL)) {
      NormalizedGrants(s, x);
    }
    if Validated(s).Some? {
      forall x | x in s ensures x in ALL_MODULES || x == LEGACY {
        if x != LEGACY { assert x in Elements(Normalized(s)); }
      }
    }
  }

  // ---------------------------------------------------------------- the SQL twin

  function Without(s: Names, name: string): Names {
    if s == [] then [] else Without(s[..|s| - 1], name) + (if s[|s| - 1] == name then [] else [s[|s| - 1]])
  }

  /** The migration of one row: only rows holding the legacy id are touched. */
  function Upgraded(s: Names): Names {
    if LEGACY in s then Firsts(Without(s, LEGACY) + [ROC, SECRETARIAL]) else s
  }

  /** The downgrade of one row. */
  function Downgraded(s: Names): Names {
    if ROC in s || SECRETARIAL in s then Firsts(Without(Without(s, ROC), SECRETARIAL) + [LEGACY]) else s
  }

  lemma {:induction false} WithoutElements(s: Names, name: string, x: string)
    ensures x in Without(s, name) <==> x in s && x != name
    decreases |s|
  {
    if s != [] {
      WithoutElements(s[..|s| - 1], name, x);
      assert s == s[..|s| - 1] + [s[|s| - 1]];
    }
  }

  /** Main theorem: for every stored row the SQL upgrade grants exactly the modules the Python
      normalisation does, and normalising afterwards grants nothing more. */
  lemma UpgradeGrantsTheSame(s: Names, x: string)
    ensures x in Upgraded(s) <==> x in Normalized(s)
    ensures LEGACY in s ==> Normalized(Upgraded(s)) == Upgraded(s)
  {
    NormalizedGrants(s, x);
    var r := Without(s, LEGACY) + [ROC, SECRETARIAL];
    WithoutElements(s, LEGACY, x);
    WithoutElements(s, LEGACY, LEGACY);
    FirstsAreFirst(r);
    DistinctNames();
    if LEGACY in s {
      ExpandedCanonical(Upgraded(s));
      FirstsOfDistinct(Upgraded(s));
    }
  }

  lemma ExpandedInPlace(x: string)
    requires x != LEGACY && x != ROC && x != SECRETARIAL
    ensures Normalized([LEGACY, x]) == [ROC, SECRETARIAL, x]
  {
    DistinctNames();
    ExpandedConcat([LEGACY], [x]);
    assert [LEGACY] + [x] == [LEGACY, x];
    assert Expanded([LEGACY]) == [ROC, SECRETARIAL] && Expanded([x]) == [x];
    assert [ROC, SECRETARIAL] + [x] == [ROC, SECRETARIAL, x];
    FirstsOfDistinct([ROC, SECRETARIAL, x]);
  }

  lemma AppendedLast(x: string)
    requires x != LEGACY && x != ROC && x != SECRETARIAL
    ensures Upgraded([LEGACY, x]) == [x, ROC, SECRETARIAL]
  {
    DistinctNames();
    var one, two := [LEGACY], [LEGACY, x];
    assert one[..0] == [] && two[..1] == one && two[0] == LEGACY;
    assert Without(one, LEGACY) == [];
    assert Without(two, LEGACY) == [x];
    assert [x] + [ROC, SECRETARIAL] == [x, ROC, SECRETARIAL];
    FirstsOfDistinct([x, ROC, SECRETARIAL]);
  }

  /** The order can differ: the SQL appends, the loop expands in place. */
  lemma UpgradeMayReorder(x: string)
    requires x != LEGACY && x != ROC && x != SECRETARIAL
    ensures Upgraded([LEGACY, x]) == [x, ROC, SECRETARIAL] != Normalized([LEGACY, x])
  {
    DistinctNames();
    ExpandedInPlace(x);
    AppendedLast(x);
    assert [x, ROC, SECRETARIAL][0] != [ROC, SECRETARIAL, x][0];
  }

  lemma DowngradedGrants(u: Names, x: string)
    ensures x in Downgraded(u) <==>
              if ROC in u || SECRETARIAL in u then (x in u && x != ROC && x != SECRETARIAL) || x == LEGACY else x in u
  {
    var w := Without(Without(u, ROC), SECRETARIAL);
    WithoutElements(u, ROC, x);
    WithoutElements(Without(u, ROC), SECRETARIAL, x);
    FirstsAreFirst(w + [LEGACY]);
  }

  lemma RoundTripGrants(s: Names, x: string)
    ensures x in Downgraded(Upgraded(s)) <==>
              if LEGACY in s || ROC in s || SECRETARIAL in s then (x in s && x != ROC && x != SECRETARIAL) || x == LEGACY else x in s
  {
    DistinctNames();
    DowngradedGrants(Upgraded(s), x);
    UpgradeGrants(s, x);
    UpgradeGrants(s, ROC);
    UpgradeGrants(s, SECRETARIAL);
  }

  lemma UpgradeGrants(s: Names, x: string)
    ensures x in Upgraded(s) <==> if LEGACY in s then (x in s && x != LEGACY) || x == ROC || x == SECRETARIAL else x in s
  {
    UpgradeGrantsTheSame(s, x);
    NormalizedGrants(s, x);
  }

  /** Upgrading and then downgrading a row gives back the same grants exactly when it did not hold
      part of the combined grant on its own. */
  lemma DowngradeUndoesUpgradeExactly(s: Names)
    ensures (forall x :: x in Downgraded(Upgraded(s)) <==> x in s) <==> ROC !in s && SECRETARIAL !in s
  {
    DistinctNames();
    RoundTripGrants(s, ROC);
    RoundTripGrants(s, SECRETARIAL);
    if ROC !in s && SECRETARIAL !in s {
      forall x ensures x in Downgraded(Upgraded(s)) <==> x in s { RoundTripGrants(s, x); }
    }
  }
}
