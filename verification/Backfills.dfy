/** Data migrations (alembic/versions): each statement rewrites a whole table from a snapshot of
    it. Ids are the primary keys, ordered as the database orders them. */
module Backfills {
  import opened Prelude

  type Id = nat

  // ---------------------------------------------------------------- (time, id) order

  /** Row `x` comes before row `y`: by time, then by id. */
  predicate Before(time: map<Id, int>, x: Id, y: Id) {
    x in time && y in time && (time[x] < time[y] || (time[x] == time[y] && x < y))
  }

  /** The same said of two rows' own times. */
  predicate Precedes(t: int, x: Id, u: int, y: Id) {
    t < u || (t == u && x < y)
  }

  /** Every non-empty group has a last row. */
  lemma {:induction false} LastOf(rows: set<Id>, time: map<Id, int>) returns (m: Id)
    requires rows != {} && rows <= time.Keys
    ensures m in rows && forall x :: x in rows && x != m ==> Before(time, x, m)
    decreases |rows|
  {
    var a :| a in rows;
    if rows == {a} {
      m := a;
    } else {
      var rest := rows - {a};
      assert rows == rest + {a};
      var b := LastOf(rest, time);
      m := if Before(time, a, b) then b else a;
      forall x | x in rows && x != m ensures Before(time, x, m) {
        if x != a && m == a { assert Before(time, b, a) && (x == b || Before(time, x, b)); }
      }
    }
  }

  // ---------------------------------------------------------------- row_number()

  function Earlier(rows: set<Id>, time: map<Id, int>, x: Id): set<Id> {
    set y | y in rows && Before(time, y, x)
  }

  /** `row_number() OVER (ORDER BY time, id)` within the rows of one partition. */
  function RowNumber(rows: set<Id>, time: map<Id, int>, x: Id): nat {
    |Earlier(rows, time, x)| + 1
  }

  lemma SubsetSize(a: set<Id>, b: set<Id>)
    requires a < b
    ensures |a| < |b|
    decreases |b|
  {
    var x :| x in b && x !in a;
    SubsetAtMost(a, b - {x});
  }

  lemma {:induction false} SubsetAtMost(a: set<Id>, b: set<Id>)
    requires a <= b
    ensures |a| <= |b|
    decreases |a|
  {
    if a != {} {
      var x :| x in a;
      SubsetAtMost(a - {x}, b - {x});
    }
  }

  lemma RowNumbersDiffer(rows: set<Id>, time: map<Id, int>, x: Id, y: Id)
    requires rows <= time.Keys && x in rows && y in rows && Before(time, x, y)
    ensures RowNumber(rows, time, x) < RowNumber(rows, time, y)
  {
    assert x in Earlier(rows, time, y) && x !in Earlier(rows, time, x);
    SubsetSize(Earlier(rows, time, x), Earlier(rows, time, y));
  }

  /** Row numbers stay within 1..n. */
  lemma RowNumberBound(rows: set<Id>, time: map<Id, int>, x: Id)
    requires rows <= time.Keys && x in rows
    ensures 1 <= RowNumber(rows, time, x) <= |rows|
  {
    assert x !in Earlier(rows, time, x);
    SubsetSize(Earlier(rows, time, x), rows);
  }

  /** Every number of 1..n is taken. */
  lemma {:induction false} RowNumberTaken(rows: set<Id>, time: map<Id, int>, k: nat) returns (x: Id)
    requires rows <= time.Keys && 1 <= k <= |rows|
    ensures x in rows && RowNumber(rows, time, x) == k
    decreases |rows|
  {
    var m := LastOf(rows, time);
    assert Earlier(rows, time, m) == rows - {m};
    if k == |rows| {
      x := m;
    } else {
      x := RowNumberTaken(rows - {m}, time, k);
      assert Earlier(rows, time, x) == Earlier(rows - {m}, time, x);
    }
  }

  // ---------------------------------------------------------------- pending invites

  datatype Invite = Invite(engagement: Id, email: string, createdAt: int)
  type Invites = map<Id, Invite>

  function CreatedAt(rows: Invites): map<Id, int> {
    map x | x in rows :: rows[x].createdAt
  }

  function Lowered(rows: Invites): Invites {
    map x | x in rows :: rows[x].(email := Lower(rows[x].email))
  }

  predicate SameKey(a: Invite, b: Invite) {
    a.engagement == b.engagement && a.email == b.email
  }

  predicate Superseded(rows: Invites, p: Id)
    requires p in rows
  {
    exists q :: q in rows && SameKey(rows[p], rows[q]) && Before(CreatedAt(rows), p, q)
  }

  /** The DELETE ... USING the table itself. */
  function Deduplicated(rows: Invites): Invites {
    map p | p in rows && !Superseded(rows, p) :: rows[p]
  }

  class InviteTable {
    var rows: Invites

    constructor (r: Invites)
      ensures rows == r
    {
      rows := r;
    }

    /** The two statements, in this order; the unique constraint can then be created. */
    method Upgrade()
      modifies this
      ensures rows == Deduplicated(Lowered(old(rows)))
      ensures forall p, q :: p in rows && q in rows && SameKey(rows[p], rows[q]) ==> p == q
    {
      rows := Lowered(rows);
      ghost var lowered := rows;
      rows := Deduplicated(rows);
      forall p, q | p in rows && q in rows && SameKey(rows[p], rows[q]) ensures p == q {
        OneSurvives(lowered, p, q);
      }
    }
  }

  lemma OneSurvives(rows: Invites, p: Id, q: Id)
    requires p in Deduplicated(rows) && q in Deduplicated(rows) && SameKey(rows[p], rows[q])
    ensures p == q
  {
    assert p == q || Before(CreatedAt(rows), p, q) || Before(CreatedAt(rows), q, p);
  }

  /** The same engagement and the same address but for the case of its letters. */
  predicate SameInvitee(a: Invite, b: Invite) {
    a.engagement == b.engagement && Lower(a.email) == Lower(b.email)
  }

  /** Main theorem: whatever the table held, each (engagement, lower-cased e-mail) that occurred
      keeps exactly one row, namely its last by (created_at, id), otherwise unchanged. */
  lemma InvitesKeepTheNewest(rows: Invites, p: Id) returns (kept: Id)
    requires p in rows
    ensures var after := Deduplicated(Lowered(rows));
            && after.Keys <= rows.Keys && kept in after && SameInvitee(rows[kept], rows[p])
            && after[kept] == rows[kept].(email := Lower(rows[kept].email))
            && (forall q :: q in rows && SameInvitee(rows[q], rows[p]) && q != kept ==>
                  Precedes(rows[q].createdAt, q, rows[kept].createdAt, kept) && q !in after)
  {
    var low := Lowered(rows);
    var mates := set q | q in low && SameKey(low[q], low[p]);
    assert p in mates;
    kept := LastOf(mates, CreatedAt(low));
    assert CreatedAt(low) == CreatedAt(rows);
    forall q | q in low && SameKey(low[kept], low[q]) ensures !Before(CreatedAt(low), kept, q) {
      assert q in mates;
    }
    forall q | q in rows && SameInvitee(rows[q], rows[p]) && q != kept
      ensures Superseded(low, q) && Precedes(rows[q].createdAt, q, rows[kept].createdAt, kept)
    {
      assert q in mates;
      assert SameKey(low[q], low[kept]) && Before(CreatedAt(low), q, kept);
    }
  }

  // ---------------------------------------------------------------- depreciation runs

  /** `finalizedAt` may be NULL on a legacy finalized row. */
  datatype DepreciationRun = DepreciationRun(company: Id, year: Id, finalized: bool, finalizedAt: Option<int>)
  type Runs = map<Id, DepreciationRun>

  const EPOCH := 0

  function FinalizedAt(rows: Runs): map<Id, int> {
    map x | x in rows :: if rows[x].finalizedAt.Some? then rows[x].finalizedAt.value else EPOCH
  }

  predicate SameYear(a: DepreciationRun, b: DepreciationRun) {
    a.company == b.company && a.year == b.year
  }

  predicate Outdated(rows: Runs, d: Id)
    requires d in rows
  {
    rows[d].finalized && exists k :: k in rows && rows[k].finalized && SameYear(rows[k], rows[d]) && Before(FinalizedAt(rows), d, k)
  }

  /** The UPDATE that demotes superseded finalized runs to draft. */
  function Demoted(rows: Runs): Runs {
    map d | d in rows :: if Outdated(rows, d) then rows[d].(finalized := false) else rows[d]
  }

  class RunTable {
    var rows: Runs

    constructor (r: Runs)
      ensures rows == r
    {
      rows := r;
    }

    /** The UPDATE; the unique index on finalized runs can then be created. */
    method Upgrade()
      modifies this
      ensures rows == Demoted(old(rows))
      ensures forall p, q :: p in rows && q in rows && rows[p].finalized && rows[q].finalized && SameYear(rows[p], rows[q]) ==> p == q
    {
      ghost var before := rows;
      rows := Demoted(rows);
      forall p, q | p in rows && q in rows && rows[p].finalized && rows[q].finalized && SameYear(rows[p], rows[q]) ensures p == q {
        assert p != q ==> Before(FinalizedAt(before), p, q) || Before(FinalizedAt(before), q, p);
      }
    }
  }

  /** The time a run counts as finalized at: a legacy row without one at the epoch. */
  predicate CountsAt(d: DepreciationRun, t: int) {
    if d.finalizedAt.None? then t == EPOCH else d.finalizedAt == Some(t)
  }

  /** Main theorem: a company's year with a finalized run keeps exactly one finalized, the last by
      (finalized_at or the epoch, id), even among null times; no row is lost and nothing but the
      status of superseded runs changes. */
  lemma YearsKeepTheirLatestRun(rows: Runs, d: Id) returns (kept: Id)
    requires d in rows && rows[d].finalized
    ensures var after := Demoted(rows);
            && kept in after && after[kept] == rows[kept] && rows[kept].finalized && SameYear(rows[kept], rows[d])
            && after.Keys == rows.Keys
            && (forall q :: q in rows && rows[q].finalized && SameYear(rows[q], rows[d]) && q != kept ==>
                  && (forall t, u :: CountsAt(rows[q], t) && CountsAt(rows[kept], u) ==> Precedes(t, q, u, kept))
                  && after[q] == rows[q].(finalized := false))
            && (forall q :: q in rows && !rows[q].finalized ==> after[q] == rows[q])
  {
    var mates := set q | q in rows && rows[q].finalized && SameYear(rows[q], rows[d]);
    assert d in mates;
    kept := LastOf(mates, FinalizedAt(rows));
    forall k | k in rows && rows[k].finalized && SameYear(rows[k], rows[kept]) ensures !Before(FinalizedAt(rows), kept, k) {
      assert k in mates;
    }
    forall q | q in mates && q != kept ensures Outdated(rows, q) {
      assert SameYear(rows[kept], rows[q]) && Before(FinalizedAt(rows), q, kept);
    }
  }

  // ---------------------------------------------------------------- requirement numbering

  datatype Response = Response(requirement: Id, createdAt: int)
  datatype Requirement = Requirement(engagement: Id, createdAt: int, seqNumber: Option<int>)

  function ResponseTimes(rows: map<Id, Response>): map<Id, int> {
    map x | x in rows :: rows[x].createdAt
  }

  function ResponsesOf(rows: map<Id, Response>, requirement: Id): set<Id> {
    set x | x in rows && rows[x].requirement == requirement
  }

  function RoundNumbers(rows: map<Id, Response>): map<Id, nat> {
    map x | x in rows :: RowNumber(ResponsesOf(rows, rows[x].requirement), ResponseTimes(rows), x)
  }

  ghost predicate Taken(rounds: map<Id, nat>, group: set<Id>, k: nat) {
    exists z :: z in group && z in rounds && rounds[z] == k
  }

  /** Main theorem: each requirement's responses are numbered exactly 1..n in order of time. */
  lemma RoundsAreOneToN(rows: map<Id, Response>, x: Id, y: Id)
    requires x in rows && y in rows && rows[x].requirement == rows[y].requirement
    ensures var (rounds, group) := (RoundNumbers(rows), ResponsesOf(rows, rows[x].requirement));
            && 1 <= rounds[x] <= |group|
            && (rounds[x] < rounds[y] <==> Precedes(rows[x].createdAt, x, rows[y].createdAt, y))
            && (forall k: nat :: 1 <= k <= |group| ==> Taken(rounds, group, k))
  {
    var group, times := ResponsesOf(rows, rows[x].requirement), ResponseTimes(rows);
    RowNumberBound(group, times, x);
    if Before(times, x, y) { RowNumbersDiffer(group, times, x, y); }
    if Before(times, y, x) { RowNumbersDiffer(group, times, y, x); }
    forall k: nat | 1 <= k <= |group| ensures Taken(RoundNumbers(rows), group, k) {
      var z := RowNumberTaken(group, times, k);
      assert rows[z].requirement == rows[x].requirement && RoundNumbers(rows)[z] == k;
    }
  }

  function RequirementTimes(rows: map<Id, Requirement>): map<Id, int> {
    map x | x in rows :: rows[x].createdAt
  }

  function Unnumbered(rows: map<Id, Requirement>, e: Id): set<Id> {
    set x | x in rows && rows[x].engagement == e && rows[x].seqNumber.None?
  }

  /** The rows of an engagement that already have a number, and those numbers. */
  function Given(rows: map<Id, Requirement>, e: Id): map<Id, int> {
    map x | x in rows && rows[x].engagement == e && rows[x].seqNumber.Some? :: rows[x].seqNumber.value
  }

  ghost predicate HasMax(numbers: map<Id, int>, m: Id) {
    m in numbers && forall x :: x in numbers ==> numbers[x] <= numbers[m]
  }

  /** `COALESCE(max(seq_number), 0)`. */
  ghost function TopNumber(numbers: map<Id, int>): (top: int)
    ensures numbers == map[] ==> top == 0
    ensures forall x :: x in numbers ==> numbers[x] <= top
  {
    if numbers == map[] then 0
    else
      assert exists m :: HasMax(numbers, m) by {
        assert numbers.Keys != {};
        var m := LastOf(numbers.Keys, numbers);
        assert HasMax(numbers, m);
      }
      var m :| HasMax(numbers, m); numbers[m]
  }

  ghost function Numbered(rows: map<Id, Requirement>): map<Id, Requirement> {
    map x | x in rows ::
      if rows[x].seqNumber.Some? then rows[x]
      else rows[x].(seqNumber := Some(RowNumber(Unnumbered(rows, rows[x].engagement), RequirementTimes(rows), x)
                                      + TopNumber(Given(rows, rows[x].engagement))))
  }

  /** Main theorem: afterwards every requirement has a number and nothing else changed; existing
      numbers stay; and a number that was filled in differs from every other number of its engagement,
      old or new. The new ones follow the old without a gap, in order of time. */
  lemma BackfilledNumbersAreNew(rows: map<Id, Requirement>, x: Id, y: Id)
    requires x in rows && y in rows && rows[x].engagement == rows[y].engagement && x != y && rows[x].seqNumber.None?
    ensures var (after, e) := (Numbered(rows), rows[x].engagement);
            && after.Keys == rows.Keys && after[x].seqNumber.Some? && after[y].seqNumber.Some?
            && after[x] == rows[x].(seqNumber := after[x].seqNumber)
            && (rows[y].seqNumber.Some? ==> after[y] == rows[y])
            && (rows[y].seqNumber.None? ==> 
                  (after[x].seqNumber.value < after[y].seqNumber.value <==> Precedes(rows[x].createdAt, x, rows[y].createdAt, y)))
            && after[x].seqNumber != after[y].seqNumber
            && TopNumber(Given(rows, e)) < after[x].seqNumber.value <= TopNumber(Given(rows, e)) + |Unnumbered(rows, e)|
  {
    var e := rows[x].engagement;
    var group, times := Unnumbered(rows, e), RequirementTimes(rows);
    RowNumberBound(group, times, x);
    assert Numbered(rows)[x].seqNumber == Some(RowNumber(group, times, x) + TopNumber(Given(rows, e)));
    if rows[y].seqNumber.Some? {
      assert Given(rows, e)[y] == rows[y].seqNumber.value;
    } else if Before(times, x, y) {
      RowNumbersDiffer(group, times, x, y);
    } else {
      RowNumbersDiffer(group, times, y, x);
    }
  }
}
