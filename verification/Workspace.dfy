/** The audit work of one engagement: adjusting entries, requirements and queries, and what
    each auditor or company request does to them once access has been decided
    (app/routers/auditor_engagements.py, app/routers/auditease.py). */
module Workspace {
  import opened Prelude

  type Id = nat

  /** A journal line as requested, not yet rounded to paise; a parsed binary float is the exact
      number it stands for. */
  datatype Line = Line(ledger: Id, debit: bool, amount: real)

  /** The same line in its `Numeric(15, 2)` column, counted in paise. */
  datatype Posted = Posted(ledger: Id, debit: bool, paise: int)

  datatype EntryStatus = Proposed | Approved | Rejected
  datatype Entry = Entry(id: Id, createdBy: Id, status: EntryStatus, lines: seq<Posted>)
  datatype Requirement = Requirement(open: bool, closedBy: Option<Id>, description: string, responses: nat)
  datatype Query = Query(open: bool, openedBy: Id, requirement: Option<Id>, messages: nat)
  datatype Workspace = Workspace(entries: seq<Entry>, requirements: map<Id, Requirement>, queries: map<Id, Query>)

  const EMPTY := Workspace([], map[], map[])

  datatype AuditorCommand =
    | CreateEntry(lines: seq<Line>, debit: real, credit: real)   // with the totals the float sums came to
    | DeleteEntry(entry: Id)
    | CreateRequirement(description: string)
    | UpdateRequirement(requirement: Id, description: string)
    | DeleteRequirement(requirement: Id)
    | CloseRequirement(requirement: Id)
    | ReopenRequirement(requirement: Id)
    | CreateQuery(about: Option<Id>)
    | AddMessage(query: Id)
    | CloseQuery(query: Id)

  datatype CompanyCommand =
    | ReviewEntry(entry: Id, status: EntryStatus)
    | Respond(requirement: Id, empty: bool)

  /** The permission area each auditor endpoint asks for. */
  function Area(c: AuditorCommand): string {
    match c
    case CreateEntry(_, _, _) | DeleteEntry(_) => "entries"
    case CreateQuery(_) | AddMessage(_) | CloseQuery(_) => "queries"
    case _ => "requirements"
  }

  /** Rounding into a two-decimal column: to the nearest paisa, halves away from zero. */
  function Paise(amount: real): int {
    if amount >= 0.0 then (amount * 100.0 + 0.5).Floor else -((-amount * 100.0 + 0.5).Floor)
  }

  /** What `sum` over floats keeps while it runs: the running total and the rounding it has lost,
      which Python 3.12 adds back at the end. */
  datatype Tally = Tally(sum: real, lost: real)

  /** The running tally over one side, each step as the float arithmetic `add` does it. */
  function Tallied(lines: seq<Line>, debit: bool, add: (Tally, real) -> Tally): Tally {
    if lines == [] then Tally(0.0, 0.0)
    else
      var before, l := Tallied(lines[..|lines| - 1], debit, add), lines[|lines| - 1];
      if l.debit == debit then add(before, l.amount) else before
  }

  /** The exact sum. */
  function Side(lines: seq<Line>, debit: bool): real {
    if lines == [] then 0.0
    else Side(lines[..|lines| - 1], debit) +
         (var l := lines[|lines| - 1]; if l.debit == debit then l.amount else 0.0)
  }

  function Post(lines: seq<Line>): (r: seq<Posted>)
    ensures |r| == |lines|
  {
    seq(|lines|, i requires 0 <= i < |lines| => Posted(lines[i].ledger, lines[i].debit, Paise(lines[i].amount)))
  }

  function IndexOf(entries: seq<Entry>, id: Id): (r: Option<nat>)
    ensures r.Some? ==> r.value < |entries| && entries[r.value].id == id
    ensures r.None? ==> forall i :: 0 <= i < |entries| ==> entries[i].id != id
  {
    if entries == [] then None
    else if entries[|entries| - 1].id == id then Some(|entries| - 1)
    else IndexOf(entries[..|entries| - 1], id)
  }

  /** What a granted auditor request answers and leaves behind; `newId` is the new row's id. */
  function AuditorAct(w: Workspace, auditor: Id, c: AuditorCommand, newId: Id): (Answer, Workspace) {
    match c
    case CreateEntry(lines, debit, credit) =>
      if debit != credit then (Reject(400), w)
      else (Ok, w.(entries := w.entries + [Entry(newId, auditor, Proposed, Post(lines))]))
    case DeleteEntry(id) =>
      var at := IndexOf(w.entries, id);
      if at.None? then (Reject(404), w)
      else if w.entries[at.value].status != Proposed then (Reject(400), w)
      else (Ok, w.(entries := w.entries[..at.value] + w.entries[at.value + 1..]))
    case CreateRequirement(d) =>
      (Ok, w.(requirements := w.requirements[newId := Requirement(true, None, d, 0)]))
    case UpdateRequirement(id, d) =>
      if id !in w.requirements then (Reject(404), w)
      else if !w.requirements[id].open then (Reject(400), w)
      else (Ok, w.(requirements := w.requirements[id := w.requirements[id].(description := d)]))
    case DeleteRequirement(id) =>
      if id !in w.requirements then (Reject(404), w)
      else if w.requirements[id].responses > 0 then (Reject(400), w)
      else (Ok, w.(requirements := w.requirements - {id}))
    case CloseRequirement(id) =>
      if id !in w.requirements then (Reject(404), w)
      else if !w.requirements[id].open then (Reject(400), w)
      else (Ok, w.(requirements := w.requirements[id := w.requirements[id].(open := false, closedBy := Some(auditor))]))
    case ReopenRequirement(id) =>
      if id !in w.requirements then (Reject(404), w)
      else if w.requirements[id].open then (Reject(400), w)
      else (Ok, w.(requirements := w.requirements[id := w.requirements[id].(open := true, closedBy := None)]))
    case CreateQuery(about) =>
      if about.Some? && about.value !in w.requirements then (Reject(400), w)
      else (Ok, w.(queries := w.queries[newId := Query(true, auditor, about, 1)]))
    case AddMessage(id) =>
      if id !in w.queries || !w.queries[id].open then (Reject(400), w)
      else (Ok, w.(queries := w.queries[id := w.queries[id].(messages := w.queries[id].messages + 1)]))
    case CloseQuery(id) =>
      if id !in w.queries then (Reject(404), w)
      else if w.queries[id].openedBy != auditor then (Reject(403), w)
      else (Ok, w.(queries := w.queries[id := w.queries[id].(open := false)]))
  }

  /** Company requests on the same work; `closed` tells whether the engagement is closed. */
  function CompanyAct(w: Workspace, c: CompanyCommand, closed: bool): (Answer, Workspace) {
    match c
    case ReviewEntry(id, status) =>
      var at := IndexOf(w.entries, id);
      if at.None? then (Reject(404), w)
      else if status == Proposed then (Reject(400), w)
      else (Ok, w.(entries := w.entries[at.value := w.entries[at.value].(status := status)]))
    case Respond(id, empty) =>
      if id !in w.requirements then (Reject(404), w)
      else if closed || !w.requirements[id].open then (Reject(400), w)
      else if empty then (Reject(422), w)
      else (Ok, w.(requirements := w.requirements[id := w.requirements[id].(responses := w.requirements[id].responses + 1)]))
  }

  // ---------------------------------------------------------------- the handlers themselves

  class WorkFile {
    var entries: seq<Entry>
    var requirements: map<Id, Requirement>
    var queries: map<Id, Query>

    function State(): Workspace
      reads this
    {
      Workspace(entries, requirements, queries)
    }

    constructor ()
      ensures State() == EMPTY
    {
      entries, requirements, queries := [], map[], map[];
    }

    /** `create_entry`: two float sums over the unrounded amounts, for any arithmetic of a step (`add`)
        and of the end (`total`), plain or compensated; then one row per line. */
    method CreateAuditEntry(auditor: Id, lines: seq<Line>, add: (Tally, real) -> Tally, total: Tally -> real, newId: Id)
      returns (answer: Answer)
      modifies `entries
      ensures (answer, State()) ==
              AuditorAct(old(State()), auditor,
                         CreateEntry(lines, total(Tallied(lines, true, add)), total(Tallied(lines, false, add))), newId)
    {
      var debits, credits := Tally(0.0, 0.0), Tally(0.0, 0.0);
      for i := 0 to |lines|
        invariant debits == Tallied(lines[..i], true, add) && credits == Tallied(lines[..i], false, add)
      {
        assert lines[..i + 1][..i] == lines[..i];
        if lines[i].debit { debits := add(debits, lines[i].amount); }
        else { credits := add(credits, lines[i].amount); }
      }
      assert lines[..|lines|] == lines;
      var totalDebit, totalCredit := total(debits), total(credits);
      if totalDebit != totalCredit { return Reject(400); }
      var rows: seq<Posted> := [];
      for i := 0 to |lines|
        invariant rows == Post(lines)[..i]
      {
        rows := rows + [Posted(lines[i].ledger, lines[i].debit, Paise(lines[i].amount))];
      }
      assert rows == Post(lines);
      entries := entries + [Entry(newId, auditor, Proposed, rows)];
      return Ok;
    }

    method DeleteAuditorEntry(auditor: Id, id: Id) returns (answer: Answer)
      modifies `entries
      ensures forall n :: (answer, State()) == AuditorAct(old(State()), auditor, DeleteEntry(id), n)
    {
      var at := IndexOf(entries, id);
      if at.None? { return Reject(404); }
      if entries[at.value].status != Proposed { return Reject(400); }
      entries := entries[..at.value] + entries[at.value + 1..];
      return Ok;
    }

    /** `approve_reject_entry`. */
    method ApproveRejectEntry(id: Id, status: EntryStatus, closed: bool) returns (answer: Answer)
      modifies `entries
      ensures (answer, State()) == CompanyAct(old(State()), ReviewEntry(id, status), closed)
    {
      var at := IndexOf(entries, id);
      if at.None? { return Reject(404); }
      if status == Proposed { return Reject(400); }
      entries := entries[at.value := entries[at.value].(status := status)];
      return Ok;
    }

    method RespondRequirement(id: Id, empty: bool, closed: bool) returns (answer: Answer)
      modifies `requirements
      ensures (answer, State()) == CompanyAct(old(State()), Respond(id, empty), closed)
    {
      if id !in requirements { return Reject(404); }
      if closed { return Reject(400); }
      if !requirements[id].open { return Reject(400); }
      if empty { return Reject(422); }
      requirements := requirements[id := requirements[id].(responses := requirements[id].responses + 1)];
      return Ok;
    }

    method CloseRequirementRow(auditor: Id, id: Id) returns (answer: Answer)
      modifies `requirements
      ensures forall n :: (answer, State()) == AuditorAct(old(State()), auditor, CloseRequirement(id), n)
    {
      if id !in requirements { return Reject(404); }
      if !requirements[id].open { return Reject(400); }
      requirements := requirements[id := requirements[id].(open := false, closedBy := Some(auditor))];
      return Ok;
    }

    method ReopenRequirementRow(auditor: Id, id: Id) returns (answer: Answer)
      modifies `requirements
      ensures forall n :: (answer, State()) == AuditorAct(old(State()), auditor, ReopenRequirement(id), n)
    {
      if id !in requirements { return Reject(404); }
      if requirements[id].open { return Reject(400); }
      requirements := requirements[id := requirements[id].(open := true, closedBy := None)];
      return Ok;
    }

    method DeleteRequirementRow(auditor: Id, id: Id) returns (answer: Answer)
      modifies `requirements
      ensures forall n :: (answer, State()) == AuditorAct(old(State()), auditor, DeleteRequirement(id), n)
    {
      if id !in requirements { return Reject(404); }
      if requirements[id].responses > 0 { return Reject(400); }
      requirements := requirements - {id};
      return Ok;
    }
  }
}

/** Double entry: what approved adjustments do to the trial balance as a whole
    (app/services/trial_balance_query.py `load_adjustments`). */
module Conservation {
  import opened Prelude
  import opened Workspace

  /** One ledger row of the engagement's trial balance: closing net debit in paise. */
  datatype Ledger = Ledger(id: Id, closing: int)

  function Signed(p: Posted): int {
    if p.debit then p.paise else -p.paise
  }

  function Net(lines: seq<Posted>): int {
    if lines == [] then 0 else Net(lines[..|lines| - 1]) + Signed(lines[|lines| - 1])
  }

  function NetOn(lines: seq<Posted>, ledger: Id): int {
    if lines == [] then 0
    else NetOn(lines[..|lines| - 1], ledger) +
         (var p := lines[|lines| - 1]; if p.ledger == ledger then Signed(p) else 0)
  }

  /** The lines of every approved entry, in entry order. */
  function ApprovedLines(entries: seq<Entry>): seq<Posted> {
    if entries == [] then []
    else ApprovedLines(entries[..|entries| - 1]) +
         (var e := entries[|entries| - 1]; if e.status == Approved then e.lines else [])
  }

  ghost predicate Totals(adjustments: map<Id, int>, lines: seq<Posted>) {
    forall l :: (if l in adjustments then adjustments[l] else 0) == NetOn(lines, l)
  }

  lemma TotalsOneMore(before: map<Id, int>, lines: seq<Posted>, p: Posted)
    requires Totals(before, lines)
    ensures Totals(before[p.ledger := (if p.ledger in before then before[p.ledger] else 0) + Signed(p)], lines + [p])
  {
    assert (lines + [p])[..|lines|] == lines;
  }

  /** Net-debit adjustment per ledger, from approved entries only. */
  method LoadAdjustments(entries: seq<Entry>) returns (adjustments: map<Id, int>)
    ensures forall l :: (if l in adjustments then adjustments[l] else 0) == NetOn(ApprovedLines(entries), l)
  {
    adjustments := map[];
    for i := 0 to |entries|
      invariant Totals(adjustments, ApprovedLines(entries[..i]))
    {
      assert entries[..i + 1][..i] == entries[..i];
      if entries[i].status == Approved {
        adjustments := AddLines(adjustments, ApprovedLines(entries[..i]), entries[i].lines);
      } else {
        assert ApprovedLines(entries[..i]) + [] == ApprovedLines(entries[..i]);
      }
    }
    assert entries[..|entries|] == entries;
  }

  /** The inner loop, over one entry's lines. */
  method AddLines(start: map<Id, int>, ghost before: seq<Posted>, lines: seq<Posted>) returns (adjustments: map<Id, int>)
    requires Totals(start, before)
    ensures Totals(adjustments, before + lines)
  {
    adjustments := start;
    assert before + lines[..0] == before;
    for j := 0 to |lines|
      invariant Totals(adjustments, before + lines[..j])
    {
      var p := lines[j];
      var delta := if p.debit then p.paise else -p.paise;
      TotalsOneMore(adjustments, before + lines[..j], p);
      assert before + lines[..j + 1] == before + lines[..j] + [p];
      adjustments := adjustments[p.ledger := (if p.ledger in adjustments then adjustments[p.ledger] else 0) + delta];
    }
    assert lines[..|lines|] == lines;
  }

  function SumClosing(accounts: seq<Ledger>): int {
    if accounts == [] then 0 else SumClosing(accounts[..|accounts| - 1]) + accounts[|accounts| - 1].closing
  }

  /** Sum over the accounts of closing plus adjustment: the adjusted trial balance. */
  function SumFinal(accounts: seq<Ledger>, lines: seq<Posted>): int {
    if accounts == [] then 0
    else SumFinal(accounts[..|accounts| - 1], lines) +
         accounts[|accounts| - 1].closing + NetOn(lines, accounts[|accounts| - 1].id)
  }

  ghost predicate Distinct(accounts: seq<Ledger>) {
    forall i, j :: 0 <= i < j < |accounts| ==> accounts[i].id != accounts[j].id
  }

  function Listing(accounts: seq<Ledger>): set<Id> {
    set a | a in accounts :: a.id
  }

  /** The part of the lines that names ledgers outside the trial balance. */
  function Foreign(lines: seq<Posted>, own: set<Id>): int {
    if lines == [] then 0
    else Foreign(lines[..|lines| - 1], own) +
         (var p := lines[|lines| - 1]; if p.ledger in own then 0 else Signed(p))
  }

  lemma {:induction false} NoLines(accounts: seq<Ledger>)
    ensures SumFinal(accounts, []) == SumClosing(accounts)
    decreases |accounts|
  {
    if accounts != [] { NoLines(accounts[..|accounts| - 1]); }
  }

  lemma {:induction false} OneMoreLine(accounts: seq<Ledger>, lines: seq<Posted>, p: Posted)
    requires Distinct(accounts)
    ensures SumFinal(accounts, lines + [p]) ==
            SumFinal(accounts, lines) + (if p.ledger in Listing(accounts) then Signed(p) else 0)
    decreases |accounts|
  {
    if accounts != [] {
      var n := |accounts| - 1;
      var init := accounts[..n];
      OneMoreLine(init, lines, p);
      assert (lines + [p])[..|lines|] == lines;
      assert p.ledger in Listing(accounts) <==> p.ledger in Listing(init) || p.ledger == accounts[n].id by {
        assert forall a :: a in accounts <==> a in init || a == accounts[n];
      }
      assert accounts[n].id !in Listing(init);
    }
  }

  /** Exchanging the sum over ledgers with the sum over lines: the adjusted total is the
      closing total, plus what the lines do not balance, less what they post elsewhere. */
  lemma {:induction false} Exchange(accounts: seq<Ledger>, lines: seq<Posted>)
    requires Distinct(accounts)
    ensures SumFinal(accounts, lines) == SumClosing(accounts) + Net(lines) - Foreign(lines, Listing(accounts))
    decreases |lines|
  {
    if lines == [] {
      NoLines(accounts);
    } else {
      var n := |lines| - 1;
      Exchange(accounts, lines[..n]);
      assert lines == lines[..n] + [lines[n]];
      OneMoreLine(accounts, lines[..n], lines[n]);
    }
  }

  // ---------------------------------------------------------------- rounding

  predicate WholePaise(lines: seq<Line>) {
    forall i :: 0 <= i < |lines| ==> lines[i].amount * 100.0 == Paise(lines[i].amount) as real
  }

  /** The signed rounding errors of a request, in paise. */
  function SignedError(lines: seq<Line>): real {
    if lines == [] then 0.0
    else var l := lines[|lines| - 1];
         var error := Paise(l.amount) as real - l.amount * 100.0;
         SignedError(lines[..|lines| - 1]) + (if l.debit then error else -error)
  }

  lemma {:induction false} PostedNet(lines: seq<Line>)
    ensures Net(Post(lines)) as real == (Side(lines, true) - Side(lines, false)) * 100.0 + SignedError(lines)
    ensures WholePaise(lines) ==> SignedError(lines) == 0.0
    ensures -(|lines| as real) <= 2.0 * SignedError(lines) <= |lines| as real
    decreases |lines|
  {
    if lines != [] {
      var n := |lines| - 1;
      PostedNet(lines[..n]);
      assert Post(lines)[..n] == Post(lines[..n]);
      var l := lines[n];
      var a := if l.amount >= 0.0 then l.amount else -l.amount;
      assert -0.5 <= (a * 100.0 + 0.5).Floor as real - a * 100.0 <= 0.5;
    }
  }

  predicate NearlyBalanced(e: Entry) {
    -|e.lines| <= 2 * Net(e.lines) <= |e.lines|
  }

  /** In paise, what the float sums got wrong on the debit side less the credit side. */
  function Drift(lines: seq<Line>, debit: real, credit: real): real {
    ((Side(lines, true) - debit) - (Side(lines, false) - credit)) * 100.0
  }

  /** Everything an accepted request errs by: its float sums and its rounding to paise. */
  function TotalError(lines: seq<Line>, debit: real, credit: real): real {
    Drift(lines, debit, credit) + SignedError(lines)
  }

  /** An accepted entry is off in the database by exactly the total error of its request, so it
      balances exactly when that error is below one paisa; with exact sums it never misses by more
      than half a paisa a line, and with whole paise besides it balances. */
  lemma AcceptedEntryNet(w: Workspace, auditor: Id, lines: seq<Line>, debit: real, credit: real, newId: Id)
    requires AuditorAct(w, auditor, CreateEntry(lines, debit, credit), newId).0 == Ok
    ensures var e := AuditorAct(w, auditor, CreateEntry(lines, debit, credit), newId).1.entries[|w.entries|];
            && Net(e.lines) as real == TotalError(lines, debit, credit)
            && (Net(e.lines) == 0 <==> -1.0 < TotalError(lines, debit, credit) < 1.0)
            && (Drift(lines, debit, credit) == 0.0 ==> NearlyBalanced(e) && (WholePaise(lines) ==> Net(e.lines) == 0))
  {
    PostedNet(lines);
  }

  /** The guard alone is not enough: two half-paisa debits against one paisa. */
  lemma SubPaisaEntryUnbalanced()
    ensures var lines := [Line(1, true, 0.005), Line(1, true, 0.005), Line(2, false, 0.01)];
            AuditorAct(EMPTY, 0, CreateEntry(lines, Side(lines, true), Side(lines, false)), 0).0 == Ok && Net(Post(lines)) == 1
  {
    var lines := [Line(1, true, 0.005), Line(1, true, 0.005), Line(2, false, 0.01)];
    assert lines[..2] == [Line(1, true, 0.005), Line(1, true, 0.005)];
    assert lines[..2][..1] == [Line(1, true, 0.005)] && lines[..2][..1][..0] == [];
    assert Side(lines[..2][..1], true) == 0.005 && Side(lines[..2][..1], false) == 0.0;
    assert Side(lines[..2], true) == 0.01 && Side(lines[..2], false) == 0.0;
    assert Side(lines, true) == 0.01 == Side(lines, false);
    var p := Post(lines);
    assert p[..2] == Post(lines[..2]) && p[..2][..1] == Post(lines[..2][..1]) && p[..2][..1][..0] == [];
    assert p[0].paise == 1 && p[1].paise == 1 && p[2].paise == 1;
    assert Net(p[..2][..1]) == Net([]) + Signed(p[0]) == 1;
    assert p[..2][1] == p[1] && Signed(p[1]) == 1;
    assert Net(p[..2]) == Net(p[..2][..1]) + Signed(p[..2][1]);
  }

  // ---------------------------------------------------------------- whole histories

  /** One request on the workspace, by an auditor or by the company. */
  datatype Step = ByAuditor(auditor: Id, act: AuditorCommand, newId: Id) | ByCompany(request: CompanyCommand, closed: bool)

  function Do(w: Workspace, s: Step): Workspace {
    match s
    case ByAuditor(a, c, newId) => AuditorAct(w, a, c, newId).1
    case ByCompany(c, closed) => CompanyAct(w, c, closed).1
  }

  function Run(steps: seq<Step>): Workspace {
    if steps == [] then EMPTY else Do(Run(steps[..|steps| - 1]), steps[|steps| - 1])
  }

  /** A request whose sums and roundings err by less than a paisa in all. */
  predicate SmallError(s: Step) {
    s.ByAuditor? && s.act.CreateEntry? ==> -1.0 < TotalError(s.act.lines, s.act.debit, s.act.credit) < 1.0
  }

  predicate ExactSums(s: Step) {
    s.ByAuditor? && s.act.CreateEntry? ==> Drift(s.act.lines, s.act.debit, s.act.credit) == 0.0
  }

  /** A step invents no lines: every entry keeps the lines it had, or is the one just accepted. */
  lemma StepKeepsLines(w: Workspace, s: Step, e: Entry)
    requires e in Do(w, s).entries
    ensures (exists d :: d in w.entries && d.lines == e.lines) ||
            (s.ByAuditor? && s.act.CreateEntry? && AuditorAct(w, s.auditor, s.act, s.newId).0 == Ok &&
             e == Do(w, s).entries[|w.entries|])
  {
    if e !in w.entries {
      if s.ByCompany? {
        var at := IndexOf(w.entries, s.request.entry).value;
        assert e == w.entries[at].(status := s.request.status);
        assert w.entries[at] in w.entries;
      }
    }
  }

  lemma {:induction false} EntriesStayBalanced(steps: seq<Step>)
    ensures (forall s :: s in steps ==> ExactSums(s)) ==> forall e :: e in Run(steps).entries ==> NearlyBalanced(e)
    ensures (forall s :: s in steps ==> SmallError(s)) ==> forall e :: e in Run(steps).entries ==> Net(e.lines) == 0
    decreases |steps|
  {
    if steps != [] {
      var n := |steps| - 1;
      EntriesStayBalanced(steps[..n]);
      var w, s := Run(steps[..n]), steps[n];
      assert forall t :: t in steps[..n] ==> t in steps;
      assert s in steps;
      forall e | e in Do(w, s).entries
        ensures (forall s :: s in steps ==> ExactSums(s)) ==> NearlyBalanced(e)
        ensures (forall s :: s in steps ==> SmallError(s)) ==> Net(e.lines) == 0
      {
        StepKeepsLines(w, s, e);
        if s.ByAuditor? && s.act.CreateEntry? && AuditorAct(w, s.auditor, s.act, s.newId).0 == Ok {
          AcceptedEntryNet(w, s.auditor, s.act.lines, s.act.debit, s.act.credit, s.newId);
        }
      }
    }
  }

  lemma {:induction false} NetConcat(a: seq<Posted>, b: seq<Posted>)
    ensures Net(a + b) == Net(a) + Net(b)
    decreases |b|
  {
    if b == [] {
      assert a + b == a;
    } else {
      assert (a + b)[..|a + b| - 1] == a + b[..|b| - 1];
      NetConcat(a, b[..|b| - 1]);
    }
  }

  lemma {:induction false} ApprovedNet(entries: seq<Entry>)
    requires forall e :: e in entries ==> NearlyBalanced(e)
    ensures -|ApprovedLines(entries)| <= 2 * Net(ApprovedLines(entries)) <= |ApprovedLines(entries)|
    ensures (forall e :: e in entries ==> Net(e.lines) == 0) ==> Net(ApprovedLines(entries)) == 0
    decreases |entries|
  {
    if entries != [] {
      var n := |entries| - 1;
      ApprovedNet(entries[..n]);
      var e := entries[n];
      assert e in entries;
      NetConcat(ApprovedLines(entries[..n]), if e.status == Approved then e.lines else []);
    }
  }

  lemma {:induction false} NetOnConcat(a: seq<Posted>, b: seq<Posted>, l: Id)
    ensures NetOn(a + b, l) == NetOn(a, l) + NetOn(b, l)
    decreases |b|
  {
    if b == [] {
      assert a + b == a;
    } else {
      assert (a + b)[..|a + b| - 1] == a + b[..|b| - 1];
      NetOnConcat(a, b[..|b| - 1], l);
    }
  }

  /** What an entry contributes to a ledger: its lines if it is approved, nothing otherwise. */
  function Contribution(e: Entry, l: Id): int {
    if e.status == Approved then NetOn(e.lines, l) else 0
  }

  function Adjustment(entries: seq<Entry>, l: Id): int {
    NetOn(ApprovedLines(entries), l)
  }

  lemma AdjustmentOfOneMore(entries: seq<Entry>, e: Entry, l: Id)
    ensures Adjustment(entries + [e], l) == Adjustment(entries, l) + Contribution(e, l)
  {
    assert (entries + [e])[..|entries|] == entries;
    NetOnConcat(ApprovedLines(entries), if e.status == Approved then e.lines else [], l);
  }

  lemma {:induction false} AdjustmentConcat(a: seq<Entry>, b: seq<Entry>, l: Id)
    ensures Adjustment(a + b, l) == Adjustment(a, l) + Adjustment(b, l)
    decreases |b|
  {
    if b == [] {
      assert a + b == a;
    } else {
      var init, e := b[..|b| - 1], b[|b| - 1];
      assert a + b == (a + init) + [e] && b == init + [e];
      AdjustmentConcat(a, init, l);
      AdjustmentOfOneMore(a + init, e, l);
      AdjustmentOfOneMore(init, e, l);
    }
  }

  lemma Singleton(e: Entry, l: Id)
    ensures Adjustment([e], l) == Contribution(e, l)
  {
    AdjustmentOfOneMore([], e, l);
    assert [] + [e] == [e];
  }

  lemma AdjustmentReplace(entries: seq<Entry>, k: nat, replacement: seq<Entry>, l: Id)
    requires k < |entries| && |replacement| <= 1
    ensures Adjustment(entries[..k] + replacement + entries[k + 1..], l) ==
            Adjustment(entries, l) - Contribution(entries[k], l) + Adjustment(replacement, l)
    ensures |replacement| == 1 ==> entries[k := replacement[0]] == entries[..k] + replacement + entries[k + 1..]
    ensures replacement == [] ==> entries[..k] + entries[k + 1..] == entries[..k] + replacement + entries[k + 1..]
  {
    var e := entries[k];
    assert entries == (entries[..k] + [e]) + entries[k + 1..];
    AdjustmentConcat(entries[..k] + [e], entries[k + 1..], l);
    AdjustmentConcat(entries[..k], [e], l);
    AdjustmentConcat(entries[..k] + replacement, entries[k + 1..], l);
    AdjustmentConcat(entries[..k], replacement, l);
    Singleton(e, l);
  }

  /** A review moves every ledger's adjustment by the entry's new contribution less its old
      one, so rejecting undoes approving; creating or deleting an entry moves none. */
  lemma StepsMoveAdjustments(w: Workspace, s: Step, l: Id)
    ensures var before, after := Adjustment(w.entries, l), Adjustment(Do(w, s).entries, l);
            var at := if s.ByCompany? && s.request.ReviewEntry? then IndexOf(w.entries, s.request.entry) else None;
            if at.Some? && s.request.status != Proposed then
              var e := w.entries[at.value];
              after == before - Contribution(e, l) + Contribution(e.(status := s.request.status), l)
            else after == before
  {
    if s.ByCompany? && s.request.ReviewEntry? {
      var at := IndexOf(w.entries, s.request.entry);
      if at.Some? && s.request.status != Proposed {
        AdjustmentReplace(w.entries, at.value, [w.entries[at.value].(status := s.request.status)], l);
        Singleton(w.entries[at.value].(status := s.request.status), l);
      }
    } else if s.ByAuditor? && s.act.CreateEntry? {
      AdjustmentOfOneMore(w.entries, Entry(s.newId, s.auditor, Proposed, Post(s.act.lines)), l);
    } else if s.ByAuditor? && s.act.DeleteEntry? {
      var at := IndexOf(w.entries, s.act.entry);
      if at.Some? && w.entries[at.value].status == Proposed {
        AdjustmentReplace(w.entries, at.value, [], l);
      }
    }
  }

  lemma {:induction false} NothingForeign(lines: seq<Posted>, own: set<Id>)
    requires forall p :: p in lines ==> p.ledger in own
    ensures Foreign(lines, own) == 0
    decreases |lines|
  {
    if lines != [] {
      assert lines[|lines| - 1] in lines;
      NothingForeign(lines[..|lines| - 1], own);
    }
  }

  /** Main theorem. However entries are created, approved, rejected, re-approved or deleted,
      the adjusted total is the closing total less what approved lines post to ledgers outside
      the trial balance - exactly, when no request erred by a paisa, and within half a paisa per
      approved line when the sums were exact. Nothing foreign means nothing lost. */
  lemma Conserved(steps: seq<Step>, accounts: seq<Ledger>)
    requires Distinct(accounts)
    ensures var lines := ApprovedLines(Run(steps).entries);
            var lost := Foreign(lines, Listing(accounts));
            && ((forall s :: s in steps ==> SmallError(s)) ==> SumFinal(accounts, lines) == SumClosing(accounts) - lost)
            && ((forall s :: s in steps ==> ExactSums(s)) ==>
                  -|lines| <= 2 * (SumFinal(accounts, lines) - SumClosing(accounts) + lost) <= |lines|)
            && ((forall p :: p in lines ==> p.ledger in Listing(accounts)) ==> lost == 0)
  {
    var entries := Run(steps).entries;
    EntriesStayBalanced(steps);
    assert forall e: Entry :: Net(e.lines) == 0 ==> NearlyBalanced(e);
    if forall e :: e in entries ==> NearlyBalanced(e) { ApprovedNet(entries); }
    Exchange(accounts, ApprovedLines(entries));
    if forall p :: p in ApprovedLines(entries) ==> p.ledger in Listing(accounts) {
      NothingForeign(ApprovedLines(entries), Listing(accounts));
    }
  }

  /** `create_entry` accepts any ledger id, so something can be lost: one rupee from ledger 2,
      which is not in this trial balance, to ledger 1. */
  lemma ForeignLedgerIsAccepted()
    ensures var lines := [Line(1, true, 1.0), Line(2, false, 1.0)];
            && WholePaise(lines)
            && AuditorAct(EMPTY, 0, CreateEntry(lines, 1.0, 1.0), 7).0 == Ok
            && TotalError(lines, 1.0, 1.0) == 0.0
            && Foreign(Post(lines), {1}) == -100
  {
    var lines := [Line(1, true, 1.0), Line(2, false, 1.0)];
    assert lines[..1] == [Line(1, true, 1.0)] && lines[..1][..0] == [];
    assert Side(lines[..1], true) == 1.0 && Side(lines[..1], false) == 0.0;
    PostedNet(lines);
    var p := Post(lines);
    assert p[..1][..0] == [] && p[..1][0].ledger == 1 && p[1] == Posted(2, false, 100);
    assert Foreign(p[..1], {1}) == 0;
  }
}
