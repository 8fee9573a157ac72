/** What each request on an engagement's work answers and changes, said of its rows, and what a run of
    them says of a requirement. */
module WorkspaceRequests {
  import opened Prelude
  import opened Workspace
  import H = Conservation

  /** Ids are a primary key. */
  ghost predicate Keyed(entries: seq<Entry>) {
    forall i, j :: 0 <= i < j < |entries| ==> entries[i].id != entries[j].id
  }

  lemma PaiseIsRounded(amount: real)
    ensures RoundsTo(amount, Paise(amount))
  {
  }

  /** An entry is accepted exactly when its two totals are equal. It is appended as proposed, in the
      auditor's name, with its lines in order: ledger, side, and the amount to the paisa. */
  lemma CreateEntryDoes(w: Workspace, a: Id, lines: seq<Line>, debit: real, credit: real, newId: Id)
    ensures var (answer, after) := AuditorAct(w, a, CreateEntry(lines, debit, credit), newId);
            && (answer == Ok <==> debit == credit)
            && (answer != Ok ==> after == w && answer == Reject(400))
            && (answer == Ok ==>
                  && |after.entries| == |w.entries| + 1 && w.entries <= after.entries
                  && after == w.(entries := after.entries)
                  && var e := after.entries[|w.entries|];
                     && (e.id, e.createdBy, e.status) == (newId, a, Proposed) && |e.lines| == |lines|
                     && forall i :: 0 <= i < |lines| ==>
                          (e.lines[i].ledger, e.lines[i].debit) == (lines[i].ledger, lines[i].debit)
                          && RoundsTo(lines[i].amount, e.lines[i].paise))
  {
    forall i | 0 <= i < |lines| ensures RoundsTo(lines[i].amount, Paise(lines[i].amount)) { PaiseIsRounded(lines[i].amount); }
  }

  function AddExactly(t: Tally, x: real): Tally {
    Tally(t.sum + x, 0.0)
  }

  /** Were the arithmetic exact, each total would be the sum of its side, and an entry would be accepted
      exactly when its debits and credits come to the same. */
  lemma {:induction false} ExactTotals(lines: seq<Line>, debit: bool)
    ensures Tallied(lines, debit, AddExactly) == Tally(Side(lines, debit), 0.0)
    decreases |lines|
  {
    if lines != [] { ExactTotals(lines[..|lines| - 1], debit); }
  }

  /** A proposed entry is deleted; a reviewed one stays. */
  lemma DeleteEntryDoes(w: Workspace, a: Id, id: Id, newId: Id)
    requires Keyed(w.entries)
    ensures var (answer, after) := AuditorAct(w, a, DeleteEntry(id), newId);
            && (answer == Ok <==> exists e :: e in w.entries && e.id == id && e.status == Proposed)
            && (answer == Reject(404) <==> forall e :: e in w.entries ==> e.id != id)
            && (answer != Ok ==> after == w && answer in {Reject(404), Reject(400)})
            && (answer == Ok ==>
                  && after == w.(entries := after.entries)
                  && exists k :: 0 <= k < |w.entries| && w.entries[k].id == id && after.entries == w.entries[..k] + w.entries[k + 1..])
  {
    Looked(w.entries, id);
  }

  /** Looking an id up finds the entry that has it, if any. */
  lemma Looked(entries: seq<Entry>, id: Id)
    requires Keyed(entries)
    ensures var at := IndexOf(entries, id);
            && (at.None? <==> forall e :: e in entries ==> e.id != id)
            && (at.Some? ==> forall e :: e in entries && e.id == id ==> e == entries[at.value])
  {
    var at := IndexOf(entries, id);
    if at.Some? { assert entries[at.value] in entries; }
  }

  /** A review puts any entry of the engagement, in whatever status, into the approved or the rejected
      one and leaves the rest. */
  lemma ReviewEntryDoes(w: Workspace, id: Id, status: EntryStatus, closed: bool)
    requires Keyed(w.entries)
    ensures var (answer, after) := CompanyAct(w, ReviewEntry(id, status), closed);
            && (answer == Ok <==> (exists e :: e in w.entries && e.id == id) && status != Proposed)
            && (answer == Reject(404) <==> forall e :: e in w.entries ==> e.id != id)
            && (answer != Ok ==> after == w && answer in {Reject(404), Reject(400)})
            && (answer == Ok ==>
                  && |after.entries| == |w.entries| && after == w.(entries := after.entries)
                  && forall i :: 0 <= i < |w.entries| ==>
                       after.entries[i] == if w.entries[i].id == id then w.entries[i].(status := status) else w.entries[i])
  {
    Looked(w.entries, id);
  }

  // ---------------------------------------------------------------- requirements

  predicate IsOpen(w: Workspace, id: Id) {
    id in w.requirements && w.requirements[id].open
  }

  predicate IsClosed(w: Workspace, id: Id) {
    id in w.requirements && !w.requirements[id].open
  }

  /** The request comes out well and leaves this requirement so, or it answers 404 without one and 400
      on one in the wrong state, and changes nothing. */
  ghost predicate Turns(w: Workspace, after: Workspace, answer: Answer, id: Id, allowed: bool, row: Requirement) {
    && (answer == Ok <==> id in w.requirements && allowed)
    && (answer == Reject(404) <==> id !in w.requirements)
    && (answer != Ok ==> after == w && answer in {Reject(404), Reject(400)})
    && (answer == Ok ==>
          && id in after.requirements && after.requirements[id] == row && SameBut(w.requirements, after.requirements, id)
          && after == w.(requirements := after.requirements))
  }

  lemma CreateRequirementDoes(w: Workspace, a: Id, text: string, newId: Id)
    ensures var (answer, after) := AuditorAct(w, a, CreateRequirement(text), newId);
            && answer == Ok && newId in after.requirements && after.requirements[newId] == Requirement(true, None, text, 0)
            && SameBut(w.requirements, after.requirements, newId) && after == w.(requirements := after.requirements)
  {
  }

  /** Text, closing and reopening: of an open requirement the first two, of a closed one the last. */
  lemma RequirementTurns(w: Workspace, a: Id, id: Id, text: string, newId: Id)
    requires id in w.requirements
    ensures var (answer, after) := AuditorAct(w, a, UpdateRequirement(id, text), newId);
            Turns(w, after, answer, id, IsOpen(w, id), w.requirements[id].(description := text))
    ensures var (answer, after) := AuditorAct(w, a, CloseRequirement(id), newId);
            Turns(w, after, answer, id, IsOpen(w, id), w.requirements[id].(open := false, closedBy := Some(a)))
    ensures var (answer, after) := AuditorAct(w, a, ReopenRequirement(id), newId);
            Turns(w, after, answer, id, IsClosed(w, id), w.requirements[id].(open := true, closedBy := None))
  {
  }

  lemma MissingRequirement(w: Workspace, a: Id, id: Id, text: string, empty: bool, closed: bool, newId: Id)
    requires id !in w.requirements
    ensures AuditorAct(w, a, UpdateRequirement(id, text), newId) == (Reject(404), w)
    ensures AuditorAct(w, a, CloseRequirement(id), newId) == (Reject(404), w)
    ensures AuditorAct(w, a, ReopenRequirement(id), newId) == (Reject(404), w)
    ensures AuditorAct(w, a, DeleteRequirement(id), newId) == (Reject(404), w)
    ensures CompanyAct(w, Respond(id, empty), closed) == (Reject(404), w)
  {
  }

  /** A requirement nobody answered can go, an answered one cannot, open or closed. */
  lemma DeleteRequirementDoes(w: Workspace, a: Id, id: Id, newId: Id)
    ensures var (answer, after) := AuditorAct(w, a, DeleteRequirement(id), newId);
            && (answer == Ok <==> id in w.requirements && w.requirements[id].responses == 0)
            && (answer != Ok ==> after == w && answer in {Reject(404), Reject(400)})
            && (answer == Ok ==>
                  id !in after.requirements && SameBut(w.requirements, after.requirements, id) && after == w.(requirements := after.requirements))
  {
  }

  /** An answer that says or attaches something goes to an open requirement of an engagement that is
      not closed. */
  lemma RespondDoes(w: Workspace, id: Id, empty: bool, closed: bool)
    ensures var (answer, after) := CompanyAct(w, Respond(id, empty), closed);
            && (answer == Ok <==> IsOpen(w, id) && !closed && !empty)
            && (answer == Reject(422) <==> IsOpen(w, id) && !closed && empty)
            && (answer != Ok ==> after == w && answer in {Reject(404), Reject(400), Reject(422)})
            && (answer == Ok ==>
                  && id in after.requirements
                  && after.requirements[id] == w.requirements[id].(responses := w.requirements[id].responses + 1)
                  && SameBut(w.requirements, after.requirements, id) && after == w.(requirements := after.requirements))
  {
  }

  /** Queries are opened about a requirement that exists or about none, take messages while open, and
      are closed by their opener alone. */
  lemma QueryDoes(w: Workspace, a: Id, about: Option<Id>, id: Id, newId: Id)
    ensures var (answer, after) := AuditorAct(w, a, CreateQuery(about), newId);
            && (answer == Ok <==> (about.Some? ==> about.value in w.requirements))
            && (answer != Ok ==> after == w && answer == Reject(400))
            && (answer == Ok ==>
                  && newId in after.queries && after.queries[newId] == Query(true, a, about, 1)
                  && SameBut(w.queries, after.queries, newId) && after == w.(queries := after.queries))
    ensures var (answer, after) := AuditorAct(w, a, AddMessage(id), newId);
            && (answer == Ok <==> id in w.queries && w.queries[id].open)
            && (answer != Ok ==> after == w && answer == Reject(400))
            && (answer == Ok ==>
                  && id in after.queries && after.queries[id] == w.queries[id].(messages := w.queries[id].messages + 1)
                  && SameBut(w.queries, after.queries, id) && after == w.(queries := after.queries))
    ensures var (answer, after) := AuditorAct(w, a, CloseQuery(id), newId);
            && (answer == Ok <==> id in w.queries && w.queries[id].openedBy == a)
            && (answer == Reject(403) <==> id in w.queries && w.queries[id].openedBy != a)
            && (answer != Ok ==> after == w && answer in {Reject(404), Reject(403)})
            && (answer == Ok ==>
                  && id in after.queries && after.queries[id] == w.queries[id].(open := false)
                  && SameBut(w.queries, after.queries, id) && after == w.(queries := after.queries))
  {
  }

  // ---------------------------------------------------------------- what a run says of a requirement

  /** A step that went through and is about requirement `id`. */
  predicate Went(w: Workspace, s: H.Step) {
    match s
    case ByAuditor(a, c, newId) => AuditorAct(w, a, c, newId).0 == Ok
    case ByCompany(c, closed) => CompanyAct(w, c, closed).0 == Ok
  }

  predicate Creates(s: H.Step, id: Id) {
    s.ByAuditor? && s.act.CreateRequirement? && s.newId == id
  }

  predicate Closes(s: H.Step, id: Id) {
    s.ByAuditor? && s.act == CloseRequirement(id)
  }

  predicate Reopens(s: H.Step, id: Id) {
    s.ByAuditor? && s.act == ReopenRequirement(id)
  }

  predicate Answers(s: H.Step, id: Id) {
    s.ByCompany? && s.request.Respond? && s.request.requirement == id
  }

  /** The requirement's closer and its number of answers, by the steps alone: since its creation, the
      auditor of the last closing unless it was reopened after, and the answers that went through. */
  function Story(steps: seq<H.Step>, id: Id): (Option<Id>, nat) {
    if steps == [] then (None, 0)
    else
      var before, s := steps[..|steps| - 1], steps[|steps| - 1];
      var (closer, answers) := Story(before, id);
      if !Went(H.Run(before), s) then (closer, answers)
      else if Creates(s, id) then (None, 0)
      else if Closes(s, id) then (Some(s.auditor), answers)
      else if Reopens(s, id) then (None, answers)
      else if Answers(s, id) then (closer, answers + 1)
      else (closer, answers)
  }

  lemma StoryStep(w: Workspace, s: H.Step, id: Id)
    requires id in H.Do(w, s).requirements
    ensures id !in w.requirements ==> Went(w, s) && Creates(s, id)
    ensures var after := H.Do(w, s).requirements[id];
            (after.closedBy, after.responses) ==
              if Went(w, s) && Creates(s, id) then (None, 0)
              else if id !in w.requirements then (None, 0)
              else if Went(w, s) && Closes(s, id) then (Some(s.auditor), w.requirements[id].responses)
              else if Went(w, s) && Reopens(s, id) then (None, w.requirements[id].responses)
              else if Went(w, s) && Answers(s, id) then (w.requirements[id].closedBy, w.requirements[id].responses + 1)
              else (w.requirements[id].closedBy, w.requirements[id].responses)
    ensures var after := H.Do(w, s).requirements[id];
            (id in w.requirements ==> (w.requirements[id].open <==> w.requirements[id].closedBy.None?)) ==>
              (after.open <==> after.closedBy.None?)
  {
  }

  /** Main theorem: in every run a requirement is closed exactly when somebody's closing of it stands,
      it names him, and it counts exactly the answers given since it was created. */
  lemma {:induction false} RequirementTellsItsStory(steps: seq<H.Step>, id: Id)
    requires id in H.Run(steps).requirements
    ensures var row := H.Run(steps).requirements[id];
            (row.closedBy, row.responses) == Story(steps, id) && (row.open <==> row.closedBy.None?)
    decreases |steps|
  {
    if steps != [] {
      var before, s := steps[..|steps| - 1], steps[|steps| - 1];
      StoryStep(H.Run(before), s, id);
      if id in H.Run(before).requirements { RequirementTellsItsStory(before, id); }
    }
  }
}
