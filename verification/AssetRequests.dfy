/** What each request of the asset register answers and changes, said of the register itself, and
    whose names its stamps carry. */
module AssetRequests {
  import opened Prelude
  import opened AssetLifecycle
  import B = AssetBatch

  /** The request is about this unit: the one it names, or with siblings any of its acquisition. */
  predicate Reaches(reg: Register, id: Id, siblings: bool, x: Id) {
    && id in reg && x in reg
    && (x == id || (siblings && reg[id].acquisition.Some? && reg[x].acquisition == reg[id].acquisition))
  }

  /** No other asset of the register has the code, in whatever case. */
  ghost predicate Free(reg: Register, code: string, id: Id) {
    forall x :: x in reg && x != id && reg[x].code.Some? ==> Lower(reg[x].code.value) != Lower(code)
  }

  /** Submitting moves the drafts it reaches to ready, in the name of the user; anybody may. */
  lemma SubmitDoes(reg: Register, id: Id, siblings: bool, complete: set<Id>, user: Id)
    ensures var (answer, after) := Step(reg, Submit(id, siblings, complete, user));
            && (answer == Ok <==>
                  && id in reg && (!siblings ==> reg[id].status == B.Draft)
                  && forall x :: Reaches(reg, id, siblings, x) && reg[x].status == B.Draft ==> x in complete)
            && (answer == Reject(404) <==> id !in reg)
            && (answer == Reject(409) <==> id in reg && !siblings && reg[id].status != B.Draft)
            && (answer != Ok ==> after == reg && answer in {Reject(404), Reject(409), Reject(422)})
            && (answer == Ok ==>
                  && after.Keys == reg.Keys
                  && forall x :: x in reg ==>
                       after[x] == if Reaches(reg, id, siblings, x) && reg[x].status == B.Draft
                                   then reg[x].(status := B.Ready, submittedBy := Some(user)) else reg[x])
  {
    if id in reg { ReachedAreEligible(reg, id, siblings, B.Draft); }
  }

  /** Approving moves the ready units it reaches to capitalized, in the name of the user, an admin. */
  lemma ApproveDoes(reg: Register, id: Id, siblings: bool, complete: set<Id>, user: Id, admin: bool)
    ensures var (answer, after) := Step(reg, Approve(id, siblings, complete, user, admin));
            && (answer == Ok <==>
                  && admin && id in reg && (!siblings ==> reg[id].status == B.Ready)
                  && forall x :: Reaches(reg, id, siblings, x) && reg[x].status == B.Ready ==> x in complete)
            && (answer == Reject(403) <==> !admin)
            && (answer == Reject(409) <==> admin && id in reg && !siblings && reg[id].status != B.Ready)
            && (answer != Ok ==> after == reg && answer in {Reject(403), Reject(404), Reject(409), Reject(422)})
            && (answer == Ok ==>
                  && after.Keys == reg.Keys
                  && forall x :: x in reg ==>
                       after[x] == if Reaches(reg, id, siblings, x) && reg[x].status == B.Ready
                                   then reg[x].(status := B.Capitalized, approvedBy := Some(user)) else reg[x])
  {
    if id in reg { ReachedAreEligible(reg, id, siblings, B.Ready); }
  }

  lemma ReachedAreEligible(reg: Register, id: Id, siblings: bool, from: B.Status)
    requires id in reg
    ensures forall x :: x in AssetLifecycle.Eligible(reg, id, siblings, from) <==> Reaches(reg, id, siblings, x) && reg[x].status == from
  {
  }

  /** Rejecting sends the ready units it reaches back to draft and takes the submitter's name off. */
  lemma RefuseDoes(reg: Register, id: Id, siblings: bool, admin: bool)
    ensures var (answer, after) := Step(reg, Refuse(id, siblings, admin));
            && (answer == Ok <==> admin && exists x :: Reaches(reg, id, siblings, x) && reg[x].status == B.Ready)
            && (answer == Reject(403) <==> !admin)
            && (answer == Reject(404) <==> admin && id !in reg)
            && (answer != Ok ==> after == reg && answer in {Reject(403), Reject(404), Reject(409)})
            && (answer == Ok ==>
                  && after.Keys == reg.Keys
                  && forall x :: x in reg ==>
                       after[x] == if Reaches(reg, id, siblings, x) && reg[x].status == B.Ready
                                   then reg[x].(status := B.Draft, submittedBy := None) else reg[x])
  {
    if id in reg {
      ReachedAreEligible(reg, id, siblings, B.Ready);
      if x :| x in AssetLifecycle.Eligible(reg, id, siblings, B.Ready) { assert Reaches(reg, id, siblings, x); }
    }
  }

  lemma DisposeDoes(reg: Register, id: Id, valid: bool, admin: bool)
    ensures var (answer, after) := Step(reg, Dispose(id, valid, admin));
            && (answer == Ok <==> admin && id in reg && reg[id].status == B.Capitalized && valid)
            && (answer != Ok ==> after == reg && answer in {Reject(403), Reject(404), Reject(409), Reject(422)})
            && (answer == Ok ==> id in after && after[id] == reg[id].(status := B.Disposed) && SameBut(reg, after, id))
  {
  }

  /** An asset comes as an unsigned draft under a new id and a free code, and goes as a draft by an
      admin's hand. */
  lemma CreateDoes(reg: Register, id: Id, acquisition: Option<Id>, code: Option<string>, fields: Fields)
    requires Unique(reg)
    ensures var (answer, after) := Step(reg, Create(id, acquisition, code, fields));
            && (answer == Ok <==> id !in reg && (code.Some? ==> Free(reg, code.value, id)))
            && (answer != Ok ==> after == reg && answer == Reject(409))
            && (answer == Ok ==>
                  && id in after && after[id].status == B.Draft && after[id].submittedBy.None? && after[id].approvedBy.None?
                  && after[id].acquisition == acquisition && after[id].code == code && SameBut(reg, after, id)
                  && forall name :: name !in {RESIDUAL, EXPIRY} ==> Value(after[id].fields, name) == Value(fields, name))
  {
    if id !in reg {
      var after := reg[id := Asset(acquisition, B.Draft, code, FirstFields(acquisition, fields), None, None)];
      FreshCode(reg, after, id);
    }
  }

  lemma FreshCode(reg: Register, after: Register, id: Id)
    requires Unique(reg) && id !in reg && id in after && SameBut(reg, after, id)
    ensures Unique(after) <==> (after[id].code.Some? ==> Free(reg, after[id].code.value, id))
  {
    if after[id].code.Some? && Taken(after, after[id].code.value, id) {
      var x :| x in after && x != id && after[x].code.Some? && Lower(after[x].code.value) == Lower(after[id].code.value);
      assert x in reg && reg[x] == after[x];
    }
    if after[id].code.Some? && !Free(reg, after[id].code.value, id) {
      var x :| x in reg && x != id && reg[x].code.Some? && Lower(reg[x].code.value) == Lower(after[id].code.value);
      assert after[x] == reg[x];
    }
    forall x | x in after && x != id && after[x].code.Some? && Taken(after, after[x].code.value, x)
      ensures after[id].code.Some? && !Free(reg, after[id].code.value, id)
    {
      assert x in reg && reg[x] == after[x] && !Taken(reg, reg[x].code.value, x);
      var y :| y in after && y != x && after[y].code.Some? && Lower(after[y].code.value) == Lower(after[x].code.value);
      assert y != id ==> y in reg && reg[y] == after[y];
    }
  }

  lemma DeleteDoes(reg: Register, id: Id, admin: bool)
    ensures var (answer, after) := Step(reg, Delete(id, admin));
            && (answer == Ok <==> admin && id in reg && reg[id].status == B.Draft)
            && (answer != Ok ==> after == reg && answer in {Reject(403), Reject(404), Reject(409)})
            && (answer == Ok ==> id !in after && SameBut(reg, after, id))
  {
  }

  /** The code an edit asks for, where it asks for one. */
  function Asked(current: Option<string>, code: CodeUpdate): Option<string> {
    match code
    case Absent => current
    case Null => None
    case Blank => Some("")
    case Text(s) => Some(s)
  }

  /** The columns a body may carry on a locked asset. */
  ghost predicate Harmless(update: Fields, pct: Option<Option<real>>, code: CodeUpdate) {
    && pct.None? && code.Absent?
    && forall name :: name in update && name !in {COST, RESIDUAL, EXPIRY, PCT} ==> name in POST_CAPITALIZATION_EDITABLE
  }

  /** An edit goes through exactly within the bounds of the percentage, on a locked asset by an admin
      and for the editable columns alone, with a text for a code on a draft alone, and a code nobody
      else has. It stores each column as sent, keeps the others but for a new category's defaults,
      and leaves status, stamps and every other asset alone. */
  lemma EditDoes(reg: Register, id: Id, update: Fields, pct: Option<Option<real>>, code: CodeUpdate, category: Fields, admin: bool)
    requires Unique(reg)
    ensures var (answer, after) := Step(reg, Edit(id, update, pct, code, category, admin));
            && (answer == Ok <==>
                  && (pct.Some? && pct.value.Some? ==> 0.0 <= pct.value.value <= 100.0)
                  && id in reg && (Locked(reg[id]) ==> admin && Harmless(update, pct, code))
                  && (code.Text? ==> reg[id].status == B.Draft)
                  && (Asked(reg[id].code, code).Some? ==> Free(reg, Asked(reg[id].code, code).value, id)))
            && (answer != Ok ==> after == reg && answer in {Reject(422), Reject(404), Reject(403), Reject(409)})
            && (answer == Ok ==>
                  && id in after && SameBut(reg, after, id)
                  && after[id].code == Asked(reg[id].code, code)
                  && (after[id].acquisition, after[id].status, after[id].submittedBy, after[id].approvedBy) ==
                       (reg[id].acquisition, reg[id].status, reg[id].submittedBy, reg[id].approvedBy))
  {
    hide Edited, Unique, Taken, Free, OnlyEditable, Harmless;
    if id in reg {
      EditedKeeps(reg[id], update, pct, code, category);
      UniqueAfter(reg, id, Edited(reg[id], update, pct, code, category));
      if Locked(reg[id]) { HarmlessIsEditable(update, pct, code); }
      if code.Text? { FreeIsNotTaken(reg, code.stripped, id); }
      if Asked(reg[id].code, code).Some? { FreeIsNotTaken(reg, Asked(reg[id].code, code).value, id); }
    }
  }

  lemma EditedKeeps(a: Asset, update: Fields, pct: Option<Option<real>>, code: CodeUpdate, category: Fields)
    ensures Edited(a, update, pct, code, category) ==
              a.(fields := Edited(a, update, pct, code, category).fields, code := Asked(a.code, code))
  {
  }

  lemma EditStores(reg: Register, id: Id, update: Fields, pct: Option<Option<real>>, code: CodeUpdate, category: Fields, admin: bool, name: string)
    requires id in reg && Step(reg, Edit(id, update, pct, code, category, admin)).0 == Ok && name !in {RESIDUAL, EXPIRY}
    ensures var after := Value(Step(reg, Edit(id, update, pct, code, category, admin)).1[id].fields, name);
            var f := reg[id].fields;
            var own := if name == PCT then (if pct.Some? then Rounded(pct.value) else Value(f, name))
                       else if name in update && name != COST then update[name] else Value(f, name);
            var renamed := CATEGORY in update && update[CATEGORY].Some? && update[CATEGORY] != Value(f, CATEGORY);
            after == if own.None? && renamed && name in FROM_CATEGORY then Value(category, name) else own
  {
    DefaultsFillGapsOnly(reg[id].fields, update, pct, category, name);
  }

  /** The whole number nearest to a quotient, the larger of two. */
  predicate Nearest(n: int, x: real) {
    n as real - 0.5 <= x < n as real + 0.5
  }

  /** The two derived columns: the share of the cost that the percentage leaves, as typed or else as
      stored, to the paisa; and the end of the warranty. */
  predicate DerivedFrom(f: Fields, pct: Option<real>) {
    && (Value(f, RESIDUAL).Some? <==> Value(f, COST).Some? && pct.Some?)
    && (Value(f, RESIDUAL).Some? ==> Nearest(Value(f, RESIDUAL).value, Value(f, COST).value as real * pct.value / 100.0))
    && Value(f, EXPIRY) ==
         (if Value(f, "warranty_start_date").None? || Value(f, "warranty_months").None? then None
          else Some(Value(f, "warranty_start_date").value + Value(f, "warranty_months").value))
  }

  lemma EditRederives(reg: Register, id: Id, update: Fields, pct: Option<Option<real>>, code: CodeUpdate, category: Fields, admin: bool)
    requires id in reg && Step(reg, Edit(id, update, pct, code, category, admin)).0 == Ok
    ensures var columns := Step(reg, Edit(id, update, pct, code, category, admin)).1[id].fields;
            DerivedFrom(columns, if pct.Some? && pct.value.Some? then pct.value else StoredPct(columns))
  {
    hide Assigned;
    var columns := Assigned(reg[id].fields, update, pct, category);
    DerivedIsDerived(columns, InHand(pct, columns));
  }

  lemma NearestToShare(x: real)
    ensures Nearest(HalfUp(x), x)
  {
  }

  lemma DerivedIsDerived(f: Fields, pct: Option<real>)
    ensures DerivedFrom(Derived(f, pct), pct) && StoredPct(Derived(f, pct)) == StoredPct(f)
    ensures forall name :: name !in {RESIDUAL, EXPIRY} ==> Value(Derived(f, pct), name) == Value(f, name)
  {
    var g := Derived(f, pct);
    assert Value(g, COST) == Value(f, COST) && RESIDUAL != EXPIRY;
    assert Value(g, "warranty_start_date") == Value(f, "warranty_start_date");
    assert Value(g, "warranty_months") == Value(f, "warranty_months");
    assert Value(g, EXPIRY) == Expiry(Value(f, "warranty_start_date"), Value(f, "warranty_months"));
    assert Value(g, RESIDUAL) == Residual(Value(f, COST), pct);
    if Value(f, COST).Some? && pct.Some? { NearestToShare(Value(f, COST).value as real * pct.value / 100.0); }
  }

  /** A costing gives each unit of the batch that is off the books its share, where it has one, and
      derives its two columns again; nothing else changes on it, and nothing at all on the others. */
  lemma RecostDoes(reg: Register, units: set<Id>, costs: map<Id, int>, x: Id)
    requires x in reg
    ensures var (answer, after) := Step(reg, Recost(units, costs));
            && answer == Ok && after.Keys == reg.Keys
            && (x in units && !Locked(reg[x]) ==>
                  && after[x] == reg[x].(fields := after[x].fields)
                  && Value(after[x].fields, COST) == (if x in costs then Some(costs[x]) else Value(reg[x].fields, COST))
                  && DerivedFrom(after[x].fields, StoredPct(reg[x].fields))
                  && forall name :: name !in {COST, RESIDUAL, EXPIRY} ==> Value(after[x].fields, name) == Value(reg[x].fields, name))
            && (x !in units || Locked(reg[x]) ==> after[x] == reg[x])
  {
    hide Derived;
    var columns := if x in costs then reg[x].fields[COST := Some(costs[x])] else reg[x].fields;
    DerivedIsDerived(columns, StoredPct(columns));
    assert StoredPct(columns) == StoredPct(reg[x].fields);
  }

  lemma HarmlessIsEditable(update: Fields, pct: Option<Option<real>>, code: CodeUpdate)
    ensures OnlyEditable(update, pct, code) <==> Harmless(update, pct, code)
  {
    assert forall name :: name in Sent(update).Keys <==> name in update && name !in {COST, RESIDUAL, EXPIRY, PCT};
  }

  lemma FreeIsNotTaken(reg: Register, code: string, id: Id)
    ensures Free(reg, code, id) <==> !Taken(reg, code, id)
  {
  }

  // ---------------------------------------------------------------- the serial grid

  /** The last code the grid carries for a unit; blanks are skipped. */
  function LastCode(codes: seq<(Id, string)>, x: Id): Option<string> {
    if codes == [] then None
    else if codes[|codes| - 1].0 == x && codes[|codes| - 1].1 != "" then Some(codes[|codes| - 1].1)
    else LastCode(codes[..|codes| - 1], x)
  }

  lemma {:induction false} CodesAreLast(reg: Register, codes: seq<(Id, string)>)
    requires forall c :: c in codes ==> c.0 in reg
    requires AssignCodes(reg, codes).0 == Ok
    ensures forall x :: x in reg ==>
              AssignCodes(reg, codes).1[x] == reg[x].(code := if LastCode(codes, x).Some? then LastCode(codes, x) else reg[x].code)
    decreases |codes|
  {
    if codes != [] {
      var n := |codes| - 1;
      assert forall c :: c in codes[..n] ==> c in codes;
      assert codes[n] in codes && codes == codes[..n] + [codes[n]];
      CodesAreLast(reg, codes[..n]);
    }
  }

  /** A unit's code once these entries are written. */
  function CodeAfter(reg: Register, codes: seq<(Id, string)>, x: Id): Option<string>
    requires x in reg
  {
    if LastCode(codes, x).Some? then LastCode(codes, x) else reg[x].code
  }

  /** Entry `k` can be written: it is blank, or its unit is a draft and nobody else has the code once
      the entries before it are written. */
  ghost predicate Writable(reg: Register, codes: seq<(Id, string)>, k: nat)
    requires k < |codes|
  {
    codes[k].1 != "" && codes[k].0 in reg ==>
      && reg[codes[k].0].status == B.Draft
      && forall y :: y in reg && y != codes[k].0 && CodeAfter(reg, codes[..k], y).Some? ==>
           Lower(CodeAfter(reg, codes[..k], y).value) != Lower(codes[k].1)
  }

  lemma {:induction false} CodesGoThrough(reg: Register, codes: seq<(Id, string)>)
    requires forall c :: c in codes ==> c.0 in reg
    ensures AssignCodes(reg, codes).0 == Ok <==> forall k :: 0 <= k < |codes| ==> Writable(reg, codes, k)
    decreases |codes|
  {
    if codes != [] {
      var n := |codes| - 1;
      assert forall c :: c in codes[..n] ==> c in codes;
      CodesGoThrough(reg, codes[..n]);
      forall k | 0 <= k < n ensures Writable(reg, codes, k) <==> Writable(reg, codes[..n], k) {
        assert codes[..n][..k] == codes[..k];
      }
      assert codes[n] in codes;
      if AssignCodes(reg, codes[..n]).0 == Ok { LastGoesThrough(reg, codes); }
    }
  }

  lemma LastGoesThrough(reg: Register, codes: seq<(Id, string)>)
    requires codes != [] && forall c :: c in codes ==> c.0 in reg
    requires forall c :: c in codes[..|codes| - 1] ==> c.0 in reg
    requires codes[|codes| - 1].0 in reg && AssignCodes(reg, codes[..|codes| - 1]).0 == Ok
    ensures AssignCodes(reg, codes).0 == Ok <==> Writable(reg, codes, |codes| - 1)
  {
    var n := |codes| - 1;
    CodesAreLast(reg, codes[..n]);
    var mid := AssignCodes(reg, codes[..n]).1;
    assert forall y :: y in reg ==> mid[y].code == CodeAfter(reg, codes[..n], y) && mid[y].status == reg[y].status;
    FreeIsNotTaken(mid, codes[n].1, codes[n].0);
    assert AssignCodes(reg, codes).0 == AssignCode(mid, codes[n].0, codes[n].1).0;
  }

  /** A grid is accepted exactly for units of the anchor's acquisition whose entries can be written
      one after the other. Every unit ends with the last code given for it; nothing else changes. */
  lemma GridDoes(reg: Register, anchor: Id, codes: seq<(Id, string)>)
    ensures var (answer, after) := Step(reg, Serials(anchor, codes));
            && (answer == Ok <==>
                  && anchor in reg && reg[anchor].acquisition.Some?
                  && (forall c :: c in codes ==> c.0 in reg && reg[c.0].acquisition == reg[anchor].acquisition)
                  && forall k :: 0 <= k < |codes| ==> Writable(reg, codes, k))
            && (answer == Ok ==>
                  after.Keys == reg.Keys && forall x :: x in reg ==> after[x] == reg[x].(code := CodeAfter(reg, codes, x)))
            && (answer != Ok ==> after == reg)
  {
    if anchor in reg && reg[anchor].acquisition.Some? &&
       forall c :: c in codes ==> c.0 in reg && reg[c.0].acquisition == reg[anchor].acquisition {
      CodesGoThrough(reg, codes);
      if AssignCodes(reg, codes).0 == Ok { CodesAreLast(reg, codes); }
    }
  }

  // ---------------------------------------------------------------- whose names the stamps carry

  predicate Accepted(reg: Register, r: Request) {
    Step(reg, r).0 == Ok
  }

  /** Who submitted `x` last, by the requests alone: the user of the last submit that went through
      and reached it as a draft, unless a rejection that reached it as ready came after. */
  function Submitter(reg: Register, reqs: seq<Request>, x: Id): Option<Id> {
    if reqs == [] then (if x in reg then reg[x].submittedBy else None)
    else
      var before, r := Run(reg, reqs[..|reqs| - 1]), reqs[|reqs| - 1];
      if r.Submit? && Accepted(before, r) && Reaches(before, r.id, r.siblings, x) && before[x].status == B.Draft then Some(r.user)
      else if r.Refuse? && Accepted(before, r) && Reaches(before, r.id, r.siblings, x) && before[x].status == B.Ready then None
      else if r.Create? && r.id == x && Accepted(before, r) then None
      else Submitter(reg, reqs[..|reqs| - 1], x)
  }

  /** Who approved `x` last: the admin of the last approval that went through and reached it as ready. */
  function Approver(reg: Register, reqs: seq<Request>, x: Id): Option<Id> {
    if reqs == [] then (if x in reg then reg[x].approvedBy else None)
    else
      var before, r := Run(reg, reqs[..|reqs| - 1]), reqs[|reqs| - 1];
      if r.Approve? && Accepted(before, r) && Reaches(before, r.id, r.siblings, x) && before[x].status == B.Ready then Some(r.user)
      else if r.Create? && r.id == x && Accepted(before, r) then None
      else Approver(reg, reqs[..|reqs| - 1], x)
  }

  /** The requests that put or take no names leave them. */
  lemma OthersKeepNames(reg: Register, r: Request, x: Id)
    requires Unique(reg) && x in reg && x in Step(reg, r).1 && (r.Edit? || r.Serials? || r.Recost? || r.Delete? || r.Dispose?)
    ensures var after := Step(reg, r).1; after[x].submittedBy == reg[x].submittedBy && after[x].approvedBy == reg[x].approvedBy
  {
    match r
    case Edit(id, u, pct, c, k, admin) => EditDoes(reg, id, u, pct, c, k, admin);
    case Serials(anchor, codes) => GridDoes(reg, anchor, codes);
    case Dispose(id, valid, admin) => DisposeDoes(reg, id, valid, admin);
    case _ =>
  }

  lemma NamesStep(reg: Register, r: Request, x: Id)
    requires Unique(reg) && x in Step(reg, r).1
    ensures x !in reg ==> r.Create? && r.id == x && Accepted(reg, r)
    ensures x in reg && r.Create? && Accepted(reg, r) ==> r.id != x
    ensures Step(reg, r).1[x].submittedBy ==
              if r.Submit? && Accepted(reg, r) && Reaches(reg, r.id, r.siblings, x) && reg[x].status == B.Draft then Some(r.user)
              else if r.Refuse? && Accepted(reg, r) && Reaches(reg, r.id, r.siblings, x) && reg[x].status == B.Ready then None
              else if x in reg then reg[x].submittedBy else None
    ensures Step(reg, r).1[x].approvedBy ==
              if r.Approve? && Accepted(reg, r) && Reaches(reg, r.id, r.siblings, x) && reg[x].status == B.Ready then Some(r.user)
              else if x in reg then reg[x].approvedBy else None
  {
    match r
    case Create(id, a, c, f) => CreateDoes(reg, id, a, c, f);
    case Submit(id, s, ok, user) => SubmitDoes(reg, id, s, ok, user);
    case Approve(id, s, ok, user, admin) => ApproveDoes(reg, id, s, ok, user, admin);
    case Refuse(id, s, admin) => RefuseDoes(reg, id, s, admin);
    case _ => OthersKeepNames(reg, r, x);
  }

  /** Main theorem: in every run the stamps name the user whose submit and the admin whose approval
      brought the asset where it is. */
  lemma {:induction false} StampsNameTheActors(reg: Register, reqs: seq<Request>, x: Id)
    requires Inv(reg) && x in Run(reg, reqs)
    ensures Run(reg, reqs)[x].submittedBy == Submitter(reg, reqs, x)
    ensures Run(reg, reqs)[x].approvedBy == Approver(reg, reqs, x)
    decreases |reqs|
  {
    if reqs != [] {
      var prev := reqs[..|reqs| - 1];
      StampsTellTheStage(reg, prev);
      NamesStep(Run(reg, prev), reqs[|reqs| - 1], x);
      if x in Run(reg, prev) { StampsNameTheActors(reg, prev, x); }
    }
  }
}
