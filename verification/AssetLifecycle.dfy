/** The lifecycle of one company's assets: submit, approve, reject, dispose, edit and delete
    (app/routers/assets.py). A handler that raises leaves the register as it was. */
module AssetLifecycle {
  import opened Prelude
  import B = AssetBatch

  type Id = nat
  type Fields = map<string, Option<int>>

  datatype Asset = Asset(
    acquisition: Option<Id>, status: B.Status, code: Option<string>, fields: Fields,
    submittedBy: Option<Id>, approvedBy: Option<Id>)

  type Register = map<Id, Asset>

  /** The `asset_code` of a PATCH body: not sent, null, the empty text, or a non-empty text
      (which is then stripped). */
  datatype CodeUpdate = Absent | Null | Blank | Text(stripped: string)

  /** `complete` holds the units that pass the transition's checklist. An edit's residual percentage
      arrives at any precision: not sent, null, or a number; `category` holds the defaults of the
      category the edit names. A unit of an acquisition is created with its derived columns, an
      existing asset without. */
  datatype Request =
    | Create(id: Id, acquisition: Option<Id>, code: Option<string>, fields: Fields)
    | Submit(id: Id, siblings: bool, complete: set<Id>, user: Id)
    | Approve(id: Id, siblings: bool, complete: set<Id>, user: Id, admin: bool)
    | Refuse(id: Id, siblings: bool, admin: bool)
    | Dispose(id: Id, valid: bool, admin: bool)
    | Edit(id: Id, update: Fields, pct: Option<Option<real>>, newCode: CodeUpdate, category: Fields, admin: bool)
    | Serials(anchor: Id, codes: seq<(Id, string)>)
    | Recost(units: set<Id>, costs: map<Id, int>)
    | Delete(id: Id, admin: bool)

  const POST_CAPITALIZATION_EDITABLE: set<string> := {
    "description", "operational_status", "condition", "branch_id", "cost_centre_id", "department_id", "location_id",
    "custodian_id", "custodian_name", "custodian_employee_code", "manufacturer_contact",
    "manufacturer_serial_number", "registration_number", "engine_number", "chassis_number", "imei", "mac_address",
    "technical_specs", "remarks", "parent_asset_id", "custom_fields", "warranty_start_date", "warranty_months"
  }
  const COST := "original_cost"
  const RESIDUAL := "residual_value"
  const EXPIRY := "warranty_expiry_date"
  const PCT := "residual_pct"
  const CATEGORY := "category_id"

  /** Columns the PATCH schema does not carry, which the framework drops from a body, and the
      percentage, which a request carries as it was typed. */
  const NOT_IN_UPDATE: set<string> := {COST, RESIDUAL, EXPIRY, PCT}

  /** What a category fills in where the asset has nothing. */
  const FROM_CATEGORY: set<string> := {"useful_life_months", "dep_method", PCT, "it_block_id", "it_dep_rate"}

  predicate Locked(a: Asset) {
    a.status == B.Capitalized || a.status == B.Disposed
  }

  function Value(f: Fields, name: string): Option<int> {
    if name in f then f[name] else None
  }

  function HalfUp(x: real): int {
    (x + 0.5).Floor
  }

  /** `compute_residual_value`: paise from a cost in paise and a percentage of any precision. */
  function Residual(cost: Option<int>, pct: Option<real>): Option<int> {
    if cost.None? || pct.None? then None else Some(HalfUp(cost.value as real * pct.value / 100.0))
  }

  /** The column keeps a percentage in hundredths. */
  function Rounded(pct: Option<real>): Option<int> {
    if pct.None? then None else Some(HalfUp(pct.value * 100.0))
  }

  function StoredPct(f: Fields): Option<real> {
    if Value(f, PCT).None? then None else Some(Value(f, PCT).value as real / 100.0)
  }

  function Expiry(start: Option<int>, months: Option<int>): Option<int> {
    if start.None? || months.None? then None else Some(start.value + months.value)
  }

  /** `refresh_derived_asset_fields`, with the percentage that the object in memory holds. */
  function Derived(f: Fields, pct: Option<real>): Fields {
    f[RESIDUAL := Residual(Value(f, COST), pct)]
     [EXPIRY := Expiry(Value(f, "warranty_start_date"), Value(f, "warranty_months"))]
  }

  /** The same on an object just loaded, whose percentage is the stored one. */
  function Refreshed(f: Fields): Fields {
    Derived(f, StoredPct(f))
  }

  /** `apply_category_defaults`. */
  function Filled(f: Fields, category: Fields): Fields {
    f + map c | c in FROM_CATEGORY && c in category && Value(f, c).None? :: category[c]
  }

  // ---------------------------------------------------------------- transitions

  /** The units a transition visits. */
  function Batch(reg: Register, id: Id, siblings: bool): set<Id>
    requires id in reg
  {
    if !siblings || reg[id].acquisition.None? then {id}
    else set x | x in reg && reg[x].acquisition == reg[id].acquisition
  }

  function Eligible(reg: Register, id: Id, siblings: bool, from: B.Status): set<Id>
    requires id in reg
  {
    set x | x in Batch(reg, id, siblings) && x in reg && reg[x].status == from
  }

  function Advanced(a: Asset, to: B.Status, user: Id): Asset {
    match to
    case Ready => a.(status := to, submittedBy := Some(user))
    case Capitalized => a.(status := to, approvedBy := Some(user))
    case Draft => a.(status := to, submittedBy := None)
    case Disposed => a.(status := to)
  }

  function Moved(reg: Register, ids: set<Id>, to: B.Status, user: Id): Register {
    map x | x in reg :: if x in ids then Advanced(reg[x], to, user) else reg[x]
  }

  /** `submit_asset` and `approve_asset`: every eligible unit moves, or none. */
  function Gate(reg: Register, id: Id, siblings: bool, complete: set<Id>, from: B.Status, to: B.Status, user: Id): (Answer, Register) {
    if id !in reg then (Reject(404), reg)
    else if !siblings && reg[id].status != from then (Reject(409), reg)
    else
      var eligible := Eligible(reg, id, siblings, from);
      if !(eligible <= complete) then (Reject(422), reg) else (Ok, Moved(reg, eligible, to, user))
  }

  function Return(reg: Register, id: Id, siblings: bool, admin: bool): (Answer, Register) {
    if !admin then (Reject(403), reg)
    else if id !in reg then (Reject(404), reg)
    else if Eligible(reg, id, siblings, B.Ready) == {} then (Reject(409), reg)
    else (Ok, Moved(reg, Eligible(reg, id, siblings, B.Ready), B.Draft, 0))
  }

  function DisposeOne(reg: Register, id: Id, valid: bool, admin: bool): (Answer, Register) {
    if !admin then (Reject(403), reg)
    else if id !in reg then (Reject(404), reg)
    else if reg[id].status != B.Capitalized then (Reject(409), reg)
    else if !valid then (Reject(422), reg)
    else (Ok, reg[id := Advanced(reg[id], B.Disposed, 0)])
  }

  // ---------------------------------------------------------------- edits

  /** The case-insensitive check over the other assets. */
  predicate Taken(reg: Register, code: string, except: Id) {
    exists x :: x in reg && x != except && reg[x].code.Some? && Lower(reg[x].code.value) == Lower(code)
  }

  /** The refusal of a code change, or `Ok`. An empty or null code is not looked at. */
  function CodeCheck(reg: Register, id: Id, code: CodeUpdate): Answer
    requires id in reg
  {
    if !code.Text? then Ok
    else if reg[id].status != B.Draft then Reject(409)
    else if Taken(reg, code.stripped, id) then Reject(409)
    else Ok
  }

  function NewCode(current: Option<string>, code: CodeUpdate): Option<string> {
    match code
    case Absent => current
    case Null => None
    case Blank => Some("")
    case Text(s) => Some(s)
  }

  /** The partial unique index on the lower-cased code, at commit. */
  predicate Unique(reg: Register) {
    forall x :: x in reg && reg[x].code.Some? ==> !Taken(reg, reg[x].code.value, x)
  }

  function Sent(update: Fields): Fields {
    update - NOT_IN_UPDATE
  }

  /** The body names only what stays editable on the books. */
  predicate OnlyEditable(update: Fields, pct: Option<Option<real>>, code: CodeUpdate) {
    Sent(update).Keys <= POST_CAPITALIZATION_EDITABLE && pct.None? && code.Absent?
  }

  /** The columns after the assignments and the category's defaults. */
  function Assigned(f: Fields, update: Fields, pct: Option<Option<real>>, category: Fields): Fields {
    var written := f + Sent(update);
    var columns := if pct.Some? then written[PCT := Rounded(pct.value)] else written;
    if Value(columns, CATEGORY).Some? && Value(columns, CATEGORY) != Value(f, CATEGORY)
    then Filled(columns, category) else columns
  }

  /** The percentage in memory when the residual value is derived: the one typed, else the column's. */
  function InHand(pct: Option<Option<real>>, columns: Fields): Option<real> {
    if pct.Some? && pct.value.Some? then pct.value else StoredPct(columns)
  }

  function Edited(a: Asset, update: Fields, pct: Option<Option<real>>, code: CodeUpdate, category: Fields): Asset {
    var columns := Assigned(a.fields, update, pct, category);
    a.(fields := Derived(columns, InHand(pct, columns)), code := NewCode(a.code, code))
  }

  /** The schema's bounds on a typed percentage. */
  predicate PctAllowed(pct: Option<Option<real>>) {
    pct.Some? && pct.value.Some? ==> 0.0 <= pct.value.value <= 100.0
  }

  function EditOne(reg: Register, id: Id, update: Fields, pct: Option<Option<real>>, code: CodeUpdate, category: Fields,
                   admin: bool): (Answer, Register)
  {
    if !PctAllowed(pct) then (Reject(422), reg)
    else if id !in reg then (Reject(404), reg)
    else if Locked(reg[id]) && !admin then (Reject(403), reg)
    else if Locked(reg[id]) && !OnlyEditable(update, pct, code) then (Reject(409), reg)
    else if CodeCheck(reg, id, code) != Ok then (CodeCheck(reg, id, code), reg)
    else
      var after := reg[id := Edited(reg[id], update, pct, code, category)];
      if Unique(after) then (Ok, after) else (Reject(409), reg)
  }

  /** One entry of the serial grid, its code stripped; a blank code is skipped. */
  function AssignCode(reg: Register, id: Id, code: string): (r: (Answer, Register))
    requires id in reg
    ensures r.1.Keys == reg.Keys
  {
    if code == "" then (Ok, reg)
    else if reg[id].status != B.Draft then (Reject(409), reg)
    else if Taken(reg, code, id) then (Reject(409), reg)
    else (Ok, reg[id := reg[id].(code := Some(code))])
  }

  /** The grid, entry by entry; each sees what the earlier ones wrote. */
  function AssignCodes(reg: Register, codes: seq<(Id, string)>): (r: (Answer, Register))
    requires forall c :: c in codes ==> c.0 in reg
    ensures r.1.Keys == reg.Keys
  {
    if codes == [] then (Ok, reg)
    else
      assert forall c :: c in codes[..|codes| - 1] ==> c in codes;
      var r := AssignCodes(reg, codes[..|codes| - 1]);
      assert codes[|codes| - 1] in codes;
      if r.0 != Ok then r else AssignCode(r.1, codes[|codes| - 1].0, codes[|codes| - 1].1)
  }

  function Grid(reg: Register, anchor: Id, codes: seq<(Id, string)>): (Answer, Register) {
    if anchor !in reg then (Reject(404), reg)
    else if reg[anchor].acquisition.None? then (Reject(400), reg)
    else if exists c :: c in codes && (c.0 !in reg || reg[c.0].acquisition != reg[anchor].acquisition) then (Reject(400), reg)
    else
      var r := AssignCodes(reg, codes);
      if r.0 != Ok then (r.0, reg) else r
  }

  /** The units of one acquisition: those not on the books get their share, where they have one. */
  function RecostAll(reg: Register, units: set<Id>, costs: map<Id, int>): Register {
    map x | x in reg ::
      if x in units && !Locked(reg[x])
      then reg[x].(fields := Refreshed(if x in costs then reg[x].fields[COST := Some(costs[x])] else reg[x].fields))
      else reg[x]
  }

  /** `explode_acquisition` derives the columns, `build_existing_asset` leaves them null. */
  function FirstFields(acquisition: Option<Id>, fields: Fields): Fields {
    if acquisition.Some? then Refreshed(fields) else fields - {RESIDUAL, EXPIRY}
  }

  function CreateOne(reg: Register, id: Id, acquisition: Option<Id>, code: Option<string>, fields: Fields): (Answer, Register) {
    var after := reg[id := Asset(acquisition, B.Draft, code, FirstFields(acquisition, fields), None, None)];
    if id in reg || !Unique(after) then (Reject(409), reg) else (Ok, after)
  }

  function DeleteOne(reg: Register, id: Id, admin: bool): (Answer, Register) {
    if !admin then (Reject(403), reg)
    else if id !in reg then (Reject(404), reg)
    else if reg[id].status != B.Draft then (Reject(409), reg)
    else (Ok, reg - {id})
  }

  function Step(reg: Register, r: Request): (Answer, Register) {
    match r
    case Create(id, a, c, f) => CreateOne(reg, id, a, c, f)
    case Submit(id, s, ok, user) => Gate(reg, id, s, ok, B.Draft, B.Ready, user)
    case Approve(id, s, ok, user, admin) =>
      if !admin then (Reject(403), reg) else Gate(reg, id, s, ok, B.Ready, B.Capitalized, user)
    case Refuse(id, s, admin) => Return(reg, id, s, admin)
    case Dispose(id, valid, admin) => DisposeOne(reg, id, valid, admin)
    case Edit(id, u, pct, c, category, admin) => EditOne(reg, id, u, pct, c, category, admin)
    case Serials(id, codes) => Grid(reg, id, codes)
    case Recost(units, costs) => (Ok, RecostAll(reg, units, costs))
    case Delete(id, admin) => DeleteOne(reg, id, admin)
  }

  // ---------------------------------------------------------------- how one asset can change

  /** The stamps say exactly how far an asset has come. */
  predicate Stamped(a: Asset) {
    && (a.submittedBy.Some? <==> a.status != B.Draft)
    && (a.approvedBy.Some? <==> Locked(a))
  }

  predicate Inv(reg: Register) {
    Unique(reg) && forall x :: x in reg ==> Stamped(reg[x])
  }

  /** The residual value as the stored cost and the stored percentage give it. */
  function Redone(a: Asset): Option<int> {
    Residual(Value(a.fields, COST), StoredPct(a.fields))
  }

  /** What stays on a locked asset: all but the editable columns and the two derived ones. */
  ghost predicate SameWhereLocked(a: Asset, b: Asset) {
    && a.code == b.code
    && (a.submittedBy == b.submittedBy && a.approvedBy == b.approvedBy)
    && forall f :: f !in POST_CAPITALIZATION_EDITABLE + {EXPIRY, RESIDUAL} ==> Value(a.fields, f) == Value(b.fields, f)
  }

  /** One request's effect on one asset that exists before and after it. */
  ghost predicate Lawful(a: Asset, b: Asset) {
    && Stamped(b) && b.acquisition == a.acquisition
    && (a.status == b.status || B.Legal(a.status, b.status))
    && (Locked(a) ==> SameWhereLocked(a, b))
  }

  /** Assets come as drafts and go as drafts; in between every change is lawful. */
  ghost predicate LawfulStep(before: Register, after: Register) {
    && (forall x :: x in before && x in after ==> Lawful(before[x], after[x]))
    && (forall x :: x in before && x !in after ==> before[x].status == B.Draft)
    && (forall x :: x in after && x !in before ==> after[x].status == B.Draft && Stamped(after[x]))
  }

  lemma MovedIsLawful(reg: Register, ids: set<Id>, from: B.Status, to: B.Status, user: Id)
    requires Inv(reg) && B.Legal(from, to) && to != B.Disposed
    requires forall x :: x in ids && x in reg ==> reg[x].status == from
    ensures LawfulStep(reg, Moved(reg, ids, to, user))
  {
  }

  lemma EditIsLawful(a: Asset, update: Fields, pct: Option<Option<real>>, code: CodeUpdate, category: Fields)
    requires Stamped(a)
    requires Locked(a) ==> OnlyEditable(update, pct, code)
    ensures Lawful(a, Edited(a, update, pct, code, category))
  {
    if Locked(a) { EditOnBooks(a, update, pct, code, category); }
  }

  lemma AssignedOnBooks(f: Fields, update: Fields, pct: Option<Option<real>>, code: CodeUpdate, category: Fields)
    requires OnlyEditable(update, pct, code)
    ensures forall name :: name !in POST_CAPITALIZATION_EDITABLE ==>
              Value(Assigned(f, update, pct, category), name) == Value(f, name)
    ensures Value(Assigned(f, update, pct, category), COST) == Value(f, COST)
    ensures StoredPct(Assigned(f, update, pct, category)) == StoredPct(f)
  {
    assert CATEGORY !in POST_CAPITALIZATION_EDITABLE;
    assert CATEGORY !in Sent(update);
    assert Assigned(f, update, pct, category) == f + Sent(update);
    forall name | name !in POST_CAPITALIZATION_EDITABLE ensures Value(f + Sent(update), name) == Value(f, name) {
      assert name !in Sent(update).Keys;
    }
  }

  lemma DerivedElsewhere(f: Fields, pct: Option<real>)
    ensures Value(Derived(f, pct), RESIDUAL) == Residual(Value(f, COST), pct)
    ensures forall name :: name != EXPIRY && name != RESIDUAL ==> Value(Derived(f, pct), name) == Value(f, name)
  {
  }

  /** An edit of a locked asset writes the editable columns and derives the other two afresh. */
  lemma EditOnBooks(a: Asset, update: Fields, pct: Option<Option<real>>, code: CodeUpdate, category: Fields)
    requires OnlyEditable(update, pct, code)
    ensures var b := Edited(a, update, pct, code, category);
            SameWhereLocked(a, b) && b.status == a.status && Value(b.fields, RESIDUAL) == Redone(a)
  {
    AssignedOnBooks(a.fields, update, pct, code, category);
    DerivedElsewhere(Assigned(a.fields, update, pct, category), StoredPct(a.fields));
  }

  lemma OneLawful(reg: Register, id: Id, b: Asset)
    requires Inv(reg) && id in reg && Lawful(reg[id], b)
    ensures LawfulStep(reg, reg[id := b])
  {
  }

  lemma {:induction false} CodesAreLawful(reg: Register, codes: seq<(Id, string)>)
    requires Inv(reg) && forall c :: c in codes ==> c.0 in reg
    ensures LawfulStep(reg, AssignCodes(reg, codes).1)
    decreases |codes|
  {
    if codes != [] {
      var n := |codes| - 1;
      assert forall c :: c in codes[..n] ==> c in codes;
      CodesAreLawful(reg, codes[..n]);
      var r := AssignCodes(reg, codes[..n]);
      assert codes[n] in codes;
      assert r.1.Keys == reg.Keys;
      OneCodeIsLawful(reg, r.1, codes[n].0, codes[n].1);
    }
  }

  lemma OneCodeIsLawful(reg: Register, mid: Register, id: Id, code: string)
    requires Inv(reg) && mid.Keys == reg.Keys && id in mid && LawfulStep(reg, mid)
    ensures LawfulStep(reg, AssignCode(mid, id, code).1)
  {
    assert Locked(reg[id]) ==> Locked(mid[id]);
  }

  lemma GateIsLawful(reg: Register, id: Id, s: bool, ok: set<Id>, from: B.Status, to: B.Status, user: Id)
    requires Inv(reg) && B.Legal(from, to) && to != B.Disposed
    ensures LawfulStep(reg, Gate(reg, id, s, ok, from, to, user).1)
  {
    if id in reg { MovedIsLawful(reg, Eligible(reg, id, s, from), from, to, user); }
  }

  lemma ReturnIsLawful(reg: Register, id: Id, s: bool, admin: bool)
    requires Inv(reg)
    ensures LawfulStep(reg, Return(reg, id, s, admin).1)
  {
    if id in reg { MovedIsLawful(reg, Eligible(reg, id, s, B.Ready), B.Ready, B.Draft, 0); }
  }

  lemma DisposeIsLawful(reg: Register, id: Id, valid: bool, admin: bool)
    requires Inv(reg)
    ensures LawfulStep(reg, DisposeOne(reg, id, valid, admin).1)
  {
    if DisposeOne(reg, id, valid, admin).0 == Ok { OneLawful(reg, id, Advanced(reg[id], B.Disposed, 0)); }
  }

  lemma EditOneIsLawful(reg: Register, id: Id, u: Fields, pct: Option<Option<real>>, c: CodeUpdate, k: Fields, admin: bool)
    requires Inv(reg)
    ensures LawfulStep(reg, EditOne(reg, id, u, pct, c, k, admin).1)
  {
    if EditOne(reg, id, u, pct, c, k, admin).0 == Ok {
      EditIsLawful(reg[id], u, pct, c, k);
      OneLawful(reg, id, Edited(reg[id], u, pct, c, k));
    }
  }

  lemma GridIsLawful(reg: Register, id: Id, codes: seq<(Id, string)>)
    requires Inv(reg)
    ensures LawfulStep(reg, Grid(reg, id, codes).1)
  {
    if Grid(reg, id, codes).0 == Ok { CodesAreLawful(reg, codes); }
  }

  lemma LawfulStays(a: Asset)
    requires Stamped(a)
    ensures Lawful(a, a)
  {
  }

  lemma CreateIsLawful(reg: Register, id: Id, a: Option<Id>, c: Option<string>, f: Fields)
    requires Inv(reg)
    ensures LawfulStep(reg, CreateOne(reg, id, a, c, f).1)
  {
    var after := CreateOne(reg, id, a, c, f).1;
    forall x | x in reg ensures x in after && after[x] == reg[x] && Lawful(reg[x], after[x]) { LawfulStays(reg[x]); }
  }

  lemma DeleteIsLawful(reg: Register, id: Id, admin: bool)
    requires Inv(reg)
    ensures LawfulStep(reg, DeleteOne(reg, id, admin).1)
  {
    forall x | x in reg ensures Lawful(reg[x], reg[x]) { LawfulStays(reg[x]); }
  }

  lemma RecostIsLawful(reg: Register, units: set<Id>, costs: map<Id, int>)
    requires Inv(reg)
    ensures LawfulStep(reg, RecostAll(reg, units, costs))
  {
  }

  lemma GatesAreLawful(reg: Register, r: Request)
    requires Inv(reg) && (r.Submit? || r.Approve?)
    ensures LawfulStep(reg, Step(reg, r).1)
  {
    GateIsLawful(reg, r.id, r.siblings, r.complete, if r.Submit? then B.Draft else B.Ready,
                 if r.Submit? then B.Ready else B.Capitalized, r.user);
  }

  lemma ExitsAreLawful(reg: Register, r: Request)
    requires Inv(reg) && (r.Refuse? || r.Dispose?)
    ensures LawfulStep(reg, Step(reg, r).1)
  {
    match r
    case Refuse(id, s, admin) => ReturnIsLawful(reg, id, s, admin);
    case Dispose(id, valid, admin) => DisposeIsLawful(reg, id, valid, admin);
  }

  lemma EditsAreLawful(reg: Register, r: Request)
    requires Inv(reg) && r.Edit?
    ensures LawfulStep(reg, Step(reg, r).1)
  {
    EditOneIsLawful(reg, r.id, r.update, r.pct, r.newCode, r.category, r.admin);
  }

  lemma SerialsAreLawful(reg: Register, r: Request)
    requires Inv(reg) && r.Serials?
    ensures LawfulStep(reg, Step(reg, r).1)
  {
    GridIsLawful(reg, r.anchor, r.codes);
  }

  lemma RecostsAreLawful(reg: Register, r: Request)
    requires Inv(reg) && r.Recost?
    ensures LawfulStep(reg, Step(reg, r).1)
  {
    RecostIsLawful(reg, r.units, r.costs);
  }

  lemma RowsAreLawful(reg: Register, r: Request)
    requires Inv(reg) && (r.Create? || r.Delete?)
    ensures LawfulStep(reg, Step(reg, r).1)
  {
    match r
    case Create(id, a, c, f) => CreateIsLawful(reg, id, a, c, f);
    case Delete(id, admin) => DeleteIsLawful(reg, id, admin);
  }

  /** Every request's effect on every asset is lawful. */
  lemma StepIsLawful(reg: Register, r: Request)
    requires Inv(reg)
    ensures LawfulStep(reg, Step(reg, r).1)
  {
    if r.Submit? || r.Approve? { GatesAreLawful(reg, r); }
    else if r.Refuse? || r.Dispose? { ExitsAreLawful(reg, r); }
    else if r.Create? || r.Delete? { RowsAreLawful(reg, r); }
    else if r.Edit? { EditsAreLawful(reg, r); }
    else if r.Serials? { SerialsAreLawful(reg, r); }
    else { RecostsAreLawful(reg, r); }
  }

  // ---------------------------------------------------------------- whole runs

  function Run(reg: Register, reqs: seq<Request>): Register {
    if reqs == [] then reg else Step(Run(reg, reqs[..|reqs| - 1]), reqs[|reqs| - 1]).1
  }

  // The code index

  lemma CodesKept(before: Register, after: Register)
    requires Unique(before)
    requires forall x :: x in after ==> x in before && after[x].code == before[x].code
    ensures Unique(after)
  {
    forall x | x in after && after[x].code.Some? ensures !Taken(after, after[x].code.value, x) {
      assert !Taken(before, before[x].code.value, x);
      TakenBefore(before, after, before[x].code.value, x);
    }
  }

  lemma TakenBefore(before: Register, after: Register, code: string, except: Id)
    requires forall x :: x in after ==> x in before && after[x].code == before[x].code
    ensures Taken(after, code, except) ==> Taken(before, code, except)
  {
    if y :| y in after && y != except && after[y].code.Some? && Lower(after[y].code.value) == Lower(code) {
      assert y in before && before[y].code == after[y].code;
    }
  }

  lemma {:induction false} GridKeepsUnique(reg: Register, codes: seq<(Id, string)>)
    requires Unique(reg) && forall c :: c in codes ==> c.0 in reg
    ensures Unique(AssignCodes(reg, codes).1)
    decreases |codes|
  {
    if codes != [] {
      var n := |codes| - 1;
      assert forall c :: c in codes[..n] ==> c in codes;
      GridKeepsUnique(reg, codes[..n]);
      var r := AssignCodes(reg, codes[..n]);
      assert codes[n] in codes;
      UniqueAfter(r.1, codes[n].0, r.1[codes[n].0].(code := Some(codes[n].1)));
    }
  }

  lemma StepKeepsUnique(reg: Register, r: Request)
    requires Unique(reg)
    ensures Unique(Step(reg, r).1)
  {
    var after := Step(reg, r).1;
    if r.Serials? {
      if Grid(reg, r.anchor, r.codes).0 == Ok { GridKeepsUnique(reg, r.codes); }
    } else if !r.Create? && !r.Edit? {
      CodesKept(reg, after);
    }
  }

  lemma LawfulKeepsInv(before: Register, after: Register)
    requires Inv(before) && LawfulStep(before, after) && Unique(after)
    ensures Inv(after)
  {
  }

  /** Main theorem: in every run a unit is submitted exactly when it has left draft and approved
      exactly when it is capitalized or disposed of. */
  lemma {:induction false} StampsTellTheStage(reg: Register, reqs: seq<Request>)
    requires Inv(reg)
    ensures Inv(Run(reg, reqs))
    decreases |reqs|
  {
    if reqs != [] {
      var before := Run(reg, reqs[..|reqs| - 1]);
      StampsTellTheStage(reg, reqs[..|reqs| - 1]);
      StepIsLawful(before, reqs[|reqs| - 1]);
      StepKeepsUnique(before, reqs[|reqs| - 1]);
      LawfulKeepsInv(before, Run(reg, reqs));
    }
  }

  /** How an asset on the books stands later: there, locked, disposed for good, and unchanged
      outside the editable and the derived columns. */
  ghost predicate StillOnBooks(a: Asset, later: Register, x: Id) {
    && x in later && Locked(later[x]) && SameWhereLocked(a, later[x])
    && (a.status == B.Disposed ==> later[x].status == B.Disposed)
  }

  /** An admin's edit of `x` that names editable columns only. */
  predicate EditsOnBooks(r: Request, x: Id) {
    r.Edit? && r.id == x && r.admin && OnlyEditable(r.update, r.pct, r.newCode)
  }

  ghost predicate EditedOnBooks(reqs: seq<Request>, x: Id) {
    exists k :: 0 <= k < |reqs| && EditsOnBooks(reqs[k], x)
  }

  lemma BooksStep(a: Asset, before: Register, after: Register, x: Id)
    requires Inv(before) && StillOnBooks(a, before, x) && LawfulStep(before, after)
    ensures StillOnBooks(a, after, x)
  {
  }

  /** The other requests leave a locked asset's columns alone. */
  lemma OthersLeaveColumns(reg: Register, r: Request, x: Id)
    requires x in reg && Locked(reg[x]) && !(r.Edit? && r.id == x) && !r.Serials?
    ensures var after := Step(reg, r).1; x in after ==> after[x].fields == reg[x].fields
  {
  }

  lemma {:induction false} GridLeavesColumns(reg: Register, codes: seq<(Id, string)>, x: Id)
    requires x in reg && forall c :: c in codes ==> c.0 in reg
    ensures AssignCodes(reg, codes).1[x].fields == reg[x].fields
    decreases |codes|
  {
    if codes != [] {
      assert forall c :: c in codes[..|codes| - 1] ==> c in codes;
      GridLeavesColumns(reg, codes[..|codes| - 1], x);
      assert codes[|codes| - 1] in codes;
    }
  }

  /** On the books the residual value is derived again by exactly the admin's editable edits. */
  lemma ResidualStep(reg: Register, r: Request, x: Id)
    requires Inv(reg) && x in reg && Locked(reg[x])
    ensures var after := Step(reg, r).1;
            x in after && Value(after[x].fields, RESIDUAL) == if EditsOnBooks(r, x) then Redone(reg[x]) else Value(reg[x].fields, RESIDUAL)
  {
    StepIsLawful(reg, r);
    if r.Serials? {
      if Grid(reg, r.anchor, r.codes).0 == Ok { GridLeavesColumns(reg, r.codes, x); }
    } else if r.Edit? && r.id == x {
      UniqueAfter(reg, x, Edited(reg[x], r.update, r.pct, r.newCode, r.category));
      if EditsOnBooks(r, x) { EditOnBooks(reg[x], r.update, r.pct, r.newCode, r.category); }
    } else {
      OthersLeaveColumns(reg, r, x);
    }
  }

  /** Main theorem: once capitalized, an asset is never removed or reopened; disposal is final; no
      request in any run changes its code, its stamps or any column outside the editable set, the
      two derived ones apart. The expiry follows from editable columns; the residual value, which
      is not editable, is what it was exactly until the first edit on the books, and from then on
      what the stored cost and percentage give. */
  lemma {:induction false} CapitalizedStaysPut(reg: Register, reqs: seq<Request>, x: Id)
    requires Inv(reg) && x in reg && Locked(reg[x])
    ensures StillOnBooks(reg[x], Run(reg, reqs), x)
    ensures Value(Run(reg, reqs)[x].fields, RESIDUAL) ==
            if EditedOnBooks(reqs, x) then Redone(reg[x]) else Value(reg[x].fields, RESIDUAL)
    decreases |reqs|
  {
    if reqs != [] {
      var n := |reqs| - 1;
      var before := Run(reg, reqs[..n]);
      CapitalizedStaysPut(reg, reqs[..n], x);
      StampsTellTheStage(reg, reqs[..n]);
      StepIsLawful(before, reqs[n]);
      BooksStep(reg[x], before, Run(reg, reqs), x);
      ResidualStep(before, reqs[n], x);
      RedoneStays(reg[x], before[x]);
      EditedLast(reqs, x);
    }
  }

  lemma RedoneStays(a: Asset, b: Asset)
    requires SameWhereLocked(a, b)
    ensures Redone(a) == Redone(b)
  {
    assert PCT !in POST_CAPITALIZATION_EDITABLE + {EXPIRY, RESIDUAL} && COST !in POST_CAPITALIZATION_EDITABLE + {EXPIRY, RESIDUAL};
  }

  lemma EditedLast(reqs: seq<Request>, x: Id)
    requires reqs != []
    ensures EditedOnBooks(reqs, x) <==> EditedOnBooks(reqs[..|reqs| - 1], x) || EditsOnBooks(reqs[|reqs| - 1], x)
  {
    var init := reqs[..|reqs| - 1];
    if k :| 0 <= k < |init| && EditsOnBooks(init[k], x) { assert EditsOnBooks(reqs[k], x); }
    if k :| 0 <= k < |reqs| && EditsOnBooks(reqs[k], x) { assert k < |init| ==> EditsOnBooks(init[k], x); }
  }

  // ---------------------------------------------------------------- where the residual value comes from

  /** The request that writes the derived columns of `x`: its creation with an acquisition, an
      accepted edit, or a costing that reaches it off the books. */
  predicate Derives(before: Register, r: Request, x: Id) {
    match r
    case Create(id, a, _, _) => id == x && x !in before && a.Some?
    case Edit(id, _, _, _, _, _) => id == x && Step(before, r).0 == Ok
    case Recost(units, _) => x in units && x in before && !Locked(before[x])
    case _ => false
  }

  /** The percentage the residual value of `x` was last derived from, if it ever was. */
  ghost function LastUse(reqs: seq<Request>, x: Id): Option<Option<real>> {
    if reqs == [] || x !in Run(map[], reqs) then None
    else
      var n := |reqs| - 1;
      var columns := Run(map[], reqs)[x].fields;
      if Derives(Run(map[], reqs[..n]), reqs[n], x)
      then Some(InHand(if reqs[n].Edit? then reqs[n].pct else None, columns))
      else LastUse(reqs[..n], x)
  }

  function ResidualFrom(cost: Option<int>, use: Option<Option<real>>): Option<int> {
    if use.None? then None else Residual(cost, use.value)
  }

  lemma DerivedColumns(before: Register, r: Request, x: Id)
    requires x in Step(before, r).1
    ensures var columns := Step(before, r).1[x].fields;
            if Derives(before, r, x)
            then Value(columns, RESIDUAL) == Residual(Value(columns, COST), InHand(if r.Edit? then r.pct else None, columns))
            else if x in before then columns == before[x].fields
            else Value(columns, RESIDUAL) == None
  {
    if r.Edit? {
      EditDerives(before, r, x);
    } else if r.Serials? {
      if Grid(before, r.anchor, r.codes).0 == Ok && x in before { GridLeavesColumns(before, r.codes, x); }
    }
  }

  lemma EditDerives(before: Register, r: Request, x: Id)
    requires r.Edit? && x in before
    ensures var columns := EditOne(before, r.id, r.update, r.pct, r.newCode, r.category, r.admin).1[x].fields;
            if Derives(before, r, x)
            then Value(columns, RESIDUAL) == Residual(Value(columns, COST), InHand(r.pct, columns))
            else columns == before[x].fields
  {
    var columns := Assigned(before[x].fields, r.update, r.pct, r.category);
    assert InHand(r.pct, Derived(columns, InHand(r.pct, columns))) == InHand(r.pct, columns);
  }

  /** Main theorem: in every run a residual value is the one its cost gives with the percentage of
      its last derivation; for an edit that is the percentage as typed, not as stored. */
  lemma {:induction false} ResidualIsLastDerived(reqs: seq<Request>, x: Id)
    requires x in Run(map[], reqs)
    ensures var columns := Run(map[], reqs)[x].fields;
            Value(columns, RESIDUAL) == ResidualFrom(Value(columns, COST), LastUse(reqs, x))
    decreases |reqs|
  {
    var n := |reqs| - 1;
    var before := Run(map[], reqs[..n]);
    DerivedColumns(before, reqs[n], x);
    if x in before { ResidualIsLastDerived(reqs[..n], x); }
  }

  /** Main theorem: after any run, the residual value of an asset on the books moves in a later run
      exactly when an admin edits it there and its cost gives another value with the stored
      percentage than with the one last used. */
  lemma LockedResidualMovesExactly(reqs: seq<Request>, later: seq<Request>, x: Id)
    requires x in Run(map[], reqs) && Locked(Run(map[], reqs)[x])
    ensures var reg := Run(map[], reqs);
            var columns, after := reg[x].fields, Run(reg, later);
            && x in after
            && (Value(after[x].fields, RESIDUAL) != Value(columns, RESIDUAL) <==>
                && EditedOnBooks(later, x)
                && Residual(Value(columns, COST), StoredPct(columns)) != ResidualFrom(Value(columns, COST), LastUse(reqs, x)))
  {
    StampsTellTheStage(map[], reqs);
    CapitalizedStaysPut(Run(map[], reqs), later, x);
    ResidualIsLastDerived(reqs, x);
  }

  /** A draft costing 100000.00 is given 5.005 per cent, submitted and approved. */
  const TYPED_FINELY: seq<Request> := [
    Create(0, Some(7), None, map[COST := Some(10000000)]),
    Edit(0, map[], Some(Some(5.005)), Absent, map[], false),
    Submit(0, false, {0}, 1),
    Approve(0, false, {0}, 2, true)
  ]
  const REMARK := Edit(0, map["remarks" := Some(1)], None, Absent, map[], true)

  lemma OneUnitGate(a: Asset, from: B.Status, to: B.Status, user: Id)
    requires a.status == from
    ensures Gate(map[0 := a], 0, false, {0}, from, to, user) == (Ok, map[0 := Advanced(a, to, user)])
  {
    var one: Register := map[0 := a];
    assert Eligible(one, 0, false, from) == {0};
    assert Moved(one, {0}, to, user) == map[0 := Advanced(a, to, user)];
  }

  lemma FinePercentageColumns(draft: Asset)
    requires Value(draft.fields, COST) == Some(10000000)
    ensures var f := Edited(draft, map[], Some(Some(5.005)), Absent, map[]).fields;
            Value(f, COST) == Some(10000000) && Value(f, PCT) == Some(501) && Value(f, RESIDUAL) == Some(500500)
  {
    assert HalfUp(10000000.0 * 5.005 / 100.0) == 500500;
    assert Rounded(Some(5.005)) == Some(501);
  }

  lemma FineDraft() returns (draft: Asset)
    ensures Run(map[], TYPED_FINELY[..2]) == map[0 := draft] && draft.status == B.Draft
    ensures Value(draft.fields, COST) == Some(10000000) && Value(draft.fields, PCT) == Some(501)
    ensures Value(draft.fields, RESIDUAL) == Some(500500)
  {
    var made := Asset(Some(7), B.Draft, None, Refreshed(map[COST := Some(10000000)]), None, None);
    RunSnoc(map[], TYPED_FINELY, 1);
    assert Run(map[], TYPED_FINELY[..1]) == map[0 := made];
    RunSnoc(map[], TYPED_FINELY, 2);
    draft := Edited(made, map[], Some(Some(5.005)), Absent, map[]);
    assert map[0 := made][0 := draft] == map[0 := draft];
    FinePercentageColumns(made);
  }

  /** The residual value of an asset on the books does move: 5005.00 becomes 5010.00 when an admin
      edits only its remarks, which are editable there. */
  lemma FinePercentageDrifts()
    ensures var reg := Run(map[], TYPED_FINELY);
            && 0 in reg && reg[0].status == B.Capitalized && Value(reg[0].fields, RESIDUAL) == Some(500500)
            && Value(reg[0].fields, PCT) == Some(501) && EditsOnBooks(REMARK, 0)
            && 0 in Run(reg, [REMARK]) && Value(Run(reg, [REMARK])[0].fields, RESIDUAL) == Some(501000)
  {
    var draft := FineDraft();
    var ready := Advanced(draft, B.Ready, 1);
    RunSnoc(map[], TYPED_FINELY, 3);
    OneUnitGate(draft, B.Draft, B.Ready, 1);
    RunSnoc(map[], TYPED_FINELY, 4);
    OneUnitGate(ready, B.Ready, B.Capitalized, 2);
    assert TYPED_FINELY[..4] == TYPED_FINELY;
    RemarkIsEditable();
    StampsTellTheStage(map[], TYPED_FINELY);
    CapitalizedStaysPut(Run(map[], TYPED_FINELY), [REMARK], 0);
    assert HalfUp(10000000.0 * 5.01 / 100.0) == 501000;
  }

  lemma RemarkIsEditable()
    ensures EditsOnBooks(REMARK, 0) && EditedOnBooks([REMARK], 0)
  {
    assert Sent(REMARK.update).Keys == {"remarks"};
    assert "remarks" in POST_CAPITALIZATION_EDITABLE;
    assert EditsOnBooks([REMARK][0], 0);
  }

  lemma RunSnoc(reg: Register, reqs: seq<Request>, k: nat)
    requires 0 < k <= |reqs|
    ensures Run(reg, reqs[..k]) == Step(Run(reg, reqs[..k - 1]), reqs[k - 1]).1
  {
    assert reqs[..k][..k - 1] == reqs[..k - 1];
  }

  /** Main theorem: a batch submit or approve moves exactly the eligible units of the batch, or
      on one incomplete unit none; siblings in another stage are skipped, not an error. */
  lemma GateMovesAllOrNone(reg: Register, id: Id, siblings: bool, complete: set<Id>, from: B.Status, to: B.Status, user: Id, x: Id)
    requires id in reg && x in reg && ((from == B.Draft && to == B.Ready) || (from == B.Ready && to == B.Capitalized))
    ensures var (answer, after) := Gate(reg, id, siblings, complete, from, to, user);
            var mine := x == id || (siblings && reg[id].acquisition.Some? && reg[x].acquisition == reg[id].acquisition);
            && x in after
            && (answer == Ok ==> (after[x].status != reg[x].status <==> mine && reg[x].status == from))
            && (answer == Ok && after[x].status != reg[x].status ==> after[x].status == to && x in complete)
            && (answer != Ok ==> after == reg)
            && (answer == Reject(422) ==> exists y :: y in reg && reg[y].status == from && y !in complete)
  {
    if Gate(reg, id, siblings, complete, from, to, user).0 == Reject(422) {
      var y :| y in Eligible(reg, id, siblings, from) && y !in complete;
    }
  }

  /** What the body of an edit says of a column: nothing, or a value as the row will keep it. */
  function Sends(update: Fields, pct: Option<Option<real>>, name: string): Option<Option<int>> {
    if name == PCT then (if pct.Some? then Some(Rounded(pct.value)) else None)
    else if name in Sent(update) then Some(update[name]) else None
  }

  /** A new category's defaults fill gaps and nothing else: a value the edit sends is what is
      stored, a value the asset had and the edit does not send stays, and a gap that neither fills is
      filled exactly by a default, when the edit names another category. */
  lemma DefaultsFillGapsOnly(f: Fields, update: Fields, pct: Option<Option<real>>, category: Fields, name: string)
    ensures var after := Value(Assigned(f, update, pct, category), name);
            var sent := Sends(update, pct, name);
            var own := if sent.Some? then sent.value else Value(f, name);
            var renamed := CATEGORY in Sent(update) && update[CATEGORY].Some? && update[CATEGORY] != Value(f, CATEGORY);
            after == if own.None? && renamed && name in FROM_CATEGORY then Value(category, name) else own
  {
    assert CATEGORY != PCT && CATEGORY !in FROM_CATEGORY;
  }

  /** The asset code of an asset awaiting approval: despite the draft-only rule, an edit changes it
      exactly when the body carries a null or empty code that differs and no other asset of the
      company has the empty one. */
  lemma ReadyCodeChangesExactly(reg: Register, id: Id, update: Fields, pct: Option<Option<real>>, code: CodeUpdate,
                                category: Fields, admin: bool)
    requires id in reg && reg[id].status == B.Ready && Unique(reg) && PctAllowed(pct)
    ensures EditOne(reg, id, update, pct, code, category, admin).1[id].code != reg[id].code <==>
            || (code.Null? && reg[id].code != None)
            || (code.Blank? && reg[id].code != Some("") && !Taken(reg, "", id))
  {
    var b := Edited(reg[id], update, pct, code, category);
    UniqueAfter(reg, id, b);
  }

  /** Another asset's clash after the write is an old one or a clash with the written code. */
  lemma ClashIsOldOrNew(reg: Register, id: Id, b: Asset, x: Id)
    requires id in reg && x in reg && x != id && reg[x].code.Some?
    ensures Taken(reg[id := b], reg[x].code.value, x) ==>
              Taken(reg, reg[x].code.value, x) || (b.code.Some? && Taken(reg, b.code.value, id))
  {
    var after := reg[id := b];
    if y :| y in after && y != x && after[y].code.Some? && Lower(after[y].code.value) == Lower(reg[x].code.value) {
      assert y != id ==> after[y] == reg[y];
    }
  }

  lemma OwnClashIsOld(reg: Register, id: Id, b: Asset)
    requires id in reg && b.code.Some?
    ensures Taken(reg[id := b], b.code.value, id) <==> Taken(reg, b.code.value, id)
  {
    var after := reg[id := b];
    assert forall y :: y in reg && y != id ==> after[y] == reg[y];
  }

  /** The index holds after a write exactly when nobody else has the new code. */
  lemma UniqueAfter(reg: Register, id: Id, b: Asset)
    requires id in reg && Unique(reg)
    ensures Unique(reg[id := b]) <==> (b.code.Some? ==> !Taken(reg, b.code.value, id))
  {
    var after := reg[id := b];
    assert id in after && after[id] == b;
    if b.code.Some? { OwnClashIsOld(reg, id, b); }
    forall x | x in reg && x != id && reg[x].code.Some?
      ensures Taken(after, reg[x].code.value, x) ==> b.code.Some? && Taken(reg, b.code.value, id)
    {
      ClashIsOldOrNew(reg, id, b, x);
    }
    assert forall x :: x in after && x != id ==> after[x] == reg[x];
  }

  // ---------------------------------------------------------------- the handlers themselves

  class AssetStore {
    var assets: Register

    constructor ()
      ensures assets == map[]
    {
      assets := map[];
    }

    /** The units of a transition in `unit_index` order; the order is the caller's. */
    ghost predicate Visits(units: seq<Id>, id: Id, siblings: bool)
      reads this
    {
      && (forall i, j :: 0 <= i < j < |units| ==> units[i] != units[j])
      && (id in assets ==> forall x :: x in units <==> x in Batch(assets, id, siblings))
    }

    /** `submit_asset`: the loop moves drafts one by one and rolls back on an incomplete one. */
    method SubmitAsset(id: Id, siblings: bool, units: seq<Id>, complete: set<Id>, user: Id)
      returns (answer: Answer, updated: seq<Id>)
      requires Visits(units, id, siblings)
      modifies this
      ensures (answer, assets) == Gate(old(assets), id, siblings, complete, B.Draft, B.Ready, user)
      ensures answer == Ok ==> id in old(assets) && forall x :: x in updated <==> x in Eligible(old(assets), id, siblings, B.Draft)
    {
      answer, updated := Sweep(id, siblings, units, complete, B.Draft, B.Ready, user);
    }

    /** `approve_asset`. */
    method ApproveAsset(id: Id, siblings: bool, units: seq<Id>, complete: set<Id>, user: Id)
      returns (answer: Answer, updated: seq<Id>)
      requires Visits(units, id, siblings)
      modifies this
      ensures (answer, assets) == Gate(old(assets), id, siblings, complete, B.Ready, B.Capitalized, user)
      ensures answer == Ok ==> id in old(assets) && forall x :: x in updated <==> x in Eligible(old(assets), id, siblings, B.Ready)
    {
      answer, updated := Sweep(id, siblings, units, complete, B.Ready, B.Capitalized, user);
    }

    method Sweep(id: Id, siblings: bool, units: seq<Id>, complete: set<Id>, from: B.Status, to: B.Status, user: Id)
      returns (answer: Answer, updated: seq<Id>)
      requires Visits(units, id, siblings) && from != to
      modifies this
      ensures (answer, assets) == Gate(old(assets), id, siblings, complete, from, to, user)
      ensures answer == Ok ==> id in old(assets) && forall x :: x in updated <==> x in Eligible(old(assets), id, siblings, from)
    {
      updated := [];
      if id !in assets { return Reject(404), []; }
      var saved := assets;
      ghost var moved: set<Id> := {};
      for i := 0 to |units|
        invariant assets == Moved(saved, moved, to, user) && forall x :: x in updated <==> x in moved
        invariant forall x :: x in moved <==> x in units[..i] && x in saved && saved[x].status == from
        invariant moved <= complete
        invariant !siblings && i > 0 ==> saved[id].status == from
      {
        var x := units[i];
        assert x in units && x in Batch(saved, id, siblings) && x !in units[..i];
        assert units[..i + 1] == units[..i] + [x];
        if assets[x].status != from {
          if !siblings {
            assets := saved;
            return Reject(409), [];
          }
        } else if x !in complete {
          assert x in Eligible(saved, id, siblings, from);
          assets := saved;
          return Reject(422), [];
        } else {
          MovedOneMore(saved, moved, x, to, user);
          assets := assets[x := Advanced(assets[x], to, user)];
          updated, moved := updated + [x], moved + {x};
        }
      }
      assert units[..|units|] == units && id in Batch(saved, id, siblings);
      assert moved == Eligible(saved, id, siblings, from);
      return Ok, updated;
    }

    /** `reject_asset`. */
    method RejectAsset(id: Id, siblings: bool, units: seq<Id>, admin: bool) returns (answer: Answer, updated: seq<Id>)
      requires Visits(units, id, siblings)
      modifies this
      ensures (answer, assets) == Return(old(assets), id, siblings, admin)
    {
      updated := [];
      if !admin { return Reject(403), []; }
      if id !in assets { return Reject(404), []; }
      var saved := assets;
      ghost var moved: set<Id> := {};
      for i := 0 to |units|
        invariant assets == Moved(saved, moved, B.Draft, 0) && forall x :: x in updated <==> x in moved
        invariant forall x :: x in moved <==> x in units[..i] && x in saved && saved[x].status == B.Ready
      {
        var x := units[i];
        assert x in units && x in Batch(saved, id, siblings) && x !in units[..i];
        assert units[..i + 1] == units[..i] + [x];
        if assets[x].status == B.Ready {
          MovedOneMore(saved, moved, x, B.Draft, 0);
          assets := assets[x := Advanced(assets[x], B.Draft, 0)];
          updated, moved := updated + [x], moved + {x};
        }
      }
      assert units[..|units|] == units;
      assert moved == Eligible(saved, id, siblings, B.Ready);
      if updated == [] { return Reject(409), []; }
      assert updated[0] in moved;
      return Ok, updated;
    }

    method DisposeAsset(id: Id, valid: bool, admin: bool) returns (answer: Answer)
      modifies this
      ensures (answer, assets) == DisposeOne(old(assets), id, valid, admin)
    {
      if !admin { return Reject(403); }
      if id !in assets { return Reject(404); }
      if assets[id].status != B.Capitalized { return Reject(409); }
      if !valid { return Reject(422); }
      assets := assets[id := Advanced(assets[id], B.Disposed, 0)];
      return Ok;
    }

    /** `update_asset`: the assignments, the category's defaults, then the derived columns. The
        typed percentage is rounded only when the row is written. */
    method UpdateAsset(id: Id, update: Fields, pct: Option<Option<real>>, code: CodeUpdate, category: Fields, admin: bool)
      returns (answer: Answer)
      modifies this
      ensures (answer, assets) == EditOne(old(assets), id, update, pct, code, category, admin)
    {
      if !PctAllowed(pct) { return Reject(422); }
      if id !in assets { return Reject(404); }
      var asset := assets[id];
      if Locked(asset) {
        if !admin { return Reject(403); }
        if !OnlyEditable(update, pct, code) { return Reject(409); }
      }
      answer := CodeCheck(assets, id, code);
      if answer != Ok { return; }
      var saved := assets;
      var columns, typed := Assign(asset.fields, update, pct, category);
      assets := assets[id := asset.(fields := Derived(columns, typed), code := NewCode(asset.code, code))];
      if !Unique(assets) {
        assets := saved;
        return Reject(409);
      }
    }

    method Assign(fields: Fields, update: Fields, pct: Option<Option<real>>, category: Fields)
      returns (columns: Fields, typed: Option<real>)
      ensures columns == Assigned(fields, update, pct, category) && typed == InHand(pct, columns)
    {
      columns := fields + Sent(update);
      if pct.Some? { columns := columns[PCT := Rounded(pct.value)]; }
      var categoryChanged := Value(columns, CATEGORY) != Value(fields, CATEGORY);
      if categoryChanged && Value(columns, CATEGORY).Some? { columns := Filled(columns, category); }
      typed := if pct.Some? && pct.value.Some? then pct.value else StoredPct(columns);
    }

    /** `assign_serials`: the grid loop, rolled back whole on the first refusal. */
    method AssignSerials(anchor: Id, codes: seq<(Id, string)>) returns (answer: Answer)
      modifies this
      ensures (answer, assets) == Grid(old(assets), anchor, codes)
    {
      if anchor !in assets { return Reject(404); }
      if assets[anchor].acquisition.None? { return Reject(400); }
      if exists c :: c in codes && (c.0 !in assets || assets[c.0].acquisition != assets[anchor].acquisition) { return Reject(400); }
      var saved := assets;
      for i := 0 to |codes|
        invariant forall c :: c in codes[..i] ==> c.0 in saved
        invariant assets.Keys == saved.Keys && (Ok, assets) == AssignCodes(saved, codes[..i])
      {
        assert codes[i] in codes;
        assert codes[..i + 1][..i] == codes[..i];
        assert forall c :: c in codes[..i + 1] ==> c in codes;
        var r := AssignCode(assets, codes[i].0, codes[i].1);
        if r.0 != Ok {
          assert AssignCodes(saved, codes[..i + 1]) == r;
          StopsThere(saved, codes, i + 1);
          assets := saved;
          return r.0;
        }
        assets := r.1;
      }
      assert codes[..|codes|] == codes;
      return Ok;
    }

    method DeleteDraftAsset(id: Id, admin: bool) returns (answer: Answer)
      modifies this
      ensures (answer, assets) == DeleteOne(old(assets), id, admin)
    {
      if !admin { return Reject(403); }
      if id !in assets { return Reject(404); }
      if assets[id].status != B.Draft { return Reject(409); }
      assets := assets - {id};
      return Ok;
    }
  }

  lemma MovedOneMore(reg: Register, ids: set<Id>, x: Id, to: B.Status, user: Id)
    requires x in reg && x !in ids
    ensures Moved(reg, ids, to, user)[x] == reg[x]
    ensures Moved(reg, ids + {x}, to, user) == Moved(reg, ids, to, user)[x := Advanced(reg[x], to, user)]
  {
  }

  /** A refusal part-way through the grid is the answer for the whole grid. */
  lemma {:induction false} StopsThere(reg: Register, codes: seq<(Id, string)>, i: nat)
    requires i <= |codes| && forall c :: c in codes ==> c.0 in reg
    requires forall c :: c in codes[..i] ==> c.0 in reg
    requires AssignCodes(reg, codes[..i]).0 != Ok
    ensures AssignCodes(reg, codes).0 == AssignCodes(reg, codes[..i]).0
    decreases |codes|
  {
    if i == |codes| {
      assert codes[..i] == codes;
    } else {
      var init := codes[..|codes| - 1];
      assert forall c :: c in init ==> c in codes;
      assert init[..i] == codes[..i];
      StopsThere(reg, init, i);
    }
  }
}
