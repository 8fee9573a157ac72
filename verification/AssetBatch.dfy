/** One acquisition (invoice line) and its exploded units: PATCH, resize, draft deletion
    (app/routers/asset_acquisitions.py, app/routers/assets.py, app/services/asset_register.py). */
module AssetBatch {
  import opened Prelude
  import C = AssetCosting

  type Id = nat

  datatype Status = Draft | Ready | Capitalized | Disposed

  /** A unit's `unit_index` is not unique in the schema; `cost` is 0 until first allocated. */
  datatype Unit = Unit(id: Id, index: int, status: Status, cost: C.Paise)

  /** The columns of an acquisition that costing reads or writes, and the rest by name. */
  datatype Column =
    | Quantity | UnitPrice | DiscountType | DiscountValue | GstRate | Cgst | Sgst | Igst | Overridden
    | Itc | ItcPct | Freight | Installation | OtherCost | Supplier | Branch | Place | Plain(name: string)

  datatype Cell = Null | Num(amount: real) | Whole(n: int) | Txt(text: string) | Flag(on: bool) | Ref(id: Id)
  type Fields = map<Column, Cell>

  /** What the last costing wrote besides the tax columns. */
  datatype Books = Books(
    gross: C.Paise, discount: C.Paise, net: C.Paise, basis: C.Basis, totalGst: C.Paise, recoverable: C.Paise,
    capitalizable: C.Paise, landed: C.Paise, outlay: C.Paise, perUnit: C.Paise)

  /** `units` lists the rows in `unit_index` order. */
  datatype Acq = Acq(quantity: int, fields: Fields, books: Books, units: seq<Unit>)
  datatype Db = Db(acq: Option<Acq>, nextId: Id)

  /** The state codes in the company's master data at the time of a request: its suppliers', its
      branches' and its own. Anyone may edit them between two requests. */
  datatype MasterData = MasterData(
    suppliers: map<Id, Option<string>>, branches: map<Id, Option<string>>, company: Option<string>)
  type Masters = m: MasterData | ShortCodes(m) witness MasterData(map[], map[], None)

  /** State codes have at most two characters. */
  predicate ShortCodes(m: MasterData) {
    && (forall b :: b in m.branches && m.branches[b].Some? ==> |m.branches[b].value| <= 2)
    && (m.company.Some? ==> |m.company.value| <= 2)
  }

  /** `newFirst` names the indices at which the database returns a new row before an old one. */
  datatype Request =
    | Update(update: Fields, newFirst: set<int>, masters: Masters)
    | DeleteDraft(unit: Id, masters: Masters)
    | Transition(unit: Id, status: Status)

  const COST_AFFECTING: set<Column> := {
    Quantity, UnitPrice, DiscountType, DiscountValue, GstRate, Cgst, Sgst, Igst, Overridden, Itc, ItcPct, Freight,
    Installation, OtherCost, Supplier, Branch, Place
  }
  const GST_AMOUNTS: set<Column> := {Cgst, Sgst, Igst}
  const MAX_QUANTITY := 2000

  predicate Locked(u: Unit) {
    u.status == Capitalized || u.status == Disposed
  }

  predicate AnyLocked(units: seq<Unit>) {
    exists i :: 0 <= i < |units| && Locked(units[i])
  }

  function Ids(units: seq<Unit>): (ids: seq<Id>)
    ensures |ids| == |units|
    ensures forall i :: 0 <= i < |units| ==> ids[i] == units[i].id
  {
    seq(|units|, i requires 0 <= i < |units| => units[i].id)
  }

  // ---------------------------------------------------------------- costs

  /** The cost a recomputation leaves on a unit, given the allocation. */
  function CostOf(u: Unit, parts: seq<C.Paise>): C.Paise {
    var k := (if u.index == 0 then 1 else u.index) - 1;
    if !Locked(u) && 0 <= k < |parts| then parts[k] else u.cost
  }

  function Reallocated(units: seq<Unit>, parts: seq<C.Paise>): (r: seq<Unit>)
    ensures |r| == |units|
    ensures forall i :: 0 <= i < |units| ==> r[i] == units[i].(cost := CostOf(units[i], parts))
  {
    seq(|units|, i requires 0 <= i < |units| => units[i].(cost := CostOf(units[i], parts)))
  }

  /** The loop of `recompute_acquisition_costs` over the units. */
  method Reallocate(units: seq<Unit>, parts: seq<C.Paise>) returns (r: seq<Unit>)
    ensures r == Reallocated(units, parts)
  {
    r := units;
    for i := 0 to |units|
      invariant |r| == |units|
      invariant forall k :: 0 <= k < |units| ==> r[k] == if k < i then Reallocated(units, parts)[k] else units[k]
    {
      if Locked(units[i]) { continue; }
      var k := (if units[i].index == 0 then 1 else units[i].index) - 1;
      if 0 <= k < |parts| {
        r := r[i := units[i].(cost := parts[k])];
      }
    }
  }

  function Value(f: Fields, c: Column): Cell {
    if c in f then f[c] else Null
  }

  /** The request schema's types and bounds. */
  predicate Fits(c: Column, v: Cell) {
    v.Null? ||
    match c
    case UnitPrice | DiscountValue | Cgst | Sgst | Igst | Freight | Installation | OtherCost => v.Num? && v.amount >= 0.0
    case GstRate | ItcPct => v.Num? && 0.0 <= v.amount <= 100.0
    case Quantity => v.Whole? && 1 <= v.n <= MAX_QUANTITY
    case DiscountType => v.Txt? && (v.text == "amount" || v.text == "percent")
    case Itc => v.Txt? && (v.text == "eligible" || v.text == "blocked" || v.text == "partial")
    case Overridden => v.Flag?
    case Supplier | Branch => v.Ref?
    case Place => v.Txt? && |v.text| <= 2
    case Plain(_) => true
  }

  predicate AllFit(f: Fields) {
    forall c :: c in f ==> Fits(c, f[c])
  }

  /** Every number that costing reads or writes sits in a column of two decimals, so a typed value is
      rounded when the row is written, after the costing of its request. */
  function Kept(c: Column, v: Cell): Cell {
    if v.Num? && !c.Plain? then Num(C.Rupees(C.Money(v.amount))) else v
  }

  function Stored(f: Fields): Fields {
    map c | c in f :: Kept(c, f[c])
  }

  /** `resolve_place_of_supply`: the branch's state if it has one, else the company's. */
  function PlaceFor(m: Masters, branch: Cell): Cell {
    if branch.Ref? && branch.id in m.branches && m.branches[branch.id].Some? && m.branches[branch.id].value != ""
    then Txt(m.branches[branch.id].value)
    else if m.company.Some? then Txt(m.company.value) else Null
  }

  function Placed(f: Fields, m: Masters): Fields {
    if Value(f, Place).Null? then f[Place := PlaceFor(m, Value(f, Branch))] else f
  }

  function Number(v: Cell): Option<real> {
    if v.Num? then Some(v.amount) else None
  }

  function Text(v: Cell): Option<string> {
    if v.Txt? then Some(v.text) else None
  }

  function SupplierState(f: Fields, m: Masters): Option<string> {
    var s := Value(f, Supplier);
    if s.Ref? && s.id in m.suppliers then m.suppliers[s.id] else None
  }

  predicate ByHand(f: Fields) {
    Value(f, Overridden) == Flag(true)
  }

  function DiscountOf(kind: Cell, value: real): C.Discount {
    if kind == Txt("percent") then C.Percent(value) else C.Amount(value)
  }

  function CreditOf(kind: Cell, pct: Option<real>): C.Itc {
    if kind == Txt("blocked") then C.Blocked else if kind == Txt("partial") then C.Partial(pct) else C.Eligible
  }

  /** The costing's input line, from the columns as they are in memory. */
  function LineOf(quantity: int, f: Fields): C.Line {
    var typed := ByHand(f);
    C.Line(
      quantity, C.OrZero(Number(Value(f, UnitPrice))),
      DiscountOf(Value(f, DiscountType), C.OrZero(Number(Value(f, DiscountValue)))),
      C.OrZero(Number(Value(f, GstRate))), CreditOf(Value(f, Itc), Number(Value(f, ItcPct))),
      C.OrZero(Number(Value(f, Freight))), C.OrZero(Number(Value(f, Installation))), C.OrZero(Number(Value(f, OtherCost))),
      if typed then Number(Value(f, Cgst)) else None, if typed then Number(Value(f, Sgst)) else None,
      if typed then Number(Value(f, Igst)) else None)
  }

  function InputOf(quantity: int, f: Fields, m: Masters): C.Input {
    C.Input(LineOf(quantity, f), SupplierState(f, m), Text(Value(f, Place)))
  }

  /** The tax amounts are rewritten unless they were typed by hand. */
  function Taxed(f: Fields, g: C.Gst): Fields {
    if ByHand(f) then f
    else f[Cgst := Num(C.Rupees(g.cgst))][Sgst := Num(C.Rupees(g.sgst))][Igst := Num(C.Rupees(g.igst))]
  }

  function BooksOf(b: C.Breakdown): Books {
    Books(b.gross, b.discount, b.net, b.basis, b.totalGst, b.recoverable, b.capitalizable, b.landed, b.outlay, b.perUnit)
  }

  function AtLeastOne(quantity: int): (q: int)
    ensures quantity >= 1 ==> q == quantity
  {
    if quantity == 0 then 1 else quantity
  }

  /** What a recomputation costs. */
  function InputNow(a: Acq, m: Masters): C.Input {
    InputOf(AtLeastOne(a.quantity), Placed(a.fields, m), m)
  }

  function Costed(a: Acq, m: Masters, b: C.Breakdown): Acq {
    a.(fields := Taxed(Placed(a.fields, m), b.gst), books := BooksOf(b), units := Reallocated(a.units, b.allocation))
  }

  /** `recompute_acquisition_costs`; `None` when costing raises. */
  function Recompute(a: Acq, m: Masters): Option<Acq> {
    var b := C.Compute(InputNow(a, m));
    if b.None? then None else Some(Costed(a, m, b.value))
  }

  // ---------------------------------------------------------------- resize

  /** The units minted by growing from `current` to `quantity`. */
  function NewUnits(current: nat, quantity: int, first: Id): (r: seq<Unit>)
    requires current <= quantity
    ensures |r| == quantity - current
    ensures forall i :: 0 <= i < |r| ==> r[i] == Unit(first + i, current + i + 1, Draft, 0)
  {
    seq(quantity - current, i requires 0 <= i => Unit(first + i, current + i + 1, Draft, 0))
  }

  /** The rows in the order the database returns them. */
  function Merged(kept: seq<Unit>, minted: seq<Unit>, newFirst: set<int>): (r: seq<Unit>)
    ensures |r| == |kept| + |minted|
    ensures forall u :: u in r <==> u in kept || u in minted
  {
    if kept == [] then minted
    else if minted == [] then kept
    else if kept[0].index < minted[0].index || (kept[0].index == minted[0].index && kept[0].index !in newFirst)
    then [kept[0]] + Merged(kept[1..], minted, newFirst)
    else [minted[0]] + Merged(kept, minted[1..], newFirst)
  }

  function Renumbered(units: seq<Unit>): (r: seq<Unit>)
    ensures |r| == |units|
    ensures forall i :: 0 <= i < |units| ==> r[i] == units[i].(index := i + 1)
  {
    seq(|units|, i requires 0 <= i < |units| => units[i].(index := i + 1))
  }

  predicate AllDrafts(units: seq<Unit>) {
    forall i :: 0 <= i < |units| ==> units[i].status == Draft
  }

  /** The units after the resize and renumbering, or `None` for the 409. */
  function Resized(units: seq<Unit>, quantity: nat, first: Id, newFirst: set<int>): Option<seq<Unit>> {
    if quantity > |units| then Some(Renumbered(Merged(units, NewUnits(|units|, quantity, first), newFirst)))
    else if !AllDrafts(units[quantity..]) then None
    else Some(Renumbered(units[..quantity]))
  }

  // ---------------------------------------------------------------- handlers

  /** The columns a PATCH writes before recomputing. */
  function Patched(f: Fields, update: Fields, m: Masters): Fields {
    var written := f + (update - {Quantity});
    var marked :=
      if update.Keys * GST_AMOUNTS != {} && Overridden !in update then written[Overridden := Flag(true)] else written;
    if Branch in update && update[Branch] != Value(f, Branch)
    then marked[Place := PlaceFor(m, update[Branch])]
    else marked
  }

  function QuantityAsked(update: Fields): Option<int> {
    var q := Value(update, Quantity);
    if q.Whole? then Some(q.n) else None
  }

  /** The refusal of a PATCH before anything is written, or `Ok`. */
  function PatchCheck(db: Db, update: Fields, m: Masters): Answer {
    if !AllFit(update) then Reject(422)
    else if db.acq.None? then Reject(404)
    else if AnyLocked(db.acq.value.units) && update.Keys * COST_AFFECTING != {} then Reject(409)
    else if Value(update, Supplier).Ref? && Value(update, Supplier).id !in m.suppliers then Reject(400)
    else Ok
  }

  function Patch(db: Db, r: Request): (Answer, Db)
    requires r.Update?
  {
    var check := PatchCheck(db, r.update, r.masters);
    if check != Ok then (check, db) else Applied(db, r)
  }

  function Applied(db: Db, r: Request): (Answer, Db)
    requires r.Update? && db.acq.Some? && AllFit(r.update)
  {
    var a, q := db.acq.value, QuantityAsked(r.update);
    var p := a.(fields := Patched(a.fields, r.update, r.masters));
    if q.Some? && q.value != a.quantity then ResizeTo(db, p, q.value, r) else Settle(db, Recompute(p, r.masters), db.nextId)
  }

  function ResizeTo(db: Db, p: Acq, quantity: int, r: Request): (Answer, Db)
    requires r.Update? && quantity >= 0
  {
    var units := Resized(p.units, quantity, db.nextId, r.newFirst);
    if units.None? then (Reject(409), db)
    else Settle(db, Recompute(p.(quantity := quantity, units := units.value), r.masters), db.nextId + quantity)
  }

  /** Commit, or roll back when costing raised. */
  function Settle(db: Db, a: Option<Acq>, nextId: Id): (Answer, Db) {
    if a.None? then (Reject(500), db) else (Ok, Db(Some(a.value.(fields := Stored(a.value.fields))), nextId))
  }

  function Position(units: seq<Unit>, id: Id): (k: nat)
    ensures k <= |units|
    ensures k < |units| ==> units[k].id == id
    ensures forall i :: 0 <= i < k ==> units[i].id != id
  {
    if units == [] || units[0].id == id then 0 else 1 + Position(units[1..], id)
  }

  function Without(units: seq<Unit>, k: nat): seq<Unit>
    requires k < |units|
  {
    units[..k] + units[k + 1..]
  }

  function Delete(db: Db, id: Id, m: Masters): (Answer, Db) {
    if db.acq.None? then (Reject(404), db)
    else
      var a := db.acq.value;
      var k := Position(a.units, id);
      if k == |a.units| then (Reject(404), db)
      else if a.units[k].status != Draft then (Reject(409), db)
      else if |a.units| == 1 then (Ok, db.(acq := None))
      else Settle(db, Recompute(a.(quantity := |a.units| - 1, units := Without(a.units, k)), m), db.nextId)
  }

  /** The lifecycle moves of the asset routes. */
  predicate Legal(from: Status, to: Status) {
    (from == Draft && to == Ready) || (from == Ready && (to == Draft || to == Capitalized)) || (from == Capitalized && to == Disposed)
  }

  function Move(db: Db, id: Id, to: Status): (Answer, Db) {
    if db.acq.None? then (Reject(404), db)
    else
      var a := db.acq.value;
      var k := Position(a.units, id);
      if k == |a.units| then (Reject(404), db)
      else if !Legal(a.units[k].status, to) then (Reject(409), db)
      else (Ok, db.(acq := Some(a.(units := a.units[k := a.units[k].(status := to)]))))
  }

  function Step(db: Db, r: Request): (Answer, Db) {
    match r
    case Update(_, _, _) => Patch(db, r)
    case DeleteDraft(u, m) => Delete(db, u, m)
    case Transition(u, s) => Move(db, u, s)
  }

  const NO_BOOKS := Books(0, 0, 0, C.AssumedIntra, 0, 0, 0, 0, 0, 0)

  /** `quick_add`: a fresh batch of `quantity` drafts. */
  function QuickAdd(quantity: int, fields: Fields, m: Masters): Option<Db> {
    if !(1 <= quantity <= MAX_QUANTITY) || !AllFit(fields) then None
    else
      var r := Settle(Db(None, 0), Recompute(FirstRow(quantity, fields), m), quantity);
      if r.0 == Ok then Some(r.1) else None
  }

  function FirstRow(quantity: nat, fields: Fields): Acq {
    Acq(quantity, fields, NO_BOOKS, NewUnits(0, quantity, 0))
  }

  // ---------------------------------------------------------------- invariant over every run

  predicate Increasing(units: seq<Unit>) {
    forall i, j :: 0 <= i < j < |units| ==> units[i].index < units[j].index
  }

  predicate DistinctIds(units: seq<Unit>) {
    forall i, j :: 0 <= i < j < |units| ==> units[i].id != units[j].id
  }

  predicate UnitsOk(units: seq<Unit>, nextId: Id) {
    && |units| >= 1 && Increasing(units) && DistinctIds(units)
    && forall i :: 0 <= i < |units| ==> units[i].index >= 1 && units[i].id < nextId
  }

  /** A committed row: its values fit and are rounded. */
  predicate RowOk(f: Fields) {
    AllFit(f) && Stored(f) == f
  }

  predicate Inv(db: Db) {
    db.acq.Some? ==>
      && UnitsOk(db.acq.value.units, db.nextId) && db.acq.value.quantity == |db.acq.value.units|
      && RowOk(db.acq.value.fields)
  }

  predicate Differs(h: Unit, s: seq<Unit>) {
    forall u :: u in s ==> u.id != h.id
  }

  lemma HeadDiffers(s: seq<Unit>)
    requires s != [] && DistinctIds(s)
    ensures Differs(s[0], s[1..]) && DistinctIds(s[1..])
  {
  }

  lemma ConsDistinct(h: Unit, s: seq<Unit>)
    requires DistinctIds(s) && Differs(h, s)
    ensures DistinctIds([h] + s)
  {
    assert forall i :: 0 <= i < |s| ==> s[i] in s;
  }

  predicate Apart(a: seq<Unit>, b: seq<Unit>) {
    forall u, v :: u in a && v in b ==> u.id != v.id
  }

  lemma {:induction false} MergeDistinct(kept: seq<Unit>, minted: seq<Unit>, t: set<int>)
    requires DistinctIds(kept) && DistinctIds(minted) && Apart(kept, minted)
    ensures DistinctIds(Merged(kept, minted, t))
    decreases |kept| + |minted|
  {
    if kept != [] && minted != [] {
      HeadDiffers(kept);
      HeadDiffers(minted);
      if kept[0].index < minted[0].index || (kept[0].index == minted[0].index && kept[0].index !in t) {
        MergeDistinct(kept[1..], minted, t);
        ConsDistinct(kept[0], Merged(kept[1..], minted, t));
      } else {
        MergeDistinct(kept, minted[1..], t);
        ConsDistinct(minted[0], Merged(kept, minted[1..], t));
      }
    }
  }

  lemma RecomputeKeepsUnits(a: Acq, m: Masters, nextId: Id)
    requires UnitsOk(a.units, nextId) && Recompute(a, m).Some?
    ensures UnitsOk(Recompute(a, m).value.units, nextId) && Recompute(a, m).value.quantity == a.quantity
  {
    hide C.Compute;
  }

  lemma MoneyOfRupees(p: C.Paise)
    ensures C.Money(C.Rupees(p)) == p
  {
    assert (p as real + 0.5).Floor == p;
    assert (-p as real + 0.5).Floor == -p;
  }

  lemma KeptFits(c: Column, v: Cell)
    requires Fits(c, v)
    ensures Fits(c, Kept(c, v)) && Kept(c, Kept(c, v)) == Kept(c, v)
  {
    if v.Num? {
      MoneyOfRupees(C.Money(v.amount));
      assert (10000.5 as real).Floor == 10000;
    }
  }

  lemma StoredOk(f: Fields)
    requires AllFit(f)
    ensures RowOk(Stored(f))
  {
    forall c | c in f ensures Fits(c, Stored(f)[c]) && Kept(c, Stored(f)[c]) == Stored(f)[c] { KeptFits(c, f[c]); }
  }

  /** A row that fits is an input the costing's arithmetic is made for. */
  lemma LineIsNonNegative(quantity: int, f: Fields)
    requires AllFit(f)
    ensures C.NonNegative(LineOf(quantity, f))
  {
    forall c | c in f && f[c].Num? && !c.Plain? ensures f[c].amount >= 0.0 { assert Fits(c, f[c]); }
  }

  lemma PatchedFits(f: Fields, update: Fields, m: Masters)
    requires AllFit(f) && AllFit(update)
    ensures AllFit(Patched(f, update, m))
  {
  }

  lemma PlacedFits(f: Fields, m: Masters)
    requires AllFit(f)
    ensures AllFit(Placed(f, m))
  {
  }

  lemma TaxedFits(f: Fields, g: C.Gst)
    requires AllFit(f) && g.cgst >= 0 && g.sgst >= 0 && g.igst >= 0
    ensures AllFit(Taxed(f, g))
  {
  }

  lemma RecomputeFits(a: Acq, m: Masters)
    requires AllFit(a.fields) && Recompute(a, m).Some?
    ensures AllFit(Recompute(a, m).value.fields) && Recompute(a, m).value.books.landed >= 0
  {
    var inp := InputNow(a, m);
    var b := C.Compute(inp).value;
    PlacedFits(a.fields, m);
    LineIsNonNegative(AtLeastOne(a.quantity), Placed(a.fields, m));
    C.RegisterReconciles(inp);
    C.CostAssembles(inp.line, C.InterState(inp), C.BasisOf(inp));
    C.GstNonNegative(b.net, inp.line, C.InterState(inp));
    TaxedFits(Placed(a.fields, m), b.gst);
  }

  lemma SettleOk(db: Db, a: Acq, m: Masters, nextId: Id)
    requires UnitsOk(a.units, nextId) && a.quantity == |a.units| && AllFit(a.fields)
    requires Settle(db, Recompute(a, m), nextId).0 == Ok
    ensures Inv(Settle(db, Recompute(a, m), nextId).1)
  {
    RecomputeKeepsUnits(a, m, nextId);
    RecomputeFits(a, m);
    StoredOk(Recompute(a, m).value.fields);
  }

  lemma ResizedOk(units: seq<Unit>, quantity: nat, first: Id, t: set<int>)
    requires UnitsOk(units, first) && quantity >= 1 && Resized(units, quantity, first, t).Some?
    ensures UnitsOk(Resized(units, quantity, first, t).value, first + quantity)
    ensures |Resized(units, quantity, first, t).value| == quantity
  {
    if quantity > |units| {
      var minted := NewUnits(|units|, quantity, first);
      MergeDistinct(units, minted, t);
      forall u | u in Merged(units, minted, t) ensures u.id < first + quantity {
        if u in units { assert u.id < first; }
      }
    }
  }

  lemma PatchKeepsInv(db: Db, r: Request)
    requires Inv(db) && r.Update?
    ensures Inv(Patch(db, r).1)
  {
    hide C.Compute;
    if Patch(db, r).0 == Ok {
      var a, q := db.acq.value, QuantityAsked(r.update);
      var p := a.(fields := Patched(a.fields, r.update, r.masters));
      PatchedFits(a.fields, r.update, r.masters);
      if q.Some? && q.value != a.quantity {
        assert Fits(Quantity, r.update[Quantity]);
        ResizedOk(a.units, q.value, db.nextId, r.newFirst);
        var units := Resized(a.units, q.value, db.nextId, r.newFirst).value;
        SettleOk(db, p.(quantity := q.value, units := units), r.masters, db.nextId + q.value);
      } else {
        SettleOk(db, p, r.masters, db.nextId);
      }
    }
  }

  lemma WithoutOk(units: seq<Unit>, nextId: Id, k: nat)
    requires UnitsOk(units, nextId) && k < |units| && |units| > 1
    ensures UnitsOk(Without(units, k), nextId)
  {
  }

  lemma DeleteKeepsInv(db: Db, id: Id, m: Masters)
    requires Inv(db)
    ensures Inv(Delete(db, id, m).1)
  {
    hide C.Compute;
    if Delete(db, id, m).0 == Ok && |db.acq.value.units| > 1 {
      var a := db.acq.value;
      var k := Position(a.units, id);
      WithoutOk(a.units, db.nextId, k);
      SettleOk(db, a.(quantity := |a.units| - 1, units := Without(a.units, k)), m, db.nextId);
    }
  }

  lemma StepKeepsInv(db: Db, r: Request)
    requires Inv(db)
    ensures Inv(Step(db, r).1)
  {
    match r
    case Update(_, _, _) => PatchKeepsInv(db, r);
    case DeleteDraft(u, m) => DeleteKeepsInv(db, u, m);
    case Transition(u, s) =>
  }

  function Run(db: Db, reqs: seq<Request>): Db {
    if reqs == [] then db else Step(Run(db, reqs[..|reqs| - 1]), reqs[|reqs| - 1]).1
  }

  /** Main theorem: in every run from quick-add, `quantity` is the number of units, their ids
      and indices are pairwise distinct, and an acquisition without units does not exist. */
  lemma {:induction false} BatchesStayCounted(db: Db, reqs: seq<Request>)
    requires Inv(db)
    ensures Inv(Run(db, reqs))
    decreases |reqs|
  {
    if reqs != [] {
      BatchesStayCounted(db, reqs[..|reqs| - 1]);
      StepKeepsInv(Run(db, reqs[..|reqs| - 1]), reqs[|reqs| - 1]);
    }
  }

  lemma QuickAddStartsCounted(quantity: int, f: Fields, m: Masters)
    ensures QuickAdd(quantity, f, m).Some? ==>
              var db := QuickAdd(quantity, f, m).value;
              Inv(db) && db.acq.Some? && Dense(db.acq.value.units) && |db.acq.value.units| == quantity
  {
    hide C.Compute;
    if QuickAdd(quantity, f, m).Some? { SettleOk(Db(None, 0), FirstRow(quantity, f), m, quantity); }
  }

  // ---------------------------------------------------------------- what a resize does

  /** Indices are exactly 1..N. */
  predicate Dense(units: seq<Unit>) {
    forall i :: 0 <= i < |units| ==> units[i].index == i + 1
  }

  /** The ids among `ids`, in order. */
  function Only(s: seq<Id>, ids: set<Id>): seq<Id> {
    if s == [] then [] else (if s[0] in ids then [s[0]] else []) + Only(s[1..], ids)
  }

  lemma {:induction false} OnlyAll(s: seq<Id>, ids: set<Id>)
    requires forall x :: x in s ==> x in ids
    ensures Only(s, ids) == s
  {
    if s != [] { OnlyAll(s[1..], ids); }
  }

  lemma {:induction false} OnlyNone(s: seq<Id>, ids: set<Id>)
    requires forall x :: x in s ==> x !in ids
    ensures Only(s, ids) == []
  {
    if s != [] { OnlyNone(s[1..], ids); }
  }

  lemma {:induction false} MergeKeepsOrder(kept: seq<Unit>, minted: seq<Unit>, t: set<int>, ids: set<Id>)
    requires forall x :: x in Ids(kept) ==> x in ids
    requires forall x :: x in Ids(minted) ==> x !in ids
    ensures Only(Ids(Merged(kept, minted, t)), ids) == Ids(kept)
    decreases |kept| + |minted|
  {
    if kept == [] {
      OnlyNone(Ids(minted), ids);
    } else if minted == [] {
      OnlyAll(Ids(kept), ids);
    } else {
      assert Ids(kept)[0] == kept[0].id && Ids(minted)[0] == minted[0].id;
      if kept[0].index < minted[0].index || (kept[0].index == minted[0].index && kept[0].index !in t) {
        MergeStep(kept[0], kept[1..], Merged(kept[1..], minted, t), ids);
        assert Ids(kept) == [kept[0].id] + Ids(kept[1..]);
        MergeKeepsOrder(kept[1..], minted, t, ids);
      } else {
        MergeStep(minted[0], minted[1..], Merged(kept, minted[1..], t), ids);
        assert Ids(minted) == [minted[0].id] + Ids(minted[1..]);
        MergeKeepsOrder(kept, minted[1..], t, ids);
      }
    }
  }

  lemma MergeStep(h: Unit, own: seq<Unit>, rest: seq<Unit>, ids: set<Id>)
    ensures Only(Ids([h] + rest), ids) == (if h.id in ids then [h.id] else []) + Only(Ids(rest), ids)
  {
    assert Ids([h] + rest) == [h.id] + Ids(rest);
  }

  lemma IdsOfMembers(units: seq<Unit>)
    ensures forall u :: u in units ==> u.id in Ids(units)
  {
    forall u | u in units ensures u.id in Ids(units) {
      var i :| 0 <= i < |units| && units[i] == u;
      assert Ids(units)[i] == u.id;
    }
  }

  /** Main theorem: after an accepted resize indices are exactly 1..N and nothing is locked; the
      survivors keep their relative order; growing keeps every unit and adds only drafts; and
      shrinking removes precisely the trailing units, all of them drafts. */
  lemma ResizeRenumbers(units: seq<Unit>, quantity: nat, first: Id, t: set<int>)
    requires UnitsOk(units, first) && quantity >= 1 && Resized(units, quantity, first, t).Some?
    ensures var after := Resized(units, quantity, first, t).value;
            && Dense(after) && |after| == quantity
            && (quantity >= |units| ==> Only(Ids(after), set x | x in Ids(units)) == Ids(units))
            && (quantity < |units| ==> Ids(after) == Ids(units)[..quantity] && AllDrafts(units[quantity..]))
            && (forall u :: u in after && u.id !in Ids(units) ==> u.status == Draft)
  {
    var after := Resized(units, quantity, first, t).value;
    if quantity > |units| {
      var minted := NewUnits(|units|, quantity, first);
      var m := Merged(units, minted, t);
      forall x | x in Ids(units) ensures x < first {
        var i :| 0 <= i < |units| && x == units[i].id;
      }
      MergeKeepsOrder(units, minted, t, set x | x in Ids(units));
      assert Ids(after) == Ids(m);
      IdsOfMembers(units);
      forall u | u in after && u.id !in Ids(units) ensures u.status == Draft {
        var i :| 0 <= i < |after| && after[i] == u;
        assert m[i] in m && m[i].id == u.id && m[i] !in units;
      }
    } else {
      assert Ids(after) == Ids(units)[..quantity];
      if quantity == |units| {
        assert Ids(units)[..quantity] == Ids(units);
        OnlyAll(Ids(units), set x | x in Ids(units));
      }
      forall u | u in after ensures u.id in Ids(units) {
        var i :| 0 <= i < |after| && after[i] == u;
        assert Ids(units)[i] == u.id;
      }
    }
  }

  /** The resize is refused exactly when a trailing unit is no longer a draft. */
  lemma ShrinkRefusedExactly(units: seq<Unit>, quantity: nat, first: Id, t: set<int>)
    ensures Resized(units, quantity, first, t).None? <==>
            exists i :: quantity <= i < |units| && units[i].status != Draft
  {
    if quantity <= |units| {
      var tail := units[quantity..];
      if !AllDrafts(tail) {
        var j :| 0 <= j < |tail| && tail[j].status != Draft;
        assert units[quantity + j] == tail[j];
      }
      if i :| quantity <= i < |units| && units[i].status != Draft {
        assert tail[i - quantity] == units[i];
      }
    }
  }

  /** New units come last, however ties are broken, exactly when the old indices had no gap. */
  lemma GrowthAppendsIffDense(units: seq<Unit>, quantity: nat, first: Id)
    requires UnitsOk(units, first) && quantity > |units|
    ensures (forall t :: Merged(units, NewUnits(|units|, quantity, first), t) == units + NewUnits(|units|, quantity, first))
            <==> Dense(units)
  {
    var minted := NewUnits(|units|, quantity, first);
    LastIndex(units, first);
    if Dense(units) {
      forall t ensures Merged(units, minted, t) == units + minted { MergeAppends(units, minted, t); }
    } else {
      GapIsOvertaken(units, minted, {units[|units| - 1].index});
    }
  }

  lemma GapIsOvertaken(kept: seq<Unit>, minted: seq<Unit>, t: set<int>)
    requires kept != [] && minted != [] && Apart(kept, minted)
    requires var last := kept[|kept| - 1].index; last > minted[0].index || (last == minted[0].index && last in t)
    ensures Merged(kept, minted, t) != kept + minted
  {
    var k := MergeOvertakes(kept, minted, t);
  }

  lemma {:induction false} LastIndex(units: seq<Unit>, first: Id)
    requires UnitsOk(units, first)
    ensures units[|units| - 1].index >= |units|
    ensures Dense(units) <==> units[|units| - 1].index == |units|
    decreases |units|
  {
    var n := |units| - 1;
    if n > 0 {
      assert units[n - 1].index < units[n].index;
      LastIndex(units[..n], first);
      if units[n].index == n + 1 { assert Dense(units[..n]); }
    }
  }

  lemma {:induction false} MergeAppends(kept: seq<Unit>, minted: seq<Unit>, t: set<int>)
    requires minted != [] && forall i :: 0 <= i < |kept| ==> kept[i].index < minted[0].index
    ensures Merged(kept, minted, t) == kept + minted
    decreases |kept|
  {
    if kept != [] {
      MergeAppends(kept[1..], minted, t);
      assert [kept[0]] + (kept[1..] + minted) == kept + minted;
    }
  }

  /** The first place a new row overtakes an old one. */
  lemma {:induction false} MergeOvertakes(kept: seq<Unit>, minted: seq<Unit>, t: set<int>) returns (k: nat)
    requires kept != [] && minted != [] && Apart(kept, minted)
    requires var last := kept[|kept| - 1].index; last > minted[0].index || (last == minted[0].index && last in t)
    ensures k < |kept| && Merged(kept, minted, t)[k] != kept[k]
    decreases |kept|
  {
    if kept[0].index < minted[0].index || (kept[0].index == minted[0].index && kept[0].index !in t) {
      k := MergeOvertakes(kept[1..], minted, t);
      assert Merged(kept, minted, t)[k + 1] == Merged(kept[1..], minted, t)[k];
      k := k + 1;
    } else {
      assert minted[0] in minted && kept[0] in kept;
      k := 0;
    }
  }

  // ---------------------------------------------------------------- do the units sum to the cost?

  function CostSum(units: seq<Unit>): int {
    C.Sum(seq(|units|, i requires 0 <= i < |units| => units[i].cost))
  }

  function Recosted(units: seq<Unit>, landed: nat): seq<Unit>
    requires |units| >= 1
  {
    Reallocated(units, C.Allocation(landed, |units|))
  }

  lemma {:induction false} SumGap(a: seq<int>, b: seq<int>)
    requires |a| == |b| && forall i :: 0 <= i < |a| ==> a[i] <= b[i] <= a[i] + 1
    ensures C.Sum(b) <= C.Sum(a) + |a|
    ensures C.Sum(b) == C.Sum(a) + |a| ==> forall i :: 0 <= i < |a| ==> b[i] == a[i] + 1
    decreases |a|
  {
    if a != [] { SumGap(a[..|a| - 1], b[..|b| - 1]); }
  }

  lemma OneEach(units: seq<Unit>)
    requires |units| >= 1
    requires CostSum(Recosted(units, 0)) == 0 && CostSum(Recosted(units, |units|)) == |units|
    ensures forall i :: 0 <= i < |units| ==> !Locked(units[i]) && units[i].index <= |units|
  {
    var n := |units|;
    var zeros, ones := C.Allocation(0, n), C.Allocation(n, n);
    assert forall i :: 0 <= i < n ==> zeros[i] == 0 && ones[i] == 1;
    var a := seq(n, i requires 0 <= i < n => Reallocated(units, zeros)[i].cost);
    var b := seq(n, i requires 0 <= i < n => Reallocated(units, ones)[i].cost);
    assert C.Sum(a) == CostSum(Recosted(units, 0)) && C.Sum(b) == CostSum(Recosted(units, n));
    SumGap(a, b);
    forall i | 0 <= i < n ensures !Locked(units[i]) && units[i].index <= n {
      assert b[i] == a[i] + 1;
    }
  }

  lemma DenseTiesOut(units: seq<Unit>, landed: nat)
    requires |units| >= 1 && !AnyLocked(units) && Dense(units)
    ensures CostSum(Recosted(units, landed)) == landed
  {
    var parts := C.Allocation(landed, |units|);
    C.AllocationTiesOut(landed, |units|);
    assert seq(|units|, i requires 0 <= i < |units| => Recosted(units, landed)[i].cost) == parts;
  }

  /** Main theorem: recomputing makes the units sum to the landed cost, whatever that cost is,
      exactly when no unit is locked and the indices are 1..N. */
  lemma UnitsTieOutExactly(units: seq<Unit>, nextId: Id)
    requires UnitsOk(units, nextId)
    ensures (forall landed: nat :: CostSum(Recosted(units, landed)) == landed) <==> !AnyLocked(units) && Dense(units)
  {
    LastIndex(units, nextId);
    if !AnyLocked(units) && Dense(units) {
      forall landed: nat ensures CostSum(Recosted(units, landed)) == landed { DenseTiesOut(units, landed); }
    } else if forall landed: nat :: CostSum(Recosted(units, landed)) == landed {
      assert CostSum(Recosted(units, 0)) == 0 && CostSum(Recosted(units, |units|)) == |units|;
      OneEach(units);
      assert false;
    }
  }

  /** Deleting a draft keeps the units summing to the cost exactly when it was the last unit: the
      delete route does not renumber, so a later unit can fall outside the allocation. */
  lemma DraftDeleteTiesOutExactly(units: seq<Unit>, nextId: Id, k: nat)
    requires UnitsOk(units, nextId) && Dense(units) && !AnyLocked(units) && |units| > 1 && k < |units|
    ensures (forall landed: nat :: CostSum(Recosted(Without(units, k), landed)) == landed) <==> k == |units| - 1
  {
    var rest := Without(units, k);
    WithoutOk(units, nextId, k);
    UnitsTieOutExactly(rest, nextId);
    assert !AnyLocked(rest);
    if k < |units| - 1 { assert rest[k].index == k + 2; }
  }

  lemma ResizeUnlocked(units: seq<Unit>, quantity: nat, first: Id, t: set<int>)
    requires !AnyLocked(units) && Resized(units, quantity, first, t).Some?
    ensures !AnyLocked(Resized(units, quantity, first, t).value)
  {
    var after := Resized(units, quantity, first, t).value;
    forall i | 0 <= i < |after| ensures !Locked(after[i]) {
      if quantity > |units| {
        var m := Merged(units, NewUnits(|units|, quantity, first), t);
        assert m[i] in m && m[i].status == after[i].status;
      } else {
        assert after[i].status == units[i].status;
      }
    }
  }

  /** Right after an accepted resize the indices are 1..N and the units sum to the landed cost. */
  lemma ResizeTiesOut(db: Db, r: Request)
    requires Inv(db) && r.Update? && db.acq.Some?
    requires QuantityAsked(r.update).Some? && QuantityAsked(r.update).value != db.acq.value.quantity
    ensures Patch(db, r).0 == Ok ==>
              var a := Patch(db, r).1.acq.value;
              Dense(a.units) && a.quantity == |a.units| == QuantityAsked(r.update).value && CostSum(a.units) == a.books.landed
  {
    hide C.Compute;
    if Patch(db, r).0 == Ok {
      var a, q := db.acq.value, QuantityAsked(r.update).value;
      assert Fits(Quantity, r.update[Quantity]);
      assert Quantity in r.update.Keys * COST_AFFECTING;
      var units := Resized(a.units, q, db.nextId, r.newFirst).value;
      ResizedOk(a.units, q, db.nextId, r.newFirst);
      ResizeRenumbers(a.units, q, db.nextId, r.newFirst);
      ResizeUnlocked(a.units, q, db.nextId, r.newFirst);
      var p := a.(fields := Patched(a.fields, r.update, r.masters), quantity := q, units := units);
      PatchedFits(a.fields, r.update, r.masters);
      RecomputeFits(p, r.masters);
      RecomputeTiesOut(p, r.masters);
    }
  }

  lemma RecomputeTiesOut(a: Acq, m: Masters)
    requires a.quantity == |a.units| >= 1 && !AnyLocked(a.units) && Dense(a.units)
    requires Recompute(a, m).Some? && Recompute(a, m).value.books.landed >= 0
    ensures Dense(Recompute(a, m).value.units) && CostSum(Recompute(a, m).value.units) == Recompute(a, m).value.books.landed
  {
    var inp := InputNow(a, m);
    C.CostAssembles(inp.line, C.InterState(inp), C.BasisOf(inp));
    DenseTiesOut(a.units, C.Compute(inp).value.landed);
  }

  // ---------------------------------------------------------------- the cost freeze

  /** A locked unit of this id, index and cost is in the batch. */
  predicate OnBooks(db: Db, id: Id, index: int, cost: C.Paise) {
    db.acq.Some? && exists i :: 0 <= i < |db.acq.value.units| && IsLocked(db.acq.value.units[i], id, index, cost)
  }

  predicate IsLocked(u: Unit, id: Id, index: int, cost: C.Paise) {
    Locked(u) && u.id == id && u.index == index && u.cost == cost
  }

  lemma OnBooksAt(db: Db, i: nat, u: Unit)
    requires db.acq.Some? && i < |db.acq.value.units| && Locked(u) && db.acq.value.units[i] == u
    ensures OnBooks(db, u.id, u.index, u.cost)
  {
  }

  lemma SettledKeepsBooks(db: Db, a: Acq, m: Masters, nextId: Id, i: nat)
    requires i < |a.units| && Locked(a.units[i]) && Settle(db, Recompute(a, m), nextId).0 == Ok
    ensures OnBooks(Settle(db, Recompute(a, m), nextId).1, a.units[i].id, a.units[i].index, a.units[i].cost)
  {
    hide C.Compute;
    OnBooksAt(Settle(db, Recompute(a, m), nextId).1, i, a.units[i]);
  }

  lemma PatchKeepsBooks(db: Db, r: Request, i: nat)
    requires r.Update? && db.acq.Some? && i < |db.acq.value.units| && Locked(db.acq.value.units[i])
    ensures var (u, after) := (db.acq.value.units[i], Patch(db, r).1); OnBooks(after, u.id, u.index, u.cost)
  {
    var a := db.acq.value;
    OnBooksAt(db, i, a.units[i]);
    if Patch(db, r).0 == Ok {
      PatchOnBooks(db, r);
      SettledKeepsBooks(db, a.(fields := Patched(a.fields, r.update, r.masters)), r.masters, db.nextId, i);
    }
  }

  /** Under a lock an accepted PATCH asks for no quantity, so it only recomputes. */
  lemma PatchOnBooks(db: Db, r: Request)
    requires r.Update? && db.acq.Some? && AnyLocked(db.acq.value.units) && Patch(db, r).0 == Ok
    ensures r.update.Keys * COST_AFFECTING == {}
    ensures var a := db.acq.value;
            Patch(db, r) == Settle(db, Recompute(a.(fields := Patched(a.fields, r.update, r.masters)), r.masters), db.nextId)
  {
    NotUpdated(r.update.Keys, Quantity);
  }

  lemma DeleteKeepsBooks(db: Db, id: Id, m: Masters, i: nat)
    requires db.acq.Some? && i < |db.acq.value.units| && Locked(db.acq.value.units[i])
    ensures var (u, after) := (db.acq.value.units[i], Delete(db, id, m).1); OnBooks(after, u.id, u.index, u.cost)
  {
    hide C.Compute;
    var a := db.acq.value;
    var (units, k) := (a.units, Position(a.units, id));
    OnBooksAt(db, i, units[i]);
    if Delete(db, id, m).0 == Ok {
      var (rest, j) := (Without(units, k), if i < k then i else i - 1);
      assert i != k && rest[j] == units[i];
      SettledKeepsBooks(db, a.(quantity := |units| - 1, units := rest), m, db.nextId, j);
    }
  }

  lemma MoveKeepsBooks(db: Db, id: Id, to: Status, i: nat)
    requires db.acq.Some? && i < |db.acq.value.units| && Locked(db.acq.value.units[i])
    ensures var (u, after) := (db.acq.value.units[i], Move(db, id, to).1); OnBooks(after, u.id, u.index, u.cost)
  {
    var units := db.acq.value.units;
    OnBooksAt(db, i, units[i]);
    if Move(db, id, to).0 == Ok {
      OnBooksAt(Move(db, id, to).1, i, Move(db, id, to).1.acq.value.units[i]);
    }
  }

  /** Main theorem: once a unit is capitalized, no later request in any run removes it, renumbers
      it or changes its cost. */
  lemma {:induction false} CapitalizedCostIsFixed(db: Db, reqs: seq<Request>, id: Id, index: int, cost: C.Paise)
    requires OnBooks(db, id, index, cost)
    ensures OnBooks(Run(db, reqs), id, index, cost)
    decreases |reqs|
  {
    if reqs != [] {
      var n := |reqs| - 1;
      CapitalizedCostIsFixed(db, reqs[..n], id, index, cost);
      var before := Run(db, reqs[..n]);
      var i :| 0 <= i < |before.acq.value.units| && IsLocked(before.acq.value.units[i], id, index, cost);
      match reqs[n]
      case Update(_, _, _) => PatchKeepsBooks(before, reqs[n], i);
      case DeleteDraft(u, m) => DeleteKeepsBooks(before, u, m, i);
      case Transition(u, s) => MoveKeepsBooks(before, u, s, i);
    }
  }

  lemma NotUpdated(keys: set<Column>, f: Column)
    requires keys * COST_AFFECTING == {} && f in COST_AFFECTING
    ensures f !in keys
  {
    assert f in keys <==> f in keys * COST_AFFECTING;
  }

  // ---------------------------------------------------------------- the handlers themselves

  class Acquisition {
    var live: bool
    var quantity: int
    var fields: Fields
    var books: Books
    var units: seq<Unit>
    var nextId: Id

    function State(): Db
      reads this
    {
      Db(if live then Some(Acq(quantity, fields, books, units)) else None, nextId)
    }

    constructor (f: Fields)
      ensures State() == Db(None, 0)
    {
      live, quantity, fields, books, units, nextId := false, 0, f, NO_BOOKS, [], 0;
    }

    method Restore(q: int, f: Fields, b: Books, us: seq<Unit>)
      modifies this
      ensures quantity == q && fields == f && books == b && units == us && live == old(live) && nextId == old(nextId)
    {
      quantity, fields, books, units := q, f, b, us;
    }

    /** `_resize`: grow by minting drafts, or shrink by deleting trailing drafts, then renumber. */
    method Resize(newQuantity: nat, newFirst: set<int>) returns (ok: bool)
      requires newQuantity >= 1
      modifies `units, `quantity
      ensures ok <==> Resized(old(units), newQuantity, nextId, newFirst).Some?
      ensures ok ==> units == Resized(old(units), newQuantity, nextId, newFirst).value && quantity == newQuantity
      ensures !ok ==> units == old(units) && quantity == old(quantity)
    {
      var current := |units|;
      if newQuantity > current {
        var extra := newQuantity - current;
        var minted: seq<Unit> := [];
        for i := 0 to extra
          invariant minted == NewUnits(current, newQuantity, nextId)[..i]
        {
          minted := minted + [Unit(nextId + i, current + i + 1, Draft, 0)];
        }
        assert minted == NewUnits(current, newQuantity, nextId);
        units := Merged(units, minted, newFirst);
      } else {
        for i := newQuantity to current
          invariant forall k :: newQuantity <= k < i ==> units[k].status == Draft
        {
          if units[i].status != Draft {
            assert units[newQuantity..][i - newQuantity] == units[i];
            return false;
          }
        }
        units := units[..newQuantity];
      }
      quantity := newQuantity;
      Renumber();
      return true;
    }

    /** The re-indexing loop. */
    method Renumber()
      modifies `units
      ensures units == Renumbered(old(units))
    {
      for i := 0 to |units|
        invariant |units| == |old(units)|
        invariant forall k :: 0 <= k < |units| ==> units[k] == if k < i then Renumbered(old(units))[k] else old(units)[k]
      {
        units := units[i := units[i].(index := i + 1)];
      }
    }

    /** `recompute_acquisition_costs`; false when costing raises, and then nothing is written. */
    method RecomputeCosts(masters: Masters) returns (ok: bool)
      requires live
      modifies `fields, `books, `units
      ensures ok <==> Recompute(old(State().acq.value), masters).Some?
      ensures ok ==> State() == old(State()).(acq := Recompute(old(State().acq.value), masters))
      ensures !ok ==> State() == old(State())
    {
      hide C.Compute;
      var placed := fields;
      if Value(fields, Place).Null? { placed := fields[Place := PlaceFor(masters, Value(fields, Branch))]; }
      var breakdown := C.Compute(InputOf(AtLeastOne(quantity), placed, masters));
      if breakdown.None? { return false; }
      fields := Taxed(placed, breakdown.value.gst);
      books := BooksOf(breakdown.value);
      units := Reallocate(units, breakdown.value.allocation);
      return true;
    }

    method UpdateAcquisition(update: Fields, newFirst: set<int>, masters: Masters) returns (answer: Answer)
      modifies this
      ensures (answer, State()) == Patch(old(State()), Update(update, newFirst, masters))
    {
      if !AllFit(update) { return Reject(422); }
      if !live { return Reject(404); }
      if AnyLocked(units) && update.Keys * COST_AFFECTING != {} { return Reject(409); }
      if Value(update, Supplier).Ref? && Value(update, Supplier).id !in masters.suppliers { return Reject(400); }
      answer := Apply(update, newFirst, masters);
    }

    method Apply(update: Fields, newFirst: set<int>, masters: Masters) returns (answer: Answer)
      requires live && AllFit(update)
      modifies this
      ensures (answer, State()) == Applied(old(State()), Update(update, newFirst, masters))
    {
      hide C.Compute, Stored;
      var (q0, f0, b0, u0) := (quantity, fields, books, units);
      fields := Patched(fields, update, masters);
      var q := QuantityAsked(update);
      if q.Some? && q.value != quantity {
        assert Fits(Quantity, update[Quantity]);
        var ok := Resize(q.value, newFirst);
        if !ok {
          Restore(q0, f0, b0, u0);
          return Reject(409);
        }
        answer := Commit(masters, nextId + q.value);
      } else {
        answer := Commit(masters, nextId);
      }
      if answer != Ok { Restore(q0, f0, b0, u0); }
    }

    /** The recomputation and the commit after it, which rounds what was typed. */
    method Commit(masters: Masters, next: Id) returns (answer: Answer)
      requires live
      modifies this
      ensures answer == Ok <==> Recompute(old(State().acq.value), masters).Some?
      ensures answer == Ok ==> (answer, State()) == Settle(old(State()), Recompute(old(State().acq.value), masters), next)
      ensures answer != Ok ==> answer == Reject(500) && State() == old(State())
    {
      hide C.Compute;
      var costed := RecomputeCosts(masters);
      if !costed { return Reject(500); }
      fields, nextId := Stored(fields), next;
      return Ok;
    }

    method DeleteDraftAsset(id: Id, masters: Masters) returns (answer: Answer)
      modifies this
      ensures (answer, State()) == Delete(old(State()), id, masters)
    {
      hide Recompute, Stored;
      if !live { return Reject(404); }
      var k := Position(units, id);
      if k == |units| { return Reject(404); }
      if units[k].status != Draft { return Reject(409); }
      var (q0, f0, b0, u0) := (quantity, fields, books, units);
      units := Without(units, k);
      if |units| == 0 {
        live := false;
        return Ok;
      }
      quantity := |units|;
      answer := Commit(masters, nextId);
      if answer != Ok { Restore(q0, f0, b0, u0); }
    }
  }
}
