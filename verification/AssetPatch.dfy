/** What a PATCH of an acquisition stores, column by column, and what it costs
    (app/routers/asset_acquisitions.py `update_acquisition`). */
module AssetPatch {
  import opened Prelude
  import opened AssetBatch
  import F = AssetFreeze
  import C = AssetCosting

  predicate SendsTax(update: Fields) {
    Cgst in update || Sgst in update || Igst in update
  }

  predicate BranchChanges(f: Fields, update: Fields) {
    Branch in update && update[Branch] != Value(f, Branch)
  }

  function Sent(f: Fields, update: Fields, c: Column): Cell {
    if c in update then update[c] else Value(f, c)
  }

  /** The place of supply before it is filled in: a changed branch re-derives it, whatever is sent. */
  function PlaceSent(f: Fields, update: Fields, m: Masters): Cell {
    if BranchChanges(f, update) then PlaceFor(m, update[Branch]) else Sent(f, update, Place)
  }

  /** The value of a column when the PATCH is costed: the sent one, else the stored one. A typed tax
      amount sets the flag unless the flag is sent itself; a NULL place is filled in. */
  function Typed(f: Fields, update: Fields, m: Masters, c: Column): Cell {
    match c
    case Overridden => if Overridden !in update && SendsTax(update) then Flag(true) else Sent(f, update, Overridden)
    case Place => if PlaceSent(f, update, m).Null? then PlaceFor(m, Sent(f, update, Branch)) else PlaceSent(f, update, m)
    case _ => Sent(f, update, c)
  }

  function TypedRow(f: Fields, update: Fields, m: Masters): Fields {
    map c | c in COST_AFFECTING :: Typed(f, update, m, c)
  }

  predicate TypedByHand(f: Fields, update: Fields, m: Masters) {
    Typed(f, update, m, Overridden) == Flag(true)
  }

  lemma SameBranch(f: Fields, update: Fields, m: Masters)
    ensures Value(Patched(f, update, m), Branch) == Sent(f, update, Branch)
    ensures Value(Patched(f, update, m), Place) == PlaceSent(f, update, m)
  {
  }

  /** In memory, before the costing, every column but the quantity holds its typed value. */
  lemma PatchTypes(f: Fields, update: Fields, m: Masters, c: Column)
    requires c != Quantity
    ensures Value(Placed(Patched(f, update, m), m), c) == Typed(f, update, m, c)
  {
    SameBranch(f, update, m);
    assert update.Keys * GST_AMOUNTS != {} <==> SendsTax(update) by {
      if c :| c in update.Keys * GST_AMOUNTS { assert SendsTax(update); }
      assert Cgst in update ==> Cgst in update.Keys * GST_AMOUNTS;
      assert Sgst in update ==> Sgst in update.Keys * GST_AMOUNTS;
      assert Igst in update ==> Igst in update.Keys * GST_AMOUNTS;
    }
  }

  lemma TypedAt(f: Fields, update: Fields, m: Masters, c: Column)
    requires c in COST_AFFECTING
    ensures Value(TypedRow(f, update, m), c) == Typed(f, update, m, c)
  {
    hide Typed;
  }

  lemma TypedInput(quantity: int, f: Fields, update: Fields, m: Masters)
    ensures InputOf(quantity, Placed(Patched(f, update, m), m), m) == InputOf(quantity, TypedRow(f, update, m), m)
    ensures ByHand(Placed(Patched(f, update, m), m)) == TypedByHand(f, update, m)
  {
    hide Placed, Patched, Typed, TypedRow, LineOf, Value;
    var p, t := Placed(Patched(f, update, m), m), TypedRow(f, update, m);
    forall c | c in COST_AFFECTING && c != Quantity ensures Value(p, c) == Value(t, c) {
      PatchTypes(f, update, m, c);
      TypedAt(f, update, m, c);
    }
    SameLineBut(quantity, p, t);
    TypedAt(f, update, m, Overridden);
    assert Value(p, Supplier) == Value(t, Supplier) && Value(p, Place) == Value(t, Place) && Value(p, Overridden) == Value(t, Overridden);
  }

  lemma SameLineBut(quantity: int, f: Fields, g: Fields)
    requires forall c :: c in COST_AFFECTING && c != Quantity ==> Value(f, c) == Value(g, c)
    ensures LineOf(quantity, f) == LineOf(quantity, g)
  {
    hide C.OrZero, DiscountOf, CreditOf, Number;
  }

  /** The quantity the PATCH asks for, or the one there is. */
  function QuantityAfter(a: Acq, update: Fields): int {
    if Quantity in update && update[Quantity].Whole? then update[Quantity].n else a.quantity
  }

  /** The costing a PATCH runs: of the typed columns and the master data of the day. */
  function CostingRun(a: Acq, update: Fields, m: Masters): Option<C.Breakdown> {
    C.Compute(InputOf(QuantityAfter(a, update), TypedRow(a.fields, update, m), m))
  }

  /** A unit past the quantity asked for is no draft any more. */
  ghost predicate CannotShrink(a: Acq, quantity: int) {
    exists i :: quantity <= i < |a.units| && 0 <= i && a.units[i].status != Draft
  }

  /** What an accepted PATCH leaves in each column. */
  predicate Stores(before: Fields, after: Fields, update: Fields, m: Masters, b: C.Breakdown, c: Column) {
    Value(after, c) ==
      match c
      case Cgst => if TypedByHand(before, update, m) then Kept(c, Typed(before, update, m, c)) else Num(C.Rupees(b.gst.cgst))
      case Sgst => if TypedByHand(before, update, m) then Kept(c, Typed(before, update, m, c)) else Num(C.Rupees(b.gst.sgst))
      case Igst => if TypedByHand(before, update, m) then Kept(c, Typed(before, update, m, c)) else Num(C.Rupees(b.gst.igst))
      case _ => Kept(c, Typed(before, update, m, c))
  }

  lemma SettledStores(a: Acq, update: Fields, m: Masters, b: C.Breakdown, c: Column)
    requires c != Quantity
    ensures Stores(a.fields, Stored(Taxed(Placed(Patched(a.fields, update, m), m), b.gst)), update, m, b, c)
  {
    hide Placed, Patched, Typed, C.Rupees, C.Money, Stored, Kept;
    PatchTypes(a.fields, update, m, c);
    PatchTypes(a.fields, update, m, Overridden);
    F.StoredValue(Taxed(Placed(Patched(a.fields, update, m), m), b.gst), c);
    KeptMoney(b.gst.cgst, Cgst);
    KeptMoney(b.gst.sgst, Sgst);
    KeptMoney(b.gst.igst, Igst);
  }

  lemma KeptMoney(p: C.Paise, c: Column)
    requires !c.Plain?
    ensures Kept(c, Num(C.Rupees(p))) == Num(C.Rupees(p))
  {
    MoneyOfRupees(p);
  }

  /** Main theorem: when a PATCH is accepted, and what it then stores and costs. Each column holds what
      was sent, in two decimals where costing uses it, else what it held; tax amounts not typed by
      hand, the filled-in place of supply and the flag are as said above. The books are those of the
      costing of exactly these values, before rounding, and of the states of the day. */
  lemma PatchDoes(db: Db, r: Request, c: Column)
    requires Inv(db) && r.Update? && db.acq.Some? && c != Quantity
    ensures var (answer, after) := Step(db, r);
            var (a, q) := (db.acq.value, QuantityAfter(db.acq.value, r.update));
            && (answer == Ok <==>
                  && AllFit(r.update) && !(AnyLocked(a.units) && r.update.Keys * COST_AFFECTING != {})
                  && (Supplier in r.update && r.update[Supplier].Ref? ==> r.update[Supplier].id in r.masters.suppliers)
                  && !CannotShrink(a, q) && CostingRun(a, r.update, r.masters).Some?)
            && (answer != Ok ==> after == db)
            && (answer == Ok ==>
                  && after.acq.Some? && after.acq.value.quantity == q
                  && Stores(a.fields, after.acq.value.fields, r.update, r.masters, CostingRun(a, r.update, r.masters).value, c)
                  && after.acq.value.books == BooksOf(CostingRun(a, r.update, r.masters).value))
  {
    hide C.Compute, C.Rupees, C.Money, LineOf, Typed, TypedRow, Stored, Stores;
    var a, q := db.acq.value, QuantityAfter(db.acq.value, r.update);
    ShrinkRefused(a, q, db.nextId, r.newFirst);
    if AllFit(r.update) && Quantity in r.update { assert Fits(Quantity, r.update[Quantity]); }
    TypedInput(q, a.fields, r.update, r.masters);
    if CostingRun(a, r.update, r.masters).Some? {
      SettledStores(a, r.update, r.masters, CostingRun(a, r.update, r.masters).value, c);
    }
  }

  lemma ShrinkRefused(a: Acq, quantity: int, first: Id, t: set<int>)
    ensures quantity >= 0 ==> (CannotShrink(a, quantity) <==> Resized(a.units, quantity, first, t).None?)
    ensures quantity == |a.units| ==> !CannotShrink(a, quantity)
  {
    if quantity >= 0 { ShrinkRefusedExactly(a.units, quantity, first, t); }
  }
}
