/** What can still move in an acquisition's books once one of its units is capitalized: the cost
    freeze of app/routers/asset_acquisitions.py against the recomputation that every PATCH runs. */
module AssetFreeze {
  import opened Prelude
  import opened AssetBatch
  import C = AssetCosting

  /** Without cost-affecting keys a PATCH writes plain columns only. */
  lemma PlainPatch(f: Fields, update: Fields, m: Masters)
    requires update.Keys * COST_AFFECTING == {}
    ensures forall c :: c in COST_AFFECTING ==> Value(Patched(f, update, m), c) == Value(f, c)
  {
    forall c | c in COST_AFFECTING ensures c !in update.Keys { NotUpdated(update.Keys, c); }
    forall c | c in update.Keys && c in GST_AMOUNTS ensures false { NotUpdated(update.Keys, c); }
    assert update.Keys * GST_AMOUNTS == {};
    NotUpdated(update.Keys, Branch);
  }

  predicate SameCostColumns(f: Fields, g: Fields) {
    forall c :: c in COST_AFFECTING ==> Value(f, c) == Value(g, c)
  }

  lemma SameColumnsSameInput(quantity: int, f: Fields, g: Fields, m: Masters)
    requires SameCostColumns(f, g)
    ensures InputOf(quantity, Placed(f, m), m) == InputOf(quantity, Placed(g, m), m)
    ensures SameCostColumns(Placed(f, m), Placed(g, m)) && ByHand(Placed(f, m)) == ByHand(f) == ByHand(g)
  {
    assert forall c :: c in COST_AFFECTING ==> Value(Placed(f, m), c) == Value(Placed(g, m), c);
    SameColumnsSameLine(quantity, Placed(f, m), Placed(g, m));
  }

  lemma SameColumnsSameLine(quantity: int, f: Fields, g: Fields)
    requires SameCostColumns(f, g)
    ensures LineOf(quantity, f) == LineOf(quantity, g)
  {
    hide C.OrZero, DiscountOf, CreditOf, Number;
  }

  predicate TaxesAre(f: Fields, g: C.Gst) {
    Value(f, Cgst) == Num(C.Rupees(g.cgst)) && Value(f, Sgst) == Num(C.Rupees(g.sgst)) && Value(f, Igst) == Num(C.Rupees(g.igst))
  }

  lemma StoredValue(f: Fields, c: Column)
    ensures Value(Stored(f), c) == Kept(c, Value(f, c))
  {
  }

  lemma UntouchedColumn(f: Fields, g: C.Gst, m: Masters, c: Column)
    requires c != Place && (c in GST_AMOUNTS ==> ByHand(f))
    ensures Value(Taxed(Placed(f, m), g), c) == Value(f, c)
  {
    hide C.Rupees;
  }

  lemma PlacedColumn(f: Fields, g: C.Gst, m: Masters)
    requires AllFit(f)
    ensures Value(Stored(Taxed(Placed(f, m), g)), Place) ==
            if Value(f, Place).Null? then PlaceFor(m, Value(f, Branch)) else Value(f, Place)
  {
    hide C.Rupees, C.Money, Stored;
    StoredValue(Taxed(Placed(f, m), g), Place);
  }

  lemma TaxColumns(f: Fields, g: C.Gst)
    requires !ByHand(f)
    ensures TaxesAre(Stored(Taxed(f, g)), g)
  {
    hide C.Rupees, C.Money, Stored;
    StoredValue(Taxed(f, g), Cgst);
    StoredValue(Taxed(f, g), Sgst);
    StoredValue(Taxed(f, g), Igst);
    MoneyOfRupees(g.cgst);
    MoneyOfRupees(g.sgst);
    MoneyOfRupees(g.igst);
  }

  /** What the recomputation and the commit leave in each cost column. */
  lemma CostedColumns(f: Fields, g: C.Gst, m: Masters, c: Column)
    requires c in COST_AFFECTING && AllFit(f)
    ensures var after := Stored(Taxed(Placed(f, m), g));
            && (!(c in GST_AMOUNTS && !ByHand(f)) && c != Place ==> Value(after, c) == Kept(c, Value(f, c)))
            && (Value(after, Place) == if Value(f, Place).Null? then PlaceFor(m, Value(f, Branch)) else Value(f, Place))
            && (!ByHand(f) ==> TaxesAre(after, g))
  {
    hide Taxed, Stored, Kept, TaxesAre;
    PlacedColumn(f, g, m);
    if !(c in GST_AMOUNTS && !ByHand(f)) && c != Place { UntouchedColumn(f, g, m, c); }
    StoredValue(Taxed(Placed(f, m), g), c);
    if !ByHand(f) { TaxColumns(Placed(f, m), g); }
  }

  /** What an accepted PATCH does to the cost columns while a unit is locked: nothing to the
      quantity or to any typed-in column but the place of supply, which is filled in when it is NULL.
      But the tax amounts, unless typed by hand, and all books are costed afresh from the stored
      columns and the master data of the day. */
  lemma FreezeExactly(db: Db, r: Request, c: Column)
    requires Inv(db) && r.Update? && db.acq.Some? && AnyLocked(db.acq.value.units) && c in COST_AFFECTING
    ensures Patch(db, r).0 == Ok ==>
              && Patch(db, r).1.acq.Some? && C.Compute(InputNow(db.acq.value, r.masters)).Some?
              && var (before, after) := (db.acq.value, Patch(db, r).1.acq.value);
              var b := C.Compute(InputNow(before, r.masters)).value;
              && after.quantity == before.quantity && after.books == BooksOf(b)
              && (c !in GST_AMOUNTS && c != Place ==> Value(after.fields, c) == Value(before.fields, c))
              && (Value(after.fields, Place) ==
                    if Value(before.fields, Place).Null? then PlaceFor(r.masters, Value(before.fields, Branch)) else Value(before.fields, Place))
              && (ByHand(before.fields) && c in GST_AMOUNTS ==> Value(after.fields, c) == Value(before.fields, c))
              && (!ByHand(before.fields) ==> TaxesAre(after.fields, b.gst))
  {
    hide C.Compute, C.Rupees, C.Money;
    if Patch(db, r).0 == Ok {
      var a, m := db.acq.value, r.masters;
      PatchOnBooks(db, r);
      var patched := Patched(a.fields, r.update, m);
      PatchedFits(a.fields, r.update, m);
      PlainPatch(a.fields, r.update, m);
      SameColumnsSameInput(AtLeastOne(a.quantity), patched, a.fields, m);
      assert InputNow(a.(fields := patched), m) == InputNow(a, m);
      var b := C.Compute(InputNow(a, m)).value;
      CostedColumns(patched, b.gst, m, c);
      StoredValue(a.fields, c);
    }
  }

  // ---------------------------------------------------------------- which costing the books come from

  function Two(x: real): real {
    C.Rupees(C.Money(x))
  }

  function TwoOf(x: Option<real>): Option<real> {
    if x.None? then None else Some(Two(x.value))
  }

  function RoundedDiscount(d: C.Discount): C.Discount {
    if d.Percent? then C.Percent(Two(d.value)) else C.Amount(Two(d.value))
  }

  function RoundedCredit(itc: C.Itc): C.Itc {
    if itc.Partial? then C.Partial(TwoOf(itc.pct)) else itc
  }

  /** The input line as the columns keep it: every number in two decimals. */
  function RoundedLine(l: C.Line): C.Line {
    C.Line(
      l.quantity, Two(l.price),
      RoundedDiscount(l.discount), Two(l.gstRate), RoundedCredit(l.itc),
      Two(l.freight), Two(l.installation), Two(l.other),
      TwoOf(l.cgstOverride), TwoOf(l.sgstOverride), TwoOf(l.igstOverride))
  }

  lemma StoredNumber(f: Fields, c: Column)
    requires !c.Plain?
    ensures Number(Value(Stored(f), c)) == TwoOf(Number(Value(f, c)))
    ensures C.OrZero(Number(Value(Stored(f), c))) == Two(C.OrZero(Number(Value(f, c))))
  {
    assert (0.5 as real).Floor == 0;
  }

  lemma StoredKinds(f: Fields, value: real, pct: Option<real>)
    ensures ByHand(Stored(f)) == ByHand(f)
    ensures DiscountOf(Value(Stored(f), DiscountType), Two(value)) == RoundedDiscount(DiscountOf(Value(f, DiscountType), value))
    ensures CreditOf(Value(Stored(f), Itc), TwoOf(pct)) == RoundedCredit(CreditOf(Value(f, Itc), pct))
  {
    hide Two;
    StoredValue(f, Overridden);
    StoredValue(f, DiscountType);
    StoredValue(f, Itc);
  }

  lemma StoredLine(quantity: int, f: Fields)
    ensures LineOf(quantity, Stored(f)) == RoundedLine(LineOf(quantity, f))
  {
    hide Two, C.OrZero, Value, Number, ByHand, Stored, DiscountOf, CreditOf, RoundedDiscount, RoundedCredit;
    StoredKinds(f, C.OrZero(Number(Value(f, DiscountValue))), Number(Value(f, ItcPct)));
    StoredNumber(f, UnitPrice);
    StoredNumber(f, DiscountValue);
    StoredNumber(f, GstRate);
    StoredNumber(f, ItcPct);
    StoredNumber(f, Freight);
    StoredNumber(f, Installation);
    StoredNumber(f, OtherCost);
    StoredNumber(f, Cgst);
    StoredNumber(f, Sgst);
    StoredNumber(f, Igst);
  }

  lemma CostedLine(quantity: int, f: Fields, g: C.Gst, m: Masters)
    ensures LineOf(quantity, Taxed(Placed(f, m), g)) == LineOf(quantity, f)
    ensures ByHand(Taxed(Placed(f, m), g)) == ByHand(f)
    ensures LineOf(quantity, Placed(f, m)) == LineOf(quantity, f)
  {
    hide C.OrZero, DiscountOf, CreditOf, Number, C.Rupees;
  }

  /** The books and the tax amounts of a row are those of the costing of `last`, and its columns
      are that costing's inputs as rounded. */
  ghost predicate CostedFrom(a: Acq, last: C.Input) {
    && C.Compute(last).Some? && a.books == BooksOf(C.Compute(last).value)
    && LineOf(a.quantity, a.fields) == RoundedLine(last.line)
    && Text(Value(a.fields, Place)) == last.place && (Value(a.fields, Place).Null? || Value(a.fields, Place).Txt?)
    && (ByHand(a.fields) || TaxesAre(a.fields, C.Compute(last).value.gst))
  }

  lemma PlacedPlace(f: Fields, m: Masters)
    requires AllFit(f)
    ensures Value(Placed(f, m), Place) == if Value(f, Place).Null? then PlaceFor(m, Value(f, Branch)) else Value(f, Place)
    ensures Value(f, Place).Null? || Value(f, Place).Txt?
  {
  }

  lemma SettledFrom(a: Acq, m: Masters)
    requires a.quantity >= 1 && AllFit(a.fields) && Recompute(a, m).Some?
    ensures var row := Recompute(a, m).value; CostedFrom(row.(fields := Stored(row.fields)), InputNow(a, m))
  {
    hide C.Compute, TaxesAre, RoundedLine, LineOf, Stored, Taxed, Placed, Value;
    PlacedPlace(a.fields, m);
    var b := C.Compute(InputNow(a, m)).value;
    var taxed := Taxed(Placed(a.fields, m), b.gst);
    StoredLine(a.quantity, taxed);
    CostedLine(a.quantity, a.fields, b.gst, m);
    CostedColumns(a.fields, b.gst, m, Overridden);
    PlacedFits(a.fields, m);
    CostedColumns(a.fields, b.gst, m, Place);
  }

  /** The input of the costing that an accepted request runs. */
  ghost function CostingOf(db: Db, r: Request): Option<C.Input> {
    if db.acq.None? || Step(db, r).0 != Ok || Step(db, r).1.acq.None? then None
    else
      var a := db.acq.value;
      match r
      case Update(u, _, m) =>
        var q := if QuantityAsked(u).Some? then QuantityAsked(u).value else a.quantity;
        Some(InputNow(a.(quantity := q, fields := Patched(a.fields, u, m)), m))
      case DeleteDraft(_, m) => Some(InputNow(a.(quantity := |a.units| - 1), m))
      case Transition(_, _) => None
  }

  /** The input of the last costing of a run that began with the costing of `first`. */
  ghost function LastCosting(first: C.Input, db: Db, reqs: seq<Request>): C.Input {
    if reqs == [] then first
    else
      var now := CostingOf(Run(db, reqs[..|reqs| - 1]), reqs[|reqs| - 1]);
      if now.Some? then now.value else LastCosting(first, db, reqs[..|reqs| - 1])
  }

  lemma SettleCosts(db: Db, a: Acq, m: Masters, nextId: Id)
    requires a.quantity >= 1 && AllFit(a.fields) && Settle(db, Recompute(a, m), nextId).0 == Ok
    ensures Settle(db, Recompute(a, m), nextId).1.acq.Some?
    ensures CostedFrom(Settle(db, Recompute(a, m), nextId).1.acq.value, InputNow(a, m))
  {
    hide C.Compute, CostedFrom;
    SettledFrom(a, m);
  }

  lemma PatchCosts(db: Db, r: Request)
    requires Inv(db) && r.Update? && Patch(db, r).0 == Ok
    ensures Patch(db, r).1.acq.Some? && CostingOf(db, r).Some? && CostedFrom(Patch(db, r).1.acq.value, CostingOf(db, r).value)
  {
    hide C.Compute, CostedFrom;
    var a, q := db.acq.value, QuantityAsked(r.update);
    var p := a.(fields := Patched(a.fields, r.update, r.masters));
    PatchedFits(a.fields, r.update, r.masters);
    if q.Some? && q.value != a.quantity {
      assert Fits(Quantity, r.update[Quantity]);
      var units := Resized(a.units, q.value, db.nextId, r.newFirst).value;
      SettleCosts(db, p.(quantity := q.value, units := units), r.masters, db.nextId + q.value);
    } else {
      SettleCosts(db, p, r.masters, db.nextId);
    }
  }

  lemma DeleteCosts(db: Db, id: Id, m: Masters)
    requires Inv(db) && Delete(db, id, m).0 == Ok && Delete(db, id, m).1.acq.Some?
    ensures CostingOf(db, DeleteDraft(id, m)).Some?
    ensures CostedFrom(Delete(db, id, m).1.acq.value, CostingOf(db, DeleteDraft(id, m)).value)
  {
    hide C.Compute, CostedFrom;
    var a := db.acq.value;
    SettleCosts(db, a.(quantity := |a.units| - 1, units := Without(a.units, Position(a.units, id))), m, db.nextId);
  }

  /** A request costs the row afresh, or leaves its columns and books alone. */
  lemma StepCosts(db: Db, r: Request, last: C.Input)
    requires Inv(db) && (db.acq.Some? ==> CostedFrom(db.acq.value, last))
    ensures var after := Step(db, r).1;
            after.acq.Some? ==> CostedFrom(after.acq.value, if CostingOf(db, r).Some? then CostingOf(db, r).value else last)
  {
    hide C.Compute;
    if Step(db, r).0 == Ok && Step(db, r).1.acq.Some? {
      match r
      case Update(_, _, _) => PatchCosts(db, r);
      case DeleteDraft(u, m) => DeleteCosts(db, u, m);
      case Transition(_, _) =>
    }
  }

  /** Main theorem: in every run from quick-add the books and tax amounts are those of the last
      accepted costing, and the columns hold its inputs as rounded. */
  lemma {:induction false} BooksAreLastCosting(quantity: int, f: Fields, m: Masters, reqs: seq<Request>)
    ensures QuickAdd(quantity, f, m).Some? ==>
              var start := QuickAdd(quantity, f, m).value;
              Run(start, reqs).acq.Some? ==>
                CostedFrom(Run(start, reqs).acq.value, LastCosting(InputNow(FirstRow(quantity, f), m), start, reqs))
    decreases |reqs|
  {
    hide C.Compute, CostedFrom;
    if QuickAdd(quantity, f, m).Some? {
      var start := QuickAdd(quantity, f, m).value;
      if reqs == [] {
        SettleCosts(Db(None, 0), FirstRow(quantity, f), m, quantity);
      } else {
        var n := |reqs| - 1;
        BooksAreLastCosting(quantity, f, m, reqs[..n]);
        QuickAddStartsCounted(quantity, f, m);
        BatchesStayCounted(start, reqs[..n]);
        StepCosts(Run(start, reqs[..n]), reqs[n], LastCosting(InputNow(FirstRow(quantity, f), m), start, reqs[..n]));
      }
    }
  }

  /** The input a recomputation under the lock costs: the last one with its numbers rounded, the
      supplier's state as it is in the master data now, and the place of supply if it was known. */
  function Restated(last: C.Input, f: Fields, m: Masters): C.Input {
    C.Input(RoundedLine(last.line), SupplierState(f, m), if last.place.Some? then last.place else Text(PlaceFor(m, Value(f, Branch))))
  }

  lemma RestatedNow(a: Acq, last: C.Input, m: Masters)
    requires a.quantity >= 1 && CostedFrom(a, last)
    ensures InputNow(a, m) == Restated(last, a.fields, m)
  {
    hide C.Compute, RoundedLine, C.Rupees, C.Money;
    CostedLine(a.quantity, a.fields, C.Gst(0, 0, 0), m);
  }

  /** Main theorem: what an accepted PATCH moves under the lock. Before it books and tax amounts are
      those of the last costing; after it those of the same costing restated. */
  lemma LockedBooksMoveExactly(db: Db, r: Request, last: C.Input)
    requires Inv(db) && db.acq.Some? && r.Update? && AnyLocked(db.acq.value.units)
    ensures CostedFrom(db.acq.value, last) && Patch(db, r).0 == Ok ==>
              && Patch(db, r).1.acq.Some? && C.Compute(Restated(last, db.acq.value.fields, r.masters)).Some?
              && var (before, after) := (db.acq.value, Patch(db, r).1.acq.value);
              var (x, y) := (C.Compute(last).value, C.Compute(Restated(last, before.fields, r.masters)).value);
              && before.books == BooksOf(x) && after.books == BooksOf(y)
              && (after.books.landed != before.books.landed <==> y.landed != x.landed)
              && (TaxesMoved(before.fields, after.fields) <==> !ByHand(before.fields) && y.gst != x.gst)
  {
    hide C.Compute, C.Rupees, C.Money, RoundedLine;
    if CostedFrom(db.acq.value, last) && Patch(db, r).0 == Ok {
      var before := db.acq.value;
      FreezeExactly(db, r, Cgst);
      FreezeExactly(db, r, Sgst);
      FreezeExactly(db, r, Igst);
      RestatedNow(before, last, r.masters);
      var (x, y) := (C.Compute(last).value, C.Compute(Restated(last, before.fields, r.masters)).value);
      RupeesApart(x.gst.cgst, y.gst.cgst);
      RupeesApart(x.gst.sgst, y.gst.sgst);
      RupeesApart(x.gst.igst, y.gst.igst);
    }
  }

  predicate TaxesMoved(f: Fields, g: Fields) {
    Value(f, Cgst) != Value(g, Cgst) || Value(f, Sgst) != Value(g, Sgst) || Value(f, Igst) != Value(g, Igst)
  }

  lemma RupeesApart(p: C.Paise, q: C.Paise)
    ensures C.Rupees(p) == C.Rupees(q) <==> p == q
  {
  }

  /** Main theorem: when all that was typed has two decimals, an accepted PATCH moves the tax amounts
      under the lock exactly when the states flip the purchase between intra-state and inter-state,
      the amounts are not typed by hand and the tax is not nil; it moves the landed cost exactly when
      besides the two roundings of the tax on the stored net price differ in their capitalized part,
      and by one paisa at most. */
  lemma LockedCostMovesByFlipsOnly(db: Db, r: Request, last: C.Input)
    requires Inv(db) && db.acq.Some? && r.Update? && AnyLocked(db.acq.value.units) && RoundedLine(last.line) == last.line
    ensures CostedFrom(db.acq.value, last) && Patch(db, r).0 == Ok ==>
              && Patch(db, r).1.acq.Some?
              && var (before, after, next) := (db.acq.value, Patch(db, r).1.acq.value, Restated(last, db.acq.value.fields, r.masters));
              var tax := C.TaxOn(before.books.net, last.line.gstRate, true).igst;
              && (TaxesMoved(before.fields, after.fields) <==> !ByHand(before.fields) && C.Flips(last, next) && tax != 0)
              && (after.books.landed != before.books.landed <==>
                    C.Flips(last, next) && C.RoundsApart(before.books.net, last.line))
              && -1 <= after.books.landed - before.books.landed <= 1
              && (!C.Flips(last, next) ==> after.books.(basis := before.books.basis) == before.books)
  {
    hide C.Compute, C.TaxOn, C.Flips, C.RoundsApart, C.Rupees, C.Money, RoundedLine;
    if CostedFrom(db.acq.value, last) && Patch(db, r).0 == Ok {
      var before := db.acq.value;
      var next := Restated(last, before.fields, r.masters);
      LockedBooksMoveExactly(db, r, last);
      LineIsNonNegative(before.quantity, before.fields);
      C.StatesMoveCostExactly(last, next);
      if !C.Flips(last, next) { C.WithoutAFlip(last, next); }
    }
  }

  // ---------------------------------------------------------------- two inputs that move a locked cost

  function Capitalize(start: Db): Db {
    Run(start, [Transition(0, Ready), Transition(0, Capitalized)])
  }

  lemma CapitalizeMoves(start: Db)
    requires start.acq.Some? && start.acq.value.units != [] && start.acq.value.units[0].id == 0
    requires start.acq.value.units[0].status == Draft
    ensures var a := start.acq.value;
            Capitalize(start) == start.(acq := Some(a.(units := a.units[0 := a.units[0].(status := Capitalized)])))
  {
    var reqs := [Transition(0, Ready), Transition(0, Capitalized)];
    assert reqs[..1] == [Transition(0, Ready)] && reqs[..1][..0] == [];
    var a := start.acq.value;
    var ready := a.units[0 := a.units[0].(status := Ready)];
    assert Run(start, reqs[..0]) == start;
    assert Run(start, reqs[..1]) == start.(acq := Some(a.(units := ready)));
    assert ready[0 := ready[0].(status := Capitalized)] == a.units[0 := a.units[0].(status := Capitalized)];
  }

  const REMARK: Fields := map[Plain("remarks") := Txt("serviced")]

  /** A car for 1.00, tax at 1 per cent, no credit, bought within the state. */
  const CAR: Fields := map[UnitPrice := Num(1.0), GstRate := Num(1.0), Itc := Txt("blocked"), Supplier := Ref(5)]
  const CAR_LINE := C.Line(1, 1.0, C.Amount(0.0), 1.0, C.Blocked, 0.0, 0.0, 0.0, None, None, None)
  const AT_HOME: Masters := MasterData(map[5 := Some("27")], map[], Some("27"))
  const MOVED_AWAY: Masters := MasterData(map[5 := Some("29")], map[], Some("27"))

  lemma CarParts()
    ensures C.Gross(1.0, 1) == 100 && C.DiscountOn(100, C.Amount(0.0)) == Some(0) && C.Incidentals(0.0, 0.0, 0.0) == 0
    ensures C.TaxOn(100, 1.0, false) == C.Gst(1, 1, 0) && C.TaxOn(100, 1.0, true) == C.Gst(0, 0, 1)
    ensures C.PerUnit(102, 1) == 102 && C.PerUnit(101, 1) == 101
    ensures C.Allocation(102, 1) == [102] && C.Allocation(101, 1) == [101]
  {
    assert (100.5 as real).Floor == 100 && (0.5 as real).Floor == 0 && (1.0 as real).Floor == 1 && (1.5 as real).Floor == 1;
    assert C.Rupees(100) == 1.0 && C.Rupees(101) == 1.01 && C.Rupees(102) == 1.02;
    assert (101.5 as real).Floor == 101 && (102.5 as real).Floor == 102;
  }

  lemma CarCosts()
    ensures C.Cost(CAR_LINE, false, C.Intra) ==
            Some(C.Breakdown(100, 0, 100, C.Intra, C.Gst(1, 1, 0), 2, 0, 2, 102, 102, 102, [102]))
    ensures C.Cost(CAR_LINE, true, C.Inter) ==
            Some(C.Breakdown(100, 0, 100, C.Inter, C.Gst(0, 0, 1), 1, 0, 1, 101, 101, 101, [101]))
  {
    hide C.Gross, C.DiscountOn, C.Incidentals, C.TaxOn, C.PerUnit, C.Allocation;
    CarParts();
  }

  lemma Codes()
    ensures C.State(Some("27")) == Some("27") && C.State(Some("29")) == Some("29")
  {
    assert !IsSpace('2') && !IsSpace('7') && !IsSpace('9');
    assert StripLeft("27") == "27" && StripRight("27") == "27";
    assert StripLeft("29") == "29" && StripRight("29") == "29";
  }

  lemma CarStates()
    ensures C.Compute(C.Input(CAR_LINE, Some("27"), Some("27"))) == C.Cost(CAR_LINE, false, C.Intra)
    ensures C.Compute(C.Input(CAR_LINE, Some("29"), Some("27"))) == C.Cost(CAR_LINE, true, C.Inter)
  {
    hide C.Cost, C.State;
    Codes();
    assert "27"[1] != "29"[1];
  }

  lemma CarLine()
    ensures LineOf(1, CAR) == CAR_LINE && RoundedLine(CAR_LINE) == CAR_LINE
    ensures AllFit(CAR) && !ByHand(CAR)
  {
    assert (100.5 as real).Floor == 100 && (0.5 as real).Floor == 0;
    assert Two(1.0) == 1.0 && Two(0.0) == 0.0;
    assert "blocked" != "percent" && "blocked" != "partial";
  }

  lemma CarInput()
    ensures InputNow(FirstRow(1, CAR), AT_HOME) == C.Input(CAR_LINE, Some("27"), Some("27"))
  {
    hide LineOf;
    CostedLine(1, CAR, C.Gst(0, 0, 0), AT_HOME);
    CarLine();
  }

  const CAR_INPUT := C.Input(CAR_LINE, Some("27"), Some("27"))

  lemma CarStart()
    ensures QuickAdd(1, CAR, AT_HOME).Some? && Inv(QuickAdd(1, CAR, AT_HOME).value)
    ensures var start := QuickAdd(1, CAR, AT_HOME).value;
            && start.acq.Some? && start.acq.value.units == [Unit(0, 1, Draft, 102)] && CostedFrom(start.acq.value, CAR_INPUT)
            && Value(start.acq.value.fields, Supplier) == Ref(5) && !ByHand(start.acq.value.fields)
  {
    hide C.Compute, C.Cost, CostedFrom, LineOf, Stored;
    CarInput();
    CarStates();
    CarCosts();
    CarLine();
    var row := FirstRow(1, CAR);
    assert NewUnits(0, 1, 0) == [Unit(0, 1, Draft, 0)];
    assert Reallocated(row.units, [102]) == [Unit(0, 1, Draft, 102)];
    SettleCosts(Db(None, 0), row, AT_HOME, 1);
    CostedColumns(CAR, C.Gst(1, 1, 0), AT_HOME, Supplier);
    CostedColumns(CAR, C.Gst(1, 1, 0), AT_HOME, Overridden);
    QuickAddStartsCounted(1, CAR, AT_HOME);
  }

  /** Under the lock a PATCH of plain columns is refused only where costing raises. */
  lemma PlainPatchAccepted(db: Db, update: Fields, newFirst: set<int>, m: Masters)
    requires db.acq.Some? && AnyLocked(db.acq.value.units) && AllFit(update) && update.Keys * COST_AFFECTING == {}
    ensures Patch(db, Update(update, newFirst, m)).0 == Ok <==> C.Compute(InputNow(db.acq.value, m)).Some?
  {
    hide C.Compute, LineOf;
    var a := db.acq.value;
    PlainPatch(a.fields, update, m);
    NotUpdated(update.Keys, Supplier);
    NotUpdated(update.Keys, Quantity);
    SameColumnsSameInput(AtLeastOne(a.quantity), Patched(a.fields, update, m), a.fields, m);
  }

  lemma RemarkIsPlain()
    ensures AllFit(REMARK) && REMARK.Keys * COST_AFFECTING == {}
  {
  }

  lemma CarOnBooks()
    ensures QuickAdd(1, CAR, AT_HOME).Some?
    ensures var db := Capitalize(QuickAdd(1, CAR, AT_HOME).value);
            && Inv(db) && db.acq.Some? && db.acq.value.units == [Unit(0, 1, Capitalized, 102)]
            && AnyLocked(db.acq.value.units) && CostedFrom(db.acq.value, CAR_INPUT)
            && Value(db.acq.value.fields, Supplier) == Ref(5) && !ByHand(db.acq.value.fields)
  {
    hide C.Compute, LineOf, RoundedLine, QuickAdd;
    CarStart();
    CapitalizeMoves(QuickAdd(1, CAR, AT_HOME).value);
    BatchesStayCounted(QuickAdd(1, CAR, AT_HOME).value, [Transition(0, Ready), Transition(0, Capitalized)]);
    var units := Capitalize(QuickAdd(1, CAR, AT_HOME).value).acq.value.units;
    assert units[0] == Unit(0, 1, Capitalized, 102);
  }

  /** The supplier's state is corrected in the master data after the car is capitalized; the next
      edit of a remark turns the tax into integrated tax and takes a paisa off the landed cost, while
      the unit keeps its own. */
  lemma SupplierStateMovesLockedCost()
    ensures QuickAdd(1, CAR, AT_HOME).Some?
    ensures var db := Capitalize(QuickAdd(1, CAR, AT_HOME).value);
            var r := Update(REMARK, {}, MOVED_AWAY);
            && db.acq.Some? && AnyLocked(db.acq.value.units) && Patch(db, r).0 == Ok && Patch(db, r).1.acq.Some?
            && TaxesAre(db.acq.value.fields, C.Gst(1, 1, 0)) && TaxesAre(Patch(db, r).1.acq.value.fields, C.Gst(0, 0, 1))
            && db.acq.value.books.landed == 102 && Patch(db, r).1.acq.value.books.landed == 101
            && CostSum(Patch(db, r).1.acq.value.units) == 102
  {
    hide C.Compute, C.Cost, LineOf, RoundedLine, Stored, C.Rupees, QuickAdd, Capitalize, Patch;
    CarOnBooks();
    CarStates();
    CarCosts();
    CarLine();
    var db := Capitalize(QuickAdd(1, CAR, AT_HOME).value);
    RestatedNow(db.acq.value, CAR_INPUT, MOVED_AWAY);
    RemarkIsPlain();
    PlainPatchAccepted(db, REMARK, {}, MOVED_AWAY);
    FreezeExactly(db, Update(REMARK, {}, MOVED_AWAY), Cgst);
    LockedUnitKept(db, Update(REMARK, {}, MOVED_AWAY));
  }

  /** A single unit on the books keeps its cost, whatever the books say. */
  lemma LockedUnitKept(db: Db, r: Request)
    requires r.Update? && db.acq.Some? && |db.acq.value.units| == 1 && Locked(db.acq.value.units[0]) && Patch(db, r).0 == Ok
    ensures Patch(db, r).1.acq.Some? && CostSum(Patch(db, r).1.acq.value.units) == db.acq.value.units[0].cost
  {
    hide C.Compute, Patched, Stored;
    PatchOnBooks(db, r);
    var a := db.acq.value;
    var after := Patch(db, r).1.acq.value.units;
    assert |after| == 1 && after[0].cost == a.units[0].cost;
    var costs := seq(|after|, i requires 0 <= i < |after| => after[i].cost);
    assert costs == [a.units[0].cost] && costs[..0] == [];
    assert C.Sum(costs) == C.Sum(costs[..0]) + costs[0];
  }

  /** A pen whose price was typed as 1.004, bought twice. */
  const PENS: Fields := map[UnitPrice := Num(1.004)]
  const PENS_LINE := C.Line(2, 1.004, C.Amount(0.0), 0.0, C.Eligible, 0.0, 0.0, 0.0, None, None, None)
  const NOWHERE: Masters := MasterData(map[], map[], None)

  lemma PenParts()
    ensures C.Gross(1.004, 2) == 201 && C.Gross(1.0, 2) == 200 && C.Incidentals(0.0, 0.0, 0.0) == 0
    ensures C.DiscountOn(201, C.Amount(0.0)) == Some(0) && C.DiscountOn(200, C.Amount(0.0)) == Some(0)
    ensures C.TaxOn(201, 0.0, false) == C.Gst(0, 0, 0) && C.TaxOn(200, 0.0, false) == C.Gst(0, 0, 0)
    ensures C.Allocation(201, 2) == [101, 100] && C.Allocation(200, 2) == [100, 100]
  {
    assert (201.3 as real).Floor == 201 && (200.5 as real).Floor == 200 && (0.5 as real).Floor == 0;
  }

  /** An untaxed line on which the credit is taken costs its gross price. */
  lemma PenCost(line: C.Line, gross: C.Paise)
    requires line.quantity == 2 && C.Gross(line.price, 2) == gross && C.DiscountOn(gross, line.discount) == Some(0)
    requires C.Incidentals(line.freight, line.installation, line.other) == 0
    requires C.SplitGst(gross, line, false) == C.Gst(0, 0, 0) && line.itc == C.Eligible
    ensures var b := C.Cost(line, false, C.AssumedIntra);
            b.Some? && b.value.landed == gross && b.value.allocation == C.Allocation(gross, 2)
  {
    hide C.Gross, C.DiscountOn, C.Incidentals, C.SplitGst, C.PerUnit, C.Allocation;
  }

  lemma PenCosts()
    ensures var typed := C.Cost(PENS_LINE, false, C.AssumedIntra);
            typed.Some? && typed.value.landed == 201 && typed.value.allocation == [101, 100]
    ensures var kept := C.Cost(PENS_LINE.(price := 1.0), false, C.AssumedIntra);
            kept.Some? && kept.value.landed == 200 && kept.value.allocation == [100, 100]
  {
    hide C.Cost, C.Gross, C.DiscountOn, C.Incidentals, C.TaxOn, C.Allocation;
    PenParts();
    PenCost(PENS_LINE, 201);
    PenCost(PENS_LINE.(price := 1.0), 200);
  }

  lemma PenLine()
    ensures LineOf(2, PENS) == PENS_LINE && RoundedLine(PENS_LINE) == PENS_LINE.(price := 1.0)
    ensures AllFit(PENS) && !ByHand(PENS)
  {
    assert (100.9 as real).Floor == 100 && (0.5 as real).Floor == 0;
    assert Two(1.004) == 1.0 && Two(0.0) == 0.0;
  }

  lemma PenInput()
    ensures InputNow(FirstRow(2, PENS), NOWHERE) == C.Input(PENS_LINE, None, None)
  {
    hide LineOf;
    CostedLine(2, PENS, C.Gst(0, 0, 0), NOWHERE);
    PenLine();
  }

  lemma PensStart()
    ensures QuickAdd(2, PENS, NOWHERE).Some? && Inv(QuickAdd(2, PENS, NOWHERE).value)
    ensures var start := QuickAdd(2, PENS, NOWHERE).value;
            && start.acq.Some? && start.acq.value.units == [Unit(0, 1, Draft, 101), Unit(1, 2, Draft, 100)]
            && CostedFrom(start.acq.value, C.Input(PENS_LINE, None, None)) && Value(start.acq.value.fields, Supplier) == Null
  {
    hide C.Cost, CostedFrom, LineOf, Stored;
    PenInput();
    PenCosts();
    PenLine();
    var row := FirstRow(2, PENS);
    assert NewUnits(0, 2, 0) == [Unit(0, 1, Draft, 0), Unit(1, 2, Draft, 0)];
    assert Reallocated(row.units, [101, 100]) == [Unit(0, 1, Draft, 101), Unit(1, 2, Draft, 100)];
    SettleCosts(Db(None, 0), row, NOWHERE, 2);
    CostedColumns(PENS, C.Compute(InputNow(row, NOWHERE)).value.gst, NOWHERE, Supplier);
    QuickAddStartsCounted(2, PENS, NOWHERE);
  }

  lemma PensOnBooks()
    ensures QuickAdd(2, PENS, NOWHERE).Some?
    ensures var db := Capitalize(QuickAdd(2, PENS, NOWHERE).value);
            && Inv(db) && db.acq.Some? && db.acq.value.units == [Unit(0, 1, Capitalized, 101), Unit(1, 2, Draft, 100)]
            && AnyLocked(db.acq.value.units) && CostedFrom(db.acq.value, C.Input(PENS_LINE, None, None))
            && Value(db.acq.value.fields, Supplier) == Null
  {
    hide C.Compute, LineOf, RoundedLine, QuickAdd;
    PensStart();
    CapitalizeMoves(QuickAdd(2, PENS, NOWHERE).value);
    BatchesStayCounted(QuickAdd(2, PENS, NOWHERE).value, [Transition(0, Ready), Transition(0, Capitalized)]);
    var units := Capitalize(QuickAdd(2, PENS, NOWHERE).value).acq.value.units;
    assert units[0] == Unit(0, 1, Capitalized, 101);
  }

  /** With the master data unchanged, a price typed finer than the column moves the landed cost under
      the lock too: the next edit costs the rounded price. */
  lemma TypedPriceMovesLockedCost()
    ensures QuickAdd(2, PENS, NOWHERE).Some?
    ensures var db := Capitalize(QuickAdd(2, PENS, NOWHERE).value);
            var r := Update(REMARK, {}, NOWHERE);
            && db.acq.Some? && AnyLocked(db.acq.value.units) && Patch(db, r).0 == Ok && Patch(db, r).1.acq.Some?
            && db.acq.value.books.landed == 201 && Patch(db, r).1.acq.value.books.landed == 200
  {
    hide C.Cost, LineOf, RoundedLine, Stored, C.Rupees, QuickAdd, Capitalize, Patch;
    PensOnBooks();
    PenCosts();
    PenLine();
    var db := Capitalize(QuickAdd(2, PENS, NOWHERE).value);
    RestatedNow(db.acq.value, C.Input(PENS_LINE, None, None), NOWHERE);
    RemarkIsPlain();
    PlainPatchAccepted(db, REMARK, {}, NOWHERE);
    FreezeExactly(db, Update(REMARK, {}, NOWHERE), Cgst);
  }
}
