/** What the requests of an acquisition's batch leave of its units, said of the units themselves. */
module BatchRequests {
  import opened Prelude
  import opened AssetBatch
  import opened AssetPatch
  import C = AssetCosting
  import R = CostingRules

  /** Part `index` of `n` of the landed cost: the leading parts are a paisa larger. */
  function Share(landed: nat, n: nat, index: int): C.Paise
    requires n >= 1
  {
    landed / n + if index <= landed % n then 1 else 0
  }

  /** A unit that is off the books and whose number lies within 1..n costs its share; the others cost
      what they did. */
  predicate CostsItsShare(before: Unit, after: Unit, landed: nat, n: nat)
    requires n >= 1
  {
    after == before.(cost := if (before.status == Draft || before.status == Ready) && 1 <= before.index <= n
                             then Share(landed, n, before.index) else before.cost)
  }

  ghost predicate SharedOut(before: seq<Unit>, after: seq<Unit>, landed: nat)
    requires |before| >= 1
  {
    |after| == |before| && forall i :: 0 <= i < |before| ==> CostsItsShare(before[i], after[i], landed, |before|)
  }

  lemma RecostedIsShared(units: seq<Unit>, landed: nat)
    requires |units| >= 1 && forall i :: 0 <= i < |units| ==> units[i].index >= 1
    ensures SharedOut(units, Reallocated(units, C.Allocation(landed, |units|)), landed)
  {
    var n := |units|;
    var parts := C.Allocation(landed, n);
    forall i | 0 <= i < n ensures CostsItsShare(units[i], Reallocated(units, parts)[i], landed, n) {
      var k := units[i].index - 1;
      if 0 <= k < n { R.SharesAre(landed, n, k); }
    }
  }

  /** Settling leaves the row's units shared out, the quantity and the books of the costing. */
  lemma SettledShares(db: Db, a: Acq, m: Masters, nextId: Id)
    requires UnitsOk(a.units, nextId) && a.quantity == |a.units| && AllFit(a.fields)
    ensures var (answer, after) := Settle(db, Recompute(a, m), nextId);
            && (answer == Ok <==> Recompute(a, m).Some?)
            && (answer != Ok ==> after == db && answer == Reject(500))
            && (answer == Ok ==>
                  && after.acq.Some? && after.nextId == nextId && after.acq.value.quantity == a.quantity
                  && after.acq.value.books.landed >= 0 && SharedOut(a.units, after.acq.value.units, after.acq.value.books.landed))
  {
    hide C.Compute, SharedOut;
    if Recompute(a, m).Some? {
      RecomputeFits(a, m);
      var inp := InputNow(a, m);
      AllocatesLanded(inp);
      RecostedIsShared(a.units, C.Compute(inp).value.landed);
    }
  }

  lemma AllocatesLanded(inp: C.Input)
    requires C.Compute(inp).Some?
    ensures inp.line.quantity >= 1
    ensures C.Compute(inp).value.allocation == C.Allocation(C.Compute(inp).value.landed, inp.line.quantity)
  {
    C.CostAssembles(inp.line, C.InterState(inp), C.BasisOf(inp));
  }

  /** An accepted PATCH that asks for no other quantity leaves the units, each with its share of the new
      landed cost. */
  lemma PatchKeepsUnits(db: Db, r: Request)
    requires Inv(db) && r.Update? && db.acq.Some? && QuantityAfter(db.acq.value, r.update) == db.acq.value.quantity
    requires Step(db, r).0 == Ok
    ensures var after := Step(db, r).1;
            && after.acq.Some? && after.nextId == db.nextId && after.acq.value.books.landed >= 0
            && SharedOut(db.acq.value.units, after.acq.value.units, after.acq.value.books.landed)
  {
    hide C.Compute, SharedOut;
    var a := db.acq.value;
    PatchedFits(a.fields, r.update, r.masters);
    SettledShares(db, a.(fields := Patched(a.fields, r.update, r.masters)), r.masters, db.nextId);
  }

  /** Numbered 1..n, each unit costs its share of the landed cost. */
  ghost predicate NumberedShares(units: seq<Unit>, landed: nat) {
    forall i :: 0 <= i < |units| ==> units[i].index == i + 1 && units[i].cost == Share(landed, |units|, i + 1)
  }

  /** With another quantity the units are numbered anew and share the cost. Fewer are the first ones
      as they stood; more are all the old ones in their order, and the rest new drafts. */
  lemma PatchResizes(db: Db, r: Request)
    requires Inv(db) && r.Update? && db.acq.Some? && QuantityAfter(db.acq.value, r.update) != db.acq.value.quantity
    requires Step(db, r).0 == Ok
    ensures var (a, after, n) := (db.acq.value, Step(db, r).1, QuantityAfter(db.acq.value, r.update));
            && after.acq.Some? && |after.acq.value.units| == n && after.acq.value.books.landed >= 0
            && NumberedShares(after.acq.value.units, after.acq.value.books.landed)
            && (n < |a.units| ==> Ids(after.acq.value.units) == Ids(a.units)[..n] && AllDrafts(a.units[n..]))
            && (n > |a.units| ==> Only(Ids(after.acq.value.units), set x | x in Ids(a.units)) == Ids(a.units))
            && (forall u :: u in after.acq.value.units ==> u.status == Draft || u.id in Ids(a.units))
  {
    hide C.Compute, SharedOut, Only, Merged;
    var a, n := db.acq.value, QuantityAfter(db.acq.value, r.update);
    assert Fits(Quantity, r.update[Quantity]);
    assert Quantity in r.update.Keys * COST_AFFECTING;
    var units := Resized(a.units, n, db.nextId, r.newFirst).value;
    ResizedOk(a.units, n, db.nextId, r.newFirst);
    ResizeRenumbers(a.units, n, db.nextId, r.newFirst);
    ResizeUnlocked(a.units, n, db.nextId, r.newFirst);
    PatchedFits(a.fields, r.update, r.masters);
    var p := a.(fields := Patched(a.fields, r.update, r.masters), quantity := n, units := units);
    SettledShares(db, p, r.masters, db.nextId + n);
    var after := Step(db, r).1.acq.value;
    SharedNumbers(units, after.units, after.books.landed);
    forall u | u in after.units ensures u.status == Draft || u.id in Ids(a.units) {
      var i :| 0 <= i < |after.units| && after.units[i] == u;
      assert units[i] in units && units[i].id == Ids(after.units)[i];
    }
  }

  lemma SharedNumbers(before: seq<Unit>, after: seq<Unit>, landed: nat)
    requires |before| >= 1 && SharedOut(before, after, landed) && Dense(before) && !AnyLocked(before)
    ensures NumberedShares(after, landed) && Ids(after) == Ids(before)
    ensures forall i :: 0 <= i < |before| ==> after[i].status == before[i].status
  {
    forall i | 0 <= i < |before| ensures after[i].index == i + 1 && after[i].cost == Share(landed, |after|, i + 1) {
      assert CostsItsShare(before[i], after[i], landed, |before|);
      assert !Locked(before[i]);
    }
    assert forall i :: 0 <= i < |before| ==> Ids(after)[i] == Ids(before)[i];
  }

  // ---------------------------------------------------------------- deleting a draft

  /** The batch has the unit, as a draft. */
  ghost predicate HasDraft(db: Db, id: Id) {
    db.acq.Some? && exists u :: u in db.acq.value.units && u.id == id && u.status == Draft
  }

  /** The costing of the columns as they are, for one unit less. */
  function OneLess(a: Acq, m: Masters): Option<C.Breakdown> {
    C.Compute(InputOf(|a.units| - 1, TypedRow(a.fields, map[], m), m))
  }

  /** A draft of the batch is deleted; with the last unit the acquisition goes. Otherwise the others
      stay in their order with their numbers and statuses, and share what one unit less costs. */
  lemma DeleteDoes(db: Db, id: Id, m: Masters)
    requires Inv(db)
    ensures var (answer, after) := Step(db, DeleteDraft(id, m));
            && (answer == Ok <==> HasDraft(db, id) && (|db.acq.value.units| == 1 || OneLess(db.acq.value, m).Some?))
            && (answer != Ok ==> after == db && answer in {Reject(404), Reject(409), Reject(500)})
            && (answer == Ok && |db.acq.value.units| == 1 ==> after == Db(None, db.nextId))
            && (answer == Ok && |db.acq.value.units| > 1 ==>
                  && after.acq.Some? && after.acq.value.quantity == |db.acq.value.units| - 1 && after.nextId == db.nextId
                  && after.acq.value.books == BooksOf(OneLess(db.acq.value, m).value) && after.acq.value.books.landed >= 0
                  && exists k :: 0 <= k < |db.acq.value.units| && db.acq.value.units[k].id == id
                       && SharedOut(db.acq.value.units[..k] + db.acq.value.units[k + 1..], after.acq.value.units, after.acq.value.books.landed))
  {
    hide C.Compute, SharedOut, TypedRow, Placed, InputOf;
    if db.acq.Some? {
      var a := db.acq.value;
      var k := Position(a.units, id);
      if k < |a.units| {
        OnlyThatUnit(a.units, k);
        if a.units[k].status == Draft && |a.units| > 1 {
          var p := a.(quantity := |a.units| - 1, units := Without(a.units, k));
          WithoutOk(a.units, db.nextId, k);
          NothingSent(a.fields, m);
          TypedInput(|a.units| - 1, a.fields, map[], m);
          SettledShares(db, p, m, db.nextId);
        }
      }
    }
  }

  lemma OnlyThatUnit(units: seq<Unit>, k: nat)
    requires DistinctIds(units) && k < |units|
    ensures (exists u :: u in units && u.id == units[k].id && u.status == Draft) <==> units[k].status == Draft
  {
    if u :| u in units && u.id == units[k].id && u.status == Draft {
      var i :| 0 <= i < |units| && units[i] == u;
    }
    assert units[k] in units;
  }

  lemma NothingSent(f: Fields, m: Masters)
    ensures Patched(f, map[], m) == f
  {
    var none: Fields := map[];
    assert none - {Quantity} == none && none.Keys * GST_AMOUNTS == {};
  }

  // ---------------------------------------------------------------- moves and quick add

  /** A unit moves along the lifecycle and nothing else about the batch changes. */
  lemma MoveDoes(db: Db, id: Id, to: Status)
    requires Inv(db)
    ensures var (answer, after) := Step(db, Transition(id, to));
            && (answer == Ok <==> db.acq.Some? && exists u :: u in db.acq.value.units && u.id == id && Legal(u.status, to))
            && (answer != Ok ==> after == db && answer in {Reject(404), Reject(409)})
            && (answer == Ok ==>
                  && after.acq.Some? && |after.acq.value.units| == |db.acq.value.units|
                  && after == Db(Some(db.acq.value.(units := after.acq.value.units)), db.nextId)
                  && forall i :: 0 <= i < |db.acq.value.units| ==>
                       after.acq.value.units[i] ==
                         if db.acq.value.units[i].id == id then db.acq.value.units[i].(status := to) else db.acq.value.units[i])
  {
    if db.acq.Some? {
      var units := db.acq.value.units;
      var k := Position(units, id);
      if u :| u in units && u.id == id && Legal(u.status, to) {
        var i :| 0 <= i < |units| && units[i] == u;
        assert k == i;
      }
      if k < |units| { assert units[k] in units; }
    }
  }

  /** A quick add is accepted within the bounds when its costing can be run; the drafts of the new batch
      are numbered and share the cost. */
  lemma QuickAddDoes(quantity: int, fields: Fields, m: Masters)
    ensures var db := QuickAdd(quantity, fields, m);
            && (db.Some? <==>
                  && 1 <= quantity <= MAX_QUANTITY && AllFit(fields)
                  && C.Compute(InputOf(quantity, TypedRow(fields, map[], m), m)).Some?)
            && (db.Some? ==>
                  && db.value.acq.Some? && db.value.acq.value.quantity == quantity && |db.value.acq.value.units| == quantity
                  && db.value.acq.value.books == BooksOf(C.Compute(InputOf(quantity, TypedRow(fields, map[], m), m)).value)
                  && db.value.acq.value.books.landed >= 0
                  && NumberedShares(db.value.acq.value.units, db.value.acq.value.books.landed)
                  && AllDrafts(db.value.acq.value.units))
  {
    hide C.Compute, SharedOut, TypedRow, Placed, InputOf, Stored;
    if 1 <= quantity <= MAX_QUANTITY && AllFit(fields) {
      NothingSent(fields, m);
      TypedInput(quantity, fields, map[], m);
      SettledShares(Db(None, 0), FirstRow(quantity, fields), m, quantity);
      if QuickAdd(quantity, fields, m).Some? {
        var after := QuickAdd(quantity, fields, m).value.acq.value;
        SharedNumbers(NewUnits(0, quantity, 0), after.units, after.books.landed);
      }
    }
  }

  /** And its columns are those sent, as the costing leaves them. */
  lemma QuickAddStores(quantity: int, fields: Fields, m: Masters, c: Column)
    requires QuickAdd(quantity, fields, m).Some? && c != Quantity
    ensures C.Compute(InputOf(quantity, TypedRow(fields, map[], m), m)).Some?
    ensures Stores(fields, QuickAdd(quantity, fields, m).value.acq.value.fields, map[], m,
                   C.Compute(InputOf(quantity, TypedRow(fields, map[], m), m)).value, c)
  {
    hide C.Compute, TypedRow, Placed, InputOf, Stored, Taxed, Stores;
    NothingSent(fields, m);
    TypedInput(quantity, fields, map[], m);
    SettledStores(FirstRow(quantity, fields), map[], m, C.Compute(InputOf(quantity, TypedRow(fields, map[], m), m)).value, c);
  }
}
