/** What an acquisition costing answers, in the terms of the invoice: every amount is the exact one
    rounded to the paisa. */
module CostingRules {
  import opened Prelude
  import opened AssetCosting

  lemma MoneyRounds(x: real)
    ensures RoundsTo(x, Money(x))
  {
  }

  lemma RoundsOneWay(x: real, p: Paise, q: Paise)
    requires RoundsTo(x, p) && RoundsTo(x, q)
    ensures p == q
  {
  }

  /** The paise are the exact part of the amount, rounded. */
  predicate IsPart(amount: Paise, rate: real, whole: real, paise: Paise)
    requires whole > 0.0
  {
    RoundsTo(Rupees(amount) * rate / whole, paise)
  }

  predicate IsGross(price: real, quantity: int, paise: Paise) {
    RoundsTo(price * quantity as real, paise)
  }

  lemma PartRounds(amount: Paise, rate: real, whole: real, paise: Paise)
    requires whole > 0.0
    ensures IsPart(amount, rate, whole, paise) <==> paise == Part(amount, rate, whole)
  {
    hide Money, RoundsTo;
    MoneyRounds(Rupees(amount) * rate / whole);
    if IsPart(amount, rate, whole, paise) { RoundsOneWay(Rupees(amount) * rate / whole, paise, Part(amount, rate, whole)); }
  }

  lemma GrossRounds(price: real, quantity: int, paise: Paise)
    ensures IsGross(price, quantity, paise) <==> paise == Gross(price, quantity)
  {
    hide Money, RoundsTo;
    MoneyRounds(price * quantity as real);
    if IsGross(price, quantity, paise) { RoundsOneWay(price * quantity as real, paise, Gross(price, quantity)); }
  }

  /** The paise are the discount on a gross price: a percentage of it or a sum of its own. */
  predicate IsDiscount(gross: Paise, d: Discount, paise: Paise) {
    if d.Percent? then IsPart(gross, d.value, 100.0, paise) else RoundsTo(d.value, paise)
  }

  /** The discount is a sum or a percentage in range and does not exceed the price. */
  ghost predicate Discounts(line: Line) {
    && line.discount.value >= 0.0 && (line.discount.Percent? ==> line.discount.value <= 100.0)
    && exists gross, discount ::
         IsGross(line.price, line.quantity, gross) && IsDiscount(gross, line.discount, discount) && discount <= gross
  }

  /** A partial credit names its percentage. */
  predicate NamesCredit(itc: Itc) {
    itc.Partial? ==> itc.pct.Some? && 0.0 <= itc.pct.value <= 100.0
  }

  /** A state code that says something: what is left of it without the spaces around. */
  predicate Known(code: Option<string>) {
    code.Some? && Strip(code.value) != ""
  }

  predicate AcrossStates(inp: Input) {
    Known(inp.supplierState) && Known(inp.place) && Strip(inp.supplierState.value) != Strip(inp.place.value)
  }

  predicate Typed(line: Line) {
    line.cgstOverride.Some? || line.sgstOverride.Some? || line.igstOverride.Some?
  }

  /** Tax amounts typed by hand are taken as they are, a missing one as nil. Otherwise the tax is one
      integrated amount across states, and two equal halves within one or when a state is unknown. */
  predicate TaxIs(inp: Input, net: Paise, g: Gst, basis: Basis) {
    if Typed(inp.line) then
      && basis == Manual
      && RoundsTo(OrZero(inp.line.cgstOverride), g.cgst) && RoundsTo(OrZero(inp.line.sgstOverride), g.sgst)
      && RoundsTo(OrZero(inp.line.igstOverride), g.igst)
    else if AcrossStates(inp) then
      basis == Inter && g.cgst == 0 && g.sgst == 0 && IsPart(net, inp.line.gstRate, 100.0, g.igst)
    else
      && basis == (if Known(inp.supplierState) && Known(inp.place) then Intra else AssumedIntra)
      && g.igst == 0 && g.cgst == g.sgst && IsPart(net, inp.line.gstRate, 200.0, g.cgst)
  }

  /** The credit: the whole tax, none of it, or the percentage named. */
  predicate CreditIs(itc: Itc, tax: Paise, credit: Paise) {
    match itc
    case Eligible => credit == tax
    case Blocked => credit == 0
    case Partial(pct) => pct.Some? && IsPart(tax, pct.value, 100.0, credit)
  }

  ghost predicate IncidentalsAre(line: Line, total: Paise) {
    exists freight, installation, other ::
      RoundsTo(line.freight, freight) && RoundsTo(line.installation, installation) && RoundsTo(line.other, other)
      && total == freight + installation + other
  }

  lemma DiscountRounds(gross: Paise, d: Discount, paise: Paise)
    ensures IsDiscount(gross, d, paise) && d.value >= 0.0 && (d.Percent? ==> d.value <= 100.0) && paise <= gross <==>
            DiscountOn(gross, d) == Some(paise)
  {
    hide Money, RoundsTo, IsPart, Part;
    if d.Percent? { PartRounds(gross, d.value, 100.0, paise); }
    MoneyRounds(d.value);
    if RoundsTo(d.value, paise) { RoundsOneWay(d.value, paise, Money(d.value)); }
  }

  lemma DiscountsExactly(line: Line)
    ensures Discounts(line) <==> DiscountOn(Gross(line.price, line.quantity), line.discount).Some?
  {
    hide DiscountOn, IsDiscount, Gross, IsGross;
    var gross := Gross(line.price, line.quantity);
    GrossRounds(line.price, line.quantity, gross);
    if Discounts(line) {
      var g, d :| IsGross(line.price, line.quantity, g) && IsDiscount(g, line.discount, d) && d <= g;
      GrossRounds(line.price, line.quantity, g);
      DiscountRounds(gross, line.discount, d);
    }
    if DiscountOn(gross, line.discount).Some? { DiscountRounds(gross, line.discount, DiscountOn(gross, line.discount).value); }
  }

  lemma SameStates(inp: Input)
    ensures AcrossStates(inp) == InterState(inp)
    ensures BasisOf(inp) ==
              if Typed(inp.line) then Manual else if InterState(inp) then Inter
              else if Known(inp.supplierState) && Known(inp.place) then Intra else AssumedIntra
  {
    hide Strip;
  }

  lemma SplitIsTheTax(inp: Input, net: Paise)
    ensures TaxIs(inp, net, SplitGst(net, inp.line, InterState(inp)), BasisOf(inp))
  {
    hide Money, RoundsTo, InterState, BasisOf, AcrossStates, Known, IsPart, Part;
    SameStates(inp);
    PartRounds(net, inp.line.gstRate, 100.0, Part(net, inp.line.gstRate, 100.0));
    PartRounds(net, inp.line.gstRate, 200.0, Part(net, inp.line.gstRate, 200.0));
    MoneyRounds(OrZero(inp.line.cgstOverride));
    MoneyRounds(OrZero(inp.line.sgstOverride));
    MoneyRounds(OrZero(inp.line.igstOverride));
  }

  lemma CreditIsTheCredit(itc: Itc, tax: Paise)
    ensures NamesCredit(itc) <==> Recoverable(tax, itc).Some?
    ensures NamesCredit(itc) ==> CreditIs(itc, tax, Recoverable(tax, itc).value)
  {
    hide IsPart, Part;
    if itc.Partial? && NamesCredit(itc) { PartRounds(tax, itc.pct.value, 100.0, Part(tax, itc.pct.value, 100.0)); }
  }

  lemma IncidentalsAreIncidentals(line: Line)
    ensures IncidentalsAre(line, Incidentals(line.freight, line.installation, line.other))
  {
    hide Money, RoundsTo;
    MoneyRounds(line.freight);
    MoneyRounds(line.installation);
    MoneyRounds(line.other);
  }

  /** Main theorem: a costing succeeds exactly for at least one unit, a discount in range and a credit
      that names its percentage. Price, discount, tax, credit and incidentals are then each the exact
      amount to the paisa; the net price is without the discount, the landed cost adds the tax that is
      no credit and the incidentals, the outlay the credit besides. */
  lemma CostingIsExact(inp: Input)
    ensures Compute(inp).Some? <==> inp.line.quantity >= 1 && Discounts(inp.line) && NamesCredit(inp.line.itc)
    ensures Compute(inp).Some? ==>
              var (line, b) := (inp.line, Compute(inp).value);
              && IsGross(line.price, line.quantity, b.gross)
              && IsDiscount(b.gross, line.discount, b.discount) && b.net == b.gross - b.discount >= 0
              && TaxIs(inp, b.net, b.gst, b.basis) && b.totalGst == b.gst.cgst + b.gst.sgst + b.gst.igst
              && CreditIs(line.itc, b.totalGst, b.recoverable) && b.capitalizable == b.totalGst - b.recoverable
              && IncidentalsAre(line, b.landed - b.net - b.capitalizable)
              && b.outlay == b.landed + b.recoverable
              && RoundsTo(Rupees(b.landed) / line.quantity as real, b.perUnit)
              && b.allocation == Allocation(b.landed, line.quantity)
  {
    hide Money, RoundsTo, IsDiscount, DiscountOn, SplitGst, Recoverable, TaxIs, CreditIs, IncidentalsAre, Discounts, Incidentals,
      IsGross, Gross, Allocation, InterState, BasisOf;
    var line := inp.line;
    var gross := Gross(line.price, line.quantity);
    GrossRounds(line.price, line.quantity, gross);
    DiscountsExactly(line);
    if line.quantity >= 1 && Discounts(line) {
      var discount := DiscountOn(gross, line.discount).value;
      var net := gross - discount;
      DiscountRounds(gross, line.discount, discount);
      SplitIsTheTax(inp, net);
      CreditIsTheCredit(line.itc, Total(SplitGst(net, line, InterState(inp))));
      IncidentalsAreIncidentals(line);
      if Compute(inp).Some? { MoneyRounds(Rupees(Compute(inp).value.landed) / line.quantity as real); }
    }
  }

  /** The allocation gives every unit the share of the landed cost that the number of units leaves,
      and a paisa more to as many leading ones as there are paise over. */
  lemma SharesAre(landed: nat, quantity: int, i: nat)
    requires quantity >= 1 && i < quantity
    ensures Allocation(landed, quantity)[i] == landed / quantity + if i < landed % quantity then 1 else 0
  {
  }
}
