/** Acquisition costing (app/services/asset_costing.py): from an invoice line to the cost each
    unit is capitalized at. Amounts are whole paise; inputs are exact decimals. */
module AssetCosting {
  import opened Prelude

  type Paise = int

  datatype Itc = Eligible | Blocked | Partial(pct: Option<real>)
  datatype Discount = Amount(value: real) | Percent(value: real)

  /** The invoice line, and the two states that decide how its tax is split. */
  datatype Line = Line(
    quantity: int, price: real, discount: Discount, gstRate: real, itc: Itc,
    freight: real, installation: real, other: real,
    cgstOverride: Option<real>, sgstOverride: Option<real>, igstOverride: Option<real>)
  datatype Input = Input(line: Line, supplierState: Option<string>, place: Option<string>)

  datatype Gst = Gst(cgst: Paise, sgst: Paise, igst: Paise)

  /** How the tax was split: by the two states, by assumption where one is missing, or by hand. */
  datatype Basis = Intra | Inter | AssumedIntra | Manual

  datatype Breakdown = Breakdown(
    gross: Paise, discount: Paise, net: Paise, basis: Basis, gst: Gst, totalGst: Paise, recoverable: Paise,
    capitalizable: Paise, landed: Paise, outlay: Paise, perUnit: Paise, allocation: seq<Paise>)

  /** `money`: to the nearest paisa, halves away from zero. */
  function Money(x: real): Paise {
    if x >= 0.0 then (x * 100.0 + 0.5).Floor else -((-x * 100.0 + 0.5).Floor)
  }

  function Rupees(p: Paise): real {
    p as real / 100.0
  }

  /** A part of an amount, to the paisa. */
  function Part(amount: Paise, rate: real, whole: real): Paise
    requires whole > 0.0
  {
    Money(Rupees(amount) * rate / whole)
  }

  /** Division rounding towards zero, as `ROUND_DOWN` does. */
  function Truncated(total: Paise, quantity: int): Paise
    requires quantity >= 1
  {
    if total >= 0 then total / quantity else -((-total) / quantity)
  }

  /** Unit `i` gets the truncated share, and one paisa more while the remainder lasts. */
  function Allocation(total: Paise, quantity: int): (parts: seq<Paise>)
    requires quantity >= 1
    ensures |parts| == quantity
  {
    var base := Truncated(total, quantity);
    seq(quantity, i => if i < total - base * quantity then base + 1 else base)
  }

  function Sum(s: seq<int>): int {
    if s == [] then 0 else Sum(s[..|s| - 1]) + s[|s| - 1]
  }

  method AllocatePerUnit(total: Paise, quantity: int) returns (parts: array<Paise>)
    requires quantity >= 1
    ensures fresh(parts) && parts[..] == Allocation(total, quantity)
  {
    var base := Truncated(total, quantity);
    parts := new Paise[quantity](_ => base);
    var remainder := total - base * quantity;
    RemainderBound(total, quantity);
    var i := 0;
    while i < remainder
      invariant 0 <= i && (i <= remainder || i == 0)
      invariant forall k :: 0 <= k < quantity ==> parts[k] == if k < i then base + 1 else base
    {
      parts[i] := parts[i] + 1;
      i := i + 1;
    }
  }

  function State(code: Option<string>): Option<string> {
    if code.None? || Strip(code.value) == "" then None else Some(Strip(code.value))
  }

  function OrZero(x: Option<real>): real {
    if x.None? then 0.0 else x.value
  }

  predicate InterState(inp: Input) {
    State(inp.supplierState).Some? && State(inp.place).Some? && State(inp.supplierState) != State(inp.place)
  }

  function TaxOn(net: Paise, rate: real, interState: bool): Gst {
    if interState then Gst(0, 0, Part(net, rate, 100.0))
    else
      var half := Part(net, rate, 200.0);
      Gst(half, half, 0)
  }

  predicate ByHand(line: Line) {
    line.cgstOverride.Some? || line.sgstOverride.Some? || line.igstOverride.Some?
  }

  function BasisOf(inp: Input): Basis {
    if ByHand(inp.line) then Manual
    else if State(inp.supplierState).None? || State(inp.place).None? then AssumedIntra
    else if InterState(inp) then Inter else Intra
  }

  function SplitGst(net: Paise, line: Line, interState: bool): Gst {
    if ByHand(line) then
      Gst(Money(OrZero(line.cgstOverride)), Money(OrZero(line.sgstOverride)), Money(OrZero(line.igstOverride)))
    else TaxOn(net, line.gstRate, interState)
  }

  /** The discount on a gross price, or `None` where the costing raises. */
  function DiscountOn(gross: Paise, d: Discount): Option<Paise> {
    if d.value < 0.0 || (d.Percent? && d.value > 100.0) then None
    else
      var amount := if d.Percent? then Part(gross, d.value, 100.0) else Money(d.value);
      if amount > gross then None else Some(amount)
  }

  function Recoverable(total: Paise, itc: Itc): Option<Paise> {
    match itc
    case Eligible => Some(total)
    case Blocked => Some(0)
    case Partial(pct) =>
      if pct.None? || pct.value < 0.0 || pct.value > 100.0 then None
      else Some(Part(total, pct.value, 100.0))
  }

  function Gross(price: real, quantity: int): Paise {
    Money(price * quantity as real)
  }

  function Incidentals(freight: real, installation: real, other: real): Paise {
    Money(freight) + Money(installation) + Money(other)
  }

  function PerUnit(landed: Paise, quantity: int): Paise
    requires quantity >= 1
  {
    Money(Rupees(landed) / quantity as real)
  }

  function Total(g: Gst): Paise {
    g.cgst + g.sgst + g.igst
  }

  /** `compute_acquisition_cost`; `None` where it raises. */
  function Compute(inp: Input): Option<Breakdown> {
    Cost(inp.line, InterState(inp), BasisOf(inp))
  }

  function Cost(line: Line, interState: bool, basis: Basis): Option<Breakdown> {
    if line.quantity < 1 then None
    else
      var gross := Gross(line.price, line.quantity);
      var discount := DiscountOn(gross, line.discount);
      if discount.None? then None
      else
        var net := gross - discount.value;
        var gst := SplitGst(net, line, interState);
        var total := Total(gst);
        var recoverable := Recoverable(total, line.itc);
        if recoverable.None? then None
        else
          var incidentals := Incidentals(line.freight, line.installation, line.other);
          var landed := net + (total - recoverable.value) + incidentals;
          Some(Breakdown(gross, discount.value, net, basis, gst, total, recoverable.value, total - recoverable.value,
                         landed, net + total + incidentals, PerUnit(landed, line.quantity),
                         Allocation(landed, line.quantity)))
  }

  // ---------------------------------------------------------------- the allocation ties out

  lemma RemainderBound(total: Paise, quantity: int)
    requires quantity >= 1
    ensures var r := total - Truncated(total, quantity) * quantity;
            r < quantity && (total >= 0 ==> 0 <= r) && (total < 0 ==> r <= 0) && (r == 0 <==> total % quantity == 0)
  {
    if total >= 0 {
      assert total == total / quantity * quantity + total % quantity;
    } else {
      var t := -total;
      assert t == t / quantity * quantity + t % quantity;
      if t % quantity == 0 {
        assert total == -(t / quantity) * quantity + 0;
        ModUnique(total, quantity, -(t / quantity), 0);
      } else {
        assert total == (-(t / quantity) - 1) * quantity + (quantity - t % quantity);
        ModUnique(total, quantity, -(t / quantity) - 1, quantity - t % quantity);
      }
    }
  }

  lemma ModUnique(x: int, n: int, q: int, r: int)
    requires n >= 1 && 0 <= r < n && x == q * n + r
    ensures x % n == r
  {
    var d := x / n - q;
    assert d * n == r - x % n;
    MultipleBound(d, n);
  }

  lemma MultipleBound(d: int, n: int)
    requires n >= 1
    ensures d >= 1 ==> d * n >= n
    ensures d <= -1 ==> d * n <= -n
  {
  }

  lemma {:induction false} StepSum(base: int, extra: int, n: nat)
    requires 0 <= extra <= n
    ensures Sum(seq(n, i => if i < extra then base + 1 else base)) == base * n + extra
    decreases n
  {
    if n > 0 {
      var s := seq(n, i => if i < extra then base + 1 else base);
      var e := if extra == n then extra - 1 else extra;
      StepSum(base, e, n - 1);
      assert s[..n - 1] == seq(n - 1, i => if i < e then base + 1 else base);
    }
  }

  /** The parts sum to the total exactly, except for a negative total the quantity does not
      divide, where the remainder loop runs zero times. */
  lemma AllocationTiesOut(total: Paise, quantity: int)
    requires quantity >= 1
    ensures Sum(Allocation(total, quantity)) == total <==> (total >= 0 || total % quantity == 0)
  {
    var base := Truncated(total, quantity);
    var r := total - base * quantity;
    RemainderBound(total, quantity);
    StepSum(base, if r < 0 then 0 else r, quantity);
    assert Allocation(total, quantity) ==
           seq(quantity, i => if i < (if r < 0 then 0 else r) then base + 1 else base);
  }

  /** No unit is favoured by more than a paisa, and only leading units are. */
  lemma AllocationIsFair(total: Paise, quantity: int, i: nat, j: nat)
    requires 0 <= i <= j < quantity
    ensures var parts := Allocation(total, quantity); parts[j] <= parts[i] <= parts[j] + 1
  {
  }

  // ---------------------------------------------------------------- the breakdown reconciles

  /** What the request schemas enforce on the inputs. */
  predicate NonNegative(line: Line) {
    && line.price >= 0.0 && line.gstRate >= 0.0 && line.freight >= 0.0 && line.installation >= 0.0 && line.other >= 0.0
    && OrZero(line.cgstOverride) >= 0.0 && OrZero(line.sgstOverride) >= 0.0 && OrZero(line.igstOverride) >= 0.0
  }

  lemma ShareBounds(total: Paise, pct: real, scale: real)
    requires total >= 0 && pct >= 0.0 && scale > 0.0
    ensures Rupees(total) * pct / scale >= 0.0
    ensures pct <= scale ==> Rupees(total) * pct / scale <= Rupees(total)
  {
    var r := Rupees(total);
    var share := r * pct / scale;
    assert r * pct >= 0.0;
    assert share * scale == r * pct;
    SignBySize(share, scale);
    SignBySize(share - r, scale);
    if pct <= scale {
      assert r * pct <= r * scale;
      assert (share - r) * scale == share * scale - r * scale;
    }
  }

  lemma SignBySize(x: real, scale: real)
    requires scale > 0.0
    ensures x < 0.0 ==> x * scale < 0.0
    ensures x > 0.0 ==> x * scale > 0.0
  {
  }

  lemma MoneyMonotone(x: real, total: Paise)
    requires x >= 0.0
    ensures Money(x) >= 0
    ensures x <= Rupees(total) ==> Money(x) <= total
  {
    if x <= Rupees(total) {
      assert x * 100.0 + 0.5 <= total as real + 0.5;
      assert (total as real + 0.5).Floor == total;
    }
  }

  lemma TaxNonNegative(net: Paise, rate: real, interState: bool)
    requires rate >= 0.0 && net >= 0
    ensures var g := TaxOn(net, rate, interState); g.cgst >= 0 && g.sgst >= 0 && g.igst >= 0
  {
    ShareBounds(net, rate, 100.0);
    ShareBounds(net, rate, 200.0);
    MoneyMonotone(Rupees(net) * rate / 100.0, 0);
    MoneyMonotone(Rupees(net) * rate / 200.0, 0);
  }

  lemma GstNonNegative(net: Paise, line: Line, interState: bool)
    requires NonNegative(line) && net >= 0
    ensures var g := SplitGst(net, line, interState); g.cgst >= 0 && g.sgst >= 0 && g.igst >= 0
  {
    TaxNonNegative(net, line.gstRate, interState);
    MoneyMonotone(OrZero(line.cgstOverride), 0);
    MoneyMonotone(OrZero(line.sgstOverride), 0);
    MoneyMonotone(OrZero(line.igstOverride), 0);
  }

  lemma RecoverableBounds(total: Paise, itc: Itc)
    requires total >= 0 && Recoverable(total, itc).Some?
    ensures 0 <= Recoverable(total, itc).value <= total
  {
    if itc.Partial? {
      ShareBounds(total, itc.pct.value, 100.0);
      MoneyMonotone(Rupees(total) * itc.pct.value / 100.0, total);
    }
  }

  ghost predicate Reconciled(b: Breakdown, quantity: int) {
    && b.net + b.discount == b.gross && b.net >= 0
    && 0 <= b.recoverable <= b.totalGst && b.recoverable + b.capitalizable == b.totalGst
    && b.outlay - b.landed == b.recoverable
    && b.landed >= b.net
    && |b.allocation| == quantity && Sum(b.allocation) == b.landed
  }

  /** How the parts of a breakdown hang together. */
  ghost predicate Assembled(b: Breakdown, line: Line, interState: bool) {
    && b.net + b.discount == b.gross && b.net >= 0
    && b.gst == SplitGst(b.net, line, interState) && b.totalGst == Total(b.gst)
    && Recoverable(b.totalGst, line.itc) == Some(b.recoverable) && b.capitalizable == b.totalGst - b.recoverable
    && b.landed == b.net + b.capitalizable + Incidentals(line.freight, line.installation, line.other)
    && b.outlay == b.landed + b.recoverable
    && line.quantity >= 1 && b.allocation == Allocation(b.landed, line.quantity)
  }

  lemma CostAssembles(line: Line, interState: bool, basis: Basis)
    requires Cost(line, interState, basis).Some?
    ensures Assembled(Cost(line, interState, basis).value, line, interState)
  {
  }

  lemma IncidentalsNonNegative(line: Line)
    requires NonNegative(line)
    ensures Incidentals(line.freight, line.installation, line.other) >= 0
  {
    MoneyMonotone(line.freight, 0);
    MoneyMonotone(line.installation, 0);
    MoneyMonotone(line.other, 0);
  }

  lemma AssembledReconciles(b: Breakdown, line: Line, interState: bool)
    requires NonNegative(line) && Assembled(b, line, interState)
    ensures Reconciled(b, line.quantity)
  {
    GstNonNegative(b.net, line, interState);
    RecoverableBounds(b.totalGst, line.itc);
    IncidentalsNonNegative(line);
    AllocationTiesOut(b.landed, line.quantity);
  }

  /** Main theorem: whenever costing succeeds the register reconciles to the paisa. Recoverable
      and capitalized tax exhaust the tax, cash out exceeds the capitalized cost by exactly the
      recoverable tax, and the units' costs sum to the landed cost. */
  lemma RegisterReconciles(inp: Input)
    requires NonNegative(inp.line)
    ensures Compute(inp).Some? ==> Reconciled(Compute(inp).value, inp.line.quantity)
  {
    hide Cost, Reconciled;
    if Compute(inp).Some? {
      CostAssembles(inp.line, InterState(inp), BasisOf(inp));
      AssembledReconciles(Compute(inp).value, inp.line, InterState(inp));
    }
  }

  /** Splitting the tax in halves costs at most a paisa against one integrated amount. */
  lemma SplitWithinAPaisa(net: Paise, rate: real)
    requires net >= 0 && rate >= 0.0
    ensures var (intra, inter) := (TaxOn(net, rate, false), TaxOn(net, rate, true));
            -1 <= intra.cgst + intra.sgst - inter.igst <= 1
  {
    var y := Rupees(net) * rate / 100.0;
    ShareBounds(net, rate, 100.0);
    assert Rupees(net) * rate / 200.0 == y / 2.0;
  }

  // ---------------------------------------------------------------- when the states change

  /** The change turns an intra-state purchase inter-state or back, and the tax is not typed by hand. */
  predicate Flips(a: Input, b: Input) {
    !ByHand(a.line) && InterState(a) != InterState(b)
  }

  /** The tax that goes into the cost. */
  function Capital(total: Paise, itc: Itc): Paise
    requires Recoverable(total, itc).Some?
  {
    total - Recoverable(total, itc).value
  }

  /** The two splits of a line's tax round to different capitalized amounts. */
  predicate RoundsApart(net: Paise, line: Line) {
    var (intra, inter) := (Total(TaxOn(net, line.gstRate, false)), Total(TaxOn(net, line.gstRate, true)));
    && Recoverable(intra, line.itc).Some? && Recoverable(inter, line.itc).Some?
    && Capital(intra, line.itc) != Capital(inter, line.itc)
  }

  lemma NoTax(net: Paise, rate: real)
    requires net >= 0 && rate >= 0.0
    ensures TaxOn(net, rate, false) == TaxOn(net, rate, true) <==> TaxOn(net, rate, true).igst == 0
  {
    var y := Rupees(net) * rate / 100.0;
    ShareBounds(net, rate, 100.0);
    assert Rupees(net) * rate / 200.0 == y / 2.0;
  }

  lemma CapitalStep(total: Paise, itc: Itc)
    requires Recoverable(total, itc).Some? && total >= 0
    ensures Recoverable(total + 1, itc).Some? && 0 <= Capital(total + 1, itc) - Capital(total, itc) <= 1
  {
    if itc.Partial? {
      var p := itc.pct.value;
      ShareBounds(total, p, 100.0);
      ShareBounds(total + 1, p, 100.0);
      var (low, high) := (Rupees(total) * p / 100.0, Rupees(total + 1) * p / 100.0);
      assert (Rupees(total) + 0.01) * p == Rupees(total) * p + 0.01 * p;
      assert high - low == 0.01 * p / 100.0;
    }
  }

  lemma CapitalNear(s: Paise, t: Paise, itc: Itc)
    requires s >= 0 && t >= 0 && -1 <= s - t <= 1 && Recoverable(s, itc).Some?
    ensures Recoverable(t, itc).Some? && -1 <= Capital(s, itc) - Capital(t, itc) <= 1
  {
    CapitalStep(if s < t then s else t, itc);
  }

  lemma Flipped(net: Paise, line: Line)
    requires NonNegative(line) && net >= 0 && !ByHand(line)
    requires Recoverable(Total(TaxOn(net, line.gstRate, false)), line.itc).Some?
    ensures var (intra, inter) := (Total(TaxOn(net, line.gstRate, false)), Total(TaxOn(net, line.gstRate, true)));
            Recoverable(inter, line.itc).Some? && -1 <= Capital(intra, line.itc) - Capital(inter, line.itc) <= 1
  {
    TaxNonNegative(net, line.gstRate, false);
    TaxNonNegative(net, line.gstRate, true);
    SplitWithinAPaisa(net, line.gstRate);
    CapitalNear(Total(TaxOn(net, line.gstRate, false)), Total(TaxOn(net, line.gstRate, true)), line.itc);
  }

  /** Costings of one invoice line under two tax splits share all up to the tax, and what goes into
      the cost besides it. */
  lemma SplitsApart(line: Line, i: bool, j: bool, basis: Basis, other: Basis)
    requires Cost(line, i, basis).Some?
    ensures Cost(line, j, other).Some?
    ensures var (x, y) := (Cost(line, i, basis).value, Cost(line, j, other).value);
            && (x.gross, x.discount, x.net) == (y.gross, y.discount, y.net) && x.net >= 0
            && x.gst == SplitGst(x.net, line, i) && y.gst == SplitGst(x.net, line, j)
            && Recoverable(Total(x.gst), line.itc).Some? && x.capitalizable == Capital(Total(x.gst), line.itc)
            && Recoverable(Total(y.gst), line.itc).Some? && y.capitalizable == Capital(Total(y.gst), line.itc)
            && x.landed - x.capitalizable == y.landed - y.capitalizable
  {
  }

  /** Without a flip only the name of the basis can change. */
  lemma WithoutAFlip(a: Input, b: Input)
    requires b.line == a.line && Compute(a).Some? && !Flips(a, b)
    ensures Compute(b).Some? && Compute(b).value == Compute(a).value.(basis := BasisOf(b))
  {
    SameSplit(a.line, InterState(a), InterState(b), BasisOf(a), BasisOf(b));
  }

  lemma SameTax(net: Paise, line: Line, i: bool, j: bool)
    requires ByHand(line) || i == j
    ensures SplitGst(net, line, i) == SplitGst(net, line, j)
  {
    hide Money, TaxOn;
  }

  lemma SameSplit(line: Line, i: bool, j: bool, basis: Basis, other: Basis)
    requires Cost(line, i, basis).Some? && (ByHand(line) || i == j)
    ensures Cost(line, j, other).Some? && Cost(line, j, other).value == Cost(line, i, basis).value.(basis := other)
  {
    hide Gross, Incidentals, PerUnit, DiscountOn, SplitGst, Recoverable, Allocation, Total;
    SameTax(Gross(line.price, line.quantity) - DiscountOn(Gross(line.price, line.quantity), line.discount).value, line, i, j);
  }

  /** Main theorem: what a change of the supplier's or the receiving state does to a costing that is
      otherwise the same. Price, discount and net stay; the tax amounts change exactly when the
      change makes an intra-state purchase inter-state or back, the tax is not typed by hand and it
      is not nil; the landed cost exactly by such a flip when the two roundings of the tax, both known
      beforehand, differ in their capitalized part, by a paisa at most, and not at all when the credit
      is taken in full. */
  lemma StatesMoveCostExactly(a: Input, b: Input)
    requires b.line == a.line && NonNegative(a.line)
    ensures Compute(a).Some? <==> Compute(b).Some?
    ensures Compute(a).Some? ==>
              var (x, y) := (Compute(a).value, Compute(b).value);
              && (x.gross, x.discount, x.net) == (y.gross, y.discount, y.net)
              && (x.gst != y.gst <==> Flips(a, b) && TaxOn(x.net, a.line.gstRate, true).igst != 0)
              && (x.landed != y.landed <==> Flips(a, b) && RoundsApart(x.net, a.line))
              && (Flips(a, b) ==> y.gst == TaxOn(x.net, a.line.gstRate, InterState(b)))
              && -1 <= x.landed - y.landed <= 1
              && (a.line.itc.Eligible? ==> x.landed == y.landed)
  {
    hide Cost;
    if Compute(b).Some? { SplitsApart(b.line, InterState(b), InterState(a), BasisOf(b), BasisOf(a)); }
    if Compute(a).Some? {
      SplitsApart(a.line, InterState(a), InterState(b), BasisOf(a), BasisOf(b));
      var x := Compute(a).value;
      if Flips(a, b) {
        NoTax(x.net, a.line.gstRate);
        Flipped(x.net, a.line);
      }
    }
  }
}
