/** `Move._intrastat_value` and `Move._intrastat_value_from_invoices`: the
    value declared for a stock move. */
module Valuation {
  import opened Wrappers
  import opened Records
  import opened Rounding
  import opened InvoiceDiscount

  /** What the valuation obtains from collaborators whose code is not part of
      this model. */
  datatype ValueEnv = ValueEnv(
    // unit price the shipment's price list computes for the move's product,
    // quantity and unit at the move date (None when it yields none)
    priceListPrice: Option<real>,
    // the landed-cost module is installed, the move has a shipment and some
    // landed cost references that shipment
    landedCostsFound: bool,
    // `super()._intrastat_value()`
    baseValue: real,
    // `Currency.compute(from, amount, to)` at the move date, unrounded
    convert: (Option<CurrencyId>, Option<CurrencyId>, real) -> real)

  /** The posted or paid invoices of the move's invoice lines, one per line. */
  function PostedInvoices(lines: seq<MoveLine>): (r: seq<Invoice>)
    ensures forall inv :: inv in r ==> inv.state in {Posted, Paid}
    ensures forall inv :: inv in r <==>
      exists ml :: ml in lines && ml.invoice == Some(inv) && inv.state in {Posted, Paid}
  {
    if |lines| == 0 then []
    else
      var rest := PostedInvoices(lines[1..]);
      var ml := lines[0];
      assert forall x :: x in lines <==> x == ml || x in lines[1..];
      if ml.invoice.Some? && ml.invoice.value.state in {Posted, Paid} then [ml.invoice.value] + rest
      else rest
  }

  /** Sum of the positive quantities of the move's invoice lines, whatever
      the state of their invoice. */
  function PositiveQuantity(lines: seq<MoveLine>): (r: real)
    ensures r >= 0.0
    ensures forall i :: 0 <= i < |lines| && lines[i].line.quantity > 0.0 ==> r >= lines[i].line.quantity
    ensures (forall i :: 0 <= i < |lines| ==> lines[i].line.quantity <= 0.0) ==> r == 0.0
  {
    if |lines| == 0 then 0.0
    else
      var rest := PositiveQuantity(lines[1..]);
      assert forall i :: 1 <= i < |lines| ==> lines[i] == lines[1..][i - 1];
      (if lines[0].line.quantity > 0.0 then lines[0].line.quantity else 0.0) + rest
  }

  /** A further line adds its quantity when it is positive and nothing
      otherwise: the sum runs over the positive quantities only. */
  lemma {:induction false} PositiveQuantityAppend(lines: seq<MoveLine>, l: MoveLine)
    ensures PositiveQuantity(lines + [l])
         == PositiveQuantity(lines) + (if l.line.quantity > 0.0 then l.line.quantity else 0.0)
  {
    if |lines| > 0 {
      assert (lines + [l])[1..] == lines[1..] + [l];
      PositiveQuantityAppend(lines[1..], l);
    } else {
      assert (lines + [l])[1..] == [];
    }
  }

  /** The invoice-derived value is computed: some linked invoice is posted or
      paid and the invoiced positive quantity equals the move quantity. */
  predicate InvoicePathTaken(m: Move) {
    |PostedInvoices(m.invoiceLines)| > 0 && PositiveQuantity(m.invoiceLines) == m.quantity
  }

  /** An item of the per-line result counts for the move: its line is linked to
      the move and its invoice month is the move month. */
  predicate Contributes(e: LineShare, moveId: MoveId, moveDate: Option<Date>)
    requires e.invoice.Dated() && moveDate.Some?
  {
    e.invoice.Month() == moveDate.value.FirstOfMonth()
  }

  /** The dates `_intrastat_value_from_invoices` reads exist: for every item
      whose line is linked to the move, the invoice and the move are dated. */
  predicate DatesDefined(shares: seq<LineShare>, moveId: MoveId, moveDate: Option<Date>) {
    forall i :: 0 <= i < |shares| && moveId in shares[i].line.stockMoves ==>
      shares[i].invoice.Dated() && moveDate.Some?
  }

  /** `_intrastat_value_from_invoices`: sum of the attributed amounts of the
      lines linked to the move whose invoice falls in the move's month. */
  function InvoiceValue(shares: seq<LineShare>, moveId: MoveId, moveDate: Option<Date>): (r: real)
    requires DatesDefined(shares, moveId, moveDate)
    ensures (forall i :: 0 <= i < |shares| ==> moveId !in shares[i].line.stockMoves) ==> r == 0.0
  {
    if |shares| == 0 then 0.0
    else
      var e := shares[0];
      var rest := InvoiceValue(shares[1..], moveId, moveDate);
      if moveId !in e.line.stockMoves then rest
      else if !Contributes(e, moveId, moveDate) then rest
      else e.amount + rest
  }

  /** Appending an item adds its amount exactly when it is linked to the move
      and in the move's month; any other item changes nothing. */
  lemma {:induction false} InvoiceValueAppend(shares: seq<LineShare>, e: LineShare, moveId: MoveId, moveDate: Option<Date>)
    requires DatesDefined(shares, moveId, moveDate)
    requires moveId in e.line.stockMoves ==> e.invoice.Dated() && moveDate.Some?
    ensures DatesDefined(shares + [e], moveId, moveDate)
    ensures moveId in e.line.stockMoves && Contributes(e, moveId, moveDate) ==>
      InvoiceValue(shares + [e], moveId, moveDate) == InvoiceValue(shares, moveId, moveDate) + e.amount
    ensures !(moveId in e.line.stockMoves && Contributes(e, moveId, moveDate)) ==>
      InvoiceValue(shares + [e], moveId, moveDate) == InvoiceValue(shares, moveId, moveDate)
  {
    assert forall i :: 0 <= i < |shares| ==> (shares + [e])[i] == shares[i];
    if |shares| > 0 {
      assert (shares + [e])[1..] == shares[1..] + [e];
      InvoiceValueAppend(shares[1..], e, moveId, moveDate);
    } else {
      assert (shares + [e])[1..] == [];
    }
  }

  /** The landed-cost path would read an unbound variable: landed costs exist,
      the move has a currency but no unit price. */
  predicate LandedCostUnbound(m: Move, env: ValueEnv) {
    env.landedCostsFound && m.currency.Some? && m.unitPrice.None?
  }

  /** The unit price without the landed cost per unit (none counting as 0). */
  function NetUnitPrice(m: Move): real
    requires m.unitPrice.Some?
  {
    m.unitPrice.value - m.unitLandedCost.GetOr(0.0)
  }

  /** The value before invoices and cost price are considered: the landed-cost
      adjusted unit price times quantity when landed costs exist, else the base
      value; zero when the move has no currency. */
  function LandedOrBaseValue(m: Move, env: ValueEnv): (r: real)
    requires !LandedCostUnbound(m, env)
    requires env.landedCostsFound && m.currency.Some? ==> m.company.Some?
    ensures m.currency.None? ==> r == 0.0
    ensures !env.landedCostsFound && m.currency.Some? ==> r == env.baseValue
    ensures env.landedCostsFound && m.currency.Some? ==> OnGrid(r, ValueDigits)
    // With landed costs: the unit price net of the landed cost per unit, times
    // the quantity, converted to the company's Intrastat currency (the move's
    // own currency when the company has none), rounded.
    ensures env.landedCostsFound && m.currency.Some? ==>
      r == Round(env.convert(m.currency, m.company.value.intrastatCurrency.Or(m.currency),
                             Times(NetUnitPrice(m), m.quantity)), ValueDigits)
  {
    if env.landedCostsFound then
      if m.unitPrice.Some? && m.currency.Some? then
        var target := m.company.value.intrastatCurrency.Or(m.currency);
        Round(env.convert(m.currency, target, Times(NetUnitPrice(m), m.quantity)), ValueDigits)
      else 0.0
    else if m.currency.Some? then env.baseValue
    else 0.0
  }

  /** The dates `_intrastat_value_from_invoices` reads exist for every line
      of a posted or paid invoice that is linked to the move. */
  predicate LinkedLinesDated(m: Move) {
    forall inv, l :: inv in PostedInvoices(m.invoiceLines) && l in inv.lines && m.id in l.stockMoves ==>
      inv.Dated() && m.MoveDate().Some?
  }

  /** Everything `_intrastat_value` dereferences is there. */
  predicate ValueDefined(m: Move, cfg: Config, env: ValueEnv) {
    m.ShipmentPriceList().None? ==>
      && !LandedCostUnbound(m, env)
      && (env.landedCostsFound && m.currency.Some? ==> m.company.Some?)
      && (InvoicePathTaken(m) ==> m.company.Some? && LinkedLinesDated(m))
  }

  /** The per-line results for the move's posted or paid invoices. */
  function MoveShares(m: Move, cfg: Config): seq<LineShare> {
    DiscountPerLine(PostedInvoices(m.invoiceLines), cfg)
  }

  /** When the linked lines are dated, so are the items the invoice path reads. */
  lemma SharesDated(m: Move, cfg: Config)
    requires LinkedLinesDated(m)
    ensures DatesDefined(MoveShares(m, cfg), m.id, m.MoveDate())
  {
    var posted := PostedInvoices(m.invoiceLines);
    var shares := DiscountPerLine(posted, cfg);
    forall i | 0 <= i < |shares| && m.id in shares[i].line.stockMoves
      ensures shares[i].invoice.Dated() && m.MoveDate().Some?
    {
      assert shares[i].invoice in posted && shares[i].line in shares[i].invoice.lines;
    }
    assert shares == MoveShares(m, cfg);
  }

  /** The converted, rounded invoice-derived value; zero when that path is
      not taken. */
  function FromInvoices(m: Move, cfg: Config, env: ValueEnv): (r: real)
    requires ValueDefined(m, cfg, env) && m.ShipmentPriceList().None?
    ensures !InvoicePathTaken(m) ==> r == 0.0
    ensures OnGrid(r, ValueDigits)
  {
    if InvoicePathTaken(m) then
      SharesDated(m, cfg);
      var value := InvoiceValue(MoveShares(m, cfg), m.id, m.MoveDate());
      Round(env.convert(m.currency, m.company.value.intrastatCurrency, value), ValueDigits)
    else
      assert OnGrid(0.0, ValueDigits) by { assert Scale(0.0, ValueDigits) == 0.0; assert (0.0).Floor == 0; }
      0.0
  }

  /** On the invoice path the value is the attributed amounts of the move's
      month, converted to the company's Intrastat currency, with no fallback
      to the move's currency, and rounded. */
  lemma FromInvoicesValue(m: Move, cfg: Config, env: ValueEnv)
    requires ValueDefined(m, cfg, env) && m.ShipmentPriceList().None? && InvoicePathTaken(m)
    ensures DatesDefined(MoveShares(m, cfg), m.id, m.MoveDate())
    ensures FromInvoices(m, cfg, env)
         == Round(env.convert(m.currency, m.company.value.intrastatCurrency,
                              InvoiceValue(MoveShares(m, cfg), m.id, m.MoveDate())), ValueDigits)
  {
    SharesDated(m, cfg);
  }

  /** Python's `a or b or c` on numbers: the first non-zero, else the last. */
  function FirstNonZero(a: real, b: real, c: real): (r: real)
    ensures r == a || r == b || r == c
    ensures a != 0.0 ==> r == a
    ensures a == 0.0 && b != 0.0 ==> r == b
    ensures r == 0.0 ==> a == 0.0 && b == 0.0 && c == 0.0
  {
    if a != 0.0 then a else if b != 0.0 then b else c
  }

  /** `_intrastat_value`. A price list on the move's internal shipment decides
      alone; otherwise the first non-zero of the invoice-derived value, the
      landed-cost or base value, and the rounded cost price. */
  function IntrastatValue(m: Move, cfg: Config, env: ValueEnv): (r: Option<real>)
    requires ValueDefined(m, cfg, env)
    ensures m.ShipmentPriceList().Some? ==>
      (r.None? <==> env.priceListPrice.None?)
      && (r.Some? ==> r.value == Round(Times(env.priceListPrice.value, m.quantity), ValueDigits))
    ensures m.ShipmentPriceList().None? ==> r.Some?
    ensures m.ShipmentPriceList().None? && FromInvoices(m, cfg, env) != 0.0 ==>
      r == Some(FromInvoices(m, cfg, env))
    ensures m.ShipmentPriceList().None? && FromInvoices(m, cfg, env) == 0.0 && LandedOrBaseValue(m, env) != 0.0 ==>
      r == Some(LandedOrBaseValue(m, env))
    ensures m.ShipmentPriceList().None? && FromInvoices(m, cfg, env) == 0.0 && LandedOrBaseValue(m, env) == 0.0 ==>
      r == Some(Round(m.costPrice, ValueDigits))
  {
    if m.ShipmentPriceList().Some? then
      match env.priceListPrice
      case None => None
      case Some(price) => Some(Round(Times(price, m.quantity), ValueDigits))
    else
      var fallback := Round(m.costPrice, ValueDigits);
      Some(FirstNonZero(FromInvoices(m, cfg, env), LandedOrBaseValue(m, env), fallback))
  }

  /** The declared value has at most two decimals whenever the base value does:
      every other source is rounded. */
  lemma ValueOnGrid(m: Move, cfg: Config, env: ValueEnv)
    requires ValueDefined(m, cfg, env)
    requires OnGrid(env.baseValue, ValueDigits)
    ensures IntrastatValue(m, cfg, env).Some? ==> OnGrid(IntrastatValue(m, cfg, env).value, ValueDigits)
  {
    assert OnGrid(0.0, ValueDigits) by { assert Scale(0.0, ValueDigits) == 0.0; assert (0.0).Floor == 0; }
  }

  /** With a price list nothing else is consulted: invoices, landed costs,
      currency, cost price and base value can change freely. */
  lemma PriceListShortCircuits(m: Move, m': Move, cfg: Config, cfg': Config, env: ValueEnv, env': ValueEnv)
    requires m.ShipmentPriceList().Some?
    requires m'.shipment == m.shipment && m'.quantity == m.quantity
    requires env'.priceListPrice == env.priceListPrice
    requires ValueDefined(m, cfg, env) && ValueDefined(m', cfg', env')
    ensures IntrastatValue(m', cfg', env') == IntrastatValue(m, cfg, env)
  {
    assert m'.ShipmentPriceList() == m.ShipmentPriceList();
  }

  /** Without a posted or paid invoice whose quantities match, invoices play no
      part: the value is the landed-cost or base value, else the cost price. */
  lemma NoInvoiceValueFallsBack(m: Move, cfg: Config, env: ValueEnv)
    requires ValueDefined(m, cfg, env) && m.ShipmentPriceList().None?
    requires !InvoicePathTaken(m)
    ensures IntrastatValue(m, cfg, env)
      == Some(if LandedOrBaseValue(m, env) != 0.0 then LandedOrBaseValue(m, env) else Round(m.costPrice, ValueDigits))
  {
  }

  /** Items whose amounts are all zero add up to zero, whichever of them are
      linked to the move and fall in its month. */
  lemma {:induction false} ZeroAmountsValueZero(shares: seq<LineShare>, moveId: MoveId, moveDate: Option<Date>)
    requires DatesDefined(shares, moveId, moveDate)
    requires forall i :: 0 <= i < |shares| ==> shares[i].amount == 0.0
    ensures InvoiceValue(shares, moveId, moveDate) == 0.0
  {
    if |shares| > 0 {
      assert forall i :: 1 <= i < |shares| ==> shares[1..][i - 1] == shares[i];
      ZeroAmountsValueZero(shares[1..], moveId, moveDate);
    }
  }

  /** With no discount product configured every line is attributed zero, so
      the invoice-derived value is zero (a conversion of zero being zero) and
      the declared value is the landed-cost or base value, else the cost
      price, whatever the invoices say. */
  lemma NoDiscountProductIgnoresInvoices(m: Move, cfg: Config, env: ValueEnv)
    requires ValueDefined(m, cfg, env) && m.ShipmentPriceList().None?
    requires cfg.discountProduct.None?
    requires forall from, to :: env.convert(from, to, 0.0) == 0.0
    ensures FromInvoices(m, cfg, env) == 0.0
    ensures IntrastatValue(m, cfg, env)
      == Some(if LandedOrBaseValue(m, env) != 0.0 then LandedOrBaseValue(m, env) else Round(m.costPrice, ValueDigits))
  {
    if InvoicePathTaken(m) {
      var shares := MoveShares(m, cfg);
      SharesDated(m, cfg);
      ZeroAmountsValueZero(shares, m.id, m.MoveDate());
      assert OnGrid(0.0, ValueDigits) by { assert Scale(0.0, ValueDigits) == 0.0; assert (0.0).Floor == 0; }
      RoundFixesGrid(0.0, ValueDigits);
    }
  }

  /** The landed cost does not enter the declared value: raising the unit
      price and the landed cost per unit by the same amount changes nothing. */
  lemma LandedCostExcluded(m: Move, env: ValueEnv, extra: real)
    requires !LandedCostUnbound(m, env)
    requires env.landedCostsFound && m.currency.Some? ==> m.company.Some?
    requires m.unitPrice.Some?
    ensures var m' := m.(unitPrice := Some(m.unitPrice.value + extra),
                         unitLandedCost := Some(m.unitLandedCost.GetOr(0.0) + extra));
      LandedOrBaseValue(m', env) == LandedOrBaseValue(m, env)
  {
    var m' := m.(unitPrice := Some(m.unitPrice.value + extra),
                 unitLandedCost := Some(m.unitLandedCost.GetOr(0.0) + extra));
    assert NetUnitPrice(m') == NetUnitPrice(m);
  }

  /** Without an Intrastat currency on the company, the landed-cost value is
      converted to the move's own currency. */
  lemma LandedCostFallsBackToMoveCurrency(m: Move, env: ValueEnv)
    requires env.landedCostsFound && m.currency.Some? && m.unitPrice.Some?
    requires m.company.Some? && m.company.value.intrastatCurrency.None?
    ensures LandedOrBaseValue(m, env)
         == Round(env.convert(m.currency, m.currency, Times(NetUnitPrice(m), m.quantity)), ValueDigits)
  {
    assert m.company.value.intrastatCurrency.Or(m.currency) == m.currency;
  }

  /** Without an Intrastat currency on the company, the invoice-derived value
      is converted to no currency at all: this path has no fallback. */
  lemma InvoiceValueHasNoCurrencyFallback(m: Move, cfg: Config, env: ValueEnv)
    requires ValueDefined(m, cfg, env) && m.ShipmentPriceList().None? && InvoicePathTaken(m)
    requires m.company.Some? && m.company.value.intrastatCurrency.None?
    ensures DatesDefined(MoveShares(m, cfg), m.id, m.MoveDate())
    ensures FromInvoices(m, cfg, env)
         == Round(env.convert(m.currency, None, InvoiceValue(MoveShares(m, cfg), m.id, m.MoveDate())), ValueDigits)
  {
    FromInvoicesValue(m, cfg, env);
  }
}
