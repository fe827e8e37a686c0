# Intrastat decision engine of `account_stock_eu_es`, in Dafny

This project models the Spanish Intrastat extension of a Tryton stock and
accounting installation. The extension decides four things about each stock
move:

- whether the move is declared at all (its Intrastat type, or none);
- which value it is declared with;
- which classification fields it carries: tariff code, additional unit,
  transport, incoterm and subdivision;
- when its declared data is recomputed or cleared. Posting, cancelling or
  drafting an invoice triggers this, and so does the period update wizard.

It also covers three smaller rules:

- the shipment's total declared value;
- when a sale requires an incoterm;
- how sale and purchase lines pass their incoterm to the moves they create.

Every record is an immutable datatype (`Records`), and every operation is a
pure function (or, for the shipment total, a method with a loop). Collaborators
whose code is not part of this model arrive as parameters:

- the base module's results;
- price-list prices, currency conversion and tariff-code lookups;
- the transport and incoterm searches.

Money and quantities are exact reals. Python's `round(Decimal, n)` is the
half-even rounding of `Rounding.Round`.

The modules follow the source:

- `Eligibility`: the type decision and tax exemption (stock.py).
- `Valuation`: the declared value.
- `InvoiceDiscount`: spreading discount lines over the other lines of an
  invoice (invoice.py).
- `Enrichment`: `_set_intrastat`.
- `Declaration`: the batch update, the reset and the shipment total.
- `InvoiceEvents`: `_post`, `cancel` and `draft`.
- `UpdateWizard`: the period update.
- `Documents`: sale.py and purchase.py.
- `Scenarios`: restates situations from the scenario tests.

Three consequences of the code are worth knowing:

- **No discount product, no invoice value.** When no discount product is
  configured, every invoice line is attributed 0. The invoice-derived value is
  then always 0, and the declared value falls back to the landed-cost or base
  value, else the cost price (`Valuation.NoDiscountProductIgnoresInvoices`).
- **Reset and save both write the flagged moves.** The batch update flags some
  moves for `reset_intrastat`, which writes their records, and then saves every
  move it recomputed. So the model reports both the flagged ids and the
  recomputed moves, and does not decide which write the database keeps. The
  scenario test asserts that an exempt move keeps its value of 400.00 after an
  update (`Scenarios.SecondUpdateKeepsBothMoves`).
- **Cancel's own update can undo its mark.** `cancel` marks the moves with a
  type as cancelled and then runs the update. When the moves' lines show the
  cancelled invoice, that update flags every one of them for reset
  (`InvoiceEvents.CancelFlagsEveryMove`), and the reset clears the cancelled
  mark along with the rest (stock.py:398-418). The loop never assigns the
  mark, so the save that follows leaves it cleared. A later `draft` selects
  only moves still marked cancelled, so it may then find none of them.

## Model

| member | source | states |
|---|---|---|
| `Rounding.RoundHalfEven` | stock.py:144-145 | the integer is within one half of the input, and an exact tie goes to the even neighbour |
| `Rounding.Round` | stock.py:144-145 | the rounded value has at most `n` decimals and differs from the input by at most half a unit in the last place; an exact tie goes to the neighbour with an even last digit, as `round` on a Decimal does |
| `Rounding.RoundFixesGrid` | stock.py:168-172 | a value that already has at most `n` decimals is left unchanged by rounding |
| `Rounding.RoundIdempotent` | stock.py:183-187 | rounding twice equals rounding once |
| `Eligibility.AnyLineTaxIn` | stock.py:427-430 | true exactly when some tax of some invoice line of the move is in the exempt set |
| `Eligibility.MoveTaxIntrastatExempt` | stock.py:420-438 | false when no tax is configured as exempt; otherwise true iff an invoice-line tax is exempt, or moves know their sale and the move comes from a sale line with an exempt tax |
| `Eligibility.IntrastatTypeOf` | stock.py:97-126 | no type when the company is missing or not declaring, or the internal shipment has no price list, or the move is not one of its outgoing moves, or both ends are abroad, or the move is exempt; otherwise the base decision |
| `Eligibility.ExemptNeverDeclared` | stock.py:122-125 | a move with an exempt invoice-line tax has no type, whatever its countries and the base decision |
| `Eligibility.DeclaredInternalMoveIsPricedOutgoing` | stock.py:103-109 | a declared move of an internal shipment belongs to a shipment with a price list and is one of its outgoing moves |
| `Eligibility.DeclaredMoveTouchesCompanyCountry` | stock.py:110-120 | a declared move belongs to a declaring company, and one of its ends is the company country unless a country is unknown |
| `InvoiceDiscount.Dedup` | invoice.py:46-48 | the searched invoices carry each id once, come from the input, and cover exactly the input's ids |
| `InvoiceDiscount.DedupKeeps` | invoice.py:46-48 | when ids identify invoices, every given invoice is among those searched |
| `InvoiceDiscount.NonDiscountLines` | invoice.py:61-70 | a line is kept exactly when it belongs to the invoice and is not a discount-product line |
| `InvoiceDiscount.Spread` | invoice.py:71-76 | the lines receiving a share are exactly the non-discount lines; each share is the line's amount plus its quantity times the per-unit discount |
| `InvoiceDiscount.PerUnitDiscount` | invoice.py:71-73 | zero when the non-discount quantity or the discount total is zero; otherwise multiplying it by the non-discount quantity gives back the discount total |
| `InvoiceDiscount.InvoiceShares` | invoice.py:51-76 | one invoice's shares cover exactly its non-discount lines, each attributed its amount plus its quantity times that invoice's own per-unit discount |
| `InvoiceDiscount.ZeroShares` | invoice.py:78-79 | every line of every invoice appears with amount 0, and only those lines |
| `InvoiceDiscount.AllInvoiceShares` | invoice.py:50-77 | every item comes from one of the invoices and is what that invoice alone attributes to the line |
| `InvoiceDiscount.DiscountPerLine` | invoice.py:36-80 | every item is a line of a given invoice; with no discount product all amounts are 0 and every line is present; with one, discount lines never appear and each invoice's discount stays within that invoice |
| `InvoiceDiscount.SpreadSum` | invoice.py:71-76 | the shares of an invoice add up to its non-discount amount plus the per-unit discount times its non-discount quantity |
| `InvoiceDiscount.InvoiceSharesConserve` | invoice.py:63-76 | conservation: an invoice's shares add up to its non-discount amounts plus its discount total, or to the amounts alone when its non-discount quantity is zero |
| `InvoiceDiscount.DiscountPerLineCovers` | invoice.py:49-77 | with a discount product, every non-discount line of every given invoice appears in the result |
| `InvoiceDiscount.AllSharesCover` | invoice.py:50-77 | every non-discount line of every invoice has an item, at a returned position |
| `Valuation.PostedInvoices` | stock.py:151-152 | an invoice is taken exactly when it is linked to one of the move's lines and is posted or paid |
| `Valuation.PositiveQuantity` | stock.py:154 | never negative; at least every positive line quantity; 0 when no line quantity is positive |
| `Valuation.PositiveQuantityAppend` | stock.py:154 | one more line adds its quantity when positive and nothing otherwise, so only positive quantities are summed |
| `Valuation.InvoiceValue` | stock.py:313-331 | a move that no item is linked to gets 0 |
| `Valuation.InvoiceValueAppend` | stock.py:313-331 | one more item adds its amount exactly when it is linked to the move and its invoice month equals the move month; any other item adds nothing |
| `Valuation.ZeroAmountsValueZero` | stock.py:313-331 | items whose amounts are all 0 give a value of 0 |
| `Valuation.LandedOrBaseValue` | stock.py:155-177 | 0 without a currency; the base value when no landed cost exists; with a landed cost, the unit price less the landed cost per unit, times the quantity, converted to the company's Intrastat currency (the move's currency when it has none), rounded to two decimals |
| `Valuation.FromInvoices` | stock.py:178-187 | 0 unless some invoice is posted or paid and the positive invoiced quantity equals the move quantity; always rounded to two decimals |
| `Valuation.FromInvoicesValue` | stock.py:178-187 | on the invoice path: the attributed amounts of the move's month, converted to the company's Intrastat currency and rounded |
| `Valuation.InvoiceValueHasNoCurrencyFallback` | stock.py:180-187 | when the company has no Intrastat currency, the invoice value is converted to no currency; unlike the landed-cost path it does not fall back to the move's currency |
| `Valuation.FirstNonZero` | stock.py:189-190 | the first non-zero of three values, else the last; 0 only when all three are 0 |
| `Valuation.IntrastatValue` | stock.py:128-190 | with a price list: the price times the quantity, rounded, or none when no price is found. Otherwise: the invoice value when non-zero, else the landed or base value when non-zero, else the rounded cost price |
| `Valuation.ValueOnGrid` | stock.py:144-149 | the declared value has at most two decimals whenever the base value has |
| `Valuation.PriceListShortCircuits` | stock.py:137-146 | with a price list, invoices, landed costs, currency, cost price and base value do not affect the value |
| `Valuation.NoInvoiceValueFallsBack` | stock.py:178-190 | without a matching posted invoice, the value is the landed or base value, else the rounded cost price |
| `Valuation.NoDiscountProductIgnoresInvoices` | invoice.py:78-79 | with no discount product, the invoice-derived value is 0 and the declared value never depends on invoices |
| `Valuation.LandedCostExcluded` | stock.py:158-172 | raising the unit price and the landed cost per unit by the same amount does not change the landed-cost value |
| `Valuation.LandedCostFallsBackToMoveCurrency` | stock.py:162-172 | when the company has no Intrastat currency, the landed-cost value is converted to the move's own currency |
| `Enrichment.ResolveTariff` | stock.py:222-232 | update mode re-resolves the code, country pattern first, then date-only. Otherwise an existing code is kept and an empty one is looked up by date |
| `Enrichment.AdditionalUnit` | stock.py:233-240 | a non-empty additional unit is kept; an empty one becomes the quantity in the tariff code's unit, rounded, whenever the tariff code has a unit and that quantity is known; otherwise it stays as it was |
| `Enrichment.ResolveIncoterm` | stock.py:246-263 | an existing incoterm is kept. Else the origin document's incoterm is used. Else the counterparty's default when it has exactly one; otherwise EXW for an internal shipment valued with a price list, and none for any other move |
| `Enrichment.ResolveTransport` | stock.py:242-244 | an existing transport is kept; else the shipment's; else road transport |
| `Enrichment.ResolveSubdivision` | stock.py:267-277 | for an empty subdivision on a dispatch of an internal shipment with a price list whose source warehouse has one, the warehouse's Intrastat subdivision; in every other case the subdivision is unchanged |
| `Enrichment.SetIntrastat` | stock.py:197-296 | an undeclared move is untouched. Only the five classification fields can change, and a non-empty one is never overwritten, except the tariff code in update mode |
| `Enrichment.SetIntrastatIdempotent` | stock.py:217-296 | a second enrichment with the same lookups changes nothing |
| `Declaration.AnyCancelledInvoice` | stock.py:376-379 | true exactly when some invoice line of the move belongs to a cancelled invoice |
| `Declaration.ToReset` | stock.py:375-382 | an id is collected exactly when its move is linked to a cancelled invoice or carries an exempt tax |
| `Declaration.BaseSetIntrastat` | stock.py:215-218 | the value `_intrastat_value` computes is written on every move, declared or not; a declared move also gets the base's warehouse country, country, country of origin, transaction, VAT number and declaration; nothing else changes |
| `Declaration.ValueIgnoresData` | stock.py:128-190 | whether the value can be computed, and the value itself, do not depend on the move's Intrastat fields |
| `Declaration.Recompute` | stock.py:375-393 | the type is decided again; the value is what `_intrastat_value` now computes; a declared move carries the base's countries, transaction, VAT number and declaration and, in update mode, the re-resolved tariff code; an undeclared move changes only type, value and weight. A missing weight is filled (0 when none is computable); volume and cancelled mark are never written |
| `Declaration.UpdateIntrastatDeclaration` | stock.py:367-396 | every move is recomputed, in order, and the outcome has exactly one move per input; exactly the moves linked to a cancelled invoice or exempt are flagged for reset |
| `Declaration.TypeIgnoresData` | stock.py:97-126 | the type decision reads none of the move's Intrastat fields |
| `Declaration.SetIntrastatIgnoresWeight` | stock.py:197-296 | the enrichment neither reads nor writes the weight |
| `Declaration.RecomputeIdempotent` | stock.py:375-393 | recomputing a recomputed move changes nothing |
| `Declaration.RecomputeKeepsResetCause` | stock.py:376-382 | a recomputed move is flagged for reset exactly when the original was |
| `Declaration.UpdateIdempotent` | stock.py:367-396 | running the update on its own output gives the same moves and flags the same ids |
| `Declaration.ResetIntrastat` | stock.py:398-418 | every given move, in order, has all sixteen Intrastat fields cleared, including the cancelled mark, and nothing else changed |
| `Declaration.GetTotalIntrastatValue` | stock.py:472-478 | the loop returns the sum of the contributions of the shipment's moves |
| `Declaration.DeclaredTotalConcat` | stock.py:472-478 | the total of two groups of moves is the sum of their totals |
| `Declaration.UncountedMovesAddNothing` | stock.py:475-476 | moves without a type or with a zero value add nothing to the total |
| `Declaration.ResetShipmentTotalsZero` | stock.py:398-418 | after a reset a shipment's moves total 0 |
| `InvoiceEvents.LineMoves` | invoice.py:89-90 | a move is listed exactly when it is linked to one of the lines |
| `InvoiceEvents.LinkedMoves` | invoice.py:89-90 | a move is listed exactly when it is linked to some line of some given invoice |
| `InvoiceEvents.Post` | invoice.py:82-92 | one recomputed move per line link of the posted invoices, in the order of invoices and lines, each the recomputation of the linked move |
| `InvoiceEvents.PostRevalues` | invoice.py:82-92 | every move `_post` produces carries the value `_intrastat_value` now computes for the linked move and, when declared, the base's declaration |
| `InvoiceEvents.WithType` | invoice.py:104-105 | an id is kept exactly when it was given and its move has a type |
| `InvoiceEvents.Cancel` | invoice.py:94-112 | exactly the linked moves with a type are written: marked cancelled, with type and declaration cleared. Only they are updated, and they can still be valued |
| `InvoiceEvents.CancelledMovesStayOut` | invoice.py:106-112 | every move the update after cancel produces is still marked cancelled, and one the update leaves undeclared is in no declaration |
| `InvoiceEvents.CancelFlagsEveryMove` | invoice.py:110-112 | when the moves show their cancelled invoices, the update after cancel flags every written move for reset |
| `InvoiceEvents.MarkedCancelled` | invoice.py:122-123 | an id is kept exactly when it was given and its move is marked cancelled |
| `InvoiceEvents.Draft` | invoice.py:114-130 | exactly the linked moves marked cancelled are written, with the mark cleared, and only they are updated; they can still be valued |
| `InvoiceEvents.DraftedMovesUncancelled` | invoice.py:124-130 | every move the update after draft produces is no longer marked cancelled |
| `UpdateWizard.SelectMoves` | account_stock_eu.py:35-44 | a move is selected exactly when it is in a supplier, customer or return shipment, done, and effective within the period, both bounds included |
| `UpdateWizard.SelectedValuable` | account_stock_eu.py:35-46 | when every selected move can be valued, so can the batch handed to the update |
| `UpdateWizard.TransitionUpdate` | account_stock_eu.py:29-46 | every recomputed move was selected, every selected move is recomputed, and only selected moves are flagged |
| `UpdateWizard.UpdatedWereSelected` | account_stock_eu.py:35-45 | every move the wizard's update recomputes is a selected move |
| `UpdateWizard.SelectedWereUpdated` | account_stock_eu.py:35-45 | every selected move is recomputed by the wizard's update |
| `UpdateWizard.FlaggedWereSelected` | account_stock_eu.py:35-45 | every id flagged by the wizard's update is that of a selected move with a reset cause |
| `UpdateWizard.InternalMovesNeverSelected` | account_stock_eu.py:36-40 | moves of internal shipments and moves without a shipment are never selected |
| `UpdateWizard.BoundsIncluded` | account_stock_eu.py:42-43 | a done move of a declarable shipment dated on the first or the last day of the period is selected |
| `UpdateWizard.OutsidePeriodNotSelected` | account_stock_eu.py:42-43 | a move dated outside the period is not selected |
| `Documents.IncotermRequired` | sale.py:12-29 | false without a company using incoterms, or unless both countries are known and in Intrastat on the sale date (today without one); otherwise true iff the countries differ |
| `Documents.IncotermRequiredSymmetric` | sale.py:18-28 | swapping warehouse and shipment country does not change the answer |
| `Documents.DomesticSaleNeedsNoIncoterm` | sale.py:26-29 | a sale shipped within its warehouse's country never requires an incoterm |
| `Documents.SaleLineGetMove` | sale.py:35-41 | no move when the base gives none; otherwise the same move, with the sale's incoterm or none |
| `Documents.PurchaseLineGetMove` | purchase.py:9-15 | no move when the base gives none; otherwise the same move, with the purchase's incoterm or none |
| `Documents.SaleIncotermSurvivesEnrichment` | stock.py:246-253 | an incoterm handed over by a sale line is kept by the enrichment in either mode |
| `Documents.PurchaseIncotermSurvivesEnrichment` | stock.py:246-253 | an incoterm handed over by a purchase line is kept by the enrichment in either mode |
| `Scenarios.PriceListDispatchValue` | tests/test_scenario_account_stock_eu_dispatch.py:272 | ten units priced at 100.00 by the shipment's price list are declared at 1000.00 |
| `Scenarios.CustomerDispatchValue` | tests/test_scenario_account_stock_eu_dispatch.py:175 | with no invoice and no landed cost the declared value is the base value the stock module supplies, passed through unchanged; the test's 1800.00 for twenty units at 90 |
| `Scenarios.ExemptMoveStays` | tests/test_scenario_account_stock_eu_tax_no_intrastat.py:204-215 | recomputing the exempt sale move leaves it without classification and at 400.00 |
| `Scenarios.DispatchMoveStays` | tests/test_scenario_account_stock_eu_tax_no_intrastat.py:217-226 | recomputing the declared dispatch leaves every field as the first update set it |
| `Scenarios.SecondUpdateKeepsBothMoves` | tests/test_scenario_account_stock_eu_tax_no_intrastat.py:229-257 | a second update leaves both moves unchanged: the exempt one without type and at 400.00; the dispatch at 300.00, from Belgium to France, of Chinese origin, transaction 11. Only the exempt one is flagged |

## Left out

- `_intrastat_quantity` (stock.py:333-353): its width fallback is
  floating-point unit arithmetic. The quantity in the tariff unit is a lookup
  parameter.
- `Declaration.BaseSetIntrastat`: the base module's `_set_intrastat` is not
  part of this model. It is modelled as writing the value this module's
  `_intrastat_value` computes on every move, and, on a declared move, six
  fields whose contents (`BaseWrites`) are a parameter: warehouse country,
  country, country of origin, transaction, VAT number and declaration. Any
  other write the base may make is not modelled. In particular the scenario
  tests show a declared customer move with a subdivision (dispatch test line
  174, no-intrastat test line 221). This module's code sets one only on
  internal shipments, so the base writes it. The model leaves the subdivision
  to `Enrichment.ResolveSubdivision`, so a customer move keeps the
  subdivision it already has.
- The base module's `on_change_with_intrastat_type`, its `_intrastat_value`
  (the base value), `intrastat_from_country`/`intrastat_to_country` and
  `_get_internal_weight` are parameters. The model does not show what they do.
- `_intrastat_counterparty` (stock.py:355-365) and `_update_intrastat`
  (stock.py:192-195) only feed or suppress the base module's own updates,
  which are not modelled.
- The `on_change_supplier` and `on_change_customer` calls in the update loop
  (stock.py:383-388) refresh shipment fields in the base module. They are not
  modelled.
- The `do` warning context, `copy` defaults, UI domains and states, carrier
  and contact-address hooks, and `ShipmentInternal.on_change_with_currency`
  are presentation or plumbing, and are not modelled.
- Persistence is not modelled. Writes and saves are not ordered, so
  `Declaration.UpdateIntrastatDeclaration` returns the moves it saves and the
  ids it resets without deciding which write wins. Nor does the model follow
  which fields a save writes: a save stores only the fields assigned on the
  record, so after a reset the fields the loop did not assign stay cleared.
- `InvoiceDiscount.DiscountPerLine`: keeps the order of the invoices as given.
  It does not sort them by invoice date, nor sort lines by descending
  quantity. With exact arithmetic the amounts do not depend on that order.
- `InvoiceDiscount.PerUnitDiscount`: the amounts are exact reals, not
  Decimal's 28-digit context. So `discount / quantity` is not rounded before
  it is multiplied back.
- `Valuation.InvoicePathTaken`, `Enrichment.AdditionalUnit` and
  `InvoiceDiscount.PerUnitDiscount`: quantities, which the source holds as
  binary floats, are exact reals here. Where float arithmetic differs the
  model does too. The source compares a float sum of line quantities with the
  move quantity by `==` (stock.py:154, 178): lines of 0.1 and 0.2 against a
  move of 0.3 sum to 0.30000000000000004, so the source skips the invoice path
  where the model takes it. The source rounds the float additional unit
  (stock.py:233-240), and `round(2.675, 2)` gives 2.67 where
  `Rounding.Round` gives 2.68. The per-unit discount divides by and
  multiplies with `Decimal(str(quantity))` of a float sum (invoice.py:67,
  72-75), which carries the float's shortest decimal form.
- `Valuation.IntrastatValue`: requires `ValueDefined`, which leaves out the
  inputs on which the source raises. The source reads an unbound variable when
  landed costs exist and the move has a currency but no unit price
  (stock.py:162-177). It dereferences a missing company for the landed-cost
  currency (stock.py:171) and on the invoice path (stock.py:186). And it reads
  a missing invoice or move date (stock.py:321-326). The model promises
  nothing for those inputs instead of modelling the exception.
- `Declaration.UpdateIntrastatDeclaration`: requires every move to satisfy
  `ValueDefined`, for the same reason; `InvoiceEvents.Post`,
  `InvoiceEvents.Cancel`, `InvoiceEvents.Draft` and
  `UpdateWizard.TransitionUpdate` require it of the moves they hand over.
- `InvoiceEvents.CancelledMovesStayOut`: promises no declaration only for the
  moves the update leaves undeclared. When the type decision declares a
  cancelled move again, the base `_set_intrastat` writes its declaration, so
  the model does not promise that such a move stays out.
- `Valuation.IntrastatValue`: the price-list compute, the currency
  conversion and the landed-cost search are parameters.
- `Enrichment.SetIntrastat`: tariff codes, transports and incoterms come
  from lookup parameters (`Lookups`). This includes
  `_intrastat_tariff_code_pattern_wo_country` (stock.py:298-301), which only
  builds a search pattern.
- `Documents.SaleLineGetMove`: models the method body. The class carrying it
  is registered under the sale model name (sale.py:32-33), and that
  registration is not modelled.
- `Documents.IncotermRequired`: the warehouse, address and country chain is
  collapsed to one optional country per side.
- `UpdateWizard.SelectMoves`: follows the code, which has no filter on the
  company's Intrastat flag.
- Declaration export formats and the subdivision import script are not part
  of this model. Neither are company.py, account.py, country.py and
  `__init__.py`, which hold only defaults and registration.
