/** The records the Intrastat engine reads and writes: stock moves with their
    shipment, origin and invoice lines, plus the per-company configuration.
    References to other records (taxes, countries, tariff codes, ...) are
    opaque identifiers; only what the engine inspects is kept. */
module Records {
  import opened Wrappers

  type MoveId = nat
  type LineId = nat
  type InvoiceId = nat
  type ProductId = nat
  type TaxId = nat
  type CountryId = nat
  type CurrencyId = nat
  type PriceListId = nat
  type TransportId = nat
  type IncotermId = nat
  type SubdivisionId = nat
  type UomId = nat
  type DeclarationId = nat
  type TransactionId = nat
  type VatId = nat

  /** A calendar date as (year, month, day). */
  datatype Date = Date(year: int, month: int, day: int) {

    /** `date.replace(day=1)`: the first day of the same month. */
    function FirstOfMonth(): Date {
      Date(year, month, 1)
    }

    /** Chronological order. */
    predicate OnOrBefore(other: Date) {
      year < other.year
      || (year == other.year && month < other.month)
      || (year == other.year && month == other.month && day <= other.day)
    }
  }

  datatype IntrastatType = Dispatch | Arrival

  datatype ShipmentKind = ShipmentIn | ShipmentOut | ShipmentInReturn | ShipmentOutReturn | ShipmentInternal

  datatype MoveState = Staging | Draft | Assigned | Done | Cancelled

  datatype InvoiceState = InvoiceDraft | Validated | Posted | Paid | InvoiceCancelled

  datatype Company = Company(
    intrastat: bool,               // the company declares Intrastat at all
    country: Option<CountryId>,    // country of the company's invoice address
    intrastatCurrency: Option<CurrencyId>,
    hasIncoterms: bool)            // the company's incoterm list is not empty

  /** A customs tariff code, with the unit its additional quantity is declared in. */
  datatype TariffCode = TariffCode(code: nat, intrastatUom: Option<UomId>)

  datatype Shipment = Shipment(
    kind: ShipmentKind,
    priceList: Option<PriceListId>,               // only internal shipments carry one
    transport: Option<TransportId>,
    outgoingMoves: set<MoveId>,
    supplierPurchaseIncoterms: seq<IncotermId>,   // supplier defaults (in, in-return)
    customerSaleIncoterms: seq<IncotermId>,       // customer defaults (out, out-return)
    fromWarehouseSubdivision: Option<SubdivisionId>,
    intrastatFromCountry: Option<CountryId>,      // internal shipments: declared ends
    intrastatToCountry: Option<CountryId>)

  /** What a stock move was created from. */
  datatype Origin =
    | NoOrigin
    | SaleLineOrigin(saleIncoterm: Option<IncotermId>, taxes: set<TaxId>)
    | PurchaseLineOrigin(purchaseIncoterm: Option<IncotermId>)
    | OtherOrigin

  datatype InvoiceLine = InvoiceLine(
    id: LineId,
    product: Option<ProductId>,
    quantity: real,
    amount: real,
    companyAmount: real,       // the amount in company currency, when that field exists
    taxes: set<TaxId>,
    stockMoves: seq<MoveId>)

  datatype Invoice = Invoice(
    id: InvoiceId,
    state: InvoiceState,
    invoiceDate: Option<Date>,
    accountingDate: Option<Date>,
    lines: seq<InvoiceLine>)
  {
    /** The invoice carries a date its month can be taken from. */
    predicate Dated() {
      accountingDate.Some? || invoiceDate.Some?
    }

    /** The accounting date, else the invoice date, moved to the 1st. */
    function Month(): Date
      requires Dated()
    {
      accountingDate.Or(invoiceDate).value.FirstOfMonth()
    }
  }

  /** One of a move's invoice lines, seen from the move, with its invoice. */
  datatype MoveLine = MoveLine(line: InvoiceLine, invoice: Option<Invoice>)

  /** The sixteen fields `reset_intrastat` clears. */
  datatype IntrastatData = IntrastatData(
    internalVolume: Option<real>,
    internalWeight: Option<real>,
    additionalUnit: Option<real>,
    country: Option<CountryId>,
    countryOfOrigin: Option<CountryId>,
    declaration: Option<DeclarationId>,
    subdivision: Option<SubdivisionId>,
    tariffCode: Option<TariffCode>,
    transaction: Option<TransactionId>,
    intrastatType: Option<IntrastatType>,
    value: Option<real>,
    vat: Option<VatId>,
    warehouseCountry: Option<CountryId>,
    incoterm: Option<IncotermId>,
    transport: Option<TransportId>,
    cancelled: Option<bool>)

  datatype Move = Move(
    id: MoveId,
    state: MoveState,
    company: Option<Company>,
    shipment: Option<Shipment>,
    origin: Origin,
    invoiceLines: seq<MoveLine>,
    quantity: real,
    effectiveDate: Option<Date>,
    plannedDate: Option<Date>,
    unitPrice: Option<real>,
    unitLandedCost: Option<real>,
    currency: Option<CurrencyId>,
    costPrice: real,
    data: IntrastatData)
  {
    /** `shipment_price_list`: the price list of an internal shipment, if any. */
    function ShipmentPriceList(): (r: Option<PriceListId>)
      ensures r.Some? ==> shipment.Some? && shipment.value.kind == ShipmentInternal
    {
      if shipment.Some? && shipment.value.kind == ShipmentInternal then shipment.value.priceList
      else None
    }

    predicate InInternalShipment() {
      shipment.Some? && shipment.value.kind == ShipmentInternal
    }

    /** The effective date, else the planned date. */
    function MoveDate(): Option<Date> {
      effectiveDate.Or(plannedDate)
    }
  }

  /** Python truthiness of an optional number: None and 0 are both "empty". */
  predicate Truthy(x: Option<real>) {
    x.Some? && x.value != 0.0
  }

  /** Module-wide configuration and installed-capability flags. */
  datatype Config = Config(
    exemptTaxes: set<TaxId>,               // stock configuration `intrastat_exempt_taxes`
    discountProduct: Option<ProductId>,    // account configuration `intrastat_discount_product`
    saleInstalled: bool,                   // moves carry a `sale` field
    companyAmountField: bool,              // invoice lines carry `company_amount`
    internalShipmentCountries: bool,       // internal shipments carry Intrastat countries
    additionalUnitDigits: nat)             // decimals of `intrastat_additional_unit`

  /** Decimals of `intrastat_value`. */
  const ValueDigits: nat := 2
}
