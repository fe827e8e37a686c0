/** The sale and purchase side: when a sale requires an incoterm, and how a
    sale or purchase line hands its document's incoterm to the stock move it
    creates. */
module Documents {
  import opened Wrappers
  import opened Records
  import opened Enrichment

  /** What `_incoterm_required` reads of a sale. The warehouse and shipment
      address chains are collapsed to the country they end in. */
  datatype Sale = Sale(
    company: Option<Company>,
    saleDate: Option<Date>,
    warehouseCountry: Option<CountryId>,   // warehouse -> address -> country
    shipmentCountry: Option<CountryId>,    // shipment address -> country
    incoterm: Option<IncotermId>)

  datatype Purchase = Purchase(incoterm: Option<IncotermId>)

  /** The company exists and has incoterms configured. */
  predicate UsesIncoterms(s: Sale) {
    s.company.Some? && s.company.value.hasIncoterms
  }

  /** Both countries are known and in Intrastat on the given date. */
  predicate BothInIntrastat(s: Sale, on: Date, inIntrastat: (CountryId, Date) -> bool) {
    && s.warehouseCountry.Some? && inIntrastat(s.warehouseCountry.value, on)
    && s.shipmentCountry.Some? && inIntrastat(s.shipmentCountry.value, on)
  }

  /** `Sale._incoterm_required`; `today` is `Date.today()` and
      `inIntrastat` is `country.in_intrastat(date=...)`. */
  function IncotermRequired(s: Sale, today: Date, inIntrastat: (CountryId, Date) -> bool): (r: bool)
    ensures !UsesIncoterms(s) ==> !r
    ensures !BothInIntrastat(s, s.saleDate.GetOr(today), inIntrastat) ==> !r
    ensures UsesIncoterms(s) && BothInIntrastat(s, s.saleDate.GetOr(today), inIntrastat) ==>
      (r <==> s.warehouseCountry != s.shipmentCountry)
  {
    var on := if s.saleDate.Some? then s.saleDate.value else today;
    if s.company.Some? && s.company.value.hasIncoterms then
      if s.warehouseCountry.Some? && inIntrastat(s.warehouseCountry.value, on)
        && s.shipmentCountry.Some? && inIntrastat(s.shipmentCountry.value, on)
      then s.warehouseCountry.value != s.shipmentCountry.value
      else false
    else false
  }

  /** Swapping the warehouse and the shipment country does not change the
      answer. */
  lemma IncotermRequiredSymmetric(s: Sale, today: Date, inIntrastat: (CountryId, Date) -> bool)
    ensures IncotermRequired(s.(warehouseCountry := s.shipmentCountry, shipmentCountry := s.warehouseCountry), today, inIntrastat)
         == IncotermRequired(s, today, inIntrastat)
  {
  }

  /** A sale shipped inside its warehouse's country never requires one. */
  lemma DomesticSaleNeedsNoIncoterm(s: Sale, today: Date, inIntrastat: (CountryId, Date) -> bool)
    requires s.warehouseCountry == s.shipmentCountry
    ensures !IncotermRequired(s, today, inIntrastat)
  {
  }

  /** The two moves are the same apart from their incoterm. */
  predicate OnlyIncotermDiffers(m: Move, r: Move) {
    r == m.(data := m.data.(incoterm := r.data.incoterm))
  }

  /** The move the base `get_move` returned, with the document's incoterm set
      on it: the incoterm of the document when it has one, else none. */
  function WithDocumentIncoterm(base: Option<Move>, incoterm: Option<IncotermId>): Option<Move> {
    match base
    case None => None
    case Some(m) => Some(m.(data := m.data.(incoterm := incoterm)))
  }

  /** `SaleLine.get_move`. */
  function SaleLineGetMove(base: Option<Move>, sale: Option<Sale>): (r: Option<Move>)
    ensures base.None? ==> r.None?
    ensures base.Some? ==> r.Some? && OnlyIncotermDiffers(base.value, r.value)
    ensures base.Some? && sale.Some? ==> r.value.data.incoterm == sale.value.incoterm
    ensures base.Some? && sale.None? ==> r.value.data.incoterm.None?
  {
    WithDocumentIncoterm(base, if sale.Some? then sale.value.incoterm else None)
  }

  /** `PurchaseLine.get_move`. */
  function PurchaseLineGetMove(base: Option<Move>, purchase: Option<Purchase>): (r: Option<Move>)
    ensures base.None? ==> r.None?
    ensures base.Some? ==> r.Some? && OnlyIncotermDiffers(base.value, r.value)
    ensures base.Some? && purchase.Some? ==> r.value.data.incoterm == purchase.value.incoterm
    ensures base.Some? && purchase.None? ==> r.value.data.incoterm.None?
  {
    WithDocumentIncoterm(base, if purchase.Some? then purchase.value.incoterm else None)
  }

  /** An incoterm a sale line hands to its move survives the enrichment in
      either mode: `_set_intrastat` never replaces a set incoterm. */
  lemma SaleIncotermSurvivesEnrichment(base: Move, sale: Sale, cfg: Config, mode: RecomputeMode, lk: Lookups)
    requires sale.incoterm.Some?
    ensures var m := SaleLineGetMove(Some(base), Some(sale)).value;
      SetIntrastat(m, cfg, mode, lk).data.incoterm == sale.incoterm
  {
  }

  /** Likewise for a purchase line: the purchase's incoterm stays on the move
      through the enrichment in either mode. */
  lemma PurchaseIncotermSurvivesEnrichment(base: Move, purchase: Purchase, cfg: Config, mode: RecomputeMode, lk: Lookups)
    requires purchase.incoterm.Some?
    ensures var m := PurchaseLineGetMove(Some(base), Some(purchase)).value;
      SetIntrastat(m, cfg, mode, lk).data.incoterm == purchase.incoterm
  {
  }
}
