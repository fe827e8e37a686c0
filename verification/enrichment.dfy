/** `Move._set_intrastat`: the classification fields this module fills on a
    declared move (tariff code, additional unit, transport, incoterm,
    subdivision), each with its fallback chain. The base implementation runs
    first; the move given here is the move as the base left it. */
module Enrichment {
  import opened Wrappers
  import opened Records
  import opened Rounding

  /** Whether the call runs inside `update_intrastat_declaration`, which
      forces the tariff code to be resolved again. */
  datatype RecomputeMode = FillEmpty | UpdateDeclaration

  /** Lookups whose code is not part of this model. */
  datatype Lookups = Lookups(
    tariffWithCountry: Option<TariffCode>,   // tariff code for the date-and-country pattern
    tariffByDate: Option<TariffCode>,        // tariff code for the date-only pattern
    quantityIn: UomId -> Option<real>,       // `_intrastat_quantity(unit)`
    intrastatSubdivision: SubdivisionId -> Option<SubdivisionId>,  // `subdivision.get_intrastat()`
    roadTransport: Option<TransportId>,      // the transport with code '3', if any
    exwIncoterm: Option<IncotermId>)         // the incoterm with code 'EXW', if any

  /** The tariff code after the call: re-resolved in update mode (country
      pattern first, then date-only), otherwise looked up only when empty. */
  function ResolveTariff(current: Option<TariffCode>, mode: RecomputeMode, lk: Lookups): (r: Option<TariffCode>)
    ensures mode == FillEmpty && current.Some? ==> r == current
    ensures mode == FillEmpty && current.None? ==> r == lk.tariffByDate
    ensures mode == UpdateDeclaration && lk.tariffWithCountry.Some? ==> r == lk.tariffWithCountry
    ensures mode == UpdateDeclaration && lk.tariffWithCountry.None? ==> r == lk.tariffByDate
  {
    match mode
    case UpdateDeclaration =>
      var found := lk.tariffWithCountry.Or(lk.tariffByDate);
      if found != current then found else current
    case FillEmpty =>
      if current.None? then lk.tariffByDate else current
  }

  /** The tariff code has an Intrastat unit and the move's quantity in that
      unit is known. */
  predicate UnitQuantityKnown(tariff: Option<TariffCode>, lk: Lookups) {
    tariff.Some? && tariff.value.intrastatUom.Some? && lk.quantityIn(tariff.value.intrastatUom.value).Some?
  }

  /** The additional unit: when empty (None or zero) and the tariff code has an
      Intrastat unit, the move quantity in that unit, rounded. */
  function AdditionalUnit(current: Option<real>, tariff: Option<TariffCode>, lk: Lookups, digits: nat): (r: Option<real>)
    ensures Truthy(current) ==> r == current
    ensures !Truthy(current) && UnitQuantityKnown(tariff, lk) ==>
      r == Some(Round(lk.quantityIn(tariff.value.intrastatUom.value).value, digits))
    ensures r != current ==>
      tariff.Some? && tariff.value.intrastatUom.Some? && lk.quantityIn(tariff.value.intrastatUom.value).Some?
      && r == Some(Round(lk.quantityIn(tariff.value.intrastatUom.value).value, digits))
  {
    if !Truthy(current) && tariff.Some? && tariff.value.intrastatUom.Some? then
      match lk.quantityIn(tariff.value.intrastatUom.value)
      case Some(q) => Some(Round(q, digits))
      case None => current
    else current
  }

  /** The incoterm of the document the move comes from: the sale's or the
      purchase's (possibly none); nothing for any other origin. */
  function OriginIncoterm(origin: Origin): Option<Option<IncotermId>> {
    match origin
    case SaleLineOrigin(incoterm, _) => Some(incoterm)
    case PurchaseLineOrigin(incoterm) => Some(incoterm)
    case _ => None
  }

  /** The origin document exists and carries an incoterm. */
  predicate OriginGivesIncoterm(origin: Origin) {
    OriginIncoterm(origin).Some? && OriginIncoterm(origin).value.Some?
  }

  /** The counterparty's incoterm defaults for the shipment's direction: the
      supplier's purchase incoterms for supplier shipments and their returns,
      the customer's sale incoterms for customer shipments and their returns. */
  function PartyIncoterms(shipment: Option<Shipment>): seq<IncotermId> {
    if shipment.None? then []
    else match shipment.value.kind
      case ShipmentIn => shipment.value.supplierPurchaseIncoterms
      case ShipmentInReturn => shipment.value.supplierPurchaseIncoterms
      case ShipmentOut => shipment.value.customerSaleIncoterms
      case ShipmentOutReturn => shipment.value.customerSaleIncoterms
      case ShipmentInternal => []
  }

  /** The incoterm chain: the current one; else the origin document's; else
      the counterparty's default when it has exactly one; else EXW for an
      internal shipment valued with a price list. */
  function ResolveIncoterm(m: Move, lk: Lookups): (r: Option<IncotermId>)
    requires m.data.intrastatType.Some?
    ensures m.data.incoterm.Some? ==> r == m.data.incoterm
    ensures m.data.incoterm.None? && OriginGivesIncoterm(m.origin) ==>
      r == OriginIncoterm(m.origin).value
    // No incoterm from the move or its origin: the party default when there
    // is exactly one, else EXW for a priced internal shipment, else none.
    ensures m.data.incoterm.None? && !OriginGivesIncoterm(m.origin) && |PartyIncoterms(m.shipment)| == 1 ==>
      r == Some(PartyIncoterms(m.shipment)[0])
    ensures m.data.incoterm.None? && !OriginGivesIncoterm(m.origin) && |PartyIncoterms(m.shipment)| != 1 ==>
      r == (if m.ShipmentPriceList().Some? then lk.exwIncoterm else None)
  {
    var fromOrigin :=
      if m.data.incoterm.None? && OriginIncoterm(m.origin).Some? then OriginIncoterm(m.origin).value
      else m.data.incoterm;
    var party := PartyIncoterms(m.shipment);
    var fromParty :=
      if fromOrigin.None? && |party| == 1 then Some(party[0]) else fromOrigin;
    if fromParty.None? && m.ShipmentPriceList().Some? then lk.exwIncoterm else fromParty
  }

  /** The transport chain: the current one; else the shipment's; else the road
      transport (code '3') when there is one. */
  function ResolveTransport(m: Move, lk: Lookups): (r: Option<TransportId>)
    ensures m.data.transport.Some? ==> r == m.data.transport
    ensures m.data.transport.None? && m.shipment.Some? && m.shipment.value.transport.Some? ==>
      r == m.shipment.value.transport
    ensures m.data.transport.None? && (m.shipment.None? || m.shipment.value.transport.None?) ==>
      r == lk.roadTransport
  {
    var fromShipment :=
      if m.data.transport.None? && m.shipment.Some? then m.shipment.value.transport else m.data.transport;
    fromShipment.Or(lk.roadTransport)
  }

  /** The move has no subdivision yet, is a dispatch of an internal shipment
      valued with a price list, and the source warehouse's address has a
      subdivision. */
  predicate SubdivisionFillable(m: Move) {
    && m.data.subdivision.None?
    && m.data.intrastatType == Some(Dispatch)
    && m.ShipmentPriceList().Some?
    && m.shipment.value.fromWarehouseSubdivision.Some?
  }

  /** The subdivision: when empty, for a dispatch of an internal shipment valued
      with a price list, the Intrastat subdivision of the source warehouse's
      address. */
  function ResolveSubdivision(m: Move, lk: Lookups): (r: Option<SubdivisionId>)
    ensures !SubdivisionFillable(m) ==> r == m.data.subdivision
    ensures SubdivisionFillable(m) ==> r == lk.intrastatSubdivision(m.shipment.value.fromWarehouseSubdivision.value)
  {
    if SubdivisionFillable(m) then lk.intrastatSubdivision(m.shipment.value.fromWarehouseSubdivision.value)
    else m.data.subdivision
  }

  /** The five fields `_set_intrastat` writes are the only ones that differ. */
  predicate OnlyEnrichedFieldsDiffer(m: Move, r: Move) {
    r == m.(data := m.data.(
      tariffCode := r.data.tariffCode,
      additionalUnit := r.data.additionalUnit,
      transport := r.data.transport,
      incoterm := r.data.incoterm,
      subdivision := r.data.subdivision))
  }

  /** `_set_intrastat`, the part this module adds after the base call. */
  function SetIntrastat(m: Move, cfg: Config, mode: RecomputeMode, lk: Lookups): (r: Move)
    ensures m.data.intrastatType.None? ==> r == m
    ensures OnlyEnrichedFieldsDiffer(m, r)
    // Outside update mode a non-empty field is never overwritten.
    ensures mode == FillEmpty && m.data.tariffCode.Some? ==> r.data.tariffCode == m.data.tariffCode
    ensures Truthy(m.data.additionalUnit) ==> r.data.additionalUnit == m.data.additionalUnit
    ensures m.data.transport.Some? ==> r.data.transport == m.data.transport
    ensures m.data.incoterm.Some? ==> r.data.incoterm == m.data.incoterm
    ensures m.data.subdivision.Some? ==> r.data.subdivision == m.data.subdivision
    // In update mode the tariff code is whatever resolves now.
    ensures mode == UpdateDeclaration && m.data.intrastatType.Some? ==>
      r.data.tariffCode == lk.tariffWithCountry.Or(lk.tariffByDate)
  {
    if m.data.intrastatType.None? then m
    else
      var d := m.data;
      var tariff := ResolveTariff(d.tariffCode, mode, lk);
      m.(data := d.(
        tariffCode := tariff,
        additionalUnit := AdditionalUnit(d.additionalUnit, tariff, lk, cfg.additionalUnitDigits),
        transport := ResolveTransport(m, lk),
        incoterm := ResolveIncoterm(m, lk),
        subdivision := ResolveSubdivision(m, lk)))
  }

  /** Running the enrichment again with the same lookups changes nothing, in
      either mode: every field it writes is either kept or recomputed from the
      same inputs. */
  lemma SetIntrastatIdempotent(m: Move, cfg: Config, mode: RecomputeMode, lk: Lookups)
    ensures SetIntrastat(SetIntrastat(m, cfg, mode, lk), cfg, mode, lk) == SetIntrastat(m, cfg, mode, lk)
  {
    var r := SetIntrastat(m, cfg, mode, lk);
    if m.data.intrastatType.Some? {
      var r2 := SetIntrastat(r, cfg, mode, lk);
      assert r2.data.tariffCode == r.data.tariffCode;
      assert r2.data.additionalUnit == r.data.additionalUnit;
      assert r2.data.transport == r.data.transport;
      assert r2.data.incoterm == r.data.incoterm;
      assert r2.data.subdivision == r.data.subdivision;
    }
  }
}
