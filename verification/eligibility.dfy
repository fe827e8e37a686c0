/** `Move.on_change_with_intrastat_type`, `Move.move_tax_intrastat_exempt` and
    the country overrides for internal shipments valued with a price list:
    whether a stock move is declared at all. */
module Eligibility {
  import opened Wrappers
  import opened Records

  /** Some tax of some line is in `exempt`. */
  function AnyLineTaxIn(lines: seq<MoveLine>, exempt: set<TaxId>): (r: bool)
    ensures r <==> exists i, t :: 0 <= i < |lines| && t in lines[i].line.taxes && t in exempt
  {
    if |lines| == 0 then false
    else if exists t :: t in lines[0].line.taxes && t in exempt then true
    else
      var rest := AnyLineTaxIn(lines[1..], exempt);
      assert rest <==> exists i, t :: 1 <= i < |lines| && t in lines[i].line.taxes && t in exempt by {
        if rest {
          var i, t :| 0 <= i < |lines[1..]| && t in lines[1..][i].line.taxes && t in exempt;
          assert lines[i + 1] == lines[1..][i];
        }
        if exists i, t :: 1 <= i < |lines| && t in lines[i].line.taxes && t in exempt {
          var i, t :| 1 <= i < |lines| && t in lines[i].line.taxes && t in exempt;
          assert lines[1..][i - 1] == lines[i];
        }
      }
      rest
  }

  /** The origin is a sale line one of whose taxes is in `exempt`. */
  predicate SaleLineTaxIn(origin: Origin, exempt: set<TaxId>) {
    origin.SaleLineOrigin? && exists t :: t in origin.taxes && t in exempt
  }

  /** `move_tax_intrastat_exempt`: with a non-empty set of exempt taxes, some
      invoice-line tax is exempt, or (when moves know their sale) the move comes
      from a sale line with an exempt tax. */
  function MoveTaxIntrastatExempt(m: Move, cfg: Config): (r: bool)
    ensures cfg.exemptTaxes == {} ==> !r
    ensures cfg.exemptTaxes != {} ==>
      (r <==> (exists i, t :: 0 <= i < |m.invoiceLines| && t in m.invoiceLines[i].line.taxes && t in cfg.exemptTaxes)
              || (cfg.saleInstalled && m.origin.SaleLineOrigin?
                  && exists t :: t in m.origin.taxes && t in cfg.exemptTaxes))
  {
    if cfg.exemptTaxes == {} then false
    else if AnyLineTaxIn(m.invoiceLines, cfg.exemptTaxes) then true
    else if cfg.saleInstalled && SaleLineTaxIn(m.origin, cfg.exemptTaxes) then true
    else false
  }

  /** `intrastat_from_country`: the internal shipment's own country when it is
      valued with a price list and carries one, else the base result. */
  function IntrastatFromCountry(m: Move, cfg: Config, baseFrom: Option<CountryId>): Option<CountryId> {
    if m.ShipmentPriceList().Some? && cfg.internalShipmentCountries then m.shipment.value.intrastatFromCountry
    else baseFrom
  }

  /** `intrastat_to_country` and `_get_intrastat_to_country`. */
  function IntrastatToCountry(m: Move, cfg: Config, baseTo: Option<CountryId>): Option<CountryId> {
    if m.ShipmentPriceList().Some? && cfg.internalShipmentCountries then m.shipment.value.intrastatToCountry
    else baseTo
  }

  /** What the decision obtains from the base implementation. */
  datatype BaseType = BaseType(
    intrastatType: Option<IntrastatType>,   // `super().on_change_with_intrastat_type()`
    fromCountry: Option<CountryId>,         // `super().intrastat_from_country`
    toCountry: Option<CountryId>)           // `super().intrastat_to_country`

  /** The company is missing or does not declare Intrastat. */
  predicate CompanyOff(m: Move) {
    m.company.None? || !m.company.value.intrastat
  }

  /** The move is in an internal shipment that is not declared: it has no price
      list, or the move is not one of its outgoing moves. */
  predicate InternalUndeclared(m: Move) {
    m.InInternalShipment()
    && (m.shipment.value.priceList.None? || m.id !in m.shipment.value.outgoingMoves)
  }

  /** Both ends and the company country are known and neither end is the
      company's country. */
  predicate BothEndsAbroad(from: Option<CountryId>, to: Option<CountryId>, company: Option<CountryId>) {
    from.Some? && to.Some? && company.Some? && from != company && to != company
  }

  /** `on_change_with_intrastat_type`. */
  function IntrastatTypeOf(m: Move, cfg: Config, base: BaseType): (r: Option<IntrastatType>)
    ensures CompanyOff(m) || InternalUndeclared(m) ==> r.None?
    ensures !CompanyOff(m)
      && BothEndsAbroad(IntrastatFromCountry(m, cfg, base.fromCountry),
                        IntrastatToCountry(m, cfg, base.toCountry), m.company.value.country)
      ==> r.None?
    ensures MoveTaxIntrastatExempt(m, cfg) ==> r.None?
    ensures r.Some? ==> r == base.intrastatType
    ensures !CompanyOff(m) && !InternalUndeclared(m) && !MoveTaxIntrastatExempt(m, cfg)
      && !BothEndsAbroad(IntrastatFromCountry(m, cfg, base.fromCountry),
                         IntrastatToCountry(m, cfg, base.toCountry), m.company.value.country)
      ==> r == base.intrastatType
  {
    if CompanyOff(m) || InternalUndeclared(m) then None
    else
      var from := IntrastatFromCountry(m, cfg, base.fromCountry);
      var to := IntrastatToCountry(m, cfg, base.toCountry);
      if BothEndsAbroad(from, to, m.company.value.country) then None
      else if MoveTaxIntrastatExempt(m, cfg) then None
      else base.intrastatType
  }

  /** An exempt move is never declared, whatever its countries and whatever the
      base decision. */
  lemma ExemptNeverDeclared(m: Move, cfg: Config, base: BaseType)
    requires cfg.exemptTaxes != {}
    requires exists i :: 0 <= i < |m.invoiceLines| && m.invoiceLines[i].line.taxes * cfg.exemptTaxes != {}
    ensures IntrastatTypeOf(m, cfg, base).None?
  {
    var i :| 0 <= i < |m.invoiceLines| && m.invoiceLines[i].line.taxes * cfg.exemptTaxes != {};
    var t :| t in m.invoiceLines[i].line.taxes * cfg.exemptTaxes;
  }

  /** A move of an internal shipment is declared only when the shipment is
      valued with a price list and the move is one of its outgoing moves. */
  lemma DeclaredInternalMoveIsPricedOutgoing(m: Move, cfg: Config, base: BaseType)
    requires m.InInternalShipment()
    requires IntrastatTypeOf(m, cfg, base).Some?
    ensures m.ShipmentPriceList().Some? && m.id in m.shipment.value.outgoingMoves
  {
  }

  /** A declared move has the company's country at one of its ends, or one of
      the three countries is unknown. */
  lemma DeclaredMoveTouchesCompanyCountry(m: Move, cfg: Config, base: BaseType)
    requires IntrastatTypeOf(m, cfg, base).Some?
    ensures m.company.Some? && m.company.value.intrastat
    ensures var from := IntrastatFromCountry(m, cfg, base.fromCountry);
            var to := IntrastatToCountry(m, cfg, base.toCountry);
            var home := m.company.value.country;
            from.None? || to.None? || home.None? || from == home || to == home
  {
  }
}
