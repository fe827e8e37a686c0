/** Concrete situations from the module's scenario tests, stated over the
    model: the values a dispatch is declared with, and a second update that
    leaves an exempt and a declared move as they were. */
module Scenarios {
  import opened Wrappers
  import opened Records
  import opened Rounding
  import opened Eligibility
  import opened Enrichment
  import opened Valuation
  import opened Declaration

  const Belgium: CountryId := 1
  const France: CountryId := 2
  const China: CountryId := 3
  /** The transaction with code 11, an outright sale. */
  const OutrightSale: TransactionId := 11
  const Euro: CurrencyId := 1
  const ExemptTax: TaxId := 7
  const Furniture := TariffCode(940310, Some(1))

  /** A Belgian company that declares Intrastat. */
  const Home := Company(true, Some(Belgium), Some(Euro), true)

  const Settings := Config({ExemptTax}, None, true, true, false, 2)

  function ShipmentOf(kind: ShipmentKind, priceList: Option<PriceListId>): Shipment {
    Shipment(kind, priceList, None, {}, [], [], None, None, None)
  }

  /** A done move of the company with no invoice and no Intrastat data yet. */
  function PlainMove(id: MoveId, shipment: Shipment, origin: Origin, quantity: real, unitPrice: real, data: IntrastatData): Move {
    Move(id, Done, Some(Home), Some(shipment), origin, [], quantity,
         Some(Date(2024, 3, 15)), None, Some(unitPrice), None, Some(Euro), 0.0, data)
  }

  /** Ten units sent on an internal shipment whose price list prices them at
      100.00 are declared at 1000.00. */
  lemma PriceListDispatchValue(env: ValueEnv)
    requires env.priceListPrice == Some(100.0)
    ensures IntrastatValue(PlainMove(1, ShipmentOf(ShipmentInternal, Some(1)), NoOrigin, 10.0, 0.0, Cleared), Settings, env)
         == Some(1000.0)
  {
    assert OnGrid(1000.0, ValueDigits) by {
      assert Scale(1000.0, ValueDigits) == 100000.0;
      assert (100000.0).Floor == 100000;
    }
    RoundFixesGrid(1000.0, ValueDigits);
  }

  /** Twenty units at 90 sent to a customer, with no invoice and no landed
      cost, are declared at the base value the stock module supplies, here
      1800.00. */
  lemma CustomerDispatchValue(env: ValueEnv)
    requires !env.landedCostsFound && env.baseValue == 20.0 * 90.0
    ensures IntrastatValue(PlainMove(2, ShipmentOf(ShipmentOut, None), NoOrigin, 20.0, 90.0, Cleared), Settings, env)
         == Some(1800.0)
  {
    var m := PlainMove(2, ShipmentOf(ShipmentOut, None), NoOrigin, 20.0, 90.0, Cleared);
    assert !InvoicePathTaken(m);
  }

  /** The sale move with an exempt tax, as the first update left it: no
      classification, value 400.00. */
  const ExemptMove := PlainMove(3, ShipmentOf(ShipmentOut, None), SaleLineOrigin(None, {ExemptTax}), 10.0, 40.0,
    Cleared.(value := Some(400.0), internalWeight := Some(8.0)))

  /** What the base writes on the declared dispatch: sent from a Belgian
      warehouse to France, goods of Chinese origin, an outright sale. */
  const DispatchWrites := BaseWrites(Some(Belgium), Some(France), Some(China), Some(OutrightSale), None, None)

  /** The declared dispatch of the same sale, as the first update left it:
      value 300.00, additional unit 5, and the base's countries and
      transaction. */
  const DispatchMove := PlainMove(4, ShipmentOf(ShipmentOut, None), SaleLineOrigin(None, {}), 5.0, 60.0,
    Cleared.(intrastatType := Some(Dispatch), tariffCode := Some(Furniture), additionalUnit := Some(5.0),
             transport := Some(3), incoterm := Some(1), subdivision := Some(2),
             warehouseCountry := Some(Belgium), country := Some(France), countryOfOrigin := Some(China),
             transaction := Some(OutrightSale), value := Some(300.0), internalWeight := Some(4.0)))

  /** The base decides a dispatch from Belgium to France for both moves. */
  const SaleBase := BaseType(Some(Dispatch), Some(Belgium), Some(France))

  /** The collaborators answer for the two moves as they did in the first
      update: no landed costs, base values 400.00 and 300.00. */
  predicate SaleEnv(envOf: MoveId -> MoveEnv) {
    && envOf(3).base == SaleBase && envOf(4).base == SaleBase
    && envOf(4).baseWrites == DispatchWrites
    && !envOf(3).valuation.landedCostsFound && envOf(3).valuation.baseValue == 400.0
    && !envOf(4).valuation.landedCostsFound && envOf(4).valuation.baseValue == 300.0
    && envOf(4).lookups.tariffWithCountry == Some(Furniture)
  }

  /** Recomputing the exempt move leaves it as it was. */
  lemma ExemptMoveStays(env: MoveEnv)
    requires env.base == SaleBase && !env.valuation.landedCostsFound && env.valuation.baseValue == 400.0
    ensures ValueDefined(ExemptMove, Settings, env.valuation)
    ensures Recompute(ExemptMove, Settings, env) == ExemptMove
  {
    assert !InvoicePathTaken(ExemptMove);
    assert IntrastatValue(ExemptMove, Settings, env.valuation) == Some(400.0);
    assert MoveTaxIntrastatExempt(ExemptMove, Settings) by {
      assert ExemptTax in ExemptMove.origin.taxes;
    }
    assert IntrastatTypeOf(ExemptMove, Settings, SaleBase).None?;
  }

  /** Recomputing the declared dispatch leaves it as it was. */
  lemma DispatchMoveStays(env: MoveEnv)
    requires env.base == SaleBase && env.baseWrites == DispatchWrites
    requires !env.valuation.landedCostsFound && env.valuation.baseValue == 300.0
    requires env.lookups.tariffWithCountry == Some(Furniture)
    ensures ValueDefined(DispatchMove, Settings, env.valuation)
    ensures Recompute(DispatchMove, Settings, env) == DispatchMove
  {
    assert !InvoicePathTaken(DispatchMove);
    assert IntrastatValue(DispatchMove, Settings, env.valuation) == Some(300.0);
    assert !MoveTaxIntrastatExempt(DispatchMove, Settings);
    assert IntrastatTypeOf(DispatchMove, Settings, SaleBase) == Some(Dispatch);
  }

  /** A second update of the two moves changes neither: the exempt move keeps
      no classification and its value 400.00, the dispatch keeps value 300.00,
      warehouse country Belgium, destination France, origin China and
      transaction 11. Only the exempt move is flagged for reset. */
  lemma SecondUpdateKeepsBothMoves(envOf: MoveId -> MoveEnv)
    requires SaleEnv(envOf)
    ensures AllValuable([ExemptMove, DispatchMove], Settings, envOf)
    ensures var out := UpdateIntrastatDeclaration([ExemptMove, DispatchMove], Settings, envOf);
      && out.moves == [ExemptMove, DispatchMove]
      && out.moves[0].data.intrastatType.None? && out.moves[0].data.value == Some(400.0)
      && out.moves[1].data.intrastatType == Some(Dispatch) && out.moves[1].data.value == Some(300.0)
      && out.moves[1].data.warehouseCountry == Some(Belgium) && out.moves[1].data.country == Some(France)
      && out.moves[1].data.countryOfOrigin == Some(China) && out.moves[1].data.transaction == Some(OutrightSale)
      && (forall id :: id in out.toReset <==> id == ExemptMove.id)
  {
    ExemptMoveStays(envOf(3));
    DispatchMoveStays(envOf(4));
    var out := UpdateIntrastatDeclaration([ExemptMove, DispatchMove], Settings, envOf);
    assert MoveTaxIntrastatExempt(ExemptMove, Settings) by {
      assert ExemptTax in ExemptMove.origin.taxes;
    }
    assert !MoveTaxIntrastatExempt(DispatchMove, Settings);
    assert !LinkedToCancelledInvoice(DispatchMove);
    assert out.moves == [ExemptMove, DispatchMove];
  }
}
