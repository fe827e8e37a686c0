/** `Move.update_intrastat_declaration`, `Move.reset_intrastat` and the
    shipment's `get_total_intrastat_value`: recomputing, clearing and summing
    the declared data of a batch of moves. */
module Declaration {
  import opened Wrappers
  import opened Records
  import opened Eligibility
  import opened Enrichment
  import opened Valuation

  /** What the base `_set_intrastat` writes on a declared move besides the
      value, as its own collaborators answer for this move. */
  datatype BaseWrites = BaseWrites(
    warehouseCountry: Option<CountryId>,
    country: Option<CountryId>,
    countryOfOrigin: Option<CountryId>,
    transaction: Option<TransactionId>,
    vat: Option<VatId>,
    declaration: Option<DeclarationId>)

  /** What the update obtains per move from code outside this model. */
  datatype MoveEnv = MoveEnv(
    base: BaseType,          // base type decision and countries
    baseWrites: BaseWrites,  // fields the base `_set_intrastat` fills on a declared move
    valuation: ValueEnv,     // collaborators of `_intrastat_value`
    lookups: Lookups,        // tariff, transport, incoterm and subdivision lookups
    weight: Option<real>)    // `_get_internal_weight(quantity, unit, product)`

  /** `_intrastat_value` can be computed for every move of the batch; the
      update raises otherwise. */
  predicate AllValuable(moves: seq<Move>, cfg: Config, envOf: MoveId -> MoveEnv) {
    forall i :: 0 <= i < |moves| ==> ValueDefined(moves[i], cfg, envOf(moves[i].id).valuation)
  }

  /** Whether the value can be computed does not depend on the Intrastat
      data. */
  lemma ValueDefinedIgnoresData(m: Move, d: IntrastatData, cfg: Config, env: ValueEnv)
    ensures ValueDefined(m.(data := d), cfg, env) <==> ValueDefined(m, cfg, env)
  {
    var m' := m.(data := d);
    assert m'.ShipmentPriceList() == m.ShipmentPriceList();
    assert m'.MoveDate() == m.MoveDate();
    assert InvoicePathTaken(m') == InvoicePathTaken(m);
  }

  /** The valuation reads the move, never its Intrastat data. */
  lemma ValueIgnoresData(m: Move, d: IntrastatData, cfg: Config, env: ValueEnv)
    ensures ValueDefined(m.(data := d), cfg, env) <==> ValueDefined(m, cfg, env)
    ensures ValueDefined(m, cfg, env) ==> IntrastatValue(m.(data := d), cfg, env) == IntrastatValue(m, cfg, env)
  {
    ValueDefinedIgnoresData(m, d, cfg, env);
    var m' := m.(data := d);
    if ValueDefined(m, cfg, env) {
      assert m'.ShipmentPriceList() == m.ShipmentPriceList();
      if m.ShipmentPriceList().None? {
        assert FromInvoices(m', cfg, env) == FromInvoices(m, cfg, env) by {
          assert m'.MoveDate() == m.MoveDate();
          assert MoveShares(m', cfg) == MoveShares(m, cfg);
          assert InvoicePathTaken(m') == InvoicePathTaken(m);
        }
        assert LandedOrBaseValue(m', env) == LandedOrBaseValue(m, env);
      }
    }
  }

  /** The base fields of the data are the ones the base writes. */
  predicate HasBaseWrites(d: IntrastatData, w: BaseWrites) {
    && d.warehouseCountry == w.warehouseCountry
    && d.country == w.country
    && d.countryOfOrigin == w.countryOfOrigin
    && d.transaction == w.transaction
    && d.vat == w.vat
    && d.declaration == w.declaration
  }

  /** The base `_set_intrastat`, as far as this module depends on it: the
      value `_intrastat_value` computes is written on every move, declared or
      not, and a declared move gets the base's countries, transaction, VAT
      number and declaration. */
  function BaseSetIntrastat(m: Move, d: IntrastatData, cfg: Config, env: MoveEnv): (r: IntrastatData)
    requires ValueDefined(m, cfg, env.valuation)
    ensures r.value == IntrastatValue(m, cfg, env.valuation)
    ensures d.intrastatType.Some? ==> HasBaseWrites(r, env.baseWrites)
    ensures d.intrastatType.None? ==> r == d.(value := r.value)
    ensures r.intrastatType == d.intrastatType && r.internalWeight == d.internalWeight
    ensures r.internalVolume == d.internalVolume && r.cancelled == d.cancelled
  {
    var v := d.(value := IntrastatValue(m, cfg, env.valuation));
    if d.intrastatType.None? then v
    else
      var w := env.baseWrites;
      v.(warehouseCountry := w.warehouseCountry, country := w.country,
         countryOfOrigin := w.countryOfOrigin, transaction := w.transaction,
         vat := w.vat, declaration := w.declaration)
  }

  /** Some invoice line of the move belongs to a cancelled invoice. */
  predicate LinkedToCancelledInvoice(m: Move) {
    exists i :: 0 <= i < |m.invoiceLines| && m.invoiceLines[i].invoice.Some?
      && m.invoiceLines[i].invoice.value.state == InvoiceCancelled
  }

  /** Why a move is handed to `reset_intrastat`: a cancelled invoice, or an
      exempt tax. */
  predicate ResetCause(m: Move, cfg: Config) {
    LinkedToCancelledInvoice(m) || MoveTaxIntrastatExempt(m, cfg)
  }

  /** The scan over the move's invoice lines for a cancelled invoice. */
  function AnyCancelledInvoice(lines: seq<MoveLine>): (r: bool)
    ensures r <==> (exists i :: 0 <= i < |lines| && lines[i].invoice.Some?
                                && lines[i].invoice.value.state == InvoiceCancelled)
  {
    if |lines| == 0 then false
    else if lines[0].invoice.Some? && lines[0].invoice.value.state == InvoiceCancelled then true
    else
      var rest := AnyCancelledInvoice(lines[1..]);
      assert forall i :: 1 <= i < |lines| ==> lines[i] == lines[1..][i - 1];
      rest
  }

  /** One pass of the update writes Intrastat data only, and never the volume
      or the cancelled mark. */
  predicate OnlyRecomputedFieldsDiffer(m: Move, r: Move) {
    && r == m.(data := r.data)
    && r.data.internalVolume == m.data.internalVolume
    && r.data.cancelled == m.data.cancelled
  }

  /** The weight written when the move has none (None or zero). */
  function DefaultWeight(env: MoveEnv): real {
    if Truthy(env.weight) then env.weight.value else 0.0
  }

  /** One iteration of the update loop for one move: the type is decided
      again, the base enrichment and then this module's run in update mode,
      and a missing weight is filled (with zero when none can be computed). */
  function Recompute(m: Move, cfg: Config, env: MoveEnv): (r: Move)
    requires ValueDefined(m, cfg, env.valuation)
    ensures r.data.intrastatType == IntrastatTypeOf(m, cfg, env.base)
    ensures OnlyRecomputedFieldsDiffer(m, r)
    ensures r.data.value == IntrastatValue(m, cfg, env.valuation)
    ensures r.data.intrastatType.Some? ==> HasBaseWrites(r.data, env.baseWrites)
    ensures r.data.internalWeight.Some?
    ensures Truthy(m.data.internalWeight) ==> r.data.internalWeight == m.data.internalWeight
    ensures !Truthy(m.data.internalWeight) ==> r.data.internalWeight == Some(DefaultWeight(env))
    ensures r.data.intrastatType.Some? ==>
      r.data.tariffCode == env.lookups.tariffWithCountry.Or(env.lookups.tariffByDate)
    // An undeclared move keeps every other field: only the type, the value
    // and the weight are written.
    ensures r.data.intrastatType.None? ==>
      r.data == m.data.(intrastatType := None, value := r.data.value, internalWeight := r.data.internalWeight)
  {
    var typed := m.data.(intrastatType := IntrastatTypeOf(m, cfg, env.base));
    var based := m.(data := BaseSetIntrastat(m, typed, cfg, env));
    var enriched := SetIntrastat(based, cfg, UpdateDeclaration, env.lookups);
    if Truthy(enriched.data.internalWeight) then enriched
    else enriched.(data := enriched.data.(internalWeight := Some(DefaultWeight(env))))
  }

  /** What `update_intrastat_declaration` produces: the recomputed moves, in
      order, and the ids it hands to `reset_intrastat`, in order. */
  datatype UpdateOutcome = UpdateOutcome(moves: seq<Move>, toReset: seq<MoveId>)

  /** The ids the loop collects for `reset_intrastat`, in order. */
  function ToReset(moves: seq<Move>, cfg: Config): (r: seq<MoveId>)
    ensures forall id :: id in r <==>
      exists i :: 0 <= i < |moves| && moves[i].id == id && ResetCause(moves[i], cfg)
    ensures |r| <= |moves|
  {
    if |moves| == 0 then []
    else
      var m := moves[0];
      assert forall i :: 1 <= i < |moves| ==> moves[i] == moves[1..][i - 1];
      var rest := ToReset(moves[1..], cfg);
      var flagged := if AnyCancelledInvoice(m.invoiceLines) || MoveTaxIntrastatExempt(m, cfg) then [m.id] else [];
      flagged + rest
  }

  /** `update_intrastat_declaration`. Every move is recomputed; exactly the
      moves linked to a cancelled invoice or carrying an exempt tax are
      flagged for reset. The reset writes the flagged records before the
      recomputed moves are saved, so the outcome names both and does not
      decide which one the database keeps. */
  function UpdateIntrastatDeclaration(moves: seq<Move>, cfg: Config, envOf: MoveId -> MoveEnv): (r: UpdateOutcome)
    requires AllValuable(moves, cfg, envOf)
    ensures |r.moves| == |moves|
    ensures forall i :: 0 <= i < |moves| ==> r.moves[i] == Recompute(moves[i], cfg, envOf(moves[i].id))
    ensures forall id :: id in r.toReset <==>
      exists i :: 0 <= i < |moves| && moves[i].id == id && ResetCause(moves[i], cfg)
    ensures |r.toReset| <= |moves|
  {
    UpdateOutcome(seq(|moves|, i requires 0 <= i < |moves| => Recompute(moves[i], cfg, envOf(moves[i].id))),
                  ToReset(moves, cfg))
  }

  /** The type decision does not read the Intrastat data of the move. */
  lemma TypeIgnoresData(m: Move, d: IntrastatData, cfg: Config, base: BaseType)
    ensures IntrastatTypeOf(m.(data := d), cfg, base) == IntrastatTypeOf(m, cfg, base)
  {
    var m' := m.(data := d);
    assert m'.ShipmentPriceList() == m.ShipmentPriceList();
    assert MoveTaxIntrastatExempt(m', cfg) == MoveTaxIntrastatExempt(m, cfg);
  }

  /** The enrichment does not read the weight, and does not write it. */
  lemma SetIntrastatIgnoresWeight(m: Move, w: Option<real>, cfg: Config, lk: Lookups)
    ensures SetIntrastat(m.(data := m.data.(internalWeight := w)), cfg, UpdateDeclaration, lk)
         == SetIntrastat(m, cfg, UpdateDeclaration, lk).(data := SetIntrastat(m, cfg, UpdateDeclaration, lk).data.(internalWeight := w))
  {
    var m' := m.(data := m.data.(internalWeight := w));
    assert m'.ShipmentPriceList() == m.ShipmentPriceList();
  }

  /** Recomputing a recomputed move changes nothing when the collaborators
      answer as before: the type, the value and the base's fields are
      recomputed from inputs the update does not write, and every enriched
      field is kept or resolved again to the same answer. */
  lemma RecomputeIdempotent(m: Move, cfg: Config, env: MoveEnv)
    requires ValueDefined(m, cfg, env.valuation)
    ensures ValueDefined(Recompute(m, cfg, env), cfg, env.valuation)
    ensures Recompute(Recompute(m, cfg, env), cfg, env) == Recompute(m, cfg, env)
  {
    var t := IntrastatTypeOf(m, cfg, env.base);
    var based := m.(data := BaseSetIntrastat(m, m.data.(intrastatType := t), cfg, env));
    var enriched := SetIntrastat(based, cfg, UpdateDeclaration, env.lookups);
    var r := Recompute(m, cfg, env);
    assert r == enriched.(data := enriched.data.(internalWeight := r.data.internalWeight));
    ValueIgnoresData(m, r.data, cfg, env.valuation);
    TypeIgnoresData(m, r.data, cfg, env.base);
    assert r.(data := r.data.(intrastatType := t)) == r;
    // The base writes again what it wrote.
    assert BaseSetIntrastat(r, r.data, cfg, env) == r.data;
    SetIntrastatIgnoresWeight(enriched, r.data.internalWeight, cfg, env.lookups);
    SetIntrastatIdempotent(based, cfg, UpdateDeclaration, env.lookups);
    assert SetIntrastat(r, cfg, UpdateDeclaration, env.lookups) == r;
  }

  /** A recomputed move is flagged for the same reason as before: the update
      reads the invoice lines, the origin and the configuration, and writes
      none of them. */
  lemma RecomputeKeepsResetCause(m: Move, cfg: Config, env: MoveEnv)
    requires ValueDefined(m, cfg, env.valuation)
    ensures ResetCause(Recompute(m, cfg, env), cfg) <==> ResetCause(m, cfg)
  {
    var r := Recompute(m, cfg, env);
    assert r.invoiceLines == m.invoiceLines && r.origin == m.origin;
    assert MoveTaxIntrastatExempt(r, cfg) == MoveTaxIntrastatExempt(m, cfg);
  }

  /** Running the update on its own output, with collaborators that answer as
      before, gives the same moves and flags the same ids. */
  lemma {:induction false} UpdateIdempotent(moves: seq<Move>, cfg: Config, envOf: MoveId -> MoveEnv)
    requires AllValuable(moves, cfg, envOf)
    ensures AllValuable(UpdateIntrastatDeclaration(moves, cfg, envOf).moves, cfg, envOf)
    ensures var once := UpdateIntrastatDeclaration(moves, cfg, envOf);
            var twice := UpdateIntrastatDeclaration(once.moves, cfg, envOf);
            twice.moves == once.moves && (forall id :: id in twice.toReset <==> id in once.toReset)
  {
    var once := UpdateIntrastatDeclaration(moves, cfg, envOf);
    forall i | 0 <= i < |moves|
      ensures ValueDefined(once.moves[i], cfg, envOf(once.moves[i].id).valuation)
      ensures once.moves[i].id == moves[i].id
    {
      RecomputeIdempotent(moves[i], cfg, envOf(moves[i].id));
    }
    var twice := UpdateIntrastatDeclaration(once.moves, cfg, envOf);
    forall i | 0 <= i < |moves|
      ensures twice.moves[i] == once.moves[i]
      ensures ResetCause(once.moves[i], cfg) <==> ResetCause(moves[i], cfg)
    {
      RecomputeIdempotent(moves[i], cfg, envOf(moves[i].id));
      RecomputeKeepsResetCause(moves[i], cfg, envOf(moves[i].id));
    }
  }

  /** The Intrastat data with all sixteen fields null. */
  const Cleared := IntrastatData(
    internalVolume := None, internalWeight := None, additionalUnit := None,
    country := None, countryOfOrigin := None, declaration := None,
    subdivision := None, tariffCode := None, transaction := None,
    intrastatType := None, value := None, vat := None,
    warehouseCountry := None, incoterm := None, transport := None,
    cancelled := None)

  /** `reset_intrastat` on one move. */
  function ResetMove(m: Move): Move {
    m.(data := Cleared)
  }

  /** `reset_intrastat`: every given move loses all its Intrastat data,
      including the cancelled mark; nothing else about it changes. */
  function ResetIntrastat(moves: seq<Move>): (r: seq<Move>)
    ensures |r| == |moves|
    ensures forall i :: 0 <= i < |moves| ==> r[i] == moves[i].(data := Cleared)
  {
    if |moves| == 0 then []
    else [ResetMove(moves[0])] + ResetIntrastat(moves[1..])
  }

  /** A move counts in its shipment's total: declared, with a non-zero value. */
  predicate CountsInTotal(m: Move) {
    m.data.intrastatType.Some? && Truthy(m.data.value)
  }

  /** What one move adds to the shipment's total. */
  function Contribution(m: Move): (r: real)
    // Only a declared move with a value adds anything, and what it adds is
    // that value.
    ensures r != 0.0 ==> m.data.intrastatType.Some? && m.data.value == Some(r)
    ensures m.data.intrastatType.None? || m.data.value.None? ==> r == 0.0
  {
    if CountsInTotal(m) then m.data.value.value else 0.0
  }

  /** Sum of the contributions, the last move added last. */
  function DeclaredTotal(moves: seq<Move>): real {
    if |moves| == 0 then 0.0
    else DeclaredTotal(moves[..|moves| - 1]) + Contribution(moves[|moves| - 1])
  }

  /** `ShipmentMixin.get_total_intrastat_value`. */
  method GetTotalIntrastatValue(moves: seq<Move>) returns (total: real)
    ensures total == DeclaredTotal(moves)
  {
    total := 0.0;
    var i := 0;
    while i < |moves|
      invariant 0 <= i <= |moves|
      invariant total == DeclaredTotal(moves[..i])
    {
      if moves[i].data.intrastatType.Some? && moves[i].data.value.Some? && moves[i].data.value.value != 0.0 {
        total := total + moves[i].data.value.value;
      }
      assert moves[..i + 1][..i] == moves[..i];
      i := i + 1;
    }
    assert moves[..i] == moves;
  }

  /** The total of two groups of moves is the sum of their totals. */
  lemma {:induction false} DeclaredTotalConcat(a: seq<Move>, b: seq<Move>)
    ensures DeclaredTotal(a + b) == DeclaredTotal(a) + DeclaredTotal(b)
    decreases |b|
  {
    if |b| == 0 {
      assert a + b == a;
    } else {
      var b' := b[..|b| - 1];
      assert (a + b)[..|a + b| - 1] == a + b';
      assert (a + b)[|a + b| - 1] == b[|b| - 1];
      DeclaredTotalConcat(a, b');
    }
  }

  /** Moves that do not count add nothing: only declared moves with a
      non-zero value make up the total. */
  lemma {:induction false} UncountedMovesAddNothing(moves: seq<Move>)
    requires forall i :: 0 <= i < |moves| ==> !CountsInTotal(moves[i])
    ensures DeclaredTotal(moves) == 0.0
    decreases |moves|
  {
    if |moves| > 0 {
      UncountedMovesAddNothing(moves[..|moves| - 1]);
    }
  }

  /** After `reset_intrastat` a shipment's moves total zero. */
  lemma ResetShipmentTotalsZero(moves: seq<Move>)
    ensures DeclaredTotal(ResetIntrastat(moves)) == 0.0
  {
    UncountedMovesAddNothing(ResetIntrastat(moves));
  }
}
