/** `IntrastatUpdate.transition_update`: the moves the update wizard selects
    for a period, all passed to one batch update. */
module UpdateWizard {
  import opened Wrappers
  import opened Records
  import opened Valuation
  import opened Declaration

  /** An accounting period, both bounds included. */
  datatype Period = Period(start: Date, end: Date)

  /** The shipment is a supplier or customer shipment or a return of one. */
  predicate DeclarableShipment(s: Option<Shipment>) {
    s.Some? && s.value.kind in {ShipmentIn, ShipmentOut, ShipmentInReturn, ShipmentOutReturn}
  }

  /** The search domain of the wizard. */
  predicate Selected(m: Move, p: Period) {
    && DeclarableShipment(m.shipment)
    && m.state == Done
    && m.effectiveDate.Some?
    && p.start.OnOrBefore(m.effectiveDate.value)
    && m.effectiveDate.value.OnOrBefore(p.end)
  }

  /** The moves matching the domain, in their order. */
  function SelectMoves(moves: seq<Move>, p: Period): (r: seq<Move>)
    ensures |r| <= |moves|
    ensures forall m :: m in r <==> m in moves && Selected(m, p)
  {
    if |moves| == 0 then []
    else
      var rest := SelectMoves(moves[1..], p);
      assert forall m :: m in moves <==> m == moves[0] || m in moves[1..];
      if Selected(moves[0], p) then [moves[0]] + rest else rest
  }

  /** `_intrastat_value` can be computed for every selected move; the update
      raises otherwise. */
  predicate SelectionValuable(moves: seq<Move>, p: Period, cfg: Config, envOf: MoveId -> MoveEnv) {
    forall m :: m in moves && Selected(m, p) ==> ValueDefined(m, cfg, envOf(m.id).valuation)
  }

  /** The batch the wizard hands to the update can be valued. */
  lemma SelectedValuable(moves: seq<Move>, p: Period, cfg: Config, envOf: MoveId -> MoveEnv)
    requires SelectionValuable(moves, p, cfg, envOf)
    ensures AllValuable(SelectMoves(moves, p), cfg, envOf)
  {
    var selected := SelectMoves(moves, p);
    forall i | 0 <= i < |selected|
      ensures ValueDefined(selected[i], cfg, envOf(selected[i].id).valuation)
    {
      assert selected[i] in selected;
    }
  }

  /** `transition_update`: one update over the selected moves. Each move it
      recomputes was selected, and each selected move is recomputed. */
  function TransitionUpdate(moves: seq<Move>, p: Period, cfg: Config, envOf: MoveId -> MoveEnv): (r: UpdateOutcome)
    requires SelectionValuable(moves, p, cfg, envOf)
    ensures forall i :: 0 <= i < |r.moves| ==>
      exists m :: m in moves && Selected(m, p) && r.moves[i] == Recompute(m, cfg, envOf(m.id))
    ensures forall m :: m in moves && Selected(m, p) ==> Recompute(m, cfg, envOf(m.id)) in r.moves
    ensures forall id :: id in r.toReset ==>
      exists m :: m in moves && Selected(m, p) && m.id == id && ResetCause(m, cfg)
  {
    SelectedValuable(moves, p, cfg, envOf);
    UpdatedWereSelected(moves, p, cfg, envOf);
    SelectedWereUpdated(moves, p, cfg, envOf);
    FlaggedWereSelected(moves, p, cfg, envOf);
    UpdateIntrastatDeclaration(SelectMoves(moves, p), cfg, envOf)
  }

  /** Every recomputed move was selected. */
  lemma UpdatedWereSelected(moves: seq<Move>, p: Period, cfg: Config, envOf: MoveId -> MoveEnv)
    requires SelectionValuable(moves, p, cfg, envOf)
    ensures AllValuable(SelectMoves(moves, p), cfg, envOf)
    ensures var r := UpdateIntrastatDeclaration(SelectMoves(moves, p), cfg, envOf);
      forall i :: 0 <= i < |r.moves| ==>
        exists m :: m in moves && Selected(m, p) && r.moves[i] == Recompute(m, cfg, envOf(m.id))
  {
    SelectedValuable(moves, p, cfg, envOf);
    var selected := SelectMoves(moves, p);
    var r := UpdateIntrastatDeclaration(selected, cfg, envOf);
    forall i | 0 <= i < |r.moves|
      ensures exists m :: m in moves && Selected(m, p) && r.moves[i] == Recompute(m, cfg, envOf(m.id))
    {
      assert selected[i] in selected;
    }
  }

  /** Every selected move is recomputed. */
  lemma SelectedWereUpdated(moves: seq<Move>, p: Period, cfg: Config, envOf: MoveId -> MoveEnv)
    requires SelectionValuable(moves, p, cfg, envOf)
    ensures AllValuable(SelectMoves(moves, p), cfg, envOf)
    ensures var r := UpdateIntrastatDeclaration(SelectMoves(moves, p), cfg, envOf);
      forall m :: m in moves && Selected(m, p) ==> Recompute(m, cfg, envOf(m.id)) in r.moves
  {
    SelectedValuable(moves, p, cfg, envOf);
    var selected := SelectMoves(moves, p);
    var r := UpdateIntrastatDeclaration(selected, cfg, envOf);
    forall m | m in moves && Selected(m, p)
      ensures Recompute(m, cfg, envOf(m.id)) in r.moves
    {
      assert m in selected;
      var i :| 0 <= i < |selected| && selected[i] == m;
      assert r.moves[i] == Recompute(selected[i], cfg, envOf(selected[i].id));
    }
  }

  /** Every flagged id is that of a selected move with a reset cause. */
  lemma FlaggedWereSelected(moves: seq<Move>, p: Period, cfg: Config, envOf: MoveId -> MoveEnv)
    requires SelectionValuable(moves, p, cfg, envOf)
    ensures AllValuable(SelectMoves(moves, p), cfg, envOf)
    ensures var r := UpdateIntrastatDeclaration(SelectMoves(moves, p), cfg, envOf);
      forall id :: id in r.toReset ==>
        exists m :: m in moves && Selected(m, p) && m.id == id && ResetCause(m, cfg)
  {
    SelectedValuable(moves, p, cfg, envOf);
    var selected := SelectMoves(moves, p);
    var r := UpdateIntrastatDeclaration(selected, cfg, envOf);
    forall id | id in r.toReset
      ensures exists m :: m in moves && Selected(m, p) && m.id == id && ResetCause(m, cfg)
    {
      var i :| 0 <= i < |selected| && selected[i].id == id && ResetCause(selected[i], cfg);
      assert selected[i] in selected;
    }
  }

  /** Moves of internal shipments, and moves with no shipment, are never
      selected, whatever their state and date. */
  lemma InternalMovesNeverSelected(moves: seq<Move>, p: Period, m: Move)
    requires m.shipment.None? || m.InInternalShipment()
    ensures m !in SelectMoves(moves, p)
  {
  }

  /** A done move of a declarable shipment is selected on the first and on the
      last day of the period alike. */
  lemma BoundsIncluded(m: Move, p: Period)
    requires DeclarableShipment(m.shipment) && m.state == Done
    requires p.start.OnOrBefore(p.end)
    requires m.effectiveDate == Some(p.start) || m.effectiveDate == Some(p.end)
    ensures Selected(m, p)
  {
  }

  /** A move dated outside the period is not selected. */
  lemma OutsidePeriodNotSelected(m: Move, p: Period)
    requires m.effectiveDate.Some?
    requires !p.start.OnOrBefore(m.effectiveDate.value) || !m.effectiveDate.value.OnOrBefore(p.end)
    ensures !Selected(m, p)
  {
  }
}
