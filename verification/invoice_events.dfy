/** The Intrastat side of the invoice transitions `_post`, `cancel` and
    `draft`: which stock moves they touch, what they write on them before the
    update runs, and the update they run. The moves are read from a store
    holding their state after the base transition. */
module InvoiceEvents {
  import opened Wrappers
  import opened Records
  import opened Valuation
  import opened Declaration

  /** The stock moves, by id, as the base transition left them. */
  type Store = map<MoveId, Move>

  /** The moves linked to the given lines, line by line. */
  function LineMoves(lines: seq<InvoiceLine>): (r: seq<MoveId>)
    ensures forall id :: id in r <==> exists k :: 0 <= k < |lines| && id in lines[k].stockMoves
  {
    if |lines| == 0 then []
    else
      var rest := LineMoves(lines[1..]);
      assert forall k :: 1 <= k < |lines| ==> lines[k] == lines[1..][k - 1];
      lines[0].stockMoves + rest
  }

  /** The moves linked to any line of the given invoices, invoice by invoice
      and line by line; a move linked to several lines appears once per line. */
  function LinkedMoves(invs: seq<Invoice>): (r: seq<MoveId>)
    ensures forall id :: id in r <==>
      exists j, k :: 0 <= j < |invs| && 0 <= k < |invs[j].lines| && id in invs[j].lines[k].stockMoves
  {
    if |invs| == 0 then []
    else
      var rest := LinkedMoves(invs[1..]);
      assert forall j :: 1 <= j < |invs| ==> invs[j] == invs[1..][j - 1];
      LineMoves(invs[0].lines) + rest
  }

  /** The store has a move for every id. */
  predicate Knows(store: Store, ids: seq<MoveId>) {
    forall id :: id in ids ==> id in store
  }

  /** The moves behind the ids, in the same order. */
  function Fetch(store: Store, ids: seq<MoveId>): seq<Move>
    requires Knows(store, ids)
  {
    seq(|ids|, i requires 0 <= i < |ids| => store[ids[i]])
  }

  /** `_intrastat_value` can be computed for the move behind every id. */
  predicate StoreValuable(store: Store, ids: seq<MoveId>, cfg: Config, envOf: MoveId -> MoveEnv)
    requires Knows(store, ids)
  {
    forall id :: id in ids ==> ValueDefined(store[id], cfg, envOf(store[id].id).valuation)
  }

  /** `_post`, after the base post: the update runs on every move linked to a
      line of the posted invoices, and on nothing else. */
  function Post(store: Store, invs: seq<Invoice>, cfg: Config, envOf: MoveId -> MoveEnv): (r: UpdateOutcome)
    requires Knows(store, LinkedMoves(invs)) && StoreValuable(store, LinkedMoves(invs), cfg, envOf)
    // Move by move, in the order of the invoices and their lines.
    ensures |r.moves| == |LinkedMoves(invs)|
    ensures forall i :: 0 <= i < |r.moves| ==>
      r.moves[i] == Recompute(store[LinkedMoves(invs)[i]], cfg, envOf(store[LinkedMoves(invs)[i]].id))
  {
    var ids := LinkedMoves(invs);
    var moves := Fetch(store, ids);
    assert AllValuable(moves, cfg, envOf) by {
      forall i | 0 <= i < |moves|
        ensures ValueDefined(moves[i], cfg, envOf(moves[i].id).valuation)
      {
        assert ids[i] in ids;
      }
    }
    UpdateIntrastatDeclaration(moves, cfg, envOf)
  }

  /** The move r carries the value `_intrastat_value` computes for m and, if
      declared, the base's declaration for m. */
  predicate Revalued(r: Move, m: Move, cfg: Config, env: MoveEnv) {
    && ValueDefined(m, cfg, env.valuation)
    && r.data.value == IntrastatValue(m, cfg, env.valuation)
    && (r.data.intrastatType.Some? ==> r.data.declaration == env.baseWrites.declaration)
  }

  /** `_post` re-values the moves of the posted invoices: each move it
      produces carries the value `_intrastat_value` now computes for it, and a
      declared one carries the base's declaration. */
  lemma PostRevalues(store: Store, invs: seq<Invoice>, cfg: Config, envOf: MoveId -> MoveEnv)
    requires Knows(store, LinkedMoves(invs)) && StoreValuable(store, LinkedMoves(invs), cfg, envOf)
    ensures var ids := LinkedMoves(invs);
      var r := Post(store, invs, cfg, envOf);
      forall i :: 0 <= i < |r.moves| ==> Revalued(r.moves[i], store[ids[i]], cfg, envOf(store[ids[i]].id))
  {
    var ids := LinkedMoves(invs);
    var r := Post(store, invs, cfg, envOf);
    forall i | 0 <= i < |r.moves|
      ensures Revalued(r.moves[i], store[ids[i]], cfg, envOf(store[ids[i]].id))
    {
      assert ids[i] in ids;
      RecomputeRevalues(store[ids[i]], cfg, envOf(store[ids[i]].id));
    }
  }

  /** One recomputed move is re-valued. */
  lemma RecomputeRevalues(m: Move, cfg: Config, env: MoveEnv)
    requires ValueDefined(m, cfg, env.valuation)
    ensures Revalued(Recompute(m, cfg, env), m, cfg, env)
  {
  }

  /** What a transition wrote on a move before running the update. */
  datatype Transition = Transition(written: seq<Move>, outcome: UpdateOutcome)

  /** What `cancel` writes: the move is marked cancelled and leaves the
      declaration, with no type. */
  function MarkCancelled(m: Move): Move {
    m.(data := m.data.(cancelled := Some(true), intrastatType := None, declaration := None))
  }

  /** The ids whose move currently has a type, in order. */
  function WithType(store: Store, ids: seq<MoveId>): (r: seq<MoveId>)
    requires Knows(store, ids)
    ensures Knows(store, r)
    ensures forall id :: id in r <==> id in ids && store[id].data.intrastatType.Some?
  {
    if |ids| == 0 then []
    else
      var rest := WithType(store, ids[1..]);
      if store[ids[0]].data.intrastatType.Some? then [ids[0]] + rest else rest
  }

  /** `cancel`, after the base cancel: the linked moves that have a type are
      marked cancelled, lose their type and declaration, and are updated;
      linked moves without a type are left alone. */
  function Cancel(store: Store, invs: seq<Invoice>, cfg: Config, envOf: MoveId -> MoveEnv): (r: Transition)
    requires Knows(store, LinkedMoves(invs)) && StoreValuable(store, LinkedMoves(invs), cfg, envOf)
    ensures forall id :: id in LinkedMoves(invs) && store[id].data.intrastatType.Some? ==>
      MarkCancelled(store[id]) in r.written
    ensures forall m :: m in r.written ==>
      exists id :: id in LinkedMoves(invs) && store[id].data.intrastatType.Some? && m == MarkCancelled(store[id])
    ensures AllValuable(r.written, cfg, envOf)
    ensures r.outcome == UpdateIntrastatDeclaration(r.written, cfg, envOf)
  {
    var ids := WithType(store, LinkedMoves(invs));
    var written := seq(|ids|, i requires 0 <= i < |ids| => MarkCancelled(store[ids[i]]));
    forall i | 0 <= i < |written|
      ensures ValueDefined(written[i], cfg, envOf(written[i].id).valuation)
    {
      assert ids[i] in ids;
      ValueDefinedIgnoresData(store[ids[i]], written[i].data, cfg, envOf(store[ids[i]].id).valuation);
    }
    forall id | id in ids
      ensures MarkCancelled(store[id]) in written
    {
      var i :| 0 <= i < |ids| && ids[i] == id;
      assert written[i] == MarkCancelled(store[id]);
    }
    forall m | m in written
      ensures exists id :: id in ids && m == MarkCancelled(store[id])
    {
      var i :| 0 <= i < |written| && written[i] == m;
      assert ids[i] in ids;
    }
    Transition(written, UpdateIntrastatDeclaration(written, cfg, envOf))
  }

  /** The update after `cancel` keeps the cancelled mark on every move it
      produces; the type is decided again, and a move it leaves undeclared
      stays out of every declaration. */
  lemma CancelledMovesStayOut(store: Store, invs: seq<Invoice>, cfg: Config, envOf: MoveId -> MoveEnv)
    requires Knows(store, LinkedMoves(invs)) && StoreValuable(store, LinkedMoves(invs), cfg, envOf)
    ensures var t := Cancel(store, invs, cfg, envOf);
      forall i :: 0 <= i < |t.outcome.moves| ==>
        && t.outcome.moves[i].data.cancelled == Some(true)
        && (t.outcome.moves[i].data.intrastatType.None? ==> t.outcome.moves[i].data.declaration.None?)
  {
    var t := Cancel(store, invs, cfg, envOf);
    forall i | 0 <= i < |t.outcome.moves|
      ensures t.outcome.moves[i].data.cancelled == Some(true)
      ensures t.outcome.moves[i].data.intrastatType.None? ==> t.outcome.moves[i].data.declaration.None?
    {
      assert t.written[i] in t.written;
    }
  }

  /** When the store shows the cancelled invoices on the moves' lines, the
      update after `cancel` flags every move it was given for reset. */
  lemma CancelFlagsEveryMove(store: Store, invs: seq<Invoice>, cfg: Config, envOf: MoveId -> MoveEnv)
    requires Knows(store, LinkedMoves(invs)) && StoreValuable(store, LinkedMoves(invs), cfg, envOf)
    requires forall id :: id in LinkedMoves(invs) ==> LinkedToCancelledInvoice(store[id])
    ensures var t := Cancel(store, invs, cfg, envOf);
      forall i :: 0 <= i < |t.written| ==> t.written[i].id in t.outcome.toReset
  {
    var t := Cancel(store, invs, cfg, envOf);
    forall i | 0 <= i < |t.written|
      ensures t.written[i].id in t.outcome.toReset
    {
      assert t.written[i] in t.written;
      var id :| id in LinkedMoves(invs) && store[id].data.intrastatType.Some? && t.written[i] == MarkCancelled(store[id]);
      var k :| 0 <= k < |store[id].invoiceLines| && store[id].invoiceLines[k].invoice.Some?
        && store[id].invoiceLines[k].invoice.value.state == InvoiceCancelled;
      assert t.written[i].invoiceLines[k] == store[id].invoiceLines[k];
      assert ResetCause(t.written[i], cfg);
    }
  }

  /** What `draft` writes: the cancelled mark is cleared. */
  function MarkUncancelled(m: Move): Move {
    m.(data := m.data.(cancelled := Some(false)))
  }

  /** The ids whose move is currently marked cancelled, in order. */
  function MarkedCancelled(store: Store, ids: seq<MoveId>): (r: seq<MoveId>)
    requires Knows(store, ids)
    ensures Knows(store, r)
    ensures forall id :: id in r <==> id in ids && store[id].data.cancelled == Some(true)
  {
    if |ids| == 0 then []
    else
      var rest := MarkedCancelled(store, ids[1..]);
      if store[ids[0]].data.cancelled == Some(true) then [ids[0]] + rest else rest
  }

  /** `draft`, after the base draft: the linked moves marked cancelled lose
      the mark and are updated; other linked moves are left alone. */
  function Draft(store: Store, invs: seq<Invoice>, cfg: Config, envOf: MoveId -> MoveEnv): (r: Transition)
    requires Knows(store, LinkedMoves(invs)) && StoreValuable(store, LinkedMoves(invs), cfg, envOf)
    ensures forall id :: id in LinkedMoves(invs) && store[id].data.cancelled == Some(true) ==>
      MarkUncancelled(store[id]) in r.written
    ensures forall m :: m in r.written ==>
      exists id :: id in LinkedMoves(invs) && store[id].data.cancelled == Some(true) && m == MarkUncancelled(store[id])
    ensures AllValuable(r.written, cfg, envOf)
    ensures r.outcome == UpdateIntrastatDeclaration(r.written, cfg, envOf)
  {
    var ids := MarkedCancelled(store, LinkedMoves(invs));
    var written := seq(|ids|, i requires 0 <= i < |ids| => MarkUncancelled(store[ids[i]]));
    forall i | 0 <= i < |written|
      ensures ValueDefined(written[i], cfg, envOf(written[i].id).valuation)
    {
      assert ids[i] in ids;
      ValueDefinedIgnoresData(store[ids[i]], written[i].data, cfg, envOf(store[ids[i]].id).valuation);
    }
    forall id | id in ids
      ensures MarkUncancelled(store[id]) in written
    {
      var i :| 0 <= i < |ids| && ids[i] == id;
      assert written[i] == MarkUncancelled(store[id]);
    }
    forall m | m in written
      ensures exists id :: id in ids && m == MarkUncancelled(store[id])
    {
      var i :| 0 <= i < |written| && written[i] == m;
      assert ids[i] in ids;
    }
    Transition(written, UpdateIntrastatDeclaration(written, cfg, envOf))
  }

  /** Every move the update after `draft` produces is no longer cancelled. */
  lemma DraftedMovesUncancelled(store: Store, invs: seq<Invoice>, cfg: Config, envOf: MoveId -> MoveEnv)
    requires Knows(store, LinkedMoves(invs)) && StoreValuable(store, LinkedMoves(invs), cfg, envOf)
    ensures var t := Draft(store, invs, cfg, envOf);
      forall i :: 0 <= i < |t.outcome.moves| ==> t.outcome.moves[i].data.cancelled == Some(false)
  {
    var t := Draft(store, invs, cfg, envOf);
    forall i | 0 <= i < |t.outcome.moves|
      ensures t.outcome.moves[i].data.cancelled == Some(false)
    {
      assert t.written[i] in t.written;
    }
  }
}
