/** Replaying the audit trail of an order against its history. */
module OrderAudit {
  import opened Wrappers
  import opened Lifecycle
  import opened Audit
  import opened Decimals
  import opened OrderWorld
  import opened OrderRuns

  datatype Move = Move(from: OrderStatus, to: OrderStatus)

  /** The transitions of a history. */
  function Moves(history: seq<OrderStateChange>): (moves: seq<Move>)
    ensures |moves| == |history|
  {
    seq(|history|, i requires 0 <= i < |history| => Move(history[i].from, history[i].to))
  }

  /** The transitions that the audit trail reports for an order id, in order. */
  function AuditedMoves(audit: seq<Event>, orderId: string): seq<Move>
    decreases |audit|
  {
    if audit == [] then []
    else
      var last, before := audit[|audit| - 1], AuditedMoves(audit[..|audit| - 1], orderId);
      if last.eventType == STATUS_CHANGED && last.transactionRef == orderId && last.details.StatusChanged?
      then before + [Move(last.details.from, last.details.to)]
      else before
  }

  /** The order and the transition that a request makes, if it makes one. */
  function MoveBy(w: World, op: Op): (m: Option<Move>)
    ensures m.Some? ==> (op.Transition? || op.Cancel?) && op.h < |w.objs|
  {
    match op
    case Transition(h, _, to, _, _, _) =>
      if h < |w.objs| && to in ValidTransitions(w.objs[h].status) then Some(Move(w.objs[h].status, to)) else None
    case Cancel(h, _, _, _, _, _) =>
      if h < |w.objs| && Cancelled in ValidTransitions(w.objs[h].status) then Some(Move(w.objs[h].status, Cancelled))
      else None
    case _ => None
  }

  /** A request that makes a transition and then has its save refused: the status has
      changed, the audit trail has not. */
  predicate RefusedMove(w: World, op: Op, h: nat) {
    MoveBy(w, op).Some? && op.h == h && !Permits(op.ctx, w.objs[h].tenantId)
  }

  // ----- the journal of an order id -----

  /** A transition that an order made, and whether its save was accepted. */
  datatype Entry = Entry(order: nat, move: Move, saved: bool)

  /** The transitions of all orders with this id during a run, in the order they were made. */
  function Journal(rate: Dec, ops: seq<Op>, id: string): seq<Entry>
    decreases |ops|
  {
    if ops == [] then []
    else
      var n := |ops| - 1;
      var w, before := Run(rate, ops[..n]), Journal(rate, ops[..n], id);
      var m := MoveBy(w, ops[n]);
      if m.Some? && w.objs[ops[n].h].orderId == id
      then before + [Entry(ops[n].h, m.value, !RefusedMove(w, ops[n], ops[n].h))]
      else before
  }

  /** The transitions whose save was accepted. */
  function SavedMoves(journal: seq<Entry>): seq<Move>
    decreases |journal|
  {
    if journal == [] then []
    else
      var last, before := journal[|journal| - 1], SavedMoves(journal[..|journal| - 1]);
      if last.saved then before + [last.move] else before
  }

  /** The transitions of one order. */
  function MovesOf(journal: seq<Entry>, h: nat): seq<Move>
    decreases |journal|
  {
    if journal == [] then []
    else
      var last, before := journal[|journal| - 1], MovesOf(journal[..|journal| - 1], h);
      if last.order == h then before + [last.move] else before
  }

  /** How many transitions of the order were refused their save. */
  function RefusedMoves(journal: seq<Entry>, h: nat): nat
    decreases |journal|
  {
    if journal == [] then 0
    else
      var last := journal[|journal| - 1];
      RefusedMoves(journal[..|journal| - 1], h) + if last.order == h && !last.saved then 1 else 0
  }

  /** How many saved transitions were those of other orders with the same id. */
  function OthersMoves(journal: seq<Entry>, h: nat): nat
    decreases |journal|
  {
    if journal == [] then 0
    else
      var last := journal[|journal| - 1];
      OthersMoves(journal[..|journal| - 1], h) + if last.order != h && last.saved then 1 else 0
  }

  /** The saved transitions against those of one order. */
  lemma {:induction false} SavedAgainstOwn(journal: seq<Entry>, h: nat)
    ensures |SavedMoves(journal)| + RefusedMoves(journal, h) == |MovesOf(journal, h)| + OthersMoves(journal, h)
    ensures RefusedMoves(journal, h) == OthersMoves(journal, h) == 0 ==> SavedMoves(journal) == MovesOf(journal, h)
    decreases |journal|
  {
    if journal != [] {
      SavedAgainstOwn(journal[..|journal| - 1], h);
    }
  }

  /** The journal names orders of the process with this id. */
  lemma {:induction false} JournalNames(rate: Dec, ops: seq<Op>, id: string, i: nat)
    requires i < |Journal(rate, ops, id)|
    ensures var w := Run(rate, ops);
            var h := Journal(rate, ops, id)[i].order;
            h < |w.objs| && w.objs[h].orderId == id
    decreases |ops|
  {
    var n := |ops| - 1;
    StepKeepsValid(Run(rate, ops[..n]), ops[n]);
    if i < |Journal(rate, ops[..n], id)| {
      JournalNames(rate, ops[..n], id, i);
    }
  }

  lemma {:induction false} NobodyMoved(journal: seq<Entry>, h: nat)
    requires forall i | 0 <= i < |journal| :: journal[i].order != h
    ensures MovesOf(journal, h) == []
    decreases |journal|
  {
    if journal != [] {
      NobodyMoved(journal[..|journal| - 1], h);
    }
  }

  lemma {:induction false} OnlyOwnMoved(journal: seq<Entry>, h: nat)
    requires forall i | 0 <= i < |journal| :: journal[i].order == h
    ensures OthersMoves(journal, h) == 0
    decreases |journal|
  {
    if journal != [] {
      OnlyOwnMoved(journal[..|journal| - 1], h);
    }
  }

  // ----- what one request adds -----

  lemma AuditedAppends(audit: seq<Event>, e: Event, orderId: string)
    ensures AuditedMoves(audit + [e], orderId) ==
              AuditedMoves(audit, orderId) +
              if e.eventType == STATUS_CHANGED && e.transactionRef == orderId && e.details.StatusChanged?
              then [Move(e.details.from, e.details.to)] else []
  {
    assert (audit + [e])[..|audit|] == audit;
  }

  lemma MovesAppend(history: seq<OrderStateChange>, change: OrderStateChange)
    ensures Moves(history + [change]) == Moves(history) + [Move(change.from, change.to)]
  {
  }

  lemma SettlementIsNoMove(w: World, g: nat, ctx: Option<TenantContext>, actor: string, id: string)
    requires Valid(w) && g < |w.objs|
    ensures var w1 := SettleStep(w, g, ctx, actor).world;
            && AuditedMoves(w1.audit, id) == AuditedMoves(w.audit, id)
            && |w1.objs| == |w.objs| && forall i | 0 <= i < |w.objs| :: w1.objs[i].history == w.objs[i].history
  {
    var w1 := SettleStep(w, g, ctx, actor).world;
    if w1.audit != w.audit {
      AuditedAppends(w.audit, w1.audit[|w.audit|], id);
    }
  }

  /** What a transition adds to the trail of an order id. */
  lemma TransitionTrail(
    w: World, g: nat, ctx: Option<TenantContext>, to: OrderStatus, actor: string, reason: string, now: string, id: string)
    requires Valid(w) && g < |w.objs|
    ensures AuditedMoves(TransitionStep(w, g, ctx, to, actor, reason, now).world.audit, id) ==
              AuditedMoves(w.audit, id) +
              if to in ValidTransitions(w.objs[g].status) && Permits(ctx, w.objs[g].tenantId) && w.objs[g].orderId == id
              then [Move(w.objs[g].status, to)] else []
  {
    var o, moved := w.objs[g], MoveStep(w, g, ctx, to, actor, reason, now);
    AuditedAppends(w.audit, Event(actor, STATUS_CHANGED, "success", o.orderId, StatusChanged(o.tenantId, o.status, to)), id);
    if moved.error.None? && to == Completed {
      SettlementIsNoMove(moved.world, g, ctx, actor, id);
    }
  }

  /** ... and to the histories. */
  lemma TransitionHistory(
    w: World, g: nat, ctx: Option<TenantContext>, to: OrderStatus, actor: string, reason: string, now: string, h: nat)
    requires Valid(w) && g < |w.objs| && h < |w.objs|
    ensures Moves(TransitionStep(w, g, ctx, to, actor, reason, now).world.objs[h].history) ==
              Moves(w.objs[h].history) +
              if g == h && to in ValidTransitions(w.objs[g].status) then [Move(w.objs[g].status, to)] else []
  {
    var o, moved := w.objs[g], MoveStep(w, g, ctx, to, actor, reason, now);
    MovesAppend(o.history, OrderStateChange(o.orderId, o.status, to, now, actor, reason));
    if moved.error.None? && to == Completed {
      SettlementIsNoMove(moved.world, g, ctx, actor, o.orderId);
    }
  }

  lemma StepTrail(w: World, op: Op, id: string)
    requires Valid(w)
    ensures AuditedMoves(Step(w, op).world.audit, id) ==
              AuditedMoves(w.audit, id) +
              if MoveBy(w, op).Some? && !RefusedMove(w, op, op.h) && w.objs[op.h].orderId == id
              then [MoveBy(w, op).value] else []
  {
    var w1 := Step(w, op).world;
    match op
    case Create(_) =>
    case Register(_, _, _) =>
      OtherEventIsNoMove(w.audit, w1.audit, id);
    case Transition(g, ctx, to, actor, reason, now) =>
      if g < |w.objs| {
        TransitionTrail(w, g, ctx, to, actor, reason, now, id);
      }
    case Cancel(g, ctx, actor, reason, now, refund) =>
      if g < |w.objs| {
        TransitionTrail(w, g, ctx, Cancelled, actor, reason, now, id);
        CancelTrail(w, g, ctx, actor, reason, now, refund, id);
      }
    case Reverse(_, _, _, _) =>
      OtherEventIsNoMove(w.audit, w1.audit, id);
  }

  lemma CancelTrail(
    w: World, g: nat, ctx: Option<TenantContext>, actor: string, reason: string, now: string, refund: Refund, id: string)
    requires Valid(w) && g < |w.objs|
    ensures AuditedMoves(CancelStep(w, g, ctx, actor, reason, now, refund).world.audit, id) ==
              AuditedMoves(TransitionStep(w, g, ctx, Cancelled, actor, reason, now).world.audit, id)
  {
    OtherEventIsNoMove(TransitionStep(w, g, ctx, Cancelled, actor, reason, now).world.audit,
                       CancelStep(w, g, ctx, actor, reason, now, refund).world.audit, id);
  }

  lemma OtherEventIsNoMove(audit: seq<Event>, later: seq<Event>, id: string)
    requires later == audit
               || (|later| == |audit| + 1 && later == audit + [later[|audit|]] && !later[|audit|].details.StatusChanged?)
    ensures AuditedMoves(later, id) == AuditedMoves(audit, id)
  {
    if later != audit {
      AuditedAppends(audit, later[|audit|], id);
    }
  }

  lemma StepHistory(w: World, op: Op, h: nat)
    requires Valid(w) && h < |w.objs|
    ensures |w.objs| <= |Step(w, op).world.objs|
    ensures Moves(Step(w, op).world.objs[h].history) ==
              Moves(w.objs[h].history) +
              if MoveBy(w, op).Some? && op.h == h then [MoveBy(w, op).value] else []
  {
    StepKeepsValid(w, op);
    match op
    case Create(_) =>
    case Register(_, _, _) =>
    case Transition(g, ctx, to, actor, reason, now) =>
      if g < |w.objs| {
        TransitionHistory(w, g, ctx, to, actor, reason, now, h);
      }
    case Cancel(g, ctx, actor, reason, now, refund) =>
      if g < |w.objs| {
        TransitionHistory(w, g, ctx, Cancelled, actor, reason, now, h);
      }
    case Reverse(_, _, _, _) =>
  }

  // ----- whole runs -----

  lemma {:induction false} TrailIsJournal(rate: Dec, ops: seq<Op>, id: string)
    ensures AuditedMoves(Run(rate, ops).audit, id) == SavedMoves(Journal(rate, ops, id))
    decreases |ops|
  {
    if ops != [] {
      var n := |ops| - 1;
      var w, before := Run(rate, ops[..n]), Journal(rate, ops[..n], id);
      TrailIsJournal(rate, ops[..n], id);
      StepTrail(w, ops[n], id);
      var after := Journal(rate, ops, id);
      assert after != before ==> after[..|after| - 1] == before;
      assert AuditedMoves(w.audit, id) + [] == AuditedMoves(w.audit, id);
    }
  }

  lemma {:induction false} HistoryIsJournal(rate: Dec, ops: seq<Op>, h: nat, id: string)
    requires h < |Run(rate, ops).objs| && Run(rate, ops).objs[h].orderId == id
    ensures Moves(Run(rate, ops).objs[h].history) == MovesOf(Journal(rate, ops, id), h)
    decreases |ops|
  {
    if ops != [] {
      var n := |ops| - 1;
      var w, before := Run(rate, ops[..n]), Journal(rate, ops[..n], id);
      StepKeepsValid(w, ops[n]);
      var after := Journal(rate, ops, id);
      assert after != before ==> after[..|after| - 1] == before;
      if h < |w.objs| {
        HistoryIsJournal(rate, ops[..n], h, id);
        StepHistory(w, ops[n], h);
        assert Moves(w.objs[h].history) + [] == Moves(w.objs[h].history);
      } else {
        NewOrderHasNotMoved(rate, ops, h, id);
      }
    }
  }

  lemma NewOrderHasNotMoved(rate: Dec, ops: seq<Op>, h: nat, id: string)
    requires ops != [] && |Run(rate, ops[..|ops| - 1]).objs| <= h < |Run(rate, ops).objs|
    ensures Run(rate, ops).objs[h].history == [] && MovesOf(Journal(rate, ops, id), h) == []
  {
    var n := |ops| - 1;
    OnlyCreateAdds(Run(rate, ops[..n]), ops[n]);
    var journal := Journal(rate, ops[..n], id);
    forall i | 0 <= i < |journal|
      ensures journal[i].order != h
    {
      JournalNames(rate, ops[..n], id, i);
    }
    NobodyMoved(journal, h);
  }

  /** The audit trail of an order id is the journal of its orders without the refused saves;
      an order's history is its own part of the journal. So while no other order with the id
      moves, replaying the trail gives the history just when no save during one of its
      transitions was refused, and each refused save leaves one transition out of the trail. */
  lemma AuditReplaysHistory(rate: Dec, ops: seq<Op>, h: nat)
    requires h < |Run(rate, ops).objs|
    ensures var o, journal := Run(rate, ops).objs[h], Journal(rate, ops, Run(rate, ops).objs[h].orderId);
            var moves, audited := Moves(o.history), AuditedMoves(Run(rate, ops).audit, o.orderId);
            && audited == SavedMoves(journal) && moves == MovesOf(journal, h)
            && |audited| + RefusedMoves(journal, h) == |moves| + OthersMoves(journal, h) && |moves| <= 5
            && (OthersMoves(journal, h) == 0 ==> (audited == moves <==> RefusedMoves(journal, h) == 0))
  {
    var id := Run(rate, ops).objs[h].orderId;
    TrailIsJournal(rate, ops, id);
    HistoryIsJournal(rate, ops, h, id);
    SavedAgainstOwn(Journal(rate, ops, id), h);
    HistoriesAreBounded(rate, ops, h);
  }

  /** No other order moves under an id that only one order has. */
  lemma UniqueIdHasNoOthers(rate: Dec, ops: seq<Op>, h: nat)
    requires var objs := Run(rate, ops).objs;
             h < |objs| && forall i | 0 <= i < |objs| && i != h :: objs[i].orderId != objs[h].orderId
    ensures OthersMoves(Journal(rate, ops, Run(rate, ops).objs[h].orderId), h) == 0
  {
    var id := Run(rate, ops).objs[h].orderId;
    var journal := Journal(rate, ops, id);
    forall i | 0 <= i < |journal|
      ensures journal[i].order == h
    {
      JournalNames(rate, ops, id, i);
    }
    OnlyOwnMoved(journal, h);
  }

  /** A complete trail leads from draft to the order's status along allowed transitions. */
  lemma TrailLinksUp(rate: Dec, ops: seq<Op>, h: nat, i: nat)
    requires h < |Run(rate, ops).objs|
    requires var journal := Journal(rate, ops, Run(rate, ops).objs[h].orderId);
             OthersMoves(journal, h) == 0 && RefusedMoves(journal, h) == 0
    requires i < |AuditedMoves(Run(rate, ops).audit, Run(rate, ops).objs[h].orderId)|
    ensures var w := Run(rate, ops);
            var trail := AuditedMoves(w.audit, w.objs[h].orderId);
            && trail[i].to in ValidTransitions(trail[i].from)
            && trail[i].from == (if i == 0 then Draft else trail[i - 1].to)
            && (i == |trail| - 1 ==> trail[i].to == w.objs[h].status)
  {
    AuditReplaysHistory(rate, ops, h);
    HistoriesAreBounded(rate, ops, h);
    TrailOfLinkedHistory(Run(rate, ops).objs[h], i);
  }

  lemma TrailOfLinkedHistory(o: OrderView, i: nat)
    requires Leads(Draft, o.history, o.status) && i < |o.history|
    ensures var trail := Moves(o.history);
            && trail[i].to in ValidTransitions(trail[i].from)
            && trail[i].from == (if i == 0 then Draft else trail[i - 1].to)
            && (i == |trail| - 1 ==> trail[i].to == o.status)
  {
    ChangesLinkUp(Draft, o.history, o.status, i);
  }
}
