/** What each request of the order service does, field by field: the order, the repository, the
    ledger, the audit trail, the refund calls and the error; and what that comes to over whole
    runs. */
module OrderRequests {
  import opened Wrappers
  import opened Decimals
  import opened Commission
  import opened Ledger
  import opened Lifecycle
  import opened Audit
  import opened Text
  import opened OrderWorld
  import opened OrderRuns
  import opened OrderTenancy

  /** The status change is allowed and the tenant may save the order. */
  predicate Accepts(w: World, h: nat, ctx: Option<TenantContext>, to: OrderStatus) {
    h < |w.objs| && to in ValidTransitions(w.objs[h].status) && Permits(ctx, w.objs[h].tenantId)
  }

  /** No other order has changed. */
  ghost predicate OnlyOrder(w: World, w1: World, h: nat) {
    && |w1.objs| == |w.objs| && w1.defaultRate == w.defaultRate
    && forall g | 0 <= g < |w.objs| && g != h :: w1.objs[g] == w.objs[g]
  }

  /** These audit entries are new. */
  ghost predicate Audits(w: World, w1: World, events: seq<Event>) {
    w1.audit == w.audit + events
  }

  // ----- register -----

  /** The order as registration leaves it: an order without a tenant gets the one in context, and
      that one's branch if it has none. */
  function Stamped(o: OrderView, ctx: Option<TenantContext>): OrderView {
    match ctx
    case None => o
    case Some(c) =>
      if o.tenantId != "" then o
      else if o.branchId != "" then o.(tenantId := c.tenantId)
      else o.(tenantId := c.tenantId, branchId := c.branchId)
  }

  /** Registration stamps the order, and then stores and audits it unless another tenant's
      context refuses the save. */
  lemma RegisterDoes(w: World, h: nat, ctx: Option<TenantContext>, actor: string)
    requires Valid(w) && h < |w.objs|
    ensures var out := Step(w, Register(h, ctx, actor));
            var w1, o := out.world, Stamped(w.objs[h], ctx);
            && OnlyOrder(w, w1, h) && w1.objs[h] == o
            && w1.ledger == w.ledger && w1.refunds == w.refunds
            && out.error == (if Permits(ctx, o.tenantId) then None else Some(CrossTenantAccess))
            && (out.error.Some? ==> w1.repo == w.repo && w1.audit == w.audit)
            && (out.error == None ==>
                  && Stores(w1.objs, w.repo, w1.repo, h)
                  && Audits(w, w1, [Event(actor, "order.created", "success", o.orderId, OrderCreated(o.tenantId, o.total))]))
  {
    SaveStores(w.objs[h := Bound(w.objs[h], ctx)], w.repo, h);
  }

  // ----- transition -----

  /** The order after a transition, but for the commission that completion captures. */
  ghost predicate HasMoved(o: OrderView, o1: OrderView, to: OrderStatus, actor: string, reason: string, now: string) {
    && o1 == o.(status := to, updatedAt := now, history := o1.history, snapshot := o1.snapshot)
    && o1.history == o.history + [OrderStateChange(o.orderId, o.status, to, now, actor, reason)]
  }

  function StatusEvent(o: OrderView, to: OrderStatus, actor: string): Event {
    Event(actor, "order.status_changed", "success", o.orderId, StatusChanged(o.tenantId, o.status, to))
  }

  /** A forbidden status change does nothing. Any other moves the order, even when its save is
      refused; an accepted one is stored and audited. Only completion does more. */
  lemma TransitionDoes(
    w: World, h: nat, ctx: Option<TenantContext>, to: OrderStatus, actor: string, reason: string, now: string)
    requires Valid(w) && h < |w.objs|
    ensures var o, out := w.objs[h], Step(w, Op.Transition(h, ctx, to, actor, reason, now));
            if to !in ValidTransitions(o.status) then out == Outcome(w, Some(InvalidTransition))
            else
              var w1 := out.world;
              && OnlyOrder(w, w1, h) && HasMoved(o, w1.objs[h], to, actor, reason, now) && w1.refunds == w.refunds
              && (!Permits(ctx, o.tenantId) ==>
                    out.error == Some(CrossTenantAccess) && w1 == w.(objs := w1.objs) && w1.objs[h].snapshot == o.snapshot)
              && (Permits(ctx, o.tenantId) ==> Stores(w1.objs, w.repo, w1.repo, h))
              && (Permits(ctx, o.tenantId) && to != Completed ==>
                    && out.error == None && w1.objs[h].snapshot == o.snapshot && w1.ledger == w.ledger
                    && Audits(w, w1, [StatusEvent(o, to, actor)]))
  {
    MoveDoes(w, h, ctx, to, actor, reason, now);
    var moved := MoveStep(w, h, ctx, to, actor, reason, now);
    if moved.error.None? && to == Completed {
      StoredAfterSettlement(w.repo, moved.world, h, ctx, actor);
      SettlementChangesOrder(moved.world, h, ctx, actor);
    }
  }

  /** The part of a transition before any settlement. */
  lemma MoveDoes(
    w: World, h: nat, ctx: Option<TenantContext>, to: OrderStatus, actor: string, reason: string, now: string)
    requires Valid(w) && h < |w.objs|
    ensures var o, out := w.objs[h], MoveStep(w, h, ctx, to, actor, reason, now);
            if to !in ValidTransitions(o.status) then out == Outcome(w, Some(InvalidTransition))
            else
              var w1 := out.world;
              && OnlyOrder(w, w1, h) && HasMoved(o, w1.objs[h], to, actor, reason, now) && w1.objs[h].snapshot == o.snapshot
              && w1.refunds == w.refunds && w1.ledger == w.ledger
              && if Permits(ctx, o.tenantId)
                 then out.error == None && Stores(w1.objs, w.repo, w1.repo, h) && Audits(w, w1, [StatusEvent(o, to, actor)])
                 else out.error == Some(CrossTenantAccess) && w1 == w.(objs := w1.objs)
  {
    SaveStores(w.objs[h := Moved(w.objs[h], to, actor, reason, now)], w.repo, h);
  }

  lemma SettlementChangesOrder(w: World, h: nat, ctx: Option<TenantContext>, actor: string)
    requires Valid(w) && h < |w.objs|
    ensures var w1 := SettleStep(w, h, ctx, actor).world;
            && OnlyOrder(w, w1, h) && w1.objs[h] == w.objs[h].(snapshot := w1.objs[h].snapshot)
            && w1.refunds == w.refunds
  {
  }

  lemma StoresIgnoresChange(objs: seq<OrderView>, repo: seq<nat>, saved: seq<nat>, h: nat, o: OrderView)
    requires Stores(objs, repo, saved, h) && o.orderId == objs[h].orderId
    ensures Stores(objs[h := o], repo, saved, h)
  {
    LookupsIgnoreChange(objs, saved, h, o);
    LookupsIgnoreChange(objs, repo, h, o);
  }

  lemma LookupsIgnoreChange(objs: seq<OrderView>, repo: seq<nat>, h: nat, o: OrderView)
    requires Within(repo, |objs|) && h < |objs| && o.orderId == objs[h].orderId
    ensures forall id :: Lookup(objs[h := o], repo, id) == Lookup(objs, repo, id)
  {
    forall id
      ensures Lookup(objs[h := o], repo, id) == Lookup(objs, repo, id)
    {
      SlotIgnoresChanges(objs, repo, h, o, id);
    }
  }

  lemma StoredAfterSettlement(repo: seq<nat>, w: World, h: nat, ctx: Option<TenantContext>, actor: string)
    requires Valid(w) && h < |w.objs| && Stores(w.objs, repo, w.repo, h)
    ensures var w1 := SettleStep(w, h, ctx, actor).world; Stores(w1.objs, repo, w1.repo, h)
  {
    var w1 := SettleStep(w, h, ctx, actor).world;
    StoresIgnoresChange(w.objs, repo, w.repo, h, w1.objs[h]);
    assert w1.objs == w.objs[h := w1.objs[h]];
  }

  /** After an accepted transition, the order's tenant finds it among those changed since a time
      exactly when that time is before the transition's. */
  lemma ChangedSinceTransition(
    w: World, h: nat, ctx: TenantContext, to: OrderStatus, actor: string, reason: string, now: string, since: string)
    requires Valid(w) && Accepts(w, h, Some(ctx), to) && w.objs[h].tenantId == ctx.tenantId
    ensures var w1 := Step(w, Op.Transition(h, Some(ctx), to, actor, reason, now)).world;
            && Valid(w1) && h < |w1.objs|
            && (w1.objs[h] in Find(w1, Some(ctx), ChangedSince(since)).value <==> now != "" && Less(since, now))
  {
    StepKeepsValid(w, Op.Transition(h, Some(ctx), to, actor, reason, now));
    TransitionDoes(w, h, Some(ctx), to, actor, reason, now);
    var w1 := Step(w, Op.Transition(h, Some(ctx), to, actor, reason, now)).world;
    FindsExactly(w1, ctx, ChangedSince(since), w1.objs[h]);
    assert IsStored(w1.objs, w1.repo, w1.objs[h]) by {
      assert w1.repo[SlotOf(w1.objs, w1.repo, w1.objs[h].orderId)] == h;
    }
  }

  // ----- completion -----

  /** The rate that a completion under this context charges. */
  function RateIn(ctx: Option<TenantContext>, defaultRate: Dec): DecimalText {
    match ctx
    case Some(c) => c.commissionRate
    case None => Number(defaultRate)
  }

  /** Why a completion cannot be charged. */
  function WhyNot(ctx: Option<TenantContext>, total: int): CommissionError {
    if total < 0 then NegativeAmount
    else if ctx.Some? && ctx.value.commissionRate.Malformed? then BadDecimal
    else RateOutOfRange
  }

  /** A completion of an order charges the rate in context on its total: the snapshot, one ledger
      entry under the order's tenant, id and currency, and the audit entry all carry it. One that
      cannot be charged raises after the order has moved. */
  lemma CompletionDoes(w: World, h: nat, ctx: Option<TenantContext>, actor: string, reason: string, now: string)
    returns (rate: Dec, fee: int)
    requires Valid(w) && Accepts(w, h, ctx, Completed)
    ensures var o, out := w.objs[h], Step(w, Op.Transition(h, ctx, Completed, actor, reason, now));
            var w1 := out.world;
            if Chargeable(w, ctx, o.total) then
              && Number(rate) == RateIn(ctx, w.defaultRate) && fee == TimesDown(o.total, rate)
              && out.error == None && |w1.objs| == |w.objs|
              && w1.objs[h].snapshot == Some(CommissionSnapshot(rate, fee, o.total - fee))
              && w1.ledger == w.ledger + [Settlement(h, LedgerEntry(o.tenantId, o.orderId, o.currency,
                                                                     o.total, fee, o.total - fee, rate))]
              && Audits(w, w1, [StatusEvent(o, Completed, actor),
                                Event(actor, "commission.settled", "success", o.orderId,
                                      CommissionSettled(o.tenantId, rate, fee, o.total - fee))])
            else
              && out.error == Some(BadCommission(WhyNot(ctx, o.total))) && |w1.objs| == |w.objs|
              && w1.objs[h].snapshot == o.snapshot && w1.ledger == w.ledger
              && Audits(w, w1, [StatusEvent(o, Completed, actor)])
  {
    var o := w.objs[h];
    var moved := MoveStep(w, h, ctx, Completed, actor, reason, now).world;
    rate, fee := ChargeDoes(w.defaultRate, ctx, o.total);
    SettlementDoes(moved, h, ctx, actor, rate, fee);
  }

  /** Whether a total can be charged, at which rate, and why not. */
  lemma ChargeDoes(defaultRate: Dec, ctx: Option<TenantContext>, total: int) returns (rate: Dec, fee: int)
    ensures var charged := Calculate(defaultRate, total, if ctx.Some? then Some(ctx.value.commissionRate) else None);
            if total >= 0 && RateIn(ctx, defaultRate).Number? && ValidRate(RateIn(ctx, defaultRate).value) then
              && Number(rate) == RateIn(ctx, defaultRate) && fee == TimesDown(total, rate)
              && charged == Ok(Split(rate, total, fee, total - fee))
            else charged == Err(WhyNot(ctx, total))
  {
    var tenantRate := if ctx.Some? then Some(ctx.value.commissionRate) else None;
    var charged := Calculate(defaultRate, total, tenantRate);
    rate, fee := Dec(0, 0), 0;
    RefusedCharges(defaultRate, total, tenantRate);
    if charged.Ok? {
      ChargeIsBalanced(defaultRate, total, tenantRate);
      rate, fee := charged.value.rate, charged.value.fee;
    }
  }

  lemma SettlementDoes(w: World, h: nat, ctx: Option<TenantContext>, actor: string, rate: Dec, fee: int)
    requires Valid(w) && h < |w.objs|
    requires CompletionSplit(w, ctx, w.objs[h].total) in
               {Ok(Split(rate, w.objs[h].total, fee, w.objs[h].total - fee)), Err(WhyNot(ctx, w.objs[h].total))}
    ensures var o, out := w.objs[h], SettleStep(w, h, ctx, actor);
            if CompletionSplit(w, ctx, o.total).Ok? then
              out == Outcome(
                w.(objs := w.objs[h := o.(snapshot := Some(CommissionSnapshot(rate, fee, o.total - fee)))],
                   ledger := w.ledger + [Settlement(h, LedgerEntry(o.tenantId, o.orderId, o.currency,
                                                                   o.total, fee, o.total - fee, rate))],
                   audit := w.audit + [Event(actor, "commission.settled", "success", o.orderId,
                                             CommissionSettled(o.tenantId, rate, fee, o.total - fee))]), None)
            else out == Outcome(w, Some(BadCommission(WhyNot(ctx, o.total))))
  {
  }

  // ----- cancel -----

  /** An accepted cancellation calls the refund callback, if there is one, once and for this
      order. When it raises so does the request; otherwise the audit trail has the reference that
      it answered. */
  lemma CancelDoes(
    w: World, h: nat, ctx: Option<TenantContext>, actor: string, reason: string, now: string, refund: Refund)
    requires Valid(w) && h < |w.objs|
    ensures var o, out := w.objs[h], Step(w, Cancel(h, ctx, actor, reason, now, refund));
            var w1 := out.world;
            if !Accepts(w, h, ctx, Cancelled) then
              && out == Step(w, Op.Transition(h, ctx, Cancelled, actor, reason, now))
              && out.error.Some? && w1.refunds == w.refunds && w1.audit == w.audit && w1.ledger == w.ledger
            else
              && OnlyOrder(w, w1, h) && HasMoved(o, w1.objs[h], Cancelled, actor, reason, now)
              && w1.objs[h].snapshot == o.snapshot && Stores(w1.objs, w.repo, w1.repo, h) && w1.ledger == w.ledger
              && w1.refunds == w.refunds + (if refund == NoCallback then [] else [h])
              && out.error == (if refund == Raises then Some(RefundRaised) else None)
              && (refund == Raises ==> Audits(w, w1, [StatusEvent(o, Cancelled, actor)]))
              && (refund != Raises ==>
                    var ref := if refund == NoCallback then "" else refund.ref;
                    Audits(w, w1, [StatusEvent(o, Cancelled, actor),
                                   Event(actor, "order.cancelled", "success", o.orderId,
                                         OrderCancelled(o.tenantId, ref, reason != ""))]))
  {
    TransitionDoes(w, h, ctx, Cancelled, actor, reason, now);
    StepKeepsValid(w, Op.Transition(h, ctx, Cancelled, actor, reason, now));
    if Accepts(w, h, ctx, Cancelled) {
      var moved := Step(w, Op.Transition(h, ctx, Cancelled, actor, reason, now)).world;
      RefundDoes(moved, h, actor, reason, refund);
      AuditsThen(w, moved, Step(w, Cancel(h, ctx, actor, reason, now, refund)).world, StatusEvent(w.objs[h], Cancelled, actor));
    }
  }

  lemma AuditsThen(w: World, moved: World, w1: World, first: Event)
    requires Audits(w, moved, [first])
    ensures w1.audit == moved.audit ==> Audits(w, w1, [first])
    ensures forall second :: w1.audit == moved.audit + [second] ==> Audits(w, w1, [first, second])
  {
    forall second
      ensures moved.audit + [second] == w.audit + [first, second]
    {
    }
  }

  lemma RefundDoes(w: World, h: nat, actor: string, reason: string, refund: Refund)
    requires Valid(w) && h < |w.objs|
    ensures var o, out := w.objs[h], RefundStep(w, h, actor, reason, refund);
            && out.world == w.(refunds := out.world.refunds, audit := out.world.audit)
            && out.world.refunds == w.refunds + (if refund == NoCallback then [] else [h])
            && out.error == (if refund == Raises then Some(RefundRaised) else None)
            && (refund == Raises ==> out.world.audit == w.audit)
            && (refund != Raises ==>
                  var ref := if refund == NoCallback then "" else refund.ref;
                  out.world.audit == w.audit + [Event(actor, "order.cancelled", "success", o.orderId,
                                                      OrderCancelled(o.tenantId, ref, reason != ""))])
  {
    assert w.refunds + [] == w.refunds;
  }

  // ----- commission reversal -----

  /** The order has a settlement to reverse, and the fraction is a number above zero and up to
      one. */
  predicate Reversible(w: World, h: nat, fraction: DecimalText) {
    && h < |w.objs| && w.objs[h].snapshot.Some?
    && fraction.Number? && 0 < fraction.value.coef <= Pow10(fraction.value.scale)
  }

  /** An accepted reversal appends one negative entry under the order's tenant, id, currency and
      rate: the requested fraction of the settled gross and fee. A refused one does nothing. */
  lemma ReverseDoes(w: World, h: nat, actor: string, fraction: DecimalText, reason: string) returns (gross: int, fee: int)
    requires Valid(w) && h < |w.objs|
    ensures var o, out := w.objs[h], Step(w, Op.Reverse(h, actor, fraction, reason));
            var w1 := out.world;
            if Reversible(w, h, fraction) then
              var s, f := o.snapshot.value, fraction.value;
              && out.error == None && w1 == w.(ledger := w1.ledger, audit := w1.audit)
              && gross == TimesDown(s.fee + s.settlement, f) && fee == TimesDown(s.fee, f)
              && w1.ledger == w.ledger + [Reversal(h, f, LedgerEntry(o.tenantId, o.orderId, o.currency,
                                                                     -gross, -fee, -(gross - fee), s.rate))]
              && Audits(w, w1, [Event(actor, "commission.reversed", "success", o.orderId,
                                      CommissionReversed(o.tenantId, f, fee, reason != ""))])
            else
              out == Outcome(w, Some(if o.snapshot == None then NoSettledCommission
                                     else if fraction.Malformed? then BadCommission(BadDecimal)
                                     else BadCommission(FractionOutOfRange)))
  {
    gross, fee := 0, 0;
    if Reversible(w, h, fraction) {
      var s, f := w.objs[h].snapshot.value, fraction.value;
      gross, fee := TimesDown(s.fee + s.settlement, f), TimesDown(s.fee, f);
      assert Commission.Reverse(SplitOf(s), fraction) == Ok(Split(s.rate, gross, fee, gross - fee));
    }
  }

  // ----- refunds over runs -----

  /** An accepted cancellation of order h that has a callback to call. */
  predicate AsksRefund(w: World, op: Op, h: nat) {
    op.Cancel? && op.h == h && op.refund != NoCallback && Accepts(w, h, op.ctx, Cancelled)
  }

  predicate AsksRefundAt(rate: Dec, ops: seq<Op>, i: nat, h: nat) {
    i < |ops| && AsksRefund(Run(rate, ops[..i]), ops[i], h)
  }

  lemma StepRefunds(w: World, op: Op, h: nat)
    requires Valid(w)
    ensures RefundCount(Step(w, op).world.refunds, h) == RefundCount(w.refunds, h) + if AsksRefund(w, op, h) then 1 else 0
  {
    match op
    case Create(_) =>
    case Register(g, ctx, actor) =>
      if g < |w.objs| {
        RegisterDoes(w, g, ctx, actor);
      }
    case Transition(g, ctx, to, actor, reason, now) =>
      if g < |w.objs| {
        TransitionDoes(w, g, ctx, to, actor, reason, now);
      }
    case Cancel(g, ctx, actor, reason, now, refund) =>
      if g < |w.objs| {
        CancelDoes(w, g, ctx, actor, reason, now, refund);
        RefundCountAppends(w.refunds, g, h);
        assert w.refunds + [] == w.refunds;
      }
    case Reverse(g, actor, fraction, reason) =>
      if g < |w.objs| {
        var _, _ := ReverseDoes(w, g, actor, fraction, reason);
      }
  }

  lemma AskedEarlier(rate: Dec, ops: seq<Op>, before: seq<Op>, h: nat)
    requires ops != [] && before == ops[..|ops| - 1]
    ensures (exists i :: AsksRefundAt(rate, ops, i, h)) <==>
              (exists i :: AsksRefundAt(rate, before, i, h)) || AsksRefund(Run(rate, before), ops[|ops| - 1], h)
  {
    var n := |ops| - 1;
    assert AsksRefundAt(rate, ops, n, h) <==> AsksRefund(Run(rate, before), ops[n], h);
    forall i: nat | i < n
      ensures AsksRefundAt(rate, before, i, h) <==> AsksRefundAt(rate, ops, i, h)
    {
      assert before[..i] == ops[..i];
    }
  }

  lemma {:induction false} RefundsAreAsked(rate: Dec, ops: seq<Op>, h: nat)
    ensures RefundCount(Run(rate, ops).refunds, h) > 0 <==> exists i :: AsksRefundAt(rate, ops, i, h)
    decreases |ops|
  {
    if ops != [] {
      var n := |ops| - 1;
      RefundsAreAsked(rate, ops[..n], h);
      StepRefunds(Run(rate, ops[..n]), ops[n], h);
      AskedEarlier(rate, ops, ops[..n], h);
    }
  }

  /** The refund callback has been called for an order, once, exactly when some cancellation of
      it was accepted while there was a callback; and never otherwise. */
  lemma RefundedExactlyWhenAsked(rate: Dec, ops: seq<Op>, h: nat)
    ensures RefundCount(Run(rate, ops).refunds, h) == if exists i :: AsksRefundAt(rate, ops, i, h) then 1 else 0
  {
    RefundsAreAsked(rate, ops, h);
    RunIsSound(rate, ops);
    var w := Run(rate, ops);
    if h < |w.objs| {
      assert SoundAt(w, h);
    } else {
      NothingForNewOrders(w.ledger, w.refunds, h);
    }
  }

  // ----- the ledger over runs -----

  /** An accepted completion that can be charged. */
  predicate Completes(w: World, op: Op) {
    op.Transition? && op.to == Completed && Accepts(w, op.h, op.ctx, Completed) && Chargeable(w, op.ctx, w.objs[op.h].total)
  }

  /** The settlement of a completion: the order's tenant, id, currency and total at that time,
      charged at the rate in context. */
  predicate BookedBy(w: World, op: Op, p: Posting) {
    && Completes(w, op) && p.Settlement? && p.order == op.h
    && var o, e := w.objs[op.h], p.entry;
       && Number(e.rate) == RateIn(op.ctx, w.defaultRate) && e.fee == TimesDown(o.total, e.rate)
       && e == LedgerEntry(o.tenantId, o.orderId, o.currency, o.total, e.fee, o.total - e.fee, e.rate)
  }

  /** A reversal that was asked for and could be made. */
  predicate Reverses(w: World, op: Op) {
    op.Reverse? && Reversible(w, op.h, op.fraction)
  }

  /** What a request adds to the ledger: a settlement for a completion, a reversal of the
      requested fraction for a reversal, and nothing otherwise. */
  lemma StepPosts(w: World, op: Op)
    requires Valid(w)
    ensures var ledger := Step(w, op).world.ledger;
            if Completes(w, op) || Reverses(w, op) then
              && |ledger| == |w.ledger| + 1 && ledger == w.ledger + [ledger[|w.ledger|]]
              && (Completes(w, op) ==> BookedBy(w, op, ledger[|w.ledger|]))
              && (Reverses(w, op) ==>
                    ledger[|w.ledger|] == Reversal(op.h, op.fraction.value, ledger[|w.ledger|].entry))
            else ledger == w.ledger
  {
    match op
    case Create(_) =>
    case Register(g, ctx, actor) =>
      if g < |w.objs| {
        RegisterDoes(w, g, ctx, actor);
      }
    case Transition(g, ctx, to, actor, reason, now) =>
      if g < |w.objs| {
        TransitionPosts(w, g, ctx, to, actor, reason, now);
      }
    case Cancel(g, ctx, actor, reason, now, refund) =>
      if g < |w.objs| {
        CancelDoes(w, g, ctx, actor, reason, now, refund);
      }
    case Reverse(g, actor, fraction, reason) =>
      if g < |w.objs| {
        var _, _ := ReverseDoes(w, g, actor, fraction, reason);
      }
  }

  lemma TransitionPosts(
    w: World, h: nat, ctx: Option<TenantContext>, to: OrderStatus, actor: string, reason: string, now: string)
    requires Valid(w) && h < |w.objs|
    ensures var op := Op.Transition(h, ctx, to, actor, reason, now);
            var ledger := Step(w, op).world.ledger;
            if Completes(w, op) then
              && |ledger| == |w.ledger| + 1 && ledger == w.ledger + [ledger[|w.ledger|]]
              && BookedBy(w, op, ledger[|w.ledger|])
            else ledger == w.ledger
  {
    TransitionDoes(w, h, ctx, to, actor, reason, now);
    if Accepts(w, h, ctx, Completed) && to == Completed {
      var rate, fee := CompletionDoes(w, h, ctx, actor, reason, now);
    }
  }

  predicate BookedAt(rate: Dec, ops: seq<Op>, i: nat, p: Posting) {
    i < |ops| && BookedBy(Run(rate, ops[..i]), ops[i], p)
  }

  lemma BookedEarlier(rate: Dec, ops: seq<Op>, n: nat, i: nat, p: Posting)
    requires i < n <= |ops|
    ensures BookedAt(rate, ops[..n], i, p) <==> BookedAt(rate, ops, i, p)
  {
    assert ops[..n][..i] == ops[..i];
  }

  /** Every settlement in a reachable ledger is that of an accepted completion, under the order's
      tenant, id and currency, for its total, at the rate of the context it was completed under
      (the platform's without one). */
  lemma {:induction false} SettlementsCarryTheirRate(rate: Dec, ops: seq<Op>, k: nat) returns (i: nat)
    requires k < |Run(rate, ops).ledger| && Run(rate, ops).ledger[k].Settlement?
    ensures BookedAt(rate, ops, i, Run(rate, ops).ledger[k])
    ensures Number(Run(rate, ops).ledger[k].entry.rate) == RateIn(ops[i].ctx, rate)
    decreases |ops|
  {
    var n := |ops| - 1;
    var w := Run(rate, ops[..n]);
    StepPosts(w, ops[n]);
    if k < |w.ledger| {
      i := SettlementsCarryTheirRate(rate, ops[..n], k);
      BookedEarlier(rate, ops, n, i, Run(rate, ops).ledger[k]);
    } else {
      i := n;
      RateStays(rate, ops[..n]);
    }
  }

  lemma LedgerGrows(rate: Dec, ops: seq<Op>, before: seq<Op>)
    requires ops != [] && before == ops[..|ops| - 1]
    ensures Run(rate, before).ledger <= Run(rate, ops).ledger
  {
    StepPosts(Run(rate, before), ops[|ops| - 1]);
  }

  /** Later requests leave the postings where they are. */
  lemma {:induction false} PostingsStay(rate: Dec, early: seq<Op>, ops: seq<Op>)
    requires early <= ops
    ensures Run(rate, early).ledger <= Run(rate, ops).ledger
    decreases |ops|
  {
    if early != ops {
      var before := ops[..|ops| - 1];
      PostingsStay(rate, early, before);
      LedgerGrows(rate, ops, before);
    }
  }

  lemma LastIsSettled(rate: Dec, ops: seq<Op>) returns (k: nat)
    requires ops != [] && Completes(Run(rate, ops[..|ops| - 1]), ops[|ops| - 1])
    ensures k < |Run(rate, ops).ledger| && BookedAt(rate, ops, |ops| - 1, Run(rate, ops).ledger[k])
  {
    StepPosts(Run(rate, ops[..|ops| - 1]), ops[|ops| - 1]);
    k := |Run(rate, ops[..|ops| - 1]).ledger|;
  }

  /** ... and every accepted completion that can be charged has its settlement there. */
  lemma CompletionsAreSettled(rate: Dec, ops: seq<Op>, i: nat) returns (k: nat)
    requires i < |ops| && Completes(Run(rate, ops[..i]), ops[i])
    ensures k < |Run(rate, ops).ledger| && BookedAt(rate, ops, i, Run(rate, ops).ledger[k])
  {
    var upto := ops[..i + 1];
    assert upto[..i] == ops[..i];
    k := LastIsSettled(rate, upto);
    PostingsStay(rate, upto, ops);
    BookedEarlier(rate, ops, i + 1, i, Run(rate, ops).ledger[k]);
  }

  /** The snapshot and the settlement posting say the same. */
  predicate Posts(s: CommissionSnapshot, h: nat, p: Posting) {
    p.Settlement? && p.order == h && s == CommissionSnapshot(p.entry.rate, p.entry.fee, p.entry.settlement)
  }

  /** A request leaves an order's snapshot as it is, or completes the order. */
  lemma SnapshotStays(w: World, op: Op, h: nat)
    requires Valid(w) && h < |w.objs|
    ensures var w1 := Step(w, op).world;
            && |w.objs| <= |w1.objs|
            && (w1.objs[h].snapshot == w.objs[h].snapshot ||
                (Completes(w, op) && op.h == h && w1.objs[h].snapshot.Some? && |w1.ledger| == |w.ledger| + 1
                 && Posts(w1.objs[h].snapshot.value, h, w1.ledger[|w.ledger|])))
  {
    match op
    case Create(_) =>
    case Register(g, ctx, actor) =>
      if g < |w.objs| {
        RegisterDoes(w, g, ctx, actor);
      }
    case Transition(g, ctx, to, actor, reason, now) =>
      if g < |w.objs| {
        TransitionKeepsSnapshot(w, g, ctx, to, actor, reason, now, h);
      }
    case Cancel(g, ctx, actor, reason, now, refund) =>
      if g < |w.objs| {
        CancelDoes(w, g, ctx, actor, reason, now, refund);
        TransitionDoes(w, g, ctx, Cancelled, actor, reason, now);
      }
    case Reverse(g, actor, fraction, reason) =>
      if g < |w.objs| {
        var _, _ := ReverseDoes(w, g, actor, fraction, reason);
      }
  }

  lemma TransitionKeepsSnapshot(
    w: World, g: nat, ctx: Option<TenantContext>, to: OrderStatus, actor: string, reason: string, now: string, h: nat)
    requires Valid(w) && h < |w.objs| && g < |w.objs|
    ensures var op := Op.Transition(g, ctx, to, actor, reason, now);
            var w1 := Step(w, op).world;
            && |w.objs| == |w1.objs|
            && (w1.objs[h].snapshot == w.objs[h].snapshot ||
                (Completes(w, op) && g == h && w1.objs[h].snapshot.Some? && |w1.ledger| == |w.ledger| + 1
                 && Posts(w1.objs[h].snapshot.value, h, w1.ledger[|w.ledger|])))
  {
    TransitionDoes(w, g, ctx, to, actor, reason, now);
    if Accepts(w, g, ctx, to) && to == Completed {
      var rate, fee := CompletionDoes(w, g, ctx, actor, reason, now);
    }
  }

  /** A snapshot carries the rate, fee and settlement of the order's settlement in the ledger. */
  lemma {:induction false} SnapshotsArePosted(rate: Dec, ops: seq<Op>, h: nat) returns (k: nat)
    requires h < |Run(rate, ops).objs| && Run(rate, ops).objs[h].snapshot.Some?
    ensures k < |Run(rate, ops).ledger| && Posts(Run(rate, ops).objs[h].snapshot.value, h, Run(rate, ops).ledger[k])
    decreases |ops|
  {
    var n := |ops| - 1;
    var w := Run(rate, ops[..n]);
    if h < |w.objs| {
      SnapshotStays(w, ops[n], h);
      if Run(rate, ops).objs[h].snapshot == w.objs[h].snapshot {
        k := SnapshotsArePosted(rate, ops[..n], h);
        StepPosts(w, ops[n]);
      } else {
        k := |w.ledger|;
      }
    } else {
      OnlyCreateAdds(w, ops[n]);
      assert false;
    }
  }

  // ----- reversals over runs -----

  /** The fractions of the reversals of an order that were asked for and could be made. */
  function Requested(rate: Dec, ops: seq<Op>, h: nat): seq<Dec>
    decreases |ops|
  {
    if ops == [] then []
    else
      var n := |ops| - 1;
      var before := Requested(rate, ops[..n], h);
      if Reverses(Run(rate, ops[..n]), ops[n]) && ops[n].h == h then before + [ops[n].fraction.value] else before
  }

  /** The fractions that the ledger reverses an order by are those requested, in order. */
  lemma {:induction false} FractionsAreRequested(rate: Dec, ops: seq<Op>, h: nat)
    ensures Fractions(Run(rate, ops).ledger, h) == Requested(rate, ops, h)
    decreases |ops|
  {
    if ops != [] {
      var n := |ops| - 1;
      var w, w1 := Run(rate, ops[..n]), Run(rate, ops);
      FractionsAreRequested(rate, ops[..n], h);
      StepPosts(w, ops[n]);
      if w1.ledger != w.ledger {
        NetAppends(w.ledger, w1.ledger[|w.ledger|], h);
        assert Fractions(w.ledger, h) + [] == Fractions(w.ledger, h);
      }
    }
  }

  /** In every reachable state: as long as the fractions of the accepted reversals of a settled
      order add up to at most one, its net gross and fee stay non-negative and its tenant is
      overdrawn by at most one cent for each reversal (for each but one, when the products fit
      in 28 digits). */
  lemma ReversedOrdersStayCovered(rate: Dec, ops: seq<Op>, h: nat, k: nat)
    requires h < |Run(rate, ops).objs| && Run(rate, ops).objs[h].snapshot.Some?
    requires 5 * Run(rate, ops).objs[h].total < LIMIT
    requires var fs := Requested(rate, ops, h);
             fs != [] && (forall f <- fs :: f.scale <= k) && WeightSum(fs, k) <= Pow10(k)
    ensures var w, fs := Run(rate, ops), Requested(rate, ops, h);
            && NetGross(w.ledger, h) >= 0 && NetFee(w.ledger, h) >= 0
            && NetFee(w.ledger, h) + NetSettlement(w.ledger, h) == NetGross(w.ledger, h)
            && NetSettlement(w.ledger, h) >= -|fs|
            && ((forall f <- fs :: w.objs[h].total * f.coef < LIMIT) ==> NetSettlement(w.ledger, h) >= 1 - |fs|)
  {
    FractionsAreRequested(rate, ops, h);
    PostedReversalsStayCovered(rate, ops, h, k);
  }
}
