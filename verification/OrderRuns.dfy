/** What holds in every reachable state of the order service. */
module OrderRuns {
  import opened Wrappers
  import opened Decimals
  import opened Commission
  import opened Ledger
  import opened Lifecycle
  import opened Audit
  import opened OrderWorld

  // ----- settled or refunded, never both -----

  /** How many settlement entries the ledger holds for an order object. */
  function SettlementCount(ledger: seq<Posting>, h: nat): nat
    decreases |ledger|
  {
    if ledger == [] then 0
    else
      var last := ledger[|ledger| - 1];
      SettlementCount(ledger[..|ledger| - 1], h) + if last.Settlement? && last.order == h then 1 else 0
  }

  /** How often the refund callback was called for an order object. */
  function RefundCount(refunds: seq<nat>, h: nat): nat
    decreases |refunds|
  {
    if refunds == [] then 0
    else RefundCount(refunds[..|refunds| - 1], h) + if refunds[|refunds| - 1] == h then 1 else 0
  }

  /** The commission captured on completion adds up to the order's total. */
  predicate SnapshotFits(o: OrderView) {
    o.snapshot.Some? ==>
      var s := o.snapshot.value;
      && o.status == Completed
      && s.fee + s.settlement == o.total && o.total >= 0
      && (o.total <= LIMIT ==> 0 <= s.fee <= o.total)
  }

  /** One order object in a reachable state. */
  predicate SoundAt(w: World, h: nat)
    requires h < |w.objs|
  {
    var o := w.objs[h];
    && SettlementCount(w.ledger, h) == (if o.snapshot.Some? then 1 else 0)
    && SnapshotFits(o)
    && RefundCount(w.refunds, h) <= 1
    && (RefundCount(w.refunds, h) == 1 ==> o.status == Cancelled)
    && Leads(Draft, o.history, o.status)
  }

  predicate Sound(w: World) {
    Valid(w) && forall h | 0 <= h < |w.objs| :: SoundAt(w, h)
  }

  lemma SettlementCountAppends(ledger: seq<Posting>, p: Posting, h: nat)
    ensures SettlementCount(ledger + [p], h) == SettlementCount(ledger, h) + if p.Settlement? && p.order == h then 1 else 0
  {
    assert (ledger + [p])[..|ledger|] == ledger;
  }

  lemma RefundCountAppends(refunds: seq<nat>, r: nat, h: nat)
    ensures RefundCount(refunds + [r], h) == RefundCount(refunds, h) + if r == h then 1 else 0
  {
    assert (refunds + [r])[..|refunds|] == refunds;
  }

  lemma {:induction false} NothingForNewOrders(ledger: seq<Posting>, refunds: seq<nat>, h: nat)
    requires forall i | 0 <= i < |ledger| :: ledger[i].order < h
    requires Within(refunds, h)
    ensures SettlementCount(ledger, h) == 0 && RefundCount(refunds, h) == 0
    decreases |ledger| + |refunds|
  {
    if ledger != [] {
      NothingForNewOrders(ledger[..|ledger| - 1], refunds, h);
    } else if refunds != [] {
      NothingForNewOrders(ledger, refunds[..|refunds| - 1], h);
    }
  }

  lemma MoveKeepsSound(w: World, h: nat, to: OrderStatus, actor: string, reason: string, now: string)
    requires Sound(w) && h < |w.objs| && to in ValidTransitions(w.objs[h].status)
    ensures Sound(w.(objs := w.objs[h := Moved(w.objs[h], to, actor, reason, now)]))
  {
    var o := w.objs[h];
    var w1 := w.(objs := w.objs[h := Moved(o, to, actor, reason, now)]);
    assert SoundAt(w, h);
    LeadsExtends(Draft, o.history, OrderStateChange(o.orderId, o.status, to, now, actor, reason));
    forall i | 0 <= i < |w1.objs|
      ensures SoundAt(w1, i)
    {
      assert SoundAt(w, i);
    }
  }

  lemma SettleKeepsSound(w: World, h: nat, ctx: Option<TenantContext>, actor: string)
    requires Sound(w) && h < |w.objs| && w.objs[h].status == Completed && w.objs[h].snapshot == None
    ensures Sound(SettleStep(w, h, ctx, actor).world)
    ensures SettleStep(w, h, ctx, actor).error == None <==> CompletionSplit(w, ctx, w.objs[h].total).Ok?
    ensures SettleStep(w, h, ctx, actor).error == None <==> SettleStep(w, h, ctx, actor).world.objs[h].snapshot.Some?
  {
    SettleKeepsValid(w, h, ctx, actor);
    match CompletionSplit(w, ctx, w.objs[h].total)
    case Err(_) =>
    case Ok(split) =>
      var w1 := SettleStep(w, h, ctx, actor).world;
      SplitFits(w, ctx, w.objs[h].total);
      forall i | 0 <= i < |w1.objs|
        ensures SoundAt(w1, i)
      {
        SettlementKeepsSoundAt(w, w1, h, split, i);
      }
  }

  lemma SplitFits(w: World, ctx: Option<TenantContext>, total: int)
    requires CompletionSplit(w, ctx, total).Ok?
    ensures var split := CompletionSplit(w, ctx, total).value;
            && split.fee + split.settlement == total == split.gross && total >= 0
            && (total <= LIMIT ==> 0 <= split.fee <= total)
  {
    ChargeIsBalanced(w.defaultRate, total, if ctx.Some? then Some(ctx.value.commissionRate) else None);
  }

  /** The snapshot and the settlement entry come together. */
  lemma SettlementKeepsSoundAt(w: World, w1: World, h: nat, split: Split, i: nat)
    requires h < |w.objs| && i < |w.objs| && SoundAt(w, i)
    requires w.objs[h].status == Completed && w.objs[h].snapshot == None
    requires split.fee + split.settlement == w.objs[h].total >= 0
    requires w.objs[h].total <= LIMIT ==> 0 <= split.fee <= w.objs[h].total
    requires w1.objs == w.objs[h := w.objs[h].(snapshot := Some(SnapshotOf(split)))] && w1.refunds == w.refunds
    requires w1.ledger == w.ledger + [Settlement(h, SettlementEntry(w.objs[h], split))]
    ensures SoundAt(w1, i)
  {
    SettlementCountAppends(w.ledger, Settlement(h, SettlementEntry(w.objs[h], split)), i);
  }

  /** Storing and logging do not touch what soundness speaks of. */
  lemma BookkeepingKeepsSound(w: World, w1: World)
    requires Sound(w) && Valid(w1)
    requires w1.objs == w.objs && w1.ledger == w.ledger && w1.refunds == w.refunds
    ensures Sound(w1)
  {
    forall i | 0 <= i < |w1.objs|
      ensures SoundAt(w1, i)
    {
      assert SoundAt(w, i);
    }
  }

  lemma MoveStepKeepsSound(
    w: World, h: nat, ctx: Option<TenantContext>, to: OrderStatus, actor: string, reason: string, now: string)
    requires Sound(w) && h < |w.objs|
    ensures Sound(MoveStep(w, h, ctx, to, actor, reason, now).world)
  {
    var o := w.objs[h];
    if to in ValidTransitions(o.status) {
      MoveKeepsSound(w, h, to, actor, reason, now);
      BookkeepingKeepsSound(w.(objs := w.objs[h := Moved(o, to, actor, reason, now)]),
                            MoveStep(w, h, ctx, to, actor, reason, now).world);
    }
  }

  lemma TransitionKeepsSound(
    w: World, h: nat, ctx: Option<TenantContext>, to: OrderStatus, actor: string, reason: string, now: string)
    requires Sound(w) && h < |w.objs|
    ensures Sound(TransitionStep(w, h, ctx, to, actor, reason, now).world)
  {
    var moved := MoveStep(w, h, ctx, to, actor, reason, now);
    MoveStepKeepsSound(w, h, ctx, to, actor, reason, now);
    if moved.error.None? && to == Completed {
      assert SoundAt(w, h);
      SettleKeepsSound(moved.world, h, ctx, actor);
    }
  }

  lemma RefundKeepsSound(w: World, h: nat)
    requires Sound(w) && h < |w.objs| && w.objs[h].status == Cancelled && RefundCount(w.refunds, h) == 0
    ensures Sound(w.(refunds := w.refunds + [h]))
  {
    var w1 := w.(refunds := w.refunds + [h]);
    forall i | 0 <= i < |w1.objs|
      ensures SoundAt(w1, i)
    {
      assert SoundAt(w, i);
      RefundCountAppends(w.refunds, h, i);
    }
  }

  lemma CancelKeepsSound(
    w: World, h: nat, ctx: Option<TenantContext>, actor: string, reason: string, now: string, refund: Refund)
    requires Sound(w) && h < |w.objs|
    ensures Sound(CancelStep(w, h, ctx, actor, reason, now, refund).world)
  {
    TransitionKeepsSound(w, h, ctx, Cancelled, actor, reason, now);
    var first := TransitionStep(w, h, ctx, Cancelled, actor, reason, now);
    if first.error.None? {
      assert SoundAt(w, h);
      assert first.world.refunds == w.refunds && first.world.objs[h].status == Cancelled;
      if refund.NoCallback? {
        BookkeepingKeepsSound(first.world, CancelStep(w, h, ctx, actor, reason, now, refund).world);
      } else {
        RefundKeepsSound(first.world, h);
        BookkeepingKeepsSound(first.world.(refunds := first.world.refunds + [h]),
                              CancelStep(w, h, ctx, actor, reason, now, refund).world);
      }
    }
  }

  lemma ReverseKeepsSound(w: World, h: nat, actor: string, fraction: DecimalText, reason: string)
    requires Sound(w) && h < |w.objs|
    ensures Sound(ReverseStep(w, h, actor, fraction, reason).world)
  {
    var w1 := ReverseStep(w, h, actor, fraction, reason).world;
    StepKeepsValid(w, Op.Reverse(h, actor, fraction, reason));
    forall i | 0 <= i < |w1.objs|
      ensures SoundAt(w1, i)
    {
      assert SoundAt(w, i);
      if w1.ledger != w.ledger {
        SettlementCountAppends(w.ledger, w1.ledger[|w.ledger|], i);
      }
    }
  }

  /** Every request, failed ones included, keeps every order sound. */
  lemma StepKeepsSound(w: World, op: Op)
    requires Sound(w)
    ensures Sound(Step(w, op).world)
  {
    StepKeepsValid(w, op);
    var w1 := Step(w, op).world;
    match op
    case Create(order) =>
      NothingForNewOrders(w.ledger, w.refunds, |w.objs|);
      forall i | 0 <= i < |w1.objs|
        ensures SoundAt(w1, i)
      {
        assert i < |w.objs| ==> SoundAt(w, i);
      }
    case Register(h, ctx, actor) =>
      forall i | 0 <= i < |w1.objs|
        ensures SoundAt(w1, i)
      {
        assert SoundAt(w, i);
      }
    case Transition(h, ctx, to, actor, reason, now) =>
      if h < |w.objs| {
        TransitionKeepsSound(w, h, ctx, to, actor, reason, now);
      }
    case Cancel(h, ctx, actor, reason, now, refund) =>
      if h < |w.objs| {
        CancelKeepsSound(w, h, ctx, actor, reason, now, refund);
      }
    case Reverse(h, actor, fraction, reason) =>
      if h < |w.objs| {
        ReverseKeepsSound(w, h, actor, fraction, reason);
      }
  }

  lemma {:induction false} RunIsSound(rate: Dec, ops: seq<Op>)
    ensures Sound(Run(rate, ops))
    decreases |ops|
  {
    if ops != [] {
      RunIsSound(rate, ops[..|ops| - 1]);
      StepKeepsSound(Run(rate, ops[..|ops| - 1]), ops[|ops| - 1]);
    }
  }

  /** In every reachable state, whatever requests were made and however they failed: an
      order has a commission snapshot just when the ledger holds exactly one settlement for
      it, and then it is completed; a refund is called at most once, for cancelled orders
      only; so no order is both settled and refunded. */
  lemma SettledXorRefunded(rate: Dec, ops: seq<Op>, h: nat)
    requires h < |Run(rate, ops).objs|
    ensures var w := Run(rate, ops);
            var o, settled, refunded := w.objs[h], SettlementCount(w.ledger, h), RefundCount(w.refunds, h);
            && settled <= 1 && refunded <= 1
            && (o.snapshot.Some? <==> settled == 1)
            && (settled == 1 ==> o.status == Completed)
            && (refunded == 1 ==> o.status == Cancelled)
            && !(settled == 1 && refunded == 1)
  {
    RunIsSound(rate, ops);
    assert SoundAt(Run(rate, ops), h);
  }

  /** No order makes more than five transitions, and its history is a path of allowed ones
      from draft to its status. */
  lemma HistoriesAreBounded(rate: Dec, ops: seq<Op>, h: nat)
    requires h < |Run(rate, ops).objs|
    ensures var o := Run(rate, ops).objs[h];
            Leads(Draft, o.history, o.status) && |o.history| + Rank(o.status) <= 5
  {
    RunIsSound(rate, ops);
    assert SoundAt(Run(rate, ops), h);
    var o := Run(rate, ops).objs[h];
    HistoryIsBounded(Draft, o.history, o.status);
  }

  // ----- completed without settlement -----

  /** The amount and the commission rate of a completion are acceptable. */
  predicate Chargeable(w: World, ctx: Option<TenantContext>, total: int) {
    && total >= 0
    && (ctx.None? ==> ValidRate(w.defaultRate))
    && (ctx.Some? ==> ctx.value.commissionRate.Number? && ValidRate(ctx.value.commissionRate.value))
  }

  /** A completing transition that raises after the status has changed: the repository
      refuses the save, or the commission cannot be calculated. */
  predicate InterruptsCompletion(w: World, op: Op, h: nat) {
    && op.Transition? && op.h == h && h < |w.objs| && op.to == Completed
    && Completed in ValidTransitions(w.objs[h].status)
    && (!Permits(op.ctx, w.objs[h].tenantId) || !Chargeable(w, op.ctx, w.objs[h].total))
  }

  predicate CompletedUnsettled(w: World, h: nat) {
    h < |w.objs| && w.objs[h].status == Completed && w.objs[h].snapshot == None
  }

  lemma StepInterrupts(w: World, op: Op, h: nat)
    requires Sound(w)
    ensures CompletedUnsettled(Step(w, op).world, h) <==> CompletedUnsettled(w, h) || InterruptsCompletion(w, op, h)
  {
    if h >= |w.objs| {
      if |Step(w, op).world.objs| > |w.objs| {
        OnlyCreateAdds(w, op);
      }
    } else {
      assert SoundAt(w, h);
      match op
      case Create(_) =>
      case Register(_, _, _) =>
      case Transition(g, ctx, to, actor, reason, now) =>
        if g < |w.objs| {
          TransitionInterrupts(w, g, ctx, to, actor, reason, now, h);
        }
      case Cancel(g, ctx, actor, reason, now, _) =>
        if g < |w.objs| {
          TransitionInterrupts(w, g, ctx, Cancelled, actor, reason, now, h);
        }
      case Reverse(_, _, _, _) =>
    }
  }

  lemma TransitionInterrupts(
    w: World, g: nat, ctx: Option<TenantContext>, to: OrderStatus, actor: string, reason: string, now: string, h: nat)
    requires Sound(w) && g < |w.objs| && h < |w.objs|
    ensures CompletedUnsettled(TransitionStep(w, g, ctx, to, actor, reason, now).world, h) <==>
              CompletedUnsettled(w, h) || InterruptsCompletion(w, Op.Transition(g, ctx, to, actor, reason, now), h)
  {
    assert SoundAt(w, h) && SoundAt(w, g);
    var moved := MoveStep(w, g, ctx, to, actor, reason, now);
    ChargeableExactly(w, ctx, w.objs[g].total);
    if moved.error.None? && to == Completed {
      SettlementCompletes(moved.world, g, ctx, actor, h);
    }
  }

  lemma ChargeableExactly(w: World, ctx: Option<TenantContext>, total: int)
    ensures Chargeable(w, ctx, total) <==> CompletionSplit(w, ctx, total).Ok?
  {
  }

  /** A settlement leaves an order unsettled exactly when it cannot be charged, and leaves the
      others as they are. */
  lemma SettlementCompletes(w: World, g: nat, ctx: Option<TenantContext>, actor: string, h: nat)
    requires Valid(w) && g < |w.objs| && w.objs[g].status == Completed && w.objs[g].snapshot == None
    ensures CompletedUnsettled(SettleStep(w, g, ctx, actor).world, h) <==>
              if h == g then !CompletionSplit(w, ctx, w.objs[g].total).Ok? else CompletedUnsettled(w, h)
  {
  }

  /** The i-th request of a run interrupts a completion of the order. */
  predicate InterruptedAt(rate: Dec, ops: seq<Op>, i: nat, h: nat) {
    i < |ops| && InterruptsCompletion(Run(rate, ops[..i]), ops[i], h)
  }

  lemma InterruptedEarlier(rate: Dec, ops: seq<Op>, n: nat, i: nat, h: nat)
    requires i < n <= |ops|
    ensures InterruptedAt(rate, ops[..n], i, h) <==> InterruptedAt(rate, ops, i, h)
  {
    assert ops[..n][..i] == ops[..i];
  }

  /** An order is completed without a settlement exactly when some completion of it was
      interrupted: the save was refused, the total was negative, or the commission rate was
      malformed or out of range. */
  lemma {:induction false} UnsettledExactlyWhenInterrupted(rate: Dec, ops: seq<Op>, h: nat)
    ensures CompletedUnsettled(Run(rate, ops), h) <==> exists i :: InterruptedAt(rate, ops, i, h)
    decreases |ops|
  {
    if ops != [] {
      var n := |ops| - 1;
      UnsettledExactlyWhenInterrupted(rate, ops[..n], h);
      RunIsSound(rate, ops[..n]);
      StepInterrupts(Run(rate, ops[..n]), ops[n], h);
      InterruptedBefore(rate, ops, ops[..n], h);
    }
  }

  /** A run is interrupted by its last request or before. */
  lemma InterruptedBefore(rate: Dec, ops: seq<Op>, before: seq<Op>, h: nat)
    requires ops != [] && before == ops[..|ops| - 1]
    ensures (exists i :: InterruptedAt(rate, ops, i, h)) <==>
              (exists i :: InterruptedAt(rate, before, i, h)) || InterruptsCompletion(Run(rate, before), ops[|ops| - 1], h)
  {
    var n := |ops| - 1;
    assert InterruptedAt(rate, ops, n, h) <==> InterruptsCompletion(Run(rate, ops[..n]), ops[n], h);
    forall i: nat | i < n
      ensures InterruptedAt(rate, ops[..n], i, h) <==> InterruptedAt(rate, ops, i, h)
    {
      InterruptedEarlier(rate, ops, n, i, h);
    }
  }

  /** A process with one order, in this status and with nothing settled. */
  predicate Holds(w: World, status: OrderStatus, total: int) {
    && Valid(w) && |w.objs| == 1
    && w.objs[0].status == status && w.objs[0].total == total && w.objs[0].snapshot == None
  }

  function Advance(to: OrderStatus, actor: string, now: string): Op {
    Op.Transition(0, None, to, actor, "", now)
  }

  lemma StepAdvances(w: World, from: OrderStatus, to: OrderStatus, total: int, actor: string, now: string)
    requires Holds(w, from, total) && to in ValidTransitions(from) && (to == Completed ==> total < 0)
    ensures Holds(Step(w, Advance(to, actor, now)).world, to, total)
  {
    TransitionKeepsValid(w, 0, None, to, actor, "", now);
  }

  lemma Advances(rate: Dec, ops: seq<Op>, from: OrderStatus, to: OrderStatus, total: int, actor: string, now: string)
    requires Holds(Run(rate, ops), from, total) && to in ValidTransitions(from) && (to == Completed ==> total < 0)
    ensures Holds(Run(rate, ops + [Advance(to, actor, now)]), to, total)
  {
    OneMoreRequest(rate, ops, Advance(to, actor, now));
    StepAdvances(Run(rate, ops), from, to, total, actor, now);
  }

  lemma Creates(rate: Dec, order: OrderView)
    requires IsNew(order)
    ensures Holds(Run(rate, [Create(order)]), Draft, order.total)
  {
    assert [Create(order)][..0] == [];
  }

  /** Creating an order and taking it straight to completion. */
  function StraightThrough(order: OrderView, actor: string, now: string): seq<Op> {
    [Create(order)] + [Advance(Reserved, actor, now)] + [Advance(Confirmed, actor, now)]
    + [Advance(InProgress, actor, now)] + [Advance(Completed, actor, now)]
  }

  /** It does happen: any new order with a negative total ends completed and unsettled. */
  lemma NegativeTotalStaysUnsettled(rate: Dec, order: OrderView, actor: string, now: string)
    requires IsNew(order) && order.total < 0
    ensures CompletedUnsettled(Run(rate, StraightThrough(order, actor, now)), 0)
  {
    var created := [Create(order)];
    var reserved := created + [Advance(Reserved, actor, now)];
    var confirmed := reserved + [Advance(Confirmed, actor, now)];
    var started := confirmed + [Advance(InProgress, actor, now)];
    Creates(rate, order);
    Advances(rate, created, Draft, Reserved, order.total, actor, now);
    Advances(rate, reserved, Reserved, Confirmed, order.total, actor, now);
    Advances(rate, confirmed, Confirmed, InProgress, order.total, actor, now);
    Advances(rate, started, InProgress, Completed, order.total, actor, now);
  }

  // ----- the ledger's net position of an order -----

  /** The entries of the ledger as CommissionLedger stores them. */
  function Entries(ledger: seq<Posting>): (entries: seq<LedgerEntry>)
    ensures |entries| == |ledger|
  {
    seq(|ledger|, i requires 0 <= i < |ledger| => ledger[i].entry)
  }

  function NetGross(ledger: seq<Posting>, h: nat): int
    decreases |ledger|
  {
    if ledger == [] then 0
    else
      var last := ledger[|ledger| - 1];
      NetGross(ledger[..|ledger| - 1], h) + if last.order == h then last.entry.gross else 0
  }

  function NetFee(ledger: seq<Posting>, h: nat): int
    decreases |ledger|
  {
    if ledger == [] then 0
    else
      var last := ledger[|ledger| - 1];
      NetFee(ledger[..|ledger| - 1], h) + if last.order == h then last.entry.fee else 0
  }

  function NetSettlement(ledger: seq<Posting>, h: nat): int
    decreases |ledger|
  {
    if ledger == [] then 0
    else
      var last := ledger[|ledger| - 1];
      NetSettlement(ledger[..|ledger| - 1], h) + if last.order == h then last.entry.settlement else 0
  }

  /** The fractions by which an order has been reversed so far. */
  function Fractions(ledger: seq<Posting>, h: nat): seq<Dec>
    decreases |ledger|
  {
    if ledger == [] then []
    else
      var last, before := ledger[|ledger| - 1], Fractions(ledger[..|ledger| - 1], h);
      if last.Reversal? && last.order == h then before + [last.fraction] else before
  }

  function Net(ledger: seq<Posting>, h: nat, column: Column): int {
    match column
    case Gross => NetGross(ledger, h)
    case Fee => NetFee(ledger, h)
    case TenantSettlement => NetSettlement(ledger, h)
  }

  /** The net positions of the first n orders, added up. */
  function NetOfAll(ledger: seq<Posting>, n: nat, column: Column): int {
    if n == 0 then 0 else NetOfAll(ledger, n - 1, column) + Net(ledger, n - 1, column)
  }

  lemma {:induction false} NetOfNothing(n: nat, column: Column)
    ensures NetOfAll([], n, column) == 0
  {
    if n > 0 {
      NetOfNothing(n - 1, column);
    }
  }

  lemma {:induction false} NetOfAllAppends(ledger: seq<Posting>, p: Posting, n: nat, column: Column)
    ensures NetOfAll(ledger + [p], n, column) == NetOfAll(ledger, n, column) + if p.order < n then Amount(p.entry, column) else 0
  {
    if n > 0 {
      NetOfAllAppends(ledger, p, n - 1, column);
      NetAppends(ledger, p, n - 1);
    }
  }

  /** The reconciliation totals are the net positions of all orders, added up. */
  lemma {:induction false} TotalsAreNetPositions(ledger: seq<Posting>, n: nat, column: Column)
    requires forall i | 0 <= i < |ledger| :: ledger[i].order < n
    ensures Total(Entries(ledger), Everyone, column) == NetOfAll(ledger, n, column)
    decreases |ledger|
  {
    if ledger == [] {
      NetOfNothing(n, column);
    } else {
      var before, p := ledger[..|ledger| - 1], ledger[|ledger| - 1];
      TotalsAreNetPositions(before, n, column);
      assert ledger == before + [p] && Entries(ledger) == Entries(before) + [p.entry];
      TotalAppends(Entries(before), p.entry, Everyone, column);
      NetOfAllAppends(before, p, n, column);
    }
  }

  /** The net position is the settled split less what its reversals took back. */
  predicate NetAt(w: World, h: nat)
    requires h < |w.objs|
  {
    var o, fs := w.objs[h], Fractions(w.ledger, h);
    && (forall f <- fs :: ValidFraction(f))
    && match o.snapshot
       case None =>
         fs == [] && NetGross(w.ledger, h) == NetFee(w.ledger, h) == NetSettlement(w.ledger, h) == 0
       case Some(s) =>
         var rs := Reversals(SplitOf(s), fs);
         && NetGross(w.ledger, h) == s.fee + s.settlement - GrossTotal(rs)
         && NetFee(w.ledger, h) == s.fee - FeeTotal(rs)
         && NetSettlement(w.ledger, h) == s.settlement - SettlementTotal(rs)
  }

  lemma NetAppends(ledger: seq<Posting>, p: Posting, h: nat)
    ensures NetGross(ledger + [p], h) == NetGross(ledger, h) + if p.order == h then p.entry.gross else 0
    ensures NetFee(ledger + [p], h) == NetFee(ledger, h) + if p.order == h then p.entry.fee else 0
    ensures NetSettlement(ledger + [p], h) == NetSettlement(ledger, h) + if p.order == h then p.entry.settlement else 0
    ensures Fractions(ledger + [p], h) ==
              Fractions(ledger, h) + if p.Reversal? && p.order == h then [p.fraction] else []
  {
    assert (ledger + [p])[..|ledger|] == ledger;
  }

  lemma {:induction false} TotalsAppend(rs: seq<Split>, r: Split)
    ensures GrossTotal(rs + [r]) == GrossTotal(rs) + r.gross
    ensures FeeTotal(rs + [r]) == FeeTotal(rs) + r.fee
    ensures SettlementTotal(rs + [r]) == SettlementTotal(rs) + r.settlement
  {
    if rs == [] {
      assert rs + [r] == [r];
    } else {
      assert (rs + [r])[1..] == rs[1..] + [r];
      TotalsAppend(rs[1..], r);
    }
  }

  lemma {:induction false} NoPostingsNoNet(ledger: seq<Posting>, h: nat)
    requires forall i | 0 <= i < |ledger| :: ledger[i].order != h
    ensures Fractions(ledger, h) == [] && NetGross(ledger, h) == NetFee(ledger, h) == NetSettlement(ledger, h) == 0
    decreases |ledger|
  {
    if ledger != [] {
      NoPostingsNoNet(ledger[..|ledger| - 1], h);
    }
  }

  lemma ReversalKeepsNet(w: World, h: nat, fraction: Dec, entry: LedgerEntry, r: Split, w1: World)
    requires h < |w.objs| && NetAt(w, h) && w.objs[h].snapshot.Some? && w1.objs == w.objs
    requires Commission.Reverse(SplitOf(w.objs[h].snapshot.value), Number(fraction)) == Ok(r)
    requires entry.gross == -r.gross && entry.fee == -r.fee && entry.settlement == -r.settlement
    requires w1.ledger == w.ledger + [Reversal(h, fraction, entry)]
    ensures NetAt(w1, h)
  {
    var s, fs := w.objs[h].snapshot.value, Fractions(w.ledger, h);
    NetAppends(w.ledger, Reversal(h, fraction, entry), h);
    assert Reversals(SplitOf(s), fs + [fraction]) == Reversals(SplitOf(s), fs) + [r];
    TotalsAppend(Reversals(SplitOf(s), fs), r);
  }

  /** What a transition can do to snapshots and the ledger: nothing, or one settlement. */
  predicate SettlesAtMost(w: World, w1: World, h: nat)
    requires h < |w.objs|
  {
    && |w1.objs| == |w.objs|
    && (forall i | 0 <= i < |w.objs| && i != h :: w1.objs[i].snapshot == w.objs[i].snapshot)
    && if w1.ledger == w.ledger then w1.objs[h].snapshot == w.objs[h].snapshot
       else
         && |w1.ledger| == |w.ledger| + 1
         && var p := w1.ledger[|w.ledger|];
         && w1.ledger == w.ledger + [p] && p.Settlement? && p.order == h
         && w.objs[h].snapshot == None
         && w1.objs[h].snapshot == Some(CommissionSnapshot(p.entry.rate, p.entry.fee, p.entry.settlement))
         && Balanced(p.entry)
  }

  lemma SettlesOnce(w: World, h: nat, ctx: Option<TenantContext>, actor: string)
    requires Valid(w) && h < |w.objs| && w.objs[h].snapshot == None
    ensures SettlesAtMost(w, SettleStep(w, h, ctx, actor).world, h)
  {
  }

  ghost predicate SameSettlements(w: World, w1: World) {
    && w1.ledger == w.ledger && |w1.objs| == |w.objs|
    && forall i | 0 <= i < |w.objs| :: w1.objs[i].snapshot == w.objs[i].snapshot
  }

  lemma MoveSettlesNothing(
    w: World, h: nat, ctx: Option<TenantContext>, to: OrderStatus, actor: string, reason: string, now: string)
    requires Valid(w) && h < |w.objs|
    ensures SameSettlements(w, MoveStep(w, h, ctx, to, actor, reason, now).world)
  {
  }

  lemma SettlesAfterMove(w: World, moved: World, w1: World, h: nat)
    requires h < |w.objs| && SameSettlements(w, moved) && SettlesAtMost(moved, w1, h)
    ensures SettlesAtMost(w, w1, h)
  {
  }

  lemma TransitionSettlesAtMost(
    w: World, h: nat, ctx: Option<TenantContext>, to: OrderStatus, actor: string, reason: string, now: string)
    requires Sound(w) && h < |w.objs|
    ensures SettlesAtMost(w, TransitionStep(w, h, ctx, to, actor, reason, now).world, h)
  {
    var moved := MoveStep(w, h, ctx, to, actor, reason, now);
    MoveSettlesNothing(w, h, ctx, to, actor, reason, now);
    if moved.error.None? && to == Completed {
      assert SoundAt(w, h);
      SettlesOnce(moved.world, h, ctx, actor);
      SettlesAfterMove(w, moved.world, TransitionStep(w, h, ctx, to, actor, reason, now).world, h);
    }
  }

  lemma SettlementKeepsNet(w: World, w1: World, h: nat, i: nat)
    requires h < |w.objs| && i < |w.objs| && NetAt(w, i) && SettlesAtMost(w, w1, h)
    ensures NetAt(w1, i)
  {
    if w1.ledger != w.ledger {
      NetAppends(w.ledger, w1.ledger[|w.ledger|], i);
      if i == h {
        var s := w1.objs[h].snapshot.value;
        assert Reversals(SplitOf(s), []) == [];
      }
    }
  }

  lemma CancelKeepsNet(
    w: World, g: nat, ctx: Option<TenantContext>, actor: string, reason: string, now: string, refund: Refund, h: nat)
    requires Sound(w) && g < |w.objs| && h < |w.objs| && NetAt(w, h)
    ensures NetAt(CancelStep(w, g, ctx, actor, reason, now, refund).world, h)
  {
    var first := TransitionStep(w, g, ctx, Cancelled, actor, reason, now).world;
    TransitionKeepsNet(w, g, ctx, Cancelled, actor, reason, now, h);
    NetReadsLedger(first, CancelStep(w, g, ctx, actor, reason, now, refund).world, h);
  }

  lemma NetReadsLedger(w: World, w1: World, h: nat)
    requires h < |w.objs| && h < |w1.objs| && NetAt(w, h)
    requires w1.ledger == w.ledger && w1.objs[h].snapshot == w.objs[h].snapshot
    ensures NetAt(w1, h)
  {
  }

  lemma TransitionKeepsNet(
    w: World, g: nat, ctx: Option<TenantContext>, to: OrderStatus, actor: string, reason: string, now: string, h: nat)
    requires Sound(w) && g < |w.objs| && h < |w.objs| && NetAt(w, h)
    ensures NetAt(TransitionStep(w, g, ctx, to, actor, reason, now).world, h)
  {
    TransitionSettlesAtMost(w, g, ctx, to, actor, reason, now);
    SettlementKeepsNet(w, TransitionStep(w, g, ctx, to, actor, reason, now).world, g, h);
  }

  lemma RegisterKeepsNet(w: World, g: nat, ctx: Option<TenantContext>, actor: string, h: nat)
    requires Valid(w) && g < |w.objs| && h < |w.objs| && NetAt(w, h)
    ensures NetAt(RegisterStep(w, g, ctx, actor).world, h)
  {
    NetReadsLedger(w, RegisterStep(w, g, ctx, actor).world, h);
  }

  lemma CreateKeepsNet(w: World, order: OrderView, h: nat)
    requires Valid(w) && h < |w.objs| && NetAt(w, h)
    ensures NetAt(Step(w, Create(order)).world, h)
  {
    NetReadsLedger(w, Step(w, Create(order)).world, h);
  }

  lemma UnknownOrder(w: World, op: Op)
    requires Valid(w) && !op.Create? && op.h >= |w.objs|
    ensures Step(w, op).world == w
  {
  }

  lemma StepKeepsNet(w: World, op: Op, h: nat)
    requires Sound(w) && h < |w.objs| && NetAt(w, h)
    ensures NetAt(Step(w, op).world, h)
  {
    if op.Create? {
      CreateKeepsNet(w, op.order, h);
    } else if op.h >= |w.objs| {
      UnknownOrder(w, op);
    } else {
      match op
      case Register(g, ctx, actor) => RegisterKeepsNet(w, g, ctx, actor, h);
      case Transition(g, ctx, to, actor, reason, now) => TransitionKeepsNet(w, g, ctx, to, actor, reason, now, h);
      case Cancel(g, ctx, actor, reason, now, refund) => CancelKeepsNet(w, g, ctx, actor, reason, now, refund, h);
      case Reverse(g, actor, fraction, reason) => ReverseKeepsNet(w, g, actor, fraction, reason, h);
    }
  }

  lemma ReverseKeepsNet(w: World, g: nat, actor: string, fraction: DecimalText, reason: string, h: nat)
    requires Valid(w) && g < |w.objs| && h < |w.objs| && NetAt(w, h)
    ensures NetAt(ReverseStep(w, g, actor, fraction, reason).world, h)
  {
    var w1 := ReverseStep(w, g, actor, fraction, reason).world;
    if w1.ledger != w.ledger {
      var p := w1.ledger[|w.ledger|];
      assert w1.ledger == w.ledger + [p] && p == Reversal(g, fraction.value, p.entry);
      if g == h {
        var split := SplitOf(w.objs[h].snapshot.value);
        ReversalKeepsNet(w, h, fraction.value, p.entry, Commission.Reverse(split, fraction).value, w1);
      } else {
        NetAppends(w.ledger, p, h);
      }
    }
  }

  lemma {:induction false} RunKeepsNet(rate: Dec, ops: seq<Op>, h: nat)
    requires h < |Run(rate, ops).objs|
    ensures NetAt(Run(rate, ops), h)
    decreases |ops|
  {
    if ops != [] {
      var before := Run(rate, ops[..|ops| - 1]);
      RunIsSound(rate, ops[..|ops| - 1]);
      if h < |before.objs| {
        RunKeepsNet(rate, ops[..|ops| - 1], h);
        StepKeepsNet(before, ops[|ops| - 1], h);
      } else {
        OnlyCreateAdds(before, ops[|ops| - 1]);
        NoPostingsNoNet(before.ledger, h);
      }
    }
  }

  /** In every reachable state: as long as the fractions in the ledger by which a settled order
      has been reversed add up to at most one, its net gross and fee stay non-negative and its
      tenant is overdrawn by at most one cent for each reversal (for each but one, when the
      products fit in 28 digits). */
  lemma PostedReversalsStayCovered(rate: Dec, ops: seq<Op>, h: nat, k: nat)
    requires h < |Run(rate, ops).objs| && Run(rate, ops).objs[h].snapshot.Some?
    requires 5 * Run(rate, ops).objs[h].total < LIMIT
    requires var fs := Fractions(Run(rate, ops).ledger, h);
             fs != [] && (forall f <- fs :: f.scale <= k) && WeightSum(fs, k) <= Pow10(k)
    ensures var w, fs := Run(rate, ops), Fractions(Run(rate, ops).ledger, h);
            && NetGross(w.ledger, h) >= 0 && NetFee(w.ledger, h) >= 0
            && NetFee(w.ledger, h) + NetSettlement(w.ledger, h) == NetGross(w.ledger, h)
            && NetSettlement(w.ledger, h) >= -|fs|
            && ((forall f <- fs :: w.objs[h].total * f.coef < LIMIT) ==> NetSettlement(w.ledger, h) >= 1 - |fs|)
  {
    RunIsSound(rate, ops);
    RunKeepsNet(rate, ops, h);
    assert SoundAt(Run(rate, ops), h);
    CoveredAt(Run(rate, ops), h, k);
  }

  lemma {:induction false} CoveredAt(w: World, h: nat, k: nat)
    requires h < |w.objs| && SnapshotFits(w.objs[h]) && NetAt(w, h)
    requires w.objs[h].snapshot.Some? && 5 * w.objs[h].total < LIMIT
    requires var fs := Fractions(w.ledger, h); fs != [] && (forall f <- fs :: f.scale <= k) && WeightSum(fs, k) <= Pow10(k)
    ensures NetGross(w.ledger, h) >= 0 && NetFee(w.ledger, h) >= 0
    ensures NetFee(w.ledger, h) + NetSettlement(w.ledger, h) == NetGross(w.ledger, h)
    ensures NetSettlement(w.ledger, h) >= -|Fractions(w.ledger, h)|
    ensures (forall f <- Fractions(w.ledger, h) :: w.objs[h].total * f.coef < LIMIT) ==>
              NetSettlement(w.ledger, h) >= 1 - |Fractions(w.ledger, h)|
  {
    PartialReversalsStayWithin(SplitOf(w.objs[h].snapshot.value), Fractions(w.ledger, h), k);
  }

  predicate AllBalanced(ledger: seq<Posting>) {
    forall i | 0 <= i < |ledger| :: Balanced(ledger[i].entry)
  }

  lemma StepKeepsBalanced(w: World, op: Op)
    requires Sound(w) && AllBalanced(w.ledger)
    ensures AllBalanced(Step(w, op).world.ledger)
  {
    match op
    case Create(_) =>
    case Register(_, _, _) =>
    case Transition(h, ctx, to, actor, reason, now) =>
      if h < |w.objs| {
        TransitionSettlesAtMost(w, h, ctx, to, actor, reason, now);
      }
    case Cancel(h, ctx, actor, reason, now, _) =>
      if h < |w.objs| {
        TransitionSettlesAtMost(w, h, ctx, Cancelled, actor, reason, now);
      }
    case Reverse(_, _, _, _) =>
  }

  lemma {:induction false} RunIsBalanced(rate: Dec, ops: seq<Op>)
    ensures AllBalanced(Run(rate, ops).ledger)
    decreases |ops|
  {
    if ops != [] {
      RunIsBalanced(rate, ops[..|ops| - 1]);
      RunIsSound(rate, ops[..|ops| - 1]);
      StepKeepsBalanced(Run(rate, ops[..|ops| - 1]), ops[|ops| - 1]);
    }
  }

  /** In every reachable ledger fee and settlement add up to gross, overall and per tenant. */
  lemma ReachableLedgersBalance(rate: Dec, ops: seq<Op>, scope: Scope)
    ensures var entries := Entries(Run(rate, ops).ledger);
            Total(entries, scope, Fee) + Total(entries, scope, TenantSettlement) == Total(entries, scope, Gross)
  {
    RunIsBalanced(rate, ops);
    Ledger.TotalsBalance(Entries(Run(rate, ops).ledger), scope);
  }
}
