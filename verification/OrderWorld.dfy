/** The order service as a state machine over values: the orders a process holds, the
    repository, the ledger, the audit trail and the refund calls, and what each request does
    to them, errors included. */
module OrderWorld {
  import opened Wrappers
  import opened Decimals
  import opened Commission
  import opened Ledger
  import opened Lifecycle
  import opened Audit
  import opened Text

  /** The commission split captured at completion. */
  datatype CommissionSnapshot = CommissionSnapshot(rate: Dec, fee: int, settlement: int)

  /** The fields of an order that the service reads or writes. */
  datatype OrderView = OrderView(
    orderId: string, tenantId: string, branchId: string, customerId: string, currency: string,
    total: int, status: OrderStatus, updatedAt: string, snapshot: Option<CommissionSnapshot>,
    history: seq<OrderStateChange>)

  /** The tenant bound to a request. */
  datatype TenantContext = TenantContext(tenantId: string, branchId: string, commissionRate: DecimalText)

  /** What the injected refund callback does when it is called, if there is one. */
  datatype Refund = NoCallback | Raises | Reference(ref: string)

  datatype OrderError =
    | InvalidTransition
    | CrossTenantAccess
    | TenantNotFound
    | BadCommission(why: CommissionError)
    | BadEntry(what: LedgerError)
    | NoSettledCommission
    | RefundRaised
    | NoSuchOrder

  /** A ledger entry with the order object it was written for. */
  datatype Posting =
    | Settlement(order: nat, entry: LedgerEntry)
    | Reversal(order: nat, fraction: Dec, entry: LedgerEntry)

  /** Order objects are named by their position in `objs`; `repo` lists the stored ones in
      insertion order; `refunds` lists the orders the refund callback was called for. */
  datatype World = World(
    defaultRate: Dec, objs: seq<OrderView>, repo: seq<nat>, ledger: seq<Posting>, audit: seq<Event>,
    refunds: seq<nat>)

  datatype Op =
    | Create(order: OrderView)
    | Register(h: nat, ctx: Option<TenantContext>, actor: string)
    | Transition(h: nat, ctx: Option<TenantContext>, to: OrderStatus, actor: string, reason: string, now: string)
    | Cancel(h: nat, ctx: Option<TenantContext>, actor: string, reason: string, now: string, refund: Refund)
    | Reverse(h: nat, actor: string, fraction: DecimalText, reason: string)

  datatype Outcome = Outcome(world: World, error: Option<OrderError>)

  const ORDER_CREATED := "order.created"
  const STATUS_CHANGED := "order.status_changed"
  const ORDER_CANCELLED := "order.cancelled"
  const COMMISSION_SETTLED := "commission.settled"
  const COMMISSION_REVERSED := "commission.reversed"

  /** OrderRepository._check_tenant. */
  predicate Permits(ctx: Option<TenantContext>, tenantId: string) {
    ctx.None? || tenantId == "" || tenantId == ctx.value.tenantId
  }

  /** All handles name one of n objects. */
  predicate Within(handles: seq<nat>, n: nat) {
    forall i | 0 <= i < |handles| :: handles[i] < n
  }

  /** The slot of the repository that holds an order id; the length when none does. */
  function SlotOf(objs: seq<OrderView>, repo: seq<nat>, orderId: string): (i: nat)
    requires Within(repo, |objs|)
    ensures i <= |repo|
    ensures i < |repo| ==> objs[repo[i]].orderId == orderId
    ensures forall j | 0 <= j < i :: objs[repo[j]].orderId != orderId
  {
    if repo == [] then 0
    else if objs[repo[0]].orderId == orderId then 0
    else 1 + SlotOf(objs, repo[1..], orderId)
  }

  /** The dictionary assignment of OrderRepository.save. */
  function Put(objs: seq<OrderView>, repo: seq<nat>, h: nat): (r: seq<nat>)
    requires h < |objs| && Within(repo, |objs|)
  {
    var i := SlotOf(objs, repo, objs[h].orderId);
    if i < |repo| then repo[i := h] else repo + [h]
  }

  predicate Valid(w: World) {
    && Within(w.repo, |w.objs|)
    && (forall i | 0 <= i < |w.ledger| :: w.ledger[i].order < |w.objs|)
    && Within(w.refunds, |w.objs|)
  }

  function Logged(w: World, actor: string, eventType: string, ref: string, details: Details): World {
    w.(audit := w.audit + [Event(actor, eventType, "success", ref, details)])
  }

  /** Order.transition_to on an allowed transition. */
  function Moved(o: OrderView, to: OrderStatus, actor: string, reason: string, now: string): OrderView {
    o.(status := to, updatedAt := now,
       history := o.history + [OrderStateChange(o.orderId, o.status, to, now, actor, reason)])
  }

  /** OrderService._bind_tenant. */
  function Bound(o: OrderView, ctx: Option<TenantContext>): OrderView {
    if o.tenantId != "" || ctx.None? then o
    else o.(tenantId := ctx.value.tenantId, branchId := if o.branchId == "" then ctx.value.branchId else o.branchId)
  }

  /** The fields of an order as its constructor leaves them. */
  predicate IsNew(o: OrderView) {
    o.status == Draft && o.updatedAt == "" && o.snapshot == None && o.history == []
  }

  function SnapshotOf(split: Split): CommissionSnapshot {
    CommissionSnapshot(split.rate, split.fee, split.settlement)
  }

  /** The split that record_commission_reversal rebuilds from a snapshot. */
  function SplitOf(s: CommissionSnapshot): Split {
    Split(s.rate, s.fee + s.settlement, s.fee, s.settlement)
  }

  function SettlementEntry(o: OrderView, split: Split): LedgerEntry {
    LedgerEntry(o.tenantId, o.orderId, o.currency, split.gross, split.fee, split.settlement, split.rate)
  }

  function ReversalEntry(o: OrderView, reversal: Split): LedgerEntry {
    LedgerEntry(o.tenantId, o.orderId, o.currency, -reversal.gross, -reversal.fee, -reversal.settlement, reversal.rate)
  }

  /** The commission of an order completed under a tenant context. */
  function CompletionSplit(w: World, ctx: Option<TenantContext>, total: int): Result<Split, CommissionError> {
    Calculate(w.defaultRate, total, if ctx.Some? then Some(ctx.value.commissionRate) else None)
  }

  function RegisterStep(w: World, h: nat, ctx: Option<TenantContext>, actor: string): Outcome
    requires Valid(w) && h < |w.objs|
  {
    var o := Bound(w.objs[h], ctx);
    var w1 := w.(objs := w.objs[h := o]);
    if !Permits(ctx, o.tenantId) then
      Outcome(w1, Some(CrossTenantAccess))
    else
      var w2 := w1.(repo := Put(w1.objs, w1.repo, h));
      Outcome(Logged(w2, actor, ORDER_CREATED, o.orderId, OrderCreated(o.tenantId, o.total)), None)
  }

  /** The part of a transition before any settlement: change, save and audit. */
  function MoveStep(
    w: World, h: nat, ctx: Option<TenantContext>, to: OrderStatus, actor: string, reason: string, now: string): (out: Outcome)
    requires Valid(w) && h < |w.objs|
    ensures Valid(out.world) && |out.world.objs| == |w.objs|
  {
    var o := w.objs[h];
    if to !in ValidTransitions(o.status) then
      Outcome(w, Some(InvalidTransition))
    else
      var w1 := w.(objs := w.objs[h := Moved(o, to, actor, reason, now)]);
      if !Permits(ctx, o.tenantId) then
        Outcome(w1, Some(CrossTenantAccess))
      else
        var w2 := w1.(repo := Put(w1.objs, w1.repo, h));
        Outcome(Logged(w2, actor, STATUS_CHANGED, o.orderId, StatusChanged(o.tenantId, o.status, to)), None)
  }

  /** OrderService._settle_commission. */
  function SettleStep(w: World, h: nat, ctx: Option<TenantContext>, actor: string): Outcome
    requires Valid(w) && h < |w.objs|
  {
    var o := w.objs[h];
    match CompletionSplit(w, ctx, o.total)
    case Err(e) => Outcome(w, Some(BadCommission(e)))
    case Ok(split) =>
      var w1 := w.(objs := w.objs[h := o.(snapshot := Some(SnapshotOf(split)))]);
      match NewEntry(SettlementEntry(o, split))
      case Err(e) => Outcome(w1, Some(BadEntry(e)))
      case Ok(entry) =>
        var w2 := w1.(ledger := w1.ledger + [Settlement(h, entry)]);
        Outcome(Logged(w2, actor, COMMISSION_SETTLED, o.orderId,
                       CommissionSettled(o.tenantId, split.rate, split.fee, split.settlement)), None)
  }

  /** OrderService.transition: a move to COMPLETED is settled. */
  function TransitionStep(
    w: World, h: nat, ctx: Option<TenantContext>, to: OrderStatus, actor: string, reason: string, now: string): Outcome
    requires Valid(w) && h < |w.objs|
  {
    var moved := MoveStep(w, h, ctx, to, actor, reason, now);
    if moved.error.None? && to == Completed then SettleStep(moved.world, h, ctx, actor) else moved
  }

  /** What follows a transition to CANCELLED: the refund call, if there is a callback, and the
      audit entry unless it raises. */
  function RefundStep(w: World, h: nat, actor: string, reason: string, refund: Refund): (out: Outcome)
    requires Valid(w) && h < |w.objs|
    ensures Valid(out.world) && out.world.objs == w.objs && out.world.repo == w.repo && out.world.ledger == w.ledger
  {
    var o := w.objs[h];
    var w1 := if refund.NoCallback? then w else w.(refunds := w.refunds + [h]);
    if refund.Raises? then
      Outcome(w1, Some(RefundRaised))
    else
      var ref := if refund.Reference? then refund.ref else "";
      Outcome(Logged(w1, actor, ORDER_CANCELLED, o.orderId, OrderCancelled(o.tenantId, ref, reason != "")), None)
  }

  function CancelStep(
    w: World, h: nat, ctx: Option<TenantContext>, actor: string, reason: string, now: string, refund: Refund): Outcome
    requires Valid(w) && h < |w.objs|
  {
    TransitionKeepsValid(w, h, ctx, Cancelled, actor, reason, now);
    var first := TransitionStep(w, h, ctx, Cancelled, actor, reason, now);
    if first.error.Some? then first else RefundStep(first.world, h, actor, reason, refund)
  }

  function ReverseStep(w: World, h: nat, actor: string, fraction: DecimalText, reason: string): Outcome
    requires Valid(w) && h < |w.objs|
  {
    var o := w.objs[h];
    if o.snapshot.None? then
      Outcome(w, Some(NoSettledCommission))
    else
      match Commission.Reverse(SplitOf(o.snapshot.value), fraction)
      case Err(e) => Outcome(w, Some(BadCommission(e)))
      case Ok(reversal) =>
        match NewEntry(ReversalEntry(o, reversal))
        case Err(e) => Outcome(w, Some(BadEntry(e)))
        case Ok(entry) =>
          var w1 := w.(ledger := w.ledger + [Reversal(h, fraction.value, entry)]);
          Outcome(Logged(w1, actor, COMMISSION_REVERSED, o.orderId,
                         CommissionReversed(o.tenantId, fraction.value, reversal.fee, reason != "")), None)
  }

  /** One request. A request for an order the process does not hold changes nothing; only
      orders as their constructor makes them are created. */
  function Step(w: World, op: Op): Outcome
    requires Valid(w)
  {
    match op
    case Create(order) => if IsNew(order) then Outcome(w.(objs := w.objs + [order]), None) else Outcome(w, Some(NoSuchOrder))
    case Register(h, ctx, actor) =>
      if h < |w.objs| then RegisterStep(w, h, ctx, actor) else Outcome(w, Some(NoSuchOrder))
    case Transition(h, ctx, to, actor, reason, now) =>
      if h < |w.objs| then TransitionStep(w, h, ctx, to, actor, reason, now) else Outcome(w, Some(NoSuchOrder))
    case Cancel(h, ctx, actor, reason, now, refund) =>
      if h < |w.objs| then CancelStep(w, h, ctx, actor, reason, now, refund) else Outcome(w, Some(NoSuchOrder))
    case Reverse(h, actor, fraction, reason) =>
      if h < |w.objs| then ReverseStep(w, h, actor, fraction, reason) else Outcome(w, Some(NoSuchOrder))
  }

  /** A later state holds the earlier orders under their ids. */
  predicate Extends(w: World, w1: World) {
    |w.objs| <= |w1.objs| && forall i | 0 <= i < |w.objs| :: w1.objs[i].orderId == w.objs[i].orderId
  }

  lemma SettleKeepsValid(w: World, h: nat, ctx: Option<TenantContext>, actor: string)
    requires Valid(w) && h < |w.objs|
    ensures var w1 := SettleStep(w, h, ctx, actor).world; Valid(w1) && Extends(w, w1)
  {
  }

  lemma RegisterKeepsValid(w: World, h: nat, ctx: Option<TenantContext>, actor: string)
    requires Valid(w) && h < |w.objs|
    ensures var w1 := RegisterStep(w, h, ctx, actor).world; Valid(w1) && Extends(w, w1)
  {
  }

  lemma TransitionKeepsValid(
    w: World, h: nat, ctx: Option<TenantContext>, to: OrderStatus, actor: string, reason: string, now: string)
    requires Valid(w) && h < |w.objs|
    ensures var w1 := TransitionStep(w, h, ctx, to, actor, reason, now).world; Valid(w1) && Extends(w, w1)
  {
    var moved := MoveStep(w, h, ctx, to, actor, reason, now);
    if moved.error.None? && to == Completed {
      SettleKeepsValid(moved.world, h, ctx, actor);
    }
  }

  lemma CancelKeepsValid(
    w: World, h: nat, ctx: Option<TenantContext>, actor: string, reason: string, now: string, refund: Refund)
    requires Valid(w) && h < |w.objs|
    ensures var w1 := CancelStep(w, h, ctx, actor, reason, now, refund).world; Valid(w1) && Extends(w, w1)
  {
    TransitionKeepsValid(w, h, ctx, Cancelled, actor, reason, now);
  }

  lemma ReverseKeepsValid(w: World, h: nat, actor: string, fraction: DecimalText, reason: string)
    requires Valid(w) && h < |w.objs|
    ensures var w1 := ReverseStep(w, h, actor, fraction, reason).world; Valid(w1) && Extends(w, w1)
  {
  }

  lemma StepKeepsValid(w: World, op: Op)
    requires Valid(w)
    ensures Valid(Step(w, op).world) && Extends(w, Step(w, op).world)
  {
    match op
    case Create(_) =>
    case Register(h, ctx, actor) =>
      if h < |w.objs| {
        RegisterKeepsValid(w, h, ctx, actor);
      }
    case Transition(h, ctx, to, actor, reason, now) =>
      if h < |w.objs| {
        TransitionKeepsValid(w, h, ctx, to, actor, reason, now);
      }
    case Cancel(h, ctx, actor, reason, now, refund) =>
      if h < |w.objs| {
        CancelKeepsValid(w, h, ctx, actor, reason, now, refund);
      }
    case Reverse(h, actor, fraction, reason) =>
      if h < |w.objs| {
        ReverseKeepsValid(w, h, actor, fraction, reason);
      }
  }

  /** Orders enter a process only by being created. */
  lemma OnlyCreateAdds(w: World, op: Op)
    requires Valid(w) && |Step(w, op).world.objs| > |w.objs|
    ensures op.Create? && IsNew(op.order) && Step(w, op).world == w.(objs := w.objs + [op.order])
  {
  }

  /** A whole run from a process that holds no order. */
  function Run(defaultRate: Dec, ops: seq<Op>): (w: World)
    ensures Valid(w)
    decreases |ops|
  {
    if ops == [] then World(defaultRate, [], [], [], [], [])
    else
      var before := Run(defaultRate, ops[..|ops| - 1]);
      StepKeepsValid(before, ops[|ops| - 1]);
      Step(before, ops[|ops| - 1]).world
  }

  lemma OneMoreRequest(rate: Dec, ops: seq<Op>, op: Op)
    ensures Run(rate, ops + [op]) == Step(Run(rate, ops), op).world
  {
    assert (ops + [op])[..|ops|] == ops;
  }

  lemma StepKeepsRate(w: World, op: Op)
    requires Valid(w)
    ensures Step(w, op).world.defaultRate == w.defaultRate
  {
  }

  lemma {:induction false} RateStays(rate: Dec, ops: seq<Op>)
    ensures Run(rate, ops).defaultRate == rate
    decreases |ops|
  {
    if ops != [] {
      RateStays(rate, ops[..|ops| - 1]);
      StepKeepsRate(Run(rate, ops[..|ops| - 1]), ops[|ops| - 1]);
    }
  }
}
