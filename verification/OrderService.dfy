/** The objects behind the order state machine: mutable orders, the repository that stores
    them by id, the refund callback, and the service whose requests refine `Step`. */
module OrderObjects {
  import opened Wrappers
  import opened Decimals
  import opened Lifecycle
  import opened OrderWorld
  import opened OrderTenancy

  class Order {
    const orderId: string
    const customerId: string
    const currency: string
    const total: int
    var tenantId: string
    var branchId: string
    var status: OrderStatus
    var updatedAt: string
    var snapshot: Option<CommissionSnapshot>
    var history: seq<OrderStateChange>

    constructor (orderId: string, tenantId: string, branchId: string, customerId: string, currency: string, total: int)
      ensures View() == OrderView(orderId, tenantId, branchId, customerId, currency, total, Draft, "", None, [])
    {
      this.orderId, this.customerId, this.currency, this.total := orderId, customerId, currency, total;
      this.tenantId, this.branchId := tenantId, branchId;
      status, updatedAt, snapshot, history := Draft, "", None, [];
    }

    function View(): OrderView
      reads this
    {
      OrderView(orderId, tenantId, branchId, customerId, currency, total, status, updatedAt, snapshot, history)
    }

    method TransitionTo(newStatus: OrderStatus, changedBy: string, reason: string, now: string)
      returns (r: Result<OrderStateChange, OrderError>)
      modifies this
      ensures newStatus !in ValidTransitions(old(status)) ==> r == Err(InvalidTransition) && View() == old(View())
      ensures newStatus in ValidTransitions(old(status)) ==>
                && r == Ok(OrderStateChange(orderId, old(status), newStatus, now, changedBy, reason))
                && View() == Moved(old(View()), newStatus, changedBy, reason, now)
    {
      if newStatus !in ValidTransitions(status) {
        return Err(InvalidTransition);
      }
      var change := OrderStateChange(orderId, status, newStatus, now, changedBy, reason);
      status := newStatus;
      updatedAt := change.changedAt;
      history := history + [change];
      return Ok(change);
    }

    /** is_cancellable says exactly whether a cancellation would be accepted. */
    predicate IsCancellable()
      reads this
      ensures IsCancellable() <==> Cancelled in ValidTransitions(status)
    {
      CancellableExactly(status);
      status in CANCELLABLE_STATES
    }
  }

  /** The slot that holds an order id; the length when none does. */
  function IndexOf(slots: seq<Order>, orderId: string): (i: nat)
    ensures i <= |slots|
    ensures i < |slots| ==> slots[i].orderId == orderId
    ensures forall j | 0 <= j < i :: slots[j].orderId != orderId
  {
    if slots == [] then 0
    else if slots[0].orderId == orderId then 0
    else 1 + IndexOf(slots[1..], orderId)
  }

  lemma IndexOfIs(slots: seq<Order>, orderId: string, i: nat)
    requires i <= |slots| && (i < |slots| ==> slots[i].orderId == orderId)
    requires forall j | 0 <= j < i :: slots[j].orderId != orderId
    ensures IndexOf(slots, orderId) == i
  {
    var k := IndexOf(slots, orderId);
  }

  function Views(orders: seq<Order>): (views: seq<OrderView>)
    reads orders
    ensures |views| == |orders|
    ensures forall i | 0 <= i < |orders| :: views[i] == orders[i].View()
  {
    if orders == [] then [] else Views(orders[..|orders| - 1]) + [orders[|orders| - 1].View()]
  }

  /** The comprehension of the list queries, on the stored values. */
  function Filter(views: seq<OrderView>, tenant: string, q: Query): seq<OrderView>
    decreases |views|
  {
    if views == [] then []
    else
      var last := views[|views| - 1];
      Filter(views[..|views| - 1], tenant, q) + if last.tenantId == tenant && Matches(q, last) then [last] else []
  }

  /** The orders by id, in insertion order, as the in-memory dictionary keeps them. */
  class OrderRepository {
    var slots: seq<Order>

    constructor ()
      ensures slots == []
    {
      slots := [];
    }

    method Save(ctx: Option<TenantContext>, order: Order) returns (error: Option<OrderError>)
      modifies this
      ensures error == if Permits(ctx, order.tenantId) then None else Some(CrossTenantAccess)
      ensures error.Some? ==> slots == old(slots)
      ensures error.None? ==>
                var i := IndexOf(old(slots), order.orderId);
                slots == if i < |old(slots)| then old(slots)[i := order] else old(slots) + [order]
    {
      if !Permits(ctx, order.tenantId) {
        return Some(CrossTenantAccess);
      }
      for i := 0 to |slots|
        invariant slots == old(slots)
        invariant forall j | 0 <= j < i :: slots[j].orderId != order.orderId
      {
        if slots[i].orderId == order.orderId {
          IndexOfIs(slots, order.orderId, i);
          slots := slots[i := order];
          return None;
        }
      }
      IndexOfIs(slots, order.orderId, |slots|);
      slots := slots + [order];
      return None;
    }

    method FindById(ctx: Option<TenantContext>, orderId: string) returns (r: Result<Option<Order>, OrderError>)
      ensures var i := IndexOf(slots, orderId);
              r == if i == |slots| then Ok(None)
                   else if Permits(ctx, slots[i].tenantId) then Ok(Some(slots[i]))
                   else Err(CrossTenantAccess)
    {
      for i := 0 to |slots|
        invariant forall j | 0 <= j < i :: slots[j].orderId != orderId
      {
        if slots[i].orderId == orderId {
          IndexOfIs(slots, orderId, i);
          return if Permits(ctx, slots[i].tenantId) then Ok(Some(slots[i])) else Err(CrossTenantAccess);
        }
      }
      IndexOfIs(slots, orderId, |slots|);
      return Ok(None);
    }

    /** find_by_customer, find_by_status and changes_since. */
    method Find(ctx: Option<TenantContext>, q: Query) returns (r: Result<seq<Order>, OrderError>)
      ensures r.Err? ==> ctx.None? && r.error == TenantNotFound
      ensures r.Ok? ==> ctx.Some? && Views(r.value) == Filter(Views(slots), ctx.value.tenantId, q)
    {
      if ctx.None? {
        return Err(TenantNotFound);
      }
      var found: seq<Order> := [];
      for i := 0 to |slots|
        invariant Views(found) == Filter(Views(slots)[..i], ctx.value.tenantId, q)
      {
        assert Views(slots)[..i + 1][..i] == Views(slots)[..i];
        if slots[i].tenantId == ctx.value.tenantId && Matches(q, slots[i].View()) {
          assert (found + [slots[i]])[..|found|] == found;
          found := found + [slots[i]];
        }
      }
      assert Views(slots)[..|slots|] == Views(slots);
      return Ok(found);
    }
  }

  /** The injected refund callback: it answers its n-th call with a reference or raises. */
  class RefundGateway {
    const outcomes: nat -> Option<string>
    var calls: seq<Order>

    constructor (outcomes: nat -> Option<string>)
      ensures calls == [] && this.outcomes == outcomes
    {
      this.outcomes := outcomes;
      calls := [];
    }

    method Call(order: Order) returns (ref: Option<string>)
      modifies this
      ensures calls == old(calls) + [order] && ref == outcomes(|old(calls)|)
    {
      ref := outcomes(|calls|);
      calls := calls + [order];
    }
  }
}

module OrderService {
  import opened Wrappers
  import opened Decimals
  import opened Commission
  import opened Ledger
  import opened Lifecycle
  import opened Audit
  import opened OrderWorld
  import opened OrderRuns
  import opened OrderTenancy
  import opened OrderObjects

  /** These are the objects that the handles name. */
  ghost predicate Stored(slots: seq<Order>, universe: seq<Order>, repo: seq<nat>) {
    && |slots| == |repo|
    && forall i | 0 <= i < |repo| :: repo[i] < |universe| && slots[i] == universe[repo[i]]
  }


  class Service {
    const repository: OrderRepository
    const audit: AuditLogger
    const ledger: CommissionLedger
    const defaultRate: Dec
    const gateway: RefundGateway?

    /** The abstract state, and the order object that each of its handles names. */
    ghost var world: World
    ghost var universe: seq<Order>

    constructor (repository: OrderRepository, audit: AuditLogger, ledger: CommissionLedger, defaultRate: Dec, gateway: RefundGateway?)
      requires repository.slots == [] && audit.entries == [] && audit.Valid() && ledger.entries == []
      requires gateway != null ==> gateway.calls == []
      ensures Valid() && world == Run(defaultRate, []) && universe == []
    {
      this.repository, this.audit, this.ledger, this.defaultRate, this.gateway := repository, audit, ledger, defaultRate, gateway;
      world := World(defaultRate, [], [], [], [], []);
      universe := [];
    }

    /** The objects hold exactly the abstract state. */
    ghost predicate Valid()
      reads this, repository, audit, ledger, gateway, universe
    {
      && OrderWorld.Valid(world) && world.defaultRate == defaultRate
      && OrdersMatch() && RepositoryMatches() && RefundsMatch()
      && ledger.entries == Entries(world.ledger)
      && audit.Valid() && Events(audit.entries) == world.audit
    }

    ghost predicate OrdersMatch()
      reads this, universe
    {
      && |universe| == |world.objs|
      && (forall i, j | 0 <= i < j < |universe| :: universe[i] != universe[j])
      && (forall i | 0 <= i < |universe| :: universe[i].View() == world.objs[i])
    }

    ghost predicate RepositoryMatches()
      reads this, repository
    {
      Stored(repository.slots, universe, world.repo)
    }

    ghost predicate RefundsMatch()
      reads this, gateway
    {
      if gateway == null then world.refunds == []
      else
        Stored(gateway.calls, universe, world.refunds)
    }

    ghost predicate Names(h: nat, order: Order)
      reads this
    {
      h < |universe| && universe[h] == order
    }

    /** What the refund callback will do on its next call. */
    ghost function NextRefund(): Refund
      reads this, gateway
    {
      if gateway == null then NoCallback
      else match gateway.outcomes(|gateway.calls|)
           case None => Raises
           case Some(ref) => Reference(ref)
    }

    /** Takes note of a newly constructed order. */
    ghost method Adopt(order: Order)
      requires Valid() && order !in universe && IsNew(order.View())
      modifies this`world, this`universe
      ensures Valid() && universe == old(universe) + [order]
      ensures world == Step(old(world), Create(order.View())).world
    {
      universe := universe + [order];
      world := Step(world, Create(order.View())).world;
    }

    // ----- one primitive change each -----

    /** Order.transition_to. */
    method Move(order: Order, to: OrderStatus, actor: string, reason: string, now: string, ghost h: nat)
      returns (r: Result<OrderStateChange, OrderError>)
      requires Valid() && Names(h, order)
      modifies this`world, order
      ensures Valid() && Names(h, order)
      ensures to !in ValidTransitions(old(world).objs[h].status) ==> r == Err(InvalidTransition) && world == old(world)
      ensures to in ValidTransitions(old(world).objs[h].status) ==>
                var o := old(world).objs[h];
                && r == Ok(OrderStateChange(o.orderId, o.status, to, now, actor, reason))
                && world == old(world).(objs := old(world).objs[h := Moved(o, to, actor, reason, now)])
    {
      ghost var o := world.objs[h];
      r := order.TransitionTo(to, actor, reason, now);
      if r.Ok? {
        world := world.(objs := world.objs[h := Moved(o, to, actor, reason, now)]);
      }
    }

    /** _bind_tenant. */
    method Bind(order: Order, ctx: Option<TenantContext>, ghost h: nat)
      requires Valid() && Names(h, order)
      modifies this`world, order
      ensures Valid() && Names(h, order)
      ensures world == old(world).(objs := old(world).objs[h := Bound(old(world).objs[h], ctx)])
    {
      ghost var o := Bound(world.objs[h], ctx);
      if order.tenantId == "" && ctx.Some? {
        order.tenantId := ctx.value.tenantId;
        if order.branchId == "" {
          order.branchId := ctx.value.branchId;
        }
      }
      world := world.(objs := world.objs[h := o]);
    }

    /** Saving the object of a handle is saving the handle. */
    lemma SaveMatches(order: Order, h: nat)
      requires Valid() && Names(h, order)
      ensures order.tenantId == world.objs[h].tenantId
      ensures var i := IndexOf(repository.slots, order.orderId);
              var saved := if i < |repository.slots| then repository.slots[i := order] else repository.slots + [order];
              var put := Put(world.objs, world.repo, h);
              Within(put, |world.objs|) && Stored(saved, universe, put)
    {
      assert order.View() == world.objs[h];
      forall i | 0 <= i < |universe|
        ensures universe[i].orderId == world.objs[i].orderId
      {
        assert universe[i].View() == world.objs[i];
      }
      SaveIsPut(repository.slots, universe, world.objs, world.repo, order, h);
    }

    method Store(order: Order, ctx: Option<TenantContext>, ghost h: nat) returns (error: Option<OrderError>)
      requires Valid() && Names(h, order)
      modifies this`world, repository
      ensures Valid() && Names(h, order)
      ensures error == if Permits(ctx, old(world).objs[h].tenantId) then None else Some(CrossTenantAccess)
      ensures world == if error.None? then old(world).(repo := Put(old(world).objs, old(world).repo, h)) else old(world)
    {
      SaveMatches(order, h);
      ghost var put := Put(world.objs, world.repo, h);
      error := repository.Save(ctx, order);
      if error.None? {
        world := world.(repo := put);
      }
    }

    method Record(actor: string, eventType: string, ref: string, details: Details)
      requires Valid()
      modifies this`world, audit
      ensures Valid() && world == Logged(old(world), actor, eventType, ref, details)
    {
      var entry := audit.Log(Event(actor, eventType, "success", ref, details));
      world := Logged(world, actor, eventType, ref, details);
    }

    method Append(entry: LedgerEntry, ghost p: Posting)
      requires Valid() && p.entry == entry && p.order < |world.objs|
      modifies this`world, ledger
      ensures Valid() && world == old(world).(ledger := old(world).ledger + [p])
    {
      ledger.Append(entry);
      world := world.(ledger := world.ledger + [p]);
    }

    method CallGateway(order: Order, ghost h: nat) returns (ref: Option<string>)
      requires Valid() && Names(h, order) && gateway != null
      modifies this`world, gateway
      ensures Valid() && Names(h, order)
      ensures world == old(world).(refunds := old(world).refunds + [h])
      ensures old(NextRefund()) == if ref.None? then Raises else Reference(ref.value)
    {
      ref := gateway.Call(order);
      world := world.(refunds := world.refunds + [h]);
    }

    // ----- the requests -----

    method Register(order: Order, ctx: Option<TenantContext>, actor: string, ghost h: nat) returns (error: Option<OrderError>)
      requires Valid() && Names(h, order)
      modifies this`world, order, repository, audit
      ensures Valid() && Outcome(world, error) == RegisterStep(old(world), h, ctx, actor)
    {
      Bind(order, ctx, h);
      error := Store(order, ctx, h);
      if error.None? {
        Record(actor, ORDER_CREATED, order.orderId, OrderCreated(order.tenantId, order.total));
      }
    }

    /** The part of transition before any settlement. */
    method ChangeStatus(order: Order, to: OrderStatus, ctx: Option<TenantContext>, actor: string, reason: string, now: string, ghost h: nat)
      returns (r: Result<OrderStateChange, OrderError>)
      requires Valid() && Names(h, order)
      modifies this`world, order, repository, audit
      ensures Valid() && Names(h, order)
      ensures Outcome(world, if r.Ok? then None else Some(r.error)) == MoveStep(old(world), h, ctx, to, actor, reason, now)
      ensures r.Ok? ==> r.value == OrderStateChange(order.orderId, old(world).objs[h].status, to, now, actor, reason)
    {
      r := Move(order, to, actor, reason, now, h);
      if r.Err? {
        return;
      }
      var refused := Publish(order, ctx, actor, r.value.from, to, h);
      if refused.Some? {
        return Err(refused.value);
      }
    }

    /** Saves a changed order and, if that was permitted, records the change. */
    method Publish(order: Order, ctx: Option<TenantContext>, actor: string, from: OrderStatus, to: OrderStatus, ghost h: nat)
      returns (error: Option<OrderError>)
      requires Valid() && Names(h, order)
      modifies this`world, repository, audit
      ensures Valid() && Names(h, order)
      ensures var o := old(world).objs[h];
              && error == (if Permits(ctx, o.tenantId) then None else Some(CrossTenantAccess))
              && world == if error.Some? then old(world)
                          else Logged(old(world).(repo := Put(old(world).objs, old(world).repo, h)), actor, STATUS_CHANGED,
                                      o.orderId, StatusChanged(o.tenantId, from, to))
    {
      error := Store(order, ctx, h);
      if error.None? {
        Record(actor, STATUS_CHANGED, order.orderId, StatusChanged(order.tenantId, from, to));
      }
    }

    method Transition(order: Order, to: OrderStatus, ctx: Option<TenantContext>, actor: string, reason: string, now: string, ghost h: nat)
      returns (r: Result<OrderStateChange, OrderError>)
      requires Valid() && Names(h, order)
      modifies this`world, order, repository, audit, ledger
      ensures Valid() && Names(h, order)
      ensures var out := TransitionStep(old(world), h, ctx, to, actor, reason, now);
              && world == out.world
              && (out.error == if r.Ok? then None else Some(r.error))
      ensures r.Ok? ==> r.value == OrderStateChange(order.orderId, old(world).objs[h].status, to, now, actor, reason)
    {
      r := ChangeStatus(order, to, ctx, actor, reason, now, h);
      if r.Ok? && to == Completed {
        var failed := SettleCommission(order, ctx, actor, h);
        if failed.Some? {
          return Err(failed.value);
        }
      }
    }

    method SettleCommission(order: Order, ctx: Option<TenantContext>, actor: string, ghost h: nat) returns (error: Option<OrderError>)
      requires Valid() && Names(h, order)
      modifies this`world, order, audit, ledger
      ensures Valid() && Names(h, order) && Outcome(world, error) == SettleStep(old(world), h, ctx, actor)
    {
      ghost var o := world.objs[h];
      var charged := Calculate(defaultRate, order.total, if ctx.Some? then Some(ctx.value.commissionRate) else None);
      if charged.Err? {
        return Some(BadCommission(charged.error));
      }
      var split := charged.value;
      order.snapshot := Some(CommissionSnapshot(split.rate, split.fee, split.settlement));
      world := world.(objs := world.objs[h := o.(snapshot := Some(SnapshotOf(split)))]);
      var made := NewEntry(LedgerEntry(order.tenantId, order.orderId, order.currency, split.gross, split.fee, split.settlement, split.rate));
      if made.Err? {
        assert false;  // a split is always balanced
      }
      Append(made.value, Settlement(h, made.value));
      Record(actor, COMMISSION_SETTLED, order.orderId, CommissionSettled(order.tenantId, split.rate, split.fee, split.settlement));
      return None;
    }

    method Complete(order: Order, ctx: Option<TenantContext>, actor: string, now: string, ghost h: nat, reason: string := "Service completed")
      returns (r: Result<OrderStateChange, OrderError>)
      requires Valid() && Names(h, order)
      modifies this`world, order, repository, audit, ledger
      ensures Valid()
      ensures var out := TransitionStep(old(world), h, ctx, Completed, actor, reason, now);
              world == out.world && (out.error == if r.Ok? then None else Some(r.error))
      ensures r.Ok? ==> r.value == OrderStateChange(order.orderId, old(world).objs[h].status, Completed, now, actor, reason)
    {
      r := Transition(order, Completed, ctx, actor, reason, now, h);
    }

    method Cancel(order: Order, ctx: Option<TenantContext>, actor: string, reason: string, now: string, ghost h: nat)
      returns (r: Result<OrderStateChange, OrderError>)
      requires Valid() && Names(h, order)
      modifies this`world, order, repository, audit, ledger, gateway
      ensures Valid()
      ensures var out := CancelStep(old(world), h, ctx, actor, reason, now, old(NextRefund()));
              world == out.world && (out.error == if r.Ok? then None else Some(r.error))
      ensures r.Ok? ==> r.value == OrderStateChange(order.orderId, old(world).objs[h].status, Cancelled, now, actor, reason)
    {
      ghost var refund := NextRefund();
      r := Transition(order, Cancelled, ctx, actor, reason, now, h);
      if r.Ok? {
        assert NextRefund() == refund;
        var failed := RefundOrder(order, actor, reason, h);
        if failed.Some? {
          return Err(failed.value);
        }
      }
    }

    /** The part of cancel after the transition. */
    method RefundOrder(order: Order, actor: string, reason: string, ghost h: nat) returns (error: Option<OrderError>)
      requires Valid() && Names(h, order)
      modifies this`world, audit, gateway
      ensures Valid() && Outcome(world, error) == RefundStep(old(world), h, actor, reason, old(NextRefund()))
    {
      var ref := "";
      if gateway != null {
        var answer := CallGateway(order, h);
        if answer.None? {
          return Some(RefundRaised);
        }
        ref := answer.value;
      }
      Record(actor, ORDER_CANCELLED, order.orderId, OrderCancelled(order.tenantId, ref, reason != ""));
      return None;
    }

    method RecordCommissionReversal(order: Order, actor: string, fraction: DecimalText, reason: string, ghost h: nat)
      returns (r: Result<LedgerEntry, OrderError>)
      requires Valid() && Names(h, order)
      modifies this`world, audit, ledger
      ensures Valid()
      ensures var out := ReverseStep(old(world), h, actor, fraction, reason);
              world == out.world && (out.error == if r.Ok? then None else Some(r.error))
      ensures r.Ok? ==> ledger.entries == old(ledger.entries) + [r.value]
    {
      ghost var o := world.objs[h];
      if order.snapshot.None? {
        return Err(NoSettledCommission);
      }
      var snapshot := order.snapshot.value;
      var settled := Split(snapshot.rate, snapshot.fee + snapshot.settlement, snapshot.fee, snapshot.settlement);
      assert settled == SplitOf(o.snapshot.value);
      var reversed := Commission.Reverse(settled, fraction);
      if reversed.Err? {
        return Err(BadCommission(reversed.error));
      }
      r := PostReversal(order, actor, reversed.value, fraction.value, reason, h);
    }

    method PostReversal(order: Order, actor: string, reversal: Split, fraction: Dec, reason: string, ghost h: nat)
      returns (r: Result<LedgerEntry, OrderError>)
      requires Valid() && Names(h, order) && reversal.fee + reversal.settlement == reversal.gross
      modifies this`world, audit, ledger
      ensures Valid()
      ensures r == Ok(ReversalEntry(old(world).objs[h], reversal))
      ensures world == Logged(old(world).(ledger := old(world).ledger + [Reversal(h, fraction, r.value)]), actor,
                              COMMISSION_REVERSED, order.orderId,
                              CommissionReversed(order.tenantId, fraction, reversal.fee, reason != ""))
      ensures ledger.entries == old(ledger.entries) + [r.value]
    {
      var made := NewEntry(LedgerEntry(order.tenantId, order.orderId, order.currency,
                                       -reversal.gross, -reversal.fee, -reversal.settlement, reversal.rate));
      if made.Err? {
        assert false;  // a reversal is always balanced
      }
      Append(made.value, Reversal(h, fraction, made.value));
      Record(actor, COMMISSION_REVERSED, order.orderId,
             CommissionReversed(order.tenantId, fraction, reversal.fee, reason != ""));
      return Ok(made.value);
    }

    /** A lookup by id answers what the state machine says. */
    method FindOrderById(ctx: Option<TenantContext>, orderId: string) returns (r: Result<Option<Order>, OrderError>)
      requires Valid()
      ensures match FindById(world, ctx, orderId)
              case Err(e) => r == Err(e)
              case Ok(None) => r == Ok(None)
              case Ok(Some(o)) => r.Ok? && r.value.Some? && r.value.value in universe && r.value.value.View() == o
    {
      r := repository.FindById(ctx, orderId);
      IndexIsSlot(repository.slots, universe, world.objs, world.repo, orderId);
    }

    /** The list queries answer what the state machine says. */
    method FindOrders(ctx: Option<TenantContext>, q: Query) returns (r: Result<seq<Order>, OrderError>)
      requires Valid()
      ensures r.Ok? <==> Find(world, ctx, q).Ok?
      ensures r.Ok? ==> Views(r.value) == Find(world, ctx, q).value
    {
      r := repository.Find(ctx, q);
      if ctx.Some? {
        FilterIsScan(Views(repository.slots), world.objs, world.repo, ctx.value.tenantId, q);
      }
    }
  }

  lemma {:induction false} IndexIsSlot(slots: seq<Order>, universe: seq<Order>, objs: seq<OrderView>, repo: seq<nat>, orderId: string)
    requires Stored(slots, universe, repo) && Within(repo, |objs|) && |universe| == |objs|
    requires forall i | 0 <= i < |universe| :: universe[i].orderId == objs[i].orderId
    ensures IndexOf(slots, orderId) == SlotOf(objs, repo, orderId)
  {
    if slots != [] {
      IndexIsSlot(slots[1..], universe, objs, repo[1..], orderId);
    }
  }

  /** The dictionary assignment on objects is the one on handles. */
  lemma SaveIsPut(
    slots: seq<Order>, universe: seq<Order>, objs: seq<OrderView>, repo: seq<nat>, order: Order, h: nat)
    requires Stored(slots, universe, repo) && Within(repo, |objs|) && |universe| == |objs|
    requires forall i | 0 <= i < |universe| :: universe[i].orderId == objs[i].orderId
    requires h < |universe| && universe[h] == order
    ensures var i := IndexOf(slots, order.orderId);
            var saved, put := if i < |slots| then slots[i := order] else slots + [order], Put(objs, repo, h);
            Within(put, |objs|) && Stored(saved, universe, put)
  {
    IndexIsSlot(slots, universe, objs, repo, order.orderId);
  }

  lemma {:induction false} FilterIsScan(views: seq<OrderView>, objs: seq<OrderView>, repo: seq<nat>, tenant: string, q: Query)
    requires |views| == |repo| && Within(repo, |objs|)
    requires forall i | 0 <= i < |repo| :: views[i] == objs[repo[i]]
    ensures Filter(views, tenant, q) == Scan(objs, repo, tenant, q)
    decreases |repo|
  {
    if repo != [] {
      FilterIsScan(views[..|repo| - 1], objs, repo[..|repo| - 1], tenant, q);
    }
  }
}
