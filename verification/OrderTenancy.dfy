/** Tenant isolation of the order repository: what one tenant sees, and which requests of
    other tenants can change it. */
module OrderTenancy {
  import opened Wrappers
  import opened Decimals
  import opened Lifecycle
  import opened Audit
  import opened Text
  import opened OrderWorld

  datatype Query = ByCustomer(customerId: string) | ByStatus(status: OrderStatus) | ChangedSince(timestamp: string)

  predicate Matches(q: Query, o: OrderView) {
    match q
    case ByCustomer(id) => o.customerId == id
    case ByStatus(status) => o.status == status
    case ChangedSince(timestamp) => o.updatedAt != "" && Less(timestamp, o.updatedAt)
  }

  /** The stored orders of one tenant, in insertion order. */
  function Visible(objs: seq<OrderView>, repo: seq<nat>, tenant: string): seq<OrderView>
    requires Within(repo, |objs|)
    decreases |repo|
  {
    if repo == [] then []
    else
      var n := |repo| - 1;
      Visible(objs, repo[..n], tenant) + if objs[repo[n]].tenantId == tenant then [objs[repo[n]]] else []
  }

  function Select(q: Query, orders: seq<OrderView>): seq<OrderView>
    decreases |orders|
  {
    if orders == [] then []
    else
      var n := |orders| - 1;
      Select(q, orders[..n]) + if Matches(q, orders[n]) then [orders[n]] else []
  }

  /** The comprehension of the list queries over all stored orders. */
  function Scan(objs: seq<OrderView>, repo: seq<nat>, tenant: string, q: Query): seq<OrderView>
    requires Within(repo, |objs|)
    decreases |repo|
  {
    if repo == [] then []
    else
      var n := |repo| - 1;
      var o := objs[repo[n]];
      Scan(objs, repo[..n], tenant, q) + if o.tenantId == tenant && Matches(q, o) then [o] else []
  }

  /** find_by_customer, find_by_status and changes_since. */
  function Find(w: World, ctx: Option<TenantContext>, q: Query): Result<seq<OrderView>, OrderError>
    requires Valid(w)
  {
    if ctx.None? then Err(TenantNotFound) else Ok(Scan(w.objs, w.repo, ctx.value.tenantId, q))
  }

  /** find_by_id. */
  function FindById(w: World, ctx: Option<TenantContext>, orderId: string): Result<Option<OrderView>, OrderError>
    requires Valid(w)
  {
    var i := SlotOf(w.objs, w.repo, orderId);
    if i == |w.repo| then Ok(None)
    else if !Permits(ctx, w.objs[w.repo[i]].tenantId) then Err(CrossTenantAccess)
    else Ok(Some(w.objs[w.repo[i]]))
  }

  /** A list query selects from the tenant's own orders, and from nothing else. */
  lemma ScanSelectsVisible(objs: seq<OrderView>, repo: seq<nat>, tenant: string, q: Query)
    requires Within(repo, |objs|)
    ensures Scan(objs, repo, tenant, q) == Select(q, Visible(objs, repo, tenant))
    ensures forall o <- Scan(objs, repo, tenant, q) :: o.tenantId == tenant && Matches(q, o)
  {
    ScanIsSelection(objs, repo, tenant, q);
    ScanFindsOwn(objs, repo, tenant, q);
  }

  lemma {:induction false} ScanIsSelection(objs: seq<OrderView>, repo: seq<nat>, tenant: string, q: Query)
    requires Within(repo, |objs|)
    ensures Scan(objs, repo, tenant, q) == Select(q, Visible(objs, repo, tenant))
    decreases |repo|
  {
    if repo != [] {
      var n := |repo| - 1;
      ScanIsSelection(objs, repo[..n], tenant, q);
      var before, o := Visible(objs, repo[..n], tenant), objs[repo[n]];
      if o.tenantId == tenant {
        SelectAppends(q, before, o);
      } else {
        assert before + [] == before;
      }
    }
  }

  lemma {:induction false} ScanFindsOwn(objs: seq<OrderView>, repo: seq<nat>, tenant: string, q: Query)
    requires Within(repo, |objs|)
    ensures forall o <- Scan(objs, repo, tenant, q) :: o.tenantId == tenant && Matches(q, o)
    decreases |repo|
  {
    if repo != [] {
      ScanFindsOwn(objs, repo[..|repo| - 1], tenant, q);
    }
  }

  lemma SelectAppends(q: Query, orders: seq<OrderView>, o: OrderView)
    ensures Select(q, orders + [o]) == Select(q, orders) + if Matches(q, o) then [o] else []
  {
    assert (orders + [o])[..|orders|] == orders;
  }

  // ----- one change at a time -----

  lemma {:induction false} ForeignMutationIsInvisible(objs: seq<OrderView>, repo: seq<nat>, h: nat, o: OrderView, tenant: string)
    requires Within(repo, |objs|) && h < |objs|
    requires objs[h].tenantId != tenant && o.tenantId != tenant
    ensures Visible(objs[h := o], repo, tenant) == Visible(objs, repo, tenant)
    decreases |repo|
  {
    if repo != [] {
      ForeignMutationIsInvisible(objs, repo[..|repo| - 1], h, o, tenant);
    }
  }

  lemma AppendIsInjective(a: seq<OrderView>, b: seq<OrderView>, x: OrderView, y: OrderView)
    requires |a| == |b|
    ensures a + [x] == b + [y] <==> a == b && x == y
  {
    assert (a + [x])[..|a|] == a && (b + [y])[..|b|] == b;
    assert (a + [x])[|a|] == x && (b + [y])[|b|] == y;
  }

  /** An order of the tenant changed in place shows as soon as it is stored. */
  lemma {:induction false} OwnMutationShows(objs: seq<OrderView>, repo: seq<nat>, h: nat, o: OrderView, tenant: string)
    requires Within(repo, |objs|) && h < |objs|
    requires objs[h].tenantId == tenant == o.tenantId && o != objs[h]
    ensures Visible(objs[h := o], repo, tenant) == Visible(objs, repo, tenant) <==> h !in repo
    ensures |Visible(objs[h := o], repo, tenant)| == |Visible(objs, repo, tenant)|
    decreases |repo|
  {
    if repo != [] {
      var n := |repo| - 1;
      OwnMutationShows(objs, repo[..n], h, o, tenant);
      assert repo == repo[..n] + [repo[n]];
      assert h in repo <==> h in repo[..n] || h == repo[n];
      var a, b := Visible(objs, repo[..n], tenant), Visible(objs[h := o], repo[..n], tenant);
      if objs[repo[n]].tenantId == tenant {
        AppendIsInjective(a, b, objs[repo[n]], objs[h := o][repo[n]]);
      } else {
        assert a + [] == a && b + [] == b;
      }
    }
  }

  lemma AppendedForeignIsInvisible(objs: seq<OrderView>, repo: seq<nat>, h: nat, tenant: string)
    requires Within(repo, |objs|) && h < |objs| && objs[h].tenantId != tenant
    ensures Visible(objs, repo + [h], tenant) == Visible(objs, repo, tenant)
  {
    assert (repo + [h])[..|repo|] == repo;
  }

  /** Overwriting a slot by a foreign order evicts the tenant's order that it held. */
  lemma {:induction false} OverwritingEvicts(objs: seq<OrderView>, repo: seq<nat>, i: nat, h: nat, tenant: string)
    requires Within(repo, |objs|) && i < |repo| && h < |objs| && objs[h].tenantId != tenant
    ensures Within(repo[i := h], |objs|)
    ensures objs[repo[i]].tenantId != tenant ==> Visible(objs, repo[i := h], tenant) == Visible(objs, repo, tenant)
    ensures objs[repo[i]].tenantId == tenant ==> |Visible(objs, repo[i := h], tenant)| == |Visible(objs, repo, tenant)| - 1
    decreases |repo|
  {
    var n := |repo| - 1;
    if i < n {
      OverwritingEvicts(objs, repo[..n], i, h, tenant);
      assert repo[i := h][..n] == repo[..n][i := h];
    } else {
      assert repo[i := h][..n] == repo[..n];
    }
  }

  /** The stored order of a tenant that a save of order h would evict. */
  predicate Evicts(w: World, h: nat, tenant: string)
    requires Valid(w) && h < |w.objs|
  {
    var i := SlotOf(w.objs, w.repo, w.objs[h].orderId);
    i < |w.repo| && w.objs[w.repo[i]].tenantId == tenant
  }

  lemma {:induction false} SlotIgnoresChanges(objs: seq<OrderView>, repo: seq<nat>, h: nat, o: OrderView, id: string)
    requires Within(repo, |objs|) && h < |objs| && o.orderId == objs[h].orderId
    ensures SlotOf(objs[h := o], repo, id) == SlotOf(objs, repo, id)
  {
    if repo != [] {
      SlotIgnoresChanges(objs, repo[1..], h, o, id);
    }
  }

  /** A changed and saved foreign order leaves the tenant's view alone just when it evicts
      none of its orders. */
  lemma SaveInterferesExactly(w: World, h: nat, o: OrderView, tenant: string)
    requires Valid(w) && h < |w.objs| && w.objs[h].tenantId != tenant && o.tenantId != tenant
    requires o.orderId == w.objs[h].orderId
    ensures var objs := w.objs[h := o];
            Visible(objs, Put(objs, w.repo, h), tenant) == Visible(w.objs, w.repo, tenant) <==> !Evicts(w, h, tenant)
  {
    var objs := w.objs[h := o];
    var i := SlotOf(objs, w.repo, o.orderId);
    SlotIgnoresChanges(w.objs, w.repo, h, o, o.orderId);
    ForeignMutationIsInvisible(w.objs, w.repo, h, o, tenant);
    if i < |w.repo| {
      OverwritingEvicts(objs, w.repo, i, h, tenant);
    } else {
      AppendedForeignIsInvisible(objs, w.repo, h, tenant);
    }
  }

  lemma SettlementIsInvisible(w: World, h: nat, ctx: Option<TenantContext>, actor: string, tenant: string)
    requires Valid(w) && h < |w.objs| && w.objs[h].tenantId != tenant
    ensures var w1 := SettleStep(w, h, ctx, actor).world;
            Valid(w1) && Visible(w1.objs, w1.repo, tenant) == Visible(w.objs, w.repo, tenant)
  {
    var w1 := SettleStep(w, h, ctx, actor).world;
    if w1.objs != w.objs {
      ForeignMutationIsInvisible(w.objs, w.repo, h, w1.objs[h], tenant);
    }
  }

  /** An allowed transition requested under another tenant leaves a tenant's view alone just
      when it neither targets one of its stored orders nor evicts one by reusing its id. In
      the first case the request fails, but only after the order has been changed in place. */
  lemma TransitionInterferesExactly(
    w: World, h: nat, ctx: TenantContext, to: OrderStatus, actor: string, reason: string, now: string, tenant: string)
    requires Valid(w) && h < |w.objs| && to in ValidTransitions(w.objs[h].status)
    requires tenant != "" && tenant != ctx.tenantId
    ensures var out := TransitionStep(w, h, Some(ctx), to, actor, reason, now);
            && Valid(out.world)
            && (Visible(out.world.objs, out.world.repo, tenant) == Visible(w.objs, w.repo, tenant) <==>
                  && !(w.objs[h].tenantId == tenant && h in w.repo)
                  && !(Permits(Some(ctx), w.objs[h].tenantId) && Evicts(w, h, tenant)))
            && (w.objs[h].tenantId == tenant ==> out.error == Some(CrossTenantAccess))
  {
    var o, o1 := w.objs[h], Moved(w.objs[h], to, actor, reason, now);
    StepKeepsValid(w, Op.Transition(h, Some(ctx), to, actor, reason, now));
    if o.tenantId == tenant {
      OwnMutationShows(w.objs, w.repo, h, o1, tenant);
    } else {
      TransitionShowsItsMove(w, h, Some(ctx), to, actor, reason, now, tenant);
      if Permits(Some(ctx), o.tenantId) {
        SaveInterferesExactly(w, h, o1, tenant);
      } else {
        ForeignMutationIsInvisible(w.objs, w.repo, h, o1, tenant);
      }
    }
  }

  /** Settlement adds nothing that shows to a tenant whose order is not settled. */
  lemma TransitionShowsItsMove(
    w: World, h: nat, ctx: Option<TenantContext>, to: OrderStatus, actor: string, reason: string, now: string, tenant: string)
    requires Valid(w) && h < |w.objs| && w.objs[h].tenantId != tenant
    ensures var moved, w1 := MoveStep(w, h, ctx, to, actor, reason, now).world,
                             TransitionStep(w, h, ctx, to, actor, reason, now).world;
            Valid(w1) && Visible(w1.objs, w1.repo, tenant) == Visible(moved.objs, moved.repo, tenant)
  {
    var moved := MoveStep(w, h, ctx, to, actor, reason, now);
    if moved.error.None? && to == Completed {
      SettlementIsInvisible(moved.world, h, ctx, actor, tenant);
    }
  }

  /** It does happen: an order is created and registered, and then reserved in the name of
      another tenant. The request fails, and the order's own tenant no longer finds it among
      its drafts. */
  lemma RefusedTransitionShows(
    rate: Dec, o: OrderView, own: TenantContext, other: TenantContext, actor: string, now: string)
    requires IsNew(o) && o.tenantId in ["", own.tenantId] && own.tenantId != "" && other.tenantId != own.tenantId
    ensures var ops := [Create(o), Register(0, Some(own), actor)];
            var request := Op.Transition(0, Some(other), Reserved, "", "", now);
            var w, w1 := Run(rate, ops), Run(rate, ops + [request]);
            && Find(w, Some(own), ByStatus(Draft)) == Ok([Bound(o, Some(own))])
            && Step(w, request) == Outcome(w1, Some(CrossTenantAccess))
            && Find(w1, Some(own), ByStatus(Draft)) == Ok([])
  {
    var w := RegisteredRun(rate, o, own, actor);
    OneMoreRequest(rate, [Create(o), Register(0, Some(own), actor)], Op.Transition(0, Some(other), Reserved, "", "", now));
    RefusedMoveShows(w, own, other, now);
  }

  lemma RefusedMoveShows(w: World, own: TenantContext, other: TenantContext, now: string)
    requires Valid(w) && |w.objs| == 1 && w.repo == [0] && w.objs[0].status == Draft
    requires w.objs[0].tenantId == own.tenantId != "" && other.tenantId != own.tenantId
    ensures var out := Step(w, Op.Transition(0, Some(other), Reserved, "", "", now));
            && Find(w, Some(own), ByStatus(Draft)) == Ok([w.objs[0]])
            && out.error == Some(CrossTenantAccess)
            && Valid(out.world) && Find(out.world, Some(own), ByStatus(Draft)) == Ok([])
  {
    var w1 := Step(w, Op.Transition(0, Some(other), Reserved, "", "", now)).world;
    assert w1 == w.(objs := w.objs[0 := Moved(w.objs[0], Reserved, "", "", now)]);
    OneStored(w.objs, own.tenantId, ByStatus(Draft));
    OneStored(w1.objs, own.tenantId, ByStatus(Draft));
  }

  lemma RegisteredRun(rate: Dec, o: OrderView, own: TenantContext, actor: string) returns (w: World)
    requires IsNew(o) && o.tenantId in ["", own.tenantId] && own.tenantId != ""
    ensures w == Run(rate, [Create(o), Register(0, Some(own), actor)])
    ensures w.objs == [Bound(o, Some(own))] && w.repo == [0] && Bound(o, Some(own)).tenantId == own.tenantId
  {
    var ops := [Create(o), Register(0, Some(own), actor)];
    assert ops[..1] == [Create(o)] && [Create(o)][..0] == [];
    assert Run(rate, [Create(o)]) == World(rate, [o], [], [], [], []);
    w := Run(rate, ops);
  }

  lemma OneStored(objs: seq<OrderView>, tenant: string, q: Query)
    requires |objs| == 1
    ensures Scan(objs, [0], tenant, q) == if objs[0].tenantId == tenant && Matches(q, objs[0]) then [objs[0]] else []
  {
    assert [0][..0] == [];
    assert Scan(objs, [], tenant, q) == [];
  }

  // ----- whole runs -----

  /** A request of somebody else: bound to another tenant (or to none), for an order that is
      not the tenant's and whose id no stored order of the tenant has. */
  predicate IsForeign(w: World, op: Op, tenant: string)
    requires Valid(w)
  {
    match op
    case Create(_) => true
    case Reverse(_, _, _, _) => true
    case _ =>
      op.h < |w.objs| ==>
        && (op.ctx.Some? ==> op.ctx.value.tenantId != tenant)
        && w.objs[op.h].tenantId != tenant
        && !Evicts(w, op.h, tenant)
  }

  lemma {:induction false} NewObjectIsInvisible(objs: seq<OrderView>, repo: seq<nat>, o: OrderView, tenant: string)
    requires Within(repo, |objs|)
    ensures Within(repo, |objs + [o]|) && Visible(objs + [o], repo, tenant) == Visible(objs, repo, tenant)
    decreases |repo|
  {
    if repo != [] {
      NewObjectIsInvisible(objs, repo[..|repo| - 1], o, tenant);
    }
  }

  lemma ForeignTransitionIsInvisible(
    w: World, h: nat, ctx: Option<TenantContext>, to: OrderStatus, actor: string, reason: string, now: string, tenant: string)
    requires Valid(w) && h < |w.objs| && w.objs[h].tenantId != tenant && !Evicts(w, h, tenant)
    ensures var w1 := TransitionStep(w, h, ctx, to, actor, reason, now).world;
            Valid(w1) && Visible(w1.objs, w1.repo, tenant) == Visible(w.objs, w.repo, tenant)
  {
    TransitionShowsItsMove(w, h, ctx, to, actor, reason, now, tenant);
    if to in ValidTransitions(w.objs[h].status) {
      var o1 := Moved(w.objs[h], to, actor, reason, now);
      ForeignMutationIsInvisible(w.objs, w.repo, h, o1, tenant);
      if Permits(ctx, w.objs[h].tenantId) {
        SaveInterferesExactly(w, h, o1, tenant);
      }
    }
  }

  lemma ForeignRegistrationIsInvisible(
    w: World, h: nat, ctx: Option<TenantContext>, actor: string, tenant: string)
    requires Valid(w) && h < |w.objs| && w.objs[h].tenantId != tenant && !Evicts(w, h, tenant)
    requires ctx.Some? ==> ctx.value.tenantId != tenant
    ensures var w1 := RegisterStep(w, h, ctx, actor).world;
            Valid(w1) && Visible(w1.objs, w1.repo, tenant) == Visible(w.objs, w.repo, tenant)
  {
    var o := Bound(w.objs[h], ctx);
    RegisterKeepsValid(w, h, ctx, actor);
    ForeignMutationIsInvisible(w.objs, w.repo, h, o, tenant);
    SaveInterferesExactly(w, h, o, tenant);
  }

  lemma ForeignCancellationIsInvisible(
    w: World, h: nat, ctx: Option<TenantContext>, actor: string, reason: string, now: string, refund: Refund, tenant: string)
    requires Valid(w) && h < |w.objs| && w.objs[h].tenantId != tenant && !Evicts(w, h, tenant)
    ensures var w1 := CancelStep(w, h, ctx, actor, reason, now, refund).world;
            Valid(w1) && Visible(w1.objs, w1.repo, tenant) == Visible(w.objs, w.repo, tenant)
  {
    CancelKeepsValid(w, h, ctx, actor, reason, now, refund);
    ForeignTransitionIsInvisible(w, h, ctx, Cancelled, actor, reason, now, tenant);
  }

  lemma ForeignStepIsInvisible(w: World, op: Op, tenant: string)
    requires Valid(w) && IsForeign(w, op, tenant)
    ensures var w1 := Step(w, op).world;
            Valid(w1) && Visible(w1.objs, w1.repo, tenant) == Visible(w.objs, w.repo, tenant)
  {
    match op
    case Create(o) =>
      NewObjectIsInvisible(w.objs, w.repo, o, tenant);
    case Register(h, ctx, actor) =>
      if h < |w.objs| {
        ForeignRegistrationIsInvisible(w, h, ctx, actor, tenant);
      }
    case Transition(h, ctx, to, actor, reason, now) =>
      if h < |w.objs| {
        ForeignTransitionIsInvisible(w, h, ctx, to, actor, reason, now, tenant);
      }
    case Cancel(h, ctx, actor, reason, now, refund) =>
      if h < |w.objs| {
        ForeignCancellationIsInvisible(w, h, ctx, actor, reason, now, refund, tenant);
      }
    case Reverse(h, actor, fraction, reason) =>
      if h < |w.objs| {
        ReverseKeepsValid(w, h, actor, fraction, reason);
      }
  }

  /** The world after a sequence of requests. */
  function After(w: World, ops: seq<Op>): (w1: World)
    requires Valid(w)
    ensures Valid(w1)
    decreases |ops|
  {
    if ops == [] then w
    else
      StepKeepsValid(w, ops[0]);
      After(Step(w, ops[0]).world, ops[1..])
  }

  predicate AllForeign(w: World, ops: seq<Op>, tenant: string)
    requires Valid(w)
    decreases |ops|
  {
    ops == [] ||
    (IsForeign(w, ops[0], tenant) && (StepKeepsValid(w, ops[0]); AllForeign(Step(w, ops[0]).world, ops[1..], tenant)))
  }

  /** Whatever other tenants do with their own orders, in any number of requests, a tenant's
      list queries return the same orders before and after, and only its own. */
  lemma {:induction false} TenantsDoNotInterfere(w: World, ops: seq<Op>, ctx: TenantContext, q: Query)
    requires Valid(w) && AllForeign(w, ops, ctx.tenantId)
    ensures Find(After(w, ops), Some(ctx), q) == Find(w, Some(ctx), q)
    ensures forall o <- Find(w, Some(ctx), q).value :: o.tenantId == ctx.tenantId && Matches(q, o)
    decreases |ops|
  {
    ScanSelectsVisible(w.objs, w.repo, ctx.tenantId, q);
    if ops != [] {
      StepKeepsValid(w, ops[0]);
      var w1 := Step(w, ops[0]).world;
      ForeignStepIsInvisible(w, ops[0], ctx.tenantId);
      ScanSelectsVisible(w1.objs, w1.repo, ctx.tenantId, q);
      TenantsDoNotInterfere(w1, ops[1..], ctx, q);
    }
  }

  // ----- lookups by id -----

  /** What one request can change: its own target, and the repository by saving that. */
  ghost predicate ChangesOnly(w: World, w1: World, h: nat)
    requires Valid(w)
  {
    && h < |w.objs| == |w1.objs|
    && w1.objs[h].orderId == w.objs[h].orderId
    && (forall i | 0 <= i < |w.objs| && i != h :: w1.objs[i] == w.objs[i])
    && (w1.repo == w.repo || w1.repo == Put(w.objs, w.repo, h))
  }

  lemma TransitionChangesOnly(
    w: World, h: nat, ctx: Option<TenantContext>, to: OrderStatus, actor: string, reason: string, now: string)
    requires Valid(w) && h < |w.objs|
    ensures ChangesOnly(w, TransitionStep(w, h, ctx, to, actor, reason, now).world, h)
  {
    var moved := MoveStep(w, h, ctx, to, actor, reason, now);
    SlotIgnoresChanges(w.objs, w.repo, h, Moved(w.objs[h], to, actor, reason, now), w.objs[h].orderId);
    SettlementChangesOnly(moved.world, h, ctx, actor);
  }

  lemma SettlementChangesOnly(w: World, h: nat, ctx: Option<TenantContext>, actor: string)
    requires Valid(w) && h < |w.objs|
    ensures var w1 := SettleStep(w, h, ctx, actor).world;
            && w1.repo == w.repo && |w1.objs| == |w.objs| && w1.objs[h].orderId == w.objs[h].orderId
            && forall i | 0 <= i < |w.objs| && i != h :: w1.objs[i] == w.objs[i]
  {
  }

  lemma StepChangesOnly(w: World, op: Op)
    requires Valid(w) && !op.Create? && op.h < |w.objs|
    ensures ChangesOnly(w, Step(w, op).world, op.h)
  {
    match op
    case Register(h, ctx, actor) => RegisterChangesOnly(w, h, ctx, actor);
    case Transition(h, ctx, to, actor, reason, now) => TransitionChangesOnly(w, h, ctx, to, actor, reason, now);
    case Cancel(h, ctx, actor, reason, now, refund) => CancelChangesOnly(w, h, ctx, actor, reason, now, refund);
    case Reverse(h, actor, fraction, reason) => ReverseChangesOnly(w, h, actor, fraction, reason);
  }

  lemma RegisterChangesOnly(w: World, h: nat, ctx: Option<TenantContext>, actor: string)
    requires Valid(w) && h < |w.objs|
    ensures ChangesOnly(w, RegisterStep(w, h, ctx, actor).world, h)
  {
    SlotIgnoresChanges(w.objs, w.repo, h, Bound(w.objs[h], ctx), w.objs[h].orderId);
  }

  lemma CancelChangesOnly(
    w: World, h: nat, ctx: Option<TenantContext>, actor: string, reason: string, now: string, refund: Refund)
    requires Valid(w) && h < |w.objs|
    ensures ChangesOnly(w, CancelStep(w, h, ctx, actor, reason, now, refund).world, h)
  {
    TransitionChangesOnly(w, h, ctx, Cancelled, actor, reason, now);
  }

  lemma ReverseChangesOnly(w: World, h: nat, actor: string, fraction: DecimalText, reason: string)
    requires Valid(w) && h < |w.objs|
    ensures ChangesOnly(w, ReverseStep(w, h, actor, fraction, reason).world, h)
  {
  }

  lemma SlotIs(objs: seq<OrderView>, repo: seq<nat>, id: string, i: nat)
    requires Within(repo, |objs|) && i < |repo| && objs[repo[i]].orderId == id
    requires forall j | 0 <= j < i :: objs[repo[j]].orderId != id
    ensures SlotOf(objs, repo, id) == i
  {
    var k := SlotOf(objs, repo, id);
  }

  /** A change to another order, saved or not, leaves what an id finds alone. */
  lemma FoundOrderStays(w: World, w1: World, h: nat, id: string)
    requires Valid(w) && Valid(w1) && ChangesOnly(w, w1, h)
    requires var i := SlotOf(w.objs, w.repo, id);
             i < |w.repo| && w.repo[i] != h && SlotOf(w.objs, w.repo, w.objs[h].orderId) != i
    ensures var i := SlotOf(w.objs, w.repo, id);
            && SlotOf(w1.objs, w1.repo, id) == i && i < |w1.repo| && w1.objs[w1.repo[i]] == w.objs[w.repo[i]]
  {
    var i, j := SlotOf(w.objs, w.repo, id), SlotOf(w.objs, w.repo, w.objs[h].orderId);
    assert w1.repo[i] == w.repo[i];
    if j < i {
      assert w.objs[w.repo[j]].orderId != id;
    }
    SlotIs(w1.objs, w1.repo, id, i);
  }

  /** The tenant's order that an id finds. */
  ghost predicate Owns(w: World, tenant: string, id: string) {
    Valid(w) && var i := SlotOf(w.objs, w.repo, id); i < |w.repo| && w.objs[w.repo[i]].tenantId == tenant
  }

  /** Creations, reversals and requests for unknown orders change no order and store none. */
  lemma OldOrdersStay(w: World, op: Op)
    requires Valid(w) && (op.Create? || op.h >= |w.objs| || op.Reverse?)
    ensures var w1 := Step(w, op).world; w1.repo == w.repo && w.objs <= w1.objs
  {
  }

  lemma ForeignStepKeepsFound(w: World, op: Op, tenant: string, id: string)
    requires Owns(w, tenant, id) && IsForeign(w, op, tenant)
    ensures var i := SlotOf(w.objs, w.repo, id);
            var w1 := Step(w, op).world;
            Owns(w1, tenant, id) && w1.objs[w1.repo[SlotOf(w1.objs, w1.repo, id)]] == w.objs[w.repo[i]]
  {
    var i, w1 := SlotOf(w.objs, w.repo, id), Step(w, op).world;
    StepKeepsValid(w, op);
    if op.Create? || op.h >= |w.objs| || op.Reverse? {
      OldOrdersStay(w, op);
      SlotIs(w1.objs, w1.repo, id, i);
    } else {
      StepChangesOnly(w, op);
      FoundOrderStays(w, w1, op.h, id);
    }
  }

  /** ... and a lookup by the id of one of its own orders finds the same order. */
  lemma {:induction false} OwnIdsStillFound(w: World, ops: seq<Op>, ctx: TenantContext, id: string)
    requires Owns(w, ctx.tenantId, id) && AllForeign(w, ops, ctx.tenantId)
    ensures FindById(w, Some(ctx), id).Ok? && FindById(w, Some(ctx), id).value.Some?
    ensures FindById(After(w, ops), Some(ctx), id) == FindById(w, Some(ctx), id)
    decreases |ops|
  {
    if ops != [] {
      StepKeepsValid(w, ops[0]);
      ForeignStepKeepsFound(w, ops[0], ctx.tenantId, id);
      OwnIdsStillFound(Step(w, ops[0]).world, ops[1..], ctx, id);
    }
  }

  // ----- what a save stores, and what a query finds -----

  /** The order that an id names in the repository. */
  function Lookup(objs: seq<OrderView>, repo: seq<nat>, id: string): Option<nat>
    requires Within(repo, |objs|)
  {
    var i := SlotOf(objs, repo, id);
    if i < |repo| then Some(repo[i]) else None
  }

  /** The repository after saving order h: its id names it, every other id names what it did
      before, and no stored order has changed its place but for one that h replaces. */
  ghost predicate Stores(objs: seq<OrderView>, repo: seq<nat>, saved: seq<nat>, h: nat) {
    && Within(repo, |objs|) && Within(saved, |objs|) && h < |objs|
    && Lookup(objs, saved, objs[h].orderId) == Some(h)
    && (forall id | id != objs[h].orderId :: Lookup(objs, saved, id) == Lookup(objs, repo, id))
    && |repo| <= |saved| <= |repo| + 1
    && (forall i | 0 <= i < |repo| :: saved[i] == repo[i] || (saved[i] == h && objs[repo[i]].orderId == objs[h].orderId))
    && (|saved| > |repo| ==> saved[|repo|] == h && Lookup(objs, repo, objs[h].orderId) == None)
  }

  lemma LookupIs(objs: seq<OrderView>, repo: seq<nat>, id: string, i: nat)
    requires Within(repo, |objs|) && i <= |repo| && (i < |repo| ==> objs[repo[i]].orderId == id)
    requires forall j | 0 <= j < i :: objs[repo[j]].orderId != id
    ensures Lookup(objs, repo, id) == if i < |repo| then Some(repo[i]) else None
  {
    if i < |repo| {
      SlotIs(objs, repo, id, i);
    } else {
      var k := SlotOf(objs, repo, id);
    }
  }

  lemma SaveStores(objs: seq<OrderView>, repo: seq<nat>, h: nat)
    requires Within(repo, |objs|) && h < |objs|
    ensures Stores(objs, repo, Put(objs, repo, h), h)
  {
    var saved := Put(objs, repo, h);
    LookupIs(objs, saved, objs[h].orderId, SlotOf(objs, repo, objs[h].orderId));
    forall id | id != objs[h].orderId
      ensures Lookup(objs, saved, id) == Lookup(objs, repo, id)
    {
      OtherIdsStay(objs, repo, h, id);
    }
  }

  lemma OtherIdsStay(objs: seq<OrderView>, repo: seq<nat>, h: nat, id: string)
    requires Within(repo, |objs|) && h < |objs| && id != objs[h].orderId
    ensures Within(Put(objs, repo, h), |objs|) && Lookup(objs, Put(objs, repo, h), id) == Lookup(objs, repo, id)
  {
    var i, saved := SlotOf(objs, repo, id), Put(objs, repo, h);
    if i < |repo| {
      LookupIs(objs, saved, id, i);
    } else {
      LookupIs(objs, saved, id, |saved|);
    }
  }

  /** A lookup by id answers what the id names, to those who may see it. */
  lemma FindByIdIs(w: World, ctx: Option<TenantContext>, id: string)
    requires Valid(w)
    ensures FindById(w, ctx, id) ==
              match Lookup(w.objs, w.repo, id)
              case None => Ok(None)
              case Some(h) =>
                var o := w.objs[h];
                if ctx.None? || o.tenantId == "" || o.tenantId == ctx.value.tenantId then Ok(Some(o)) else Err(CrossTenantAccess)
  {
  }

  ghost predicate IsStored(objs: seq<OrderView>, repo: seq<nat>, o: OrderView)
    requires Within(repo, |objs|)
  {
    exists i :: 0 <= i < |repo| && objs[repo[i]] == o
  }

  lemma {:induction false} InScan(objs: seq<OrderView>, repo: seq<nat>, tenant: string, q: Query, o: OrderView)
    requires Within(repo, |objs|)
    ensures o in Scan(objs, repo, tenant, q) <==> IsStored(objs, repo, o) && o.tenantId == tenant && Matches(q, o)
    decreases |repo|
  {
    if repo != [] {
      var n := |repo| - 1;
      InScan(objs, repo[..n], tenant, q, o);
      assert IsStored(objs, repo, o) <==> IsStored(objs, repo[..n], o) || objs[repo[n]] == o by {
        if i :| 0 <= i < n && objs[repo[i]] == o {
          assert objs[repo[..n][i]] == o;
        }
      }
    }
  }

  /** A list query finds exactly the tenant's stored orders of that customer, in that status, or
      changed after that time. */
  lemma FindsExactly(w: World, ctx: TenantContext, q: Query, o: OrderView)
    requires Valid(w)
    ensures Find(w, None, q) == Err(TenantNotFound) && Find(w, Some(ctx), q).Ok?
    ensures o in Find(w, Some(ctx), q).value <==>
              && IsStored(w.objs, w.repo, o) && o.tenantId == ctx.tenantId
              && match q
                 case ByCustomer(id) => o.customerId == id
                 case ByStatus(status) => o.status == status
                 case ChangedSince(timestamp) => o.updatedAt != "" && Less(timestamp, o.updatedAt)
  {
    InScan(w.objs, w.repo, ctx.tenantId, q, o);
  }

  /** The slots that a query finds, in insertion order: those of the tenant's matching orders. */
  ghost predicate FoundSlots(objs: seq<OrderView>, repo: seq<nat>, tenant: string, q: Query, slots: seq<nat>)
    requires Within(repo, |objs|)
  {
    && (forall i, j | 0 <= i < j < |slots| :: slots[i] < slots[j])
    && (forall k: nat :: k in slots <==> k < |repo| && objs[repo[k]].tenantId == tenant && Matches(q, objs[repo[k]]))
  }

  /** The orders in these slots. */
  ghost predicate AreAt(objs: seq<OrderView>, repo: seq<nat>, slots: seq<nat>, found: seq<OrderView>)
    requires Within(repo, |objs|)
  {
    |found| == |slots| && forall i | 0 <= i < |slots| :: slots[i] < |repo| && found[i] == objs[repo[slots[i]]]
  }

  /** A list query answers the matching orders in the order in which they were inserted, each
      once. */
  lemma {:induction false} ScanKeepsOrder(objs: seq<OrderView>, repo: seq<nat>, tenant: string, q: Query)
    returns (slots: seq<nat>)
    requires Within(repo, |objs|)
    ensures FoundSlots(objs, repo, tenant, q, slots)
    ensures AreAt(objs, repo, slots, Scan(objs, repo, tenant, q))
    decreases |repo|
  {
    slots := [];
    if repo != [] {
      var n := |repo| - 1;
      var before := ScanKeepsOrder(objs, repo[..n], tenant, q);
      slots := if objs[repo[n]].tenantId == tenant && Matches(q, objs[repo[n]]) then before + [n] else before;
      OneMoreSlot(objs, repo, tenant, q, before, slots);
      OneMoreAt(objs, repo, before, Scan(objs, repo[..n], tenant, q));
    }
  }

  lemma OneMoreAt(objs: seq<OrderView>, repo: seq<nat>, before: seq<nat>, found: seq<OrderView>)
    requires repo != [] && Within(repo, |objs|) && AreAt(objs, repo[..|repo| - 1], before, found)
    ensures AreAt(objs, repo, before, found)
    ensures AreAt(objs, repo, before, found + [])
    ensures AreAt(objs, repo, before + [|repo| - 1], found + [objs[repo[|repo| - 1]]])
  {
    assert found + [] == found;
  }

  lemma OneMoreSlot(objs: seq<OrderView>, repo: seq<nat>, tenant: string, q: Query, before: seq<nat>, slots: seq<nat>)
    requires repo != [] && Within(repo, |objs|) && FoundSlots(objs, repo[..|repo| - 1], tenant, q, before)
    requires var n := |repo| - 1;
             slots == if objs[repo[n]].tenantId == tenant && Matches(q, objs[repo[n]]) then before + [n] else before
    ensures FoundSlots(objs, repo, tenant, q, slots)
  {
    var n := |repo| - 1;
    forall i | 0 <= i < |before|
      ensures before[i] < n
    {
      assert before[i] in before;
    }
    forall k: nat
      ensures k in slots <==> k < |repo| && objs[repo[k]].tenantId == tenant && Matches(q, objs[repo[k]])
    {
      assert k in slots <==> k in before || (|slots| > |before| && k == n);
      assert k < n ==> repo[..n][k] == repo[k];
    }
  }
}
