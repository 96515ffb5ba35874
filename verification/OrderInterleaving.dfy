/** Tenant isolation over interleaved runs: a run in which requests on a tenant's orders are
    mixed with requests on anybody else's shows the tenant what the run without the latter would
    have shown. */
module OrderInterleaving {
  import opened Wrappers
  import opened Audit
  import opened Decimals
  import opened Lifecycle
  import opened OrderWorld
  import opened OrderTenancy
  import Slices

  /** Which order objects are the tenant's own. */
  type Owner = nat -> bool

  /** No own order shares its id with a foreign one, and no foreign order carries the tenant. */
  ghost predicate Apart(objs: seq<OrderView>, own: Owner, tenant: string) {
    && (forall g: nat, h: nat | g < |objs| && h < |objs| && own(g) && !own(h) :: objs[g].orderId != objs[h].orderId)
    && (forall h: nat | h < |objs| && !own(h) :: objs[h].tenantId != tenant)
  }

  /** The stored own orders, in insertion order. */
  function Mine(repo: seq<nat>, own: Owner): seq<nat>
    decreases |repo|
  {
    if repo == [] then []
    else
      var last, before := repo[|repo| - 1], Mine(repo[..|repo| - 1], own);
      if own(last) then before + [last] else before
  }

  // ----- the repository restricted to own orders -----

  lemma {:induction false} MineAppends(a: seq<nat>, b: seq<nat>, own: Owner)
    ensures Mine(a + b, own) == Mine(a, own) + Mine(b, own)
    decreases |b|
  {
    if b == [] {
      assert a + b == a;
    } else {
      assert (a + b)[..|a + b| - 1] == a + b[..|b| - 1];
      MineAppends(a, b[..|b| - 1], own);
    }
  }

  lemma MineOfOne(h: nat, own: Owner)
    ensures Mine([h], own) == if own(h) then [h] else []
  {
    assert [h][..0] == [];
  }

  lemma {:induction false} MineIsOwn(repo: seq<nat>, own: Owner, i: nat) returns (j: nat)
    requires i < |Mine(repo, own)|
    ensures j < |repo| && Mine(repo, own)[i] == repo[j] && own(repo[j])
    decreases |repo|
  {
    var n := |repo| - 1;
    if i < |Mine(repo[..n], own)| {
      j := MineIsOwn(repo[..n], own, i);
    } else {
      j := n;
    }
  }

  lemma MineWithin(repo: seq<nat>, own: Owner, n: nat)
    requires Within(repo, n)
    ensures Within(Mine(repo, own), n)
  {
    forall i: nat | i < |Mine(repo, own)|
      ensures Mine(repo, own)[i] < n
    {
      var j := MineIsOwn(repo, own, i);
    }
  }

  lemma {:induction false} MineSplits(repo: seq<nat>, own: Owner, i: nat)
    requires i < |repo|
    ensures Mine(repo, own) == Mine(repo[..i], own) + Mine([repo[i]], own) + Mine(repo[i + 1..], own)
  {
    assert repo == repo[..i] + [repo[i]] + repo[i + 1..];
    MineAppends(repo[..i] + [repo[i]], repo[i + 1..], own);
    MineAppends(repo[..i], [repo[i]], own);
  }

  /** Where an own id is stored among the own orders. */
  lemma SlotAmongMine(objs: seq<OrderView>, repo: seq<nat>, own: Owner, id: string)
    requires Within(repo, |objs|) && Within(Mine(repo, own), |objs|)
    requires forall h: nat | h < |objs| && !own(h) :: objs[h].orderId != id
    ensures var i := SlotOf(objs, repo, id);
            SlotOf(objs, Mine(repo, own), id) == if i < |repo| then |Mine(repo[..i], own)| else |Mine(repo, own)|
  {
    var i := SlotOf(objs, repo, id);
    NotAmongMine(objs, repo[..i], own, id);
    if i < |repo| {
      MineSplits(repo, own, i);
      MineOfOne(repo[i], own);
      SlotAfter(objs, Mine(repo[..i], own), Mine(repo, own), id);
    } else {
      assert repo[..i] == repo;
      var k := SlotOf(objs, Mine(repo, own), id);
    }
  }

  lemma NotAmongMine(objs: seq<OrderView>, repo: seq<nat>, own: Owner, id: string)
    requires Within(repo, |objs|) && forall j | 0 <= j < |repo| :: objs[repo[j]].orderId != id
    ensures Within(Mine(repo, own), |objs|)
    ensures forall k | 0 <= k < |Mine(repo, own)| :: objs[Mine(repo, own)[k]].orderId != id
  {
    MineWithin(repo, own, |objs|);
    forall k: nat | k < |Mine(repo, own)|
      ensures objs[Mine(repo, own)[k]].orderId != id
    {
      var j := MineIsOwn(repo, own, k);
    }
  }

  lemma SlotAfter(objs: seq<OrderView>, front: seq<nat>, repo: seq<nat>, id: string)
    requires Within(repo, |objs|) && |front| < |repo| && front == repo[..|front|]
    requires forall k | 0 <= k < |front| :: front[k] < |objs| && objs[front[k]].orderId != id
    requires objs[repo[|front|]].orderId == id
    ensures SlotOf(objs, repo, id) == |front|
  {
    forall j | 0 <= j < |front|
      ensures objs[repo[j]].orderId != id
    {
      assert repo[j] == front[j];
    }
    SlotIs(objs, repo, id, |front|);
  }

  /** Saving an own order is saving it among the own ones. */
  lemma PutMine(objs: seq<OrderView>, repo: seq<nat>, own: Owner, h: nat)
    requires Within(repo, |objs|) && Within(Mine(repo, own), |objs|) && h < |objs| && own(h)
    requires forall g: nat | g < |objs| && !own(g) :: objs[g].orderId != objs[h].orderId
    ensures Mine(Put(objs, repo, h), own) == Put(objs, Mine(repo, own), h)
  {
    var i := SlotOf(objs, repo, objs[h].orderId);
    SlotAmongMine(objs, repo, own, objs[h].orderId);
    MineOfOne(h, own);
    if i < |repo| {
      Replaced(repo, own, i, h);
    } else {
      MineAppends(repo, [h], own);
    }
  }

  lemma Replaced(repo: seq<nat>, own: Owner, i: nat, h: nat)
    requires i < |repo|
    ensures own(repo[i]) && own(h) ==>
              |Mine(repo[..i], own)| < |Mine(repo, own)|
              && Mine(repo[i := h], own) == Mine(repo, own)[|Mine(repo[..i], own)| := h]
    ensures !own(repo[i]) && !own(h) ==> Mine(repo[i := h], own) == Mine(repo, own)
  {
    var front, tail := Mine(repo[..i], own), Mine(repo[i + 1..], own);
    assert Mine(repo, own) == front + Mine([repo[i]], own) + tail by { MineSplits(repo, own, i); }
    assert Mine(repo[i := h], own) == front + Mine([h], own) + tail by {
      MineSplits(repo[i := h], own, i);
      assert repo[i := h][..i] == repo[..i] && repo[i := h][i + 1..] == repo[i + 1..];
    }
    MineOfOne(repo[i], own);
    MineOfOne(h, own);
    Slices.UpdateInMiddle(front, repo[i], tail, h);
  }

  /** Saving a foreign order leaves the own ones alone. */
  lemma PutForeign(objs: seq<OrderView>, repo: seq<nat>, own: Owner, h: nat)
    requires Within(repo, |objs|) && h < |objs| && !own(h)
    requires forall g: nat | g < |objs| && own(g) :: objs[g].orderId != objs[h].orderId
    ensures Mine(Put(objs, repo, h), own) == Mine(repo, own)
  {
    var i := SlotOf(objs, repo, objs[h].orderId);
    if i < |repo| {
      Replaced(repo, own, i, h);
    } else {
      MineAppends(repo, [h], own);
      MineOfOne(h, own);
    }
  }

  // ----- two processes that look the same to the tenant -----

  /** The own orders and their places agree. */
  ghost predicate Alike(w: World, v: World, own: Owner) {
    && Valid(w) && Valid(v)
    && w.defaultRate == v.defaultRate
    && SameOwn(w.objs, v.objs, own)
    && Mine(w.repo, own) == Mine(v.repo, own)
  }

  /** As many orders, under the same ids, and the own ones the same. */
  ghost predicate SameOwn(a: seq<OrderView>, b: seq<OrderView>, own: Owner) {
    && |a| == |b|
    && (forall h: nat | h < |a| :: a[h].orderId == b[h].orderId)
    && (forall h: nat | h < |a| && own(h) :: a[h] == b[h])
  }

  /** A foreign request is not bound to the tenant; an order is created with an id and a tenant
      that keep the own ones apart. */
  ghost predicate Fair(w: World, op: Op, own: Owner, tenant: string) {
    match op
    case Create(o) => Apart(w.objs + [o], own, tenant)
    case Register(h, ctx, _) => !own(h) && ctx.Some? ==> ctx.value.tenantId != tenant
    case _ => true
  }

  /** A process after a request on order h, which did or did not save it. */
  ghost predicate Saved(w: World, w1: World, h: nat, saves: bool)
    requires Valid(w) && h < |w.objs|
  {
    w1.repo == if saves then Put(w.objs, w.repo, h) else w.repo
  }

  /** What a request adds to the ledger, the audit trail and the refund calls. */
  datatype Gains = Gains(ledger: seq<Posting>, audit: seq<Event>, refunds: seq<nat>)

  const NO_GAINS := Gains([], [], [])

  function Then(a: Gains, b: Gains): Gains {
    Gains(a.ledger + b.ledger, a.audit + b.audit, a.refunds + b.refunds)
  }

  ghost predicate Adds(w: World, w1: World, g: Gains) {
    && w1.ledger == w.ledger + g.ledger && w1.audit == w.audit + g.audit && w1.refunds == w.refunds + g.refunds
  }

  /** Two processes answer a request on order h alike, leave the order the same, and record the
      same. */
  ghost predicate Agree(w: World, a: Outcome, v: World, b: Outcome, h: nat, g: Gains) {
    && a.error == b.error && a.world.defaultRate == b.world.defaultRate
    && h < |a.world.objs| == |b.world.objs| && a.world.objs[h] == b.world.objs[h]
    && Adds(w, a.world, g) && Adds(v, b.world, g)
  }

  /** Whether a request saves its order. */
  predicate Saves(op: Op, o: OrderView)
    requires !op.Create?
  {
    match op
    case Register(_, ctx, _) => Permits(ctx, Bound(o, ctx).tenantId)
    case Transition(_, ctx, to, _, _, _) => to in ValidTransitions(o.status) && Permits(ctx, o.tenantId)
    case Cancel(_, ctx, _, _, _, _) => Cancelled in ValidTransitions(o.status) && Permits(ctx, o.tenantId)
    case Reverse(_, _, _, _) => false
  }

  lemma RegisterSaves(w: World, h: nat, ctx: Option<TenantContext>, actor: string)
    requires Valid(w) && h < |w.objs|
    ensures Saved(w, RegisterStep(w, h, ctx, actor).world, h, Permits(ctx, Bound(w.objs[h], ctx).tenantId))
  {
    SlotIgnoresChanges(w.objs, w.repo, h, Bound(w.objs[h], ctx), w.objs[h].orderId);
  }

  lemma TransitionSaves(
    w: World, h: nat, ctx: Option<TenantContext>, to: OrderStatus, actor: string, reason: string, now: string)
    requires Valid(w) && h < |w.objs|
    ensures Saved(w, TransitionStep(w, h, ctx, to, actor, reason, now).world, h,
                  to in ValidTransitions(w.objs[h].status) && Permits(ctx, w.objs[h].tenantId))
  {
    SlotIgnoresChanges(w.objs, w.repo, h, Moved(w.objs[h], to, actor, reason, now), w.objs[h].orderId);
    SettlementSavesNothing(MoveStep(w, h, ctx, to, actor, reason, now).world, h, ctx, actor);
  }

  lemma SettlementSavesNothing(w: World, h: nat, ctx: Option<TenantContext>, actor: string)
    requires Valid(w) && h < |w.objs|
    ensures SettleStep(w, h, ctx, actor).world.repo == w.repo
  {
  }

  lemma StepSaves(w: World, op: Op)
    requires Valid(w) && !op.Create? && op.h < |w.objs|
    ensures Saved(w, Step(w, op).world, op.h, Saves(op, w.objs[op.h]))
  {
    match op
    case Register(h, ctx, actor) => RegisterSaves(w, h, ctx, actor);
    case Transition(h, ctx, to, actor, reason, now) => TransitionSaves(w, h, ctx, to, actor, reason, now);
    case Cancel(h, ctx, actor, reason, now, _) => TransitionSaves(w, h, ctx, Cancelled, actor, reason, now);
    case Reverse(h, _, _, _) =>
  }

  ghost predicate SameOrder(w: World, v: World, h: nat) {
    && Valid(w) && Valid(v) && w.defaultRate == v.defaultRate
    && h < |w.objs| == |v.objs| && w.objs[h] == v.objs[h]
  }

  lemma NothingAdded(w: World, w1: World)
    requires w1.ledger == w.ledger && w1.audit == w.audit && w1.refunds == w.refunds
    ensures Adds(w, w1, NO_GAINS)
  {
  }

  lemma MoveAgrees(
    w: World, v: World, h: nat, ctx: Option<TenantContext>, to: OrderStatus, actor: string, reason: string, now: string)
    returns (g: Gains)
    requires SameOrder(w, v, h)
    ensures Agree(w, MoveStep(w, h, ctx, to, actor, reason, now), v, MoveStep(v, h, ctx, to, actor, reason, now), h, g)
  {
    var a, b := MoveStep(w, h, ctx, to, actor, reason, now), MoveStep(v, h, ctx, to, actor, reason, now);
    if a.error.None? {
      g := Gains([], [a.world.audit[|w.audit|]], []);
    } else {
      g := NO_GAINS;
      NothingAdded(w, a.world);
      NothingAdded(v, b.world);
    }
  }

  lemma SettleAgrees(w: World, v: World, h: nat, ctx: Option<TenantContext>, actor: string) returns (g: Gains)
    requires SameOrder(w, v, h)
    ensures Agree(w, SettleStep(w, h, ctx, actor), v, SettleStep(v, h, ctx, actor), h, g)
  {
    var a, b := SettleStep(w, h, ctx, actor), SettleStep(v, h, ctx, actor);
    if a.error.None? {
      g := Gains([a.world.ledger[|w.ledger|]], [a.world.audit[|w.audit|]], []);
    } else {
      g := NO_GAINS;
      NothingAdded(w, a.world);
      NothingAdded(v, b.world);
    }
  }

  lemma AddsThen(w: World, w1: World, w2: World, a: Gains, b: Gains)
    requires Adds(w, w1, a) && Adds(w1, w2, b)
    ensures Adds(w, w2, Then(a, b))
  {
    Slices.Associative(w.ledger, a.ledger, b.ledger);
    Slices.Associative(w.audit, a.audit, b.audit);
    Slices.Associative(w.refunds, a.refunds, b.refunds);
  }

  lemma AgreeThen(w: World, a: Outcome, a1: Outcome, v: World, b: Outcome, b1: Outcome, h: nat, g: Gains, g1: Gains)
    requires Agree(w, a, v, b, h, g) && Agree(a.world, a1, b.world, b1, h, g1)
    ensures Agree(w, a1, v, b1, h, Then(g, g1))
  {
    AddsThen(w, a.world, a1.world, g, g1);
    AddsThen(v, b.world, b1.world, g, g1);
  }

  lemma TransitionAgrees(
    w: World, v: World, h: nat, ctx: Option<TenantContext>, to: OrderStatus, actor: string, reason: string, now: string)
    returns (g: Gains)
    requires SameOrder(w, v, h)
    ensures Agree(w, TransitionStep(w, h, ctx, to, actor, reason, now),
                  v, TransitionStep(v, h, ctx, to, actor, reason, now), h, g)
  {
    g := MoveAgrees(w, v, h, ctx, to, actor, reason, now);
    var a, b := MoveStep(w, h, ctx, to, actor, reason, now), MoveStep(v, h, ctx, to, actor, reason, now);
    if a.error.None? && to == Completed {
      var settled := SettleAgrees(a.world, b.world, h, ctx, actor);
      AgreeThen(w, a, SettleStep(a.world, h, ctx, actor), v, b, SettleStep(b.world, h, ctx, actor), h, g, settled);
      g := Then(g, settled);
    }
  }

  lemma RefundAgrees(w: World, v: World, h: nat, actor: string, reason: string, refund: Refund) returns (g: Gains)
    requires SameOrder(w, v, h)
    ensures Agree(w, RefundStep(w, h, actor, reason, refund), v, RefundStep(v, h, actor, reason, refund), h, g)
  {
    var a := RefundStep(w, h, actor, reason, refund);
    g := Gains([], if refund.Raises? then [] else [a.world.audit[|w.audit|]], if refund.NoCallback? then [] else [h]);
    assert w.ledger + [] == w.ledger && v.ledger + [] == v.ledger;
    assert w.audit + [] == w.audit && v.audit + [] == v.audit;
    assert w.refunds + [] == w.refunds && v.refunds + [] == v.refunds;
  }

  lemma CancelAgrees(
    w: World, v: World, h: nat, ctx: Option<TenantContext>, actor: string, reason: string, now: string, refund: Refund)
    returns (g: Gains)
    requires SameOrder(w, v, h)
    ensures Agree(w, CancelStep(w, h, ctx, actor, reason, now, refund),
                  v, CancelStep(v, h, ctx, actor, reason, now, refund), h, g)
  {
    g := TransitionAgrees(w, v, h, ctx, Cancelled, actor, reason, now);
    var a, b := TransitionStep(w, h, ctx, Cancelled, actor, reason, now), TransitionStep(v, h, ctx, Cancelled, actor, reason, now);
    if a.error.None? {
      TransitionKeepsValid(w, h, ctx, Cancelled, actor, reason, now);
      TransitionKeepsValid(v, h, ctx, Cancelled, actor, reason, now);
      var more := RefundAgrees(a.world, b.world, h, actor, reason, refund);
      AgreeThen(w, a, CancelStep(w, h, ctx, actor, reason, now, refund),
                v, b, CancelStep(v, h, ctx, actor, reason, now, refund), h, g, more);
      g := Then(g, more);
    }
  }

  lemma RegisterAgrees(w: World, v: World, h: nat, ctx: Option<TenantContext>, actor: string) returns (g: Gains)
    requires SameOrder(w, v, h)
    ensures Agree(w, RegisterStep(w, h, ctx, actor), v, RegisterStep(v, h, ctx, actor), h, g)
  {
    var a, b := RegisterStep(w, h, ctx, actor), RegisterStep(v, h, ctx, actor);
    if a.error.None? {
      g := Gains([], [a.world.audit[|w.audit|]], []);
    } else {
      g := NO_GAINS;
      NothingAdded(w, a.world);
      NothingAdded(v, b.world);
    }
  }

  lemma ReverseAgrees(w: World, v: World, h: nat, actor: string, fraction: DecimalText, reason: string) returns (g: Gains)
    requires SameOrder(w, v, h)
    ensures Agree(w, ReverseStep(w, h, actor, fraction, reason), v, ReverseStep(v, h, actor, fraction, reason), h, g)
  {
    var a, b := ReverseStep(w, h, actor, fraction, reason), ReverseStep(v, h, actor, fraction, reason);
    if a.error.None? {
      g := Gains([a.world.ledger[|w.ledger|]], [a.world.audit[|w.audit|]], []);
    } else {
      g := NO_GAINS;
      NothingAdded(w, a.world);
      NothingAdded(v, b.world);
    }
  }

  /** What a request does with its order, and records, depends on the order alone. */
  lemma StepAgrees(w: World, v: World, op: Op) returns (g: Gains)
    requires !op.Create? && SameOrder(w, v, op.h)
    ensures Agree(w, Step(w, op), v, Step(v, op), op.h, g)
  {
    match op
    case Register(h, ctx, actor) => g := RegisterAgrees(w, v, h, ctx, actor);
    case Transition(h, ctx, to, actor, reason, now) => g := TransitionAgrees(w, v, h, ctx, to, actor, reason, now);
    case Cancel(h, ctx, actor, reason, now, refund) => g := CancelAgrees(w, v, h, ctx, actor, reason, now, refund);
    case Reverse(h, actor, fraction, reason) => g := ReverseAgrees(w, v, h, actor, fraction, reason);
  }

  /** Handles and ids decide where an order is saved. */
  lemma {:induction false} SlotByIds(a: seq<OrderView>, b: seq<OrderView>, repo: seq<nat>, id: string)
    requires |a| == |b| && Within(repo, |a|) && forall h: nat | h < |a| :: a[h].orderId == b[h].orderId
    ensures SlotOf(a, repo, id) == SlotOf(b, repo, id)
    decreases |repo|
  {
    if repo != [] {
      SlotByIds(a, b, repo[1..], id);
    }
  }

  lemma SavesAlike(w: World, v: World, own: Owner, tenant: string, h: nat)
    requires Alike(w, v, own) && Apart(w.objs, own, tenant) && h < |w.objs| && own(h)
    ensures Mine(Put(w.objs, w.repo, h), own) == Mine(Put(v.objs, v.repo, h), own)
  {
    MineWithin(w.repo, own, |w.objs|);
    PutMine(w.objs, w.repo, own, h);
    PutMine(v.objs, v.repo, own, h);
    SlotByIds(w.objs, v.objs, Mine(w.repo, own), w.objs[h].orderId);
  }

  lemma OneOwnChange(w: World, w1: World, v: World, v1: World, h: nat, own: Owner)
    requires Valid(w) && Valid(v) && SameOwn(w.objs, v.objs, own) && ChangesOnly(w, w1, h) && ChangesOnly(v, v1, h)
    requires w1.objs[h] == v1.objs[h]
    ensures SameOwn(w1.objs, v1.objs, own)
  {
    forall g: nat | g < |w1.objs|
      ensures w1.objs[g].orderId == v1.objs[g].orderId
      ensures own(g) ==> w1.objs[g] == v1.objs[g]
    {
      if g != h {
        assert w1.objs[g] == w.objs[g] && v1.objs[g] == v.objs[g];
      }
    }
  }

  /** An own request goes the same way in both processes, records the same, and keeps them
      alike. */
  lemma OwnStepAlike(w: World, v: World, op: Op, own: Owner, tenant: string) returns (g: Gains)
    requires Alike(w, v, own) && Apart(w.objs, own, tenant) && !op.Create? && op.h < |w.objs| && own(op.h)
    ensures Alike(Step(w, op).world, Step(v, op).world, own)
    ensures Agree(w, Step(w, op), v, Step(v, op), op.h, g)
  {
    StepKeepsValid(w, op);
    StepKeepsValid(v, op);
    g := StepAgrees(w, v, op);
    assert SameOwn(Step(w, op).world.objs, Step(v, op).world.objs, own) by {
      StepChangesOnly(w, op);
      StepChangesOnly(v, op);
      OneOwnChange(w, Step(w, op).world, v, Step(v, op).world, op.h, own);
    }
    assert Mine(Step(w, op).world.repo, own) == Mine(Step(v, op).world.repo, own) by {
      StepSaves(w, op);
      StepSaves(v, op);
      SavesAlike(w, v, own, tenant, op.h);
    }
  }

  /** A foreign request keeps what the tenant sees. */
  lemma ForeignStepAlike(w: World, v: World, op: Op, own: Owner, tenant: string)
    requires Alike(w, v, own) && Apart(w.objs, own, tenant) && !op.Create? && op.h < |w.objs| && !own(op.h)
    ensures Alike(Step(w, op).world, v, own)
  {
    StepKeepsValid(w, op);
    StepChangesOnly(w, op);
    StepKeepsRate(w, op);
    ForeignChangeAlike(w, Step(w, op).world, v, op.h, own, tenant);
  }

  lemma ForeignChangeAlike(w: World, w1: World, v: World, h: nat, own: Owner, tenant: string)
    requires Alike(w, v, own) && Apart(w.objs, own, tenant) && h < |w.objs| && !own(h)
    requires Valid(w1) && ChangesOnly(w, w1, h) && w1.defaultRate == w.defaultRate
    ensures Alike(w1, v, own)
  {
    PutForeign(w.objs, w.repo, own, h);
    forall g: nat | g < |w1.objs|
      ensures w1.objs[g].orderId == v.objs[g].orderId
      ensures own(g) ==> w1.objs[g] == v.objs[g]
    {
      if g != h {
        assert w1.objs[g] == w.objs[g];
      }
    }
  }

  lemma CreationAlike(w: World, v: World, op: Op, own: Owner)
    requires Alike(w, v, own) && op.Create?
    ensures Alike(Step(w, op).world, Step(v, op).world, own)
    ensures Step(w, op).error == Step(v, op).error
  {
  }

  /** A fair request keeps own and foreign orders apart. */
  lemma StepKeepsApart(w: World, op: Op, own: Owner, tenant: string)
    requires Valid(w) && Apart(w.objs, own, tenant) && Fair(w, op, own, tenant)
    ensures Apart(Step(w, op).world.objs, own, tenant)
  {
    if op.Create? || op.h >= |w.objs| {
    } else {
      StepChangesOnly(w, op);
      TenantAfter(w, op);
    }
  }

  /** Only a registration gives an order a tenant, the one it is bound to. */
  lemma TenantAfter(w: World, op: Op)
    requires Valid(w) && !op.Create? && op.h < |w.objs|
    ensures |Step(w, op).world.objs| == |w.objs|
    ensures var before, after := w.objs[op.h].tenantId, Step(w, op).world.objs[op.h].tenantId;
            after == before || (op.Register? && op.ctx.Some? && after == op.ctx.value.tenantId)
  {
  }

  // ----- interleaved runs -----

  /** A run as the tenant sees it: without the foreign requests. Creations stay, since they
      only give later orders their handles. */
  function Purge(w: World, ops: seq<Op>, own: Owner): seq<Op>
    requires Valid(w)
    decreases |ops|
  {
    if ops == [] then []
    else
      StepKeepsValid(w, ops[0]);
      var rest := Purge(Step(w, ops[0]).world, ops[1..], own);
      if ops[0].Create? || own(ops[0].h) then [ops[0]] + rest else rest
  }

  ghost predicate AllFair(w: World, ops: seq<Op>, own: Owner, tenant: string)
    requires Valid(w)
    decreases |ops|
  {
    ops == [] ||
    (Fair(w, ops[0], own, tenant) && (StepKeepsValid(w, ops[0]); AllFair(Step(w, ops[0]).world, ops[1..], own, tenant)))
  }

  lemma {:induction false} RunsStayAlike(w: World, v: World, ops: seq<Op>, own: Owner, tenant: string)
    requires Alike(w, v, own) && Apart(w.objs, own, tenant) && Apart(v.objs, own, tenant) && AllFair(w, ops, own, tenant)
    ensures Alike(After(w, ops), After(v, Purge(w, ops, own)), own)
    ensures Apart(After(w, ops).objs, own, tenant) && Apart(After(v, Purge(w, ops, own)).objs, own, tenant)
    decreases |ops|
  {
    if ops != [] {
      var op := ops[0];
      StepKeepsValid(w, op);
      StepKeepsApart(w, op, own, tenant);
      var w1 := Step(w, op).world;
      if op.Create? || own(op.h) {
        StepKeepsValid(v, op);
        KeptStep(w, v, op, own, tenant);
        var rest := Purge(w1, ops[1..], own);
        assert ([op] + rest)[1..] == rest;
        RunsStayAlike(w1, Step(v, op).world, ops[1..], own, tenant);
      } else {
        if op.h < |w.objs| {
          ForeignStepAlike(w, v, op, own, tenant);
        }
        RunsStayAlike(w1, v, ops[1..], own, tenant);
      }
    }
  }

  lemma KeptStep(w: World, v: World, op: Op, own: Owner, tenant: string)
    requires Alike(w, v, own) && Apart(w.objs, own, tenant) && Apart(v.objs, own, tenant)
    requires Fair(w, op, own, tenant) && (op.Create? || own(op.h))
    ensures Alike(Step(w, op).world, Step(v, op).world, own)
    ensures Apart(Step(v, op).world.objs, own, tenant)
  {
    if op.Create? {
      CreationAlike(w, v, op, own);
      CreatedApart(w, v, op.order, own, tenant);
    } else if op.h < |w.objs| {
      var g := OwnStepAlike(w, v, op, own, tenant);
      StepKeepsApart(v, op, own, tenant);
    }
  }

  lemma CreatedApart(w: World, v: World, o: OrderView, own: Owner, tenant: string)
    requires Alike(w, v, own) && Apart(v.objs, own, tenant) && Apart(w.objs + [o], own, tenant)
    ensures Apart(v.objs + [o], own, tenant)
  {
    var a, b := w.objs + [o], v.objs + [o];
    assert forall h: nat | h < |a| :: a[h].orderId == b[h].orderId;
    assert a[|w.objs|] == o;
  }

  // ----- what the tenant sees -----

  lemma {:induction false} VisibleIsMine(objs: seq<OrderView>, repo: seq<nat>, own: Owner, tenant: string)
    requires Within(repo, |objs|) && Within(Mine(repo, own), |objs|)
    requires forall h: nat | h < |objs| && !own(h) :: objs[h].tenantId != tenant
    ensures Visible(objs, repo, tenant) == Visible(objs, Mine(repo, own), tenant)
    decreases |repo|
  {
    if repo != [] {
      var n := |repo| - 1;
      var front, last := Mine(repo[..n], own), repo[n];
      MineWithin(repo[..n], own, |objs|);
      VisibleIsMine(objs, repo[..n], own, tenant);
      if own(last) {
        assert (front + [last])[..|front|] == front;
      }
    }
  }

  lemma {:induction false} VisibleByObjects(a: seq<OrderView>, b: seq<OrderView>, repo: seq<nat>, tenant: string)
    requires |a| == |b| && Within(repo, |a|) && forall i | 0 <= i < |repo| :: a[repo[i]] == b[repo[i]]
    ensures Visible(a, repo, tenant) == Visible(b, repo, tenant)
    decreases |repo|
  {
    if repo != [] {
      VisibleByObjects(a, b, repo[..|repo| - 1], tenant);
    }
  }

  lemma AlikeSeeTheSame(w: World, v: World, own: Owner, ctx: TenantContext, q: Query)
    requires Alike(w, v, own) && Apart(w.objs, own, ctx.tenantId) && Apart(v.objs, own, ctx.tenantId)
    ensures Find(w, Some(ctx), q) == Find(v, Some(ctx), q)
  {
    MineWithin(w.repo, own, |w.objs|);
    VisibleIsMine(w.objs, w.repo, own, ctx.tenantId);
    VisibleIsMine(v.objs, v.repo, own, ctx.tenantId);
    forall i: nat | i < |Mine(w.repo, own)|
      ensures w.objs[Mine(w.repo, own)[i]] == v.objs[Mine(w.repo, own)[i]]
    {
      var j := MineIsOwn(w.repo, own, i);
    }
    VisibleByObjects(w.objs, v.objs, Mine(w.repo, own), ctx.tenantId);
    ScanSelectsVisible(w.objs, w.repo, ctx.tenantId, q);
    ScanSelectsVisible(v.objs, v.repo, ctx.tenantId, q);
  }

  /** Any interleaving of requests on a tenant's orders with requests on those of others answers
      every list query of the tenant as the run without the latter, as long as ids are not
      reused across tenants and no one else binds orders to it. */
  lemma InterleavingIsInvisible(w: World, ops: seq<Op>, own: Owner, ctx: TenantContext, q: Query)
    requires Valid(w) && Apart(w.objs, own, ctx.tenantId) && AllFair(w, ops, own, ctx.tenantId)
    ensures Find(After(w, ops), Some(ctx), q) == Find(After(w, Purge(w, ops, own)), Some(ctx), q)
  {
    RunsStayAlike(w, w, ops, own, ctx.tenantId);
    AlikeSeeTheSame(After(w, ops), After(w, Purge(w, ops, own)), own, ctx, q);
  }

  /** No foreign order has the id. */
  ghost predicate OwnId(objs: seq<OrderView>, own: Owner, id: string) {
    forall h: nat | h < |objs| && !own(h) :: objs[h].orderId != id
  }

  /** What an own id finds is found among the own orders. */
  lemma FoundAmongMine(w: World, own: Owner, id: string)
    requires Valid(w) && Within(Mine(w.repo, own), |w.objs|) && OwnId(w.objs, own, id)
    ensures var i, k := SlotOf(w.objs, w.repo, id), SlotOf(w.objs, Mine(w.repo, own), id);
            && (i < |w.repo| <==> k < |Mine(w.repo, own)|)
            && (i < |w.repo| ==> Mine(w.repo, own)[k] == w.repo[i] && own(w.repo[i]))
  {
    var i := SlotOf(w.objs, w.repo, id);
    SlotAmongMine(w.objs, w.repo, own, id);
    if i < |w.repo| {
      MineSplits(w.repo, own, i);
      MineOfOne(w.repo[i], own);
    }
  }

  lemma AlikeFindTheSame(w: World, v: World, own: Owner, ctx: Option<TenantContext>, id: string)
    requires Alike(w, v, own) && OwnId(w.objs, own, id)
    ensures FindById(w, ctx, id) == FindById(v, ctx, id)
  {
    assert OwnId(v.objs, own, id);
    MineWithin(w.repo, own, |w.objs|);
    FoundAmongMine(w, own, id);
    FoundAmongMine(v, own, id);
    SlotByIds(w.objs, v.objs, Mine(w.repo, own), id);
  }

  /** ... and every lookup by an id that no foreign order has. */
  lemma OwnIdsFindTheSame(w: World, ops: seq<Op>, own: Owner, ctx: TenantContext, id: string)
    requires Valid(w) && Apart(w.objs, own, ctx.tenantId) && AllFair(w, ops, own, ctx.tenantId)
    requires OwnId(After(w, ops).objs, own, id)
    ensures FindById(After(w, ops), Some(ctx), id) == FindById(After(w, Purge(w, ops, own)), Some(ctx), id)
  {
    RunsStayAlike(w, w, ops, own, ctx.tenantId);
    AlikeFindTheSame(After(w, ops), After(w, Purge(w, ops, own)), own, Some(ctx), id);
  }

  /** ... and every request on an own order that follows: the same error, the same order (whose
      last history entry is the change that the request returns), and the same ledger entries,
      audit entries and refund calls. */
  lemma OwnRequestAnswersTheSame(w: World, ops: seq<Op>, own: Owner, tenant: string, op: Op) returns (g: Gains)
    requires Valid(w) && Apart(w.objs, own, tenant) && AllFair(w, ops, own, tenant)
    requires !op.Create? && op.h < |After(w, ops).objs| && own(op.h)
    ensures Agree(After(w, ops), Step(After(w, ops), op),
                  After(w, Purge(w, ops, own)), Step(After(w, Purge(w, ops, own)), op), op.h, g)
  {
    RunsStayAlike(w, w, ops, own, tenant);
    g := OwnStepAlike(After(w, ops), After(w, Purge(w, ops, own)), op, own, tenant);
  }

  /** Orders kept apart evict nothing: the condition of the block theorems is met. */
  lemma ApartNeverEvicts(w: World, own: Owner, tenant: string, h: nat)
    requires Valid(w) && Apart(w.objs, own, tenant) && h < |w.objs| && !own(h)
    ensures !Evicts(w, h, tenant)
  {
  }
}
