/** The deduplication store of webhook events: a dictionary that forgets old claims, against
    the full history of claims. */
module WebhookDedup {
  import opened Wrappers

  type Processed = map<string, int>

  /** 24 hours in microseconds, the resolution of the clock. */
  const MINIMUM_RETENTION := 86_400_000_000

  datatype StoreError = RetentionTooShort

  /** The claims that a purge at this time keeps. */
  function Kept(processed: Processed, retention: int, now: int): Processed {
    map id | id in processed && processed[id] >= now - retention :: processed[id]
  }

  function Claim(processed: Processed, retention: int, id: string, now: int): (Processed, bool) {
    var kept := Kept(processed, retention, now);
    if id == "" || id in kept then (kept, false) else (kept[id := now], true)
  }

  class WebhookEventStore {
    const retention: int
    var processed: Processed

    constructor Retaining(retention: int)
      ensures this.retention == retention && processed == map[]
    {
      this.retention := retention;
      processed := map[];
    }

    /** The constructor with its check. */
    static method New(retention: int) returns (r: Result<WebhookEventStore, StoreError>)
      ensures r.Ok? <==> retention >= MINIMUM_RETENTION
      ensures r.Ok? ==> fresh(r.value) && r.value.retention == retention && r.value.processed == map[]
    {
      if retention < MINIMUM_RETENTION {
        return Err(RetentionTooShort);
      }
      var store := new WebhookEventStore.Retaining(retention);
      return Ok(store);
    }

    method ClaimEvent(id: string, now: int) returns (first: bool)
      modifies this
      ensures (processed, first) == Claim(old(processed), retention, id, now)
    {
      var dropped := PurgeExpired(now);
      if id == "" || id in processed {
        return false;
      }
      processed := processed[id := now];
      return true;
    }

    method PurgeExpired(now: int) returns (dropped: nat)
      modifies this
      ensures processed == Kept(old(processed), retention, now)
      ensures dropped == |old(processed)| - |processed|
    {
      var cutoff := now - retention;
      var expired := set id | id in processed && processed[id] < cutoff;
      dropped := |expired|;
      ghost var size := |processed|;
      while expired != {}
        invariant forall id | id in expired :: id in processed && processed[id] < cutoff
        invariant forall id | id in processed :: id in old(processed) && processed[id] == old(processed)[id]
        invariant forall id | id in old(processed) && id !in processed :: old(processed)[id] < cutoff
        invariant forall id | id in processed && processed[id] < cutoff :: id in expired
        invariant |processed| == size - dropped + |expired|
        decreases |expired|
      {
        var id :| id in expired;
        expired := expired - {id};
        assert (processed - {id}).Keys == processed.Keys - {id};
        assert |processed.Keys - {id}| == |processed.Keys| - 1;
        processed := processed - {id};
      }
    }
  }

  // ----- runs -----

  datatype Op = ClaimOp(id: string, now: int) | PurgeOp(now: int)

  /** The store after a sequence of calls. */
  function Run(retention: int, ops: seq<Op>): Processed
    decreases |ops|
  {
    if ops == [] then map[]
    else
      var before, last := Run(retention, ops[..|ops| - 1]), ops[|ops| - 1];
      match last
      case ClaimOp(id, now) => Claim(before, retention, id, now).0
      case PurgeOp(now) => Kept(before, retention, now)
  }

  /** Call i is a claim that was granted. */
  predicate Won(retention: int, ops: seq<Op>, i: nat)
    requires i < |ops|
  {
    ops[i].ClaimOp? && Claim(Run(retention, ops[..i]), retention, ops[i].id, ops[i].now).1
  }

  /** Call j claimed the event, and no call since had a cutoff after that claim. */
  ghost predicate Live(retention: int, ops: seq<Op>, j: nat, id: string) {
    && j < |ops| && Won(retention, ops, j) && ops[j].id == id
    && forall k | j < k < |ops| :: ops[j].now >= ops[k].now - retention
  }

  /** The store holds the event, with the time of claim j, which is live. */
  ghost predicate HeldBy(retention: int, ops: seq<Op>, j: nat, id: string) {
    Live(retention, ops, j, id) && id in Run(retention, ops) && Run(retention, ops)[id] == ops[j].now
  }

  lemma WonIsPrefix(retention: int, ops: seq<Op>, n: nat, i: nat)
    requires i < n <= |ops|
    ensures Won(retention, ops[..n], i) == Won(retention, ops, i)
  {
    assert ops[..n][..i] == ops[..i];
  }

  lemma LiveShrinks(retention: int, ops: seq<Op>, j: nat, id: string)
    requires 0 < |ops| && j < |ops| - 1
    ensures Live(retention, ops, j, id) <==>
              Live(retention, ops[..|ops| - 1], j, id) && ops[j].now >= ops[|ops| - 1].now - retention
  {
    var n := |ops| - 1;
    WonIsPrefix(retention, ops, n, j);
    assert forall k | 0 <= k < n :: ops[..n][k] == ops[k];
  }

  /** The store holds an event exactly when some granted claim of it is live, with the time
      of that claim. */
  lemma {:induction false} StoreIsHistory(retention: int, ops: seq<Op>, id: string)
    ensures id in Run(retention, ops) ==> exists j: nat :: HeldBy(retention, ops, j, id)
    ensures forall j: nat | Live(retention, ops, j, id) :: HeldBy(retention, ops, j, id)
    decreases |ops|
  {
    if ops != [] {
      var n := |ops| - 1;
      StoreIsHistory(retention, ops[..n], id);
      assert ops[..n + 1] == ops;
      forall j: nat | Live(retention, ops, j, id)
        ensures HeldBy(retention, ops, j, id)
      {
        if j < n {
          LiveShrinks(retention, ops, j, id);
          assert ops[..n][j] == ops[j];
        }
      }
      if id in Run(retention, ops) {
        var j := Holder(retention, ops, ops[..n], id);
      }
    }
  }

  lemma Holder(retention: int, ops: seq<Op>, before: seq<Op>, id: string) returns (j: nat)
    requires ops != [] && before == ops[..|ops| - 1] && id in Run(retention, ops)
    requires id in Run(retention, before) ==> exists j: nat :: HeldBy(retention, before, j, id)
    ensures HeldBy(retention, ops, j, id)
  {
    var n := |ops| - 1;
    assert ops[..n + 1] == ops;
    if Won(retention, ops, n) && ops[n].id == id {
      j := n;
    } else {
      j :| HeldBy(retention, before, j, id);
      LiveShrinks(retention, ops, j, id);
    }
  }

  ghost predicate Monotone(ops: seq<Op>) {
    forall i, j | 0 <= i <= j < |ops| :: ops[i].now <= ops[j].now
  }

  /** Whatever the clock does: a claim is granted exactly when its id is not empty and every
      earlier granted claim of it has expired at some call since, this one included. */
  lemma ClaimGrantedExactly(retention: int, ops: seq<Op>, i: nat)
    requires i < |ops| && ops[i].ClaimOp?
    ensures Won(retention, ops, i) <==>
              ops[i].id != "" && forall j: nat | j < i && Won(retention, ops, j) && ops[j].id == ops[i].id ::
                exists k :: j < k <= i && ops[j].now < ops[k].now - retention
  {
    if Won(retention, ops, i) {
      forall j: nat | j < i && Won(retention, ops, j) && ops[j].id == ops[i].id
        ensures exists k :: j < k <= i && ops[j].now < ops[k].now - retention
      {
        var k := GrantedAfterExpiry(retention, ops, i, j);
      }
    } else if ops[i].id != "" {
      var j := RefusedWhileLive(retention, ops, i);
    }
  }

  lemma GrantedAfterExpiry(retention: int, ops: seq<Op>, i: nat, j: nat) returns (k: nat)
    requires j < i < |ops| && Won(retention, ops, i) && Won(retention, ops, j) && ops[j].id == ops[i].id
    ensures j < k <= i && ops[j].now < ops[k].now - retention
  {
    var before := ops[..i];
    StoreIsHistory(retention, before, ops[i].id);
    WonIsPrefix(retention, ops, i, j);
    if Live(retention, before, j, ops[i].id) {
      k := i;
    } else {
      k :| j < k < i && before[j].now < before[k].now - retention;
    }
  }

  lemma RefusedWhileLive(retention: int, ops: seq<Op>, i: nat) returns (j: nat)
    requires i < |ops| && ops[i].ClaimOp? && ops[i].id != "" && !Won(retention, ops, i)
    ensures j < i && Won(retention, ops, j) && ops[j].id == ops[i].id
    ensures forall k | j < k <= i :: ops[j].now >= ops[k].now - retention
  {
    var before := ops[..i];
    StoreIsHistory(retention, before, ops[i].id);
    j :| HeldBy(retention, before, j, ops[i].id);
    WonIsPrefix(retention, ops, i, j);
    assert forall k | 0 <= k < i :: before[k] == ops[k];
  }

  /** With a clock that never goes back, the dictionary that forgets refines the full history:
      a claim is granted exactly when its id is not empty and no earlier granted claim of it
      lies within the retention. */
  lemma DedupRefinesHistory(retention: int, ops: seq<Op>, i: nat)
    requires i < |ops| && ops[i].ClaimOp? && Monotone(ops)
    ensures Won(retention, ops, i) <==>
              ops[i].id != "" && forall j: nat | j < i && Won(retention, ops, j) && ops[j].id == ops[i].id ::
                ops[j].now < ops[i].now - retention
  {
    ClaimGrantedExactly(retention, ops, i);
    forall j, k | 0 <= j < k <= i && ops[j].now < ops[k].now - retention
      ensures ops[j].now < ops[i].now - retention
    {
    }
  }

  /** After a granted claim, and with no other claim of the id granted since, a claim is
      refused exactly until the retention has passed. */
  lemma RefusedUntilRetention(retention: int, ops: seq<Op>, i: nat, j: nat)
    requires i < j < |ops| && Monotone(ops) && Won(retention, ops, i)
    requires ops[j].ClaimOp? && ops[j].id == ops[i].id
    requires forall k: nat | i < k < j && ops[k].ClaimOp? && ops[k].id == ops[i].id :: !Won(retention, ops, k)
    ensures !Won(retention, ops, j) <==> ops[j].now - ops[i].now <= retention
  {
    DedupRefinesHistory(retention, ops, j);
    forall k: nat | k < i && Won(retention, ops, k) && ops[k].id == ops[i].id
      ensures ops[k].now <= ops[i].now
    {
    }
  }
}

/** The webhook handler: claim, audit, dispatch. The dispatch writes into the dictionary that
    the audit log already holds. */
module WebhookHandler {
  import opened Wrappers
  import opened Audit
  import opened ChainVerifier
  import opened WebhookDedup

  /** The attributes of the event's object: absent, or present and perhaps None. */
  datatype EventData = EventData(paymentIntent: Option<Option<string>>, id: Option<string>)

  /** A verified event, the clock reading of its claim and the time on its receipt. */
  datatype Delivery = Delivery(
    id: string, eventType: string, data: EventData, created: int, now: int, receivedAt: string)

  datatype Response = DuplicateAck(eventId: string) | Ignored(eventType: string) | Handled(receipt: Details)

  datatype HandlerState = HandlerState(processed: Processed, entries: seq<AuditEntry>, lastHash: string)

  const ACTOR := "stripe_webhook"

  /** What the dispatch makes of an event type; "" when no handler takes it. */
  function ActionOf(eventType: string): string {
    if eventType == "payment_intent.succeeded" then "fulfill_order"
    else if eventType == "payment_intent.payment_failed" then "notify_failure"
    else if eventType == "charge.refunded" then "process_refund"
    else ""
  }

  function PaymentIntent(d: Delivery): Option<string> {
    match d.data.paymentIntent
    case Some(value) => value
    case None => if "payment_intent" <= d.eventType then d.data.id else None
  }

  function ReceiptOf(d: Delivery, action: string): Details {
    Receipt(d.id, d.eventType, PaymentIntent(d), d.receivedAt, d.created, action)
  }

  /** What the log is asked to record for a delivery. */
  function EventOf(d: Delivery, first: bool): Event {
    if !first then
      Event(ACTOR, "webhook." + d.eventType, "duplicate", d.id, Details.Duplicate(d.id))
    else
      var ref := match PaymentIntent(d) case Some(p) => (if p != "" then p else d.id) case None => d.id;
      Event(ACTOR, "webhook." + d.eventType, "success", ref, ReceiptOf(d, ""))
  }

  function ResponseOf(d: Delivery, first: bool): Response {
    if !first then DuplicateAck(d.id)
    else if ActionOf(d.eventType) != "" then Handled(ReceiptOf(d, ActionOf(d.eventType)))
    else Ignored(d.eventType)
  }

  /** The entry after the handler has written into its details. */
  function Rewritten(entry: AuditEntry, r: Response): AuditEntry {
    if r.Handled? then entry.(event := entry.event.(details := r.receipt)) else entry
  }

  /** handle_event. */
  function Handle(hash: Digest, stamps: nat -> Stamp, retention: int, st: HandlerState, d: Delivery): (HandlerState, Response) {
    var (processed, first) := Claim(st.processed, retention, d.id, d.now);
    var entry := AuditEntry(stamps(|st.entries|), EventOf(d, first), st.lastHash);
    var r := ResponseOf(d, first);
    (HandlerState(processed, st.entries + [Rewritten(entry, r)], hash(entry)), r)
  }

  class StripeWebhookHandler {
    const audit: AuditLogger
    const store: WebhookEventStore

    constructor (audit: AuditLogger, store: WebhookEventStore)
      ensures this.audit == audit && this.store == store
    {
      this.audit, this.store := audit, store;
    }

    function State(): HandlerState
      reads audit, store
    {
      HandlerState(store.processed, audit.entries, audit.lastHash)
    }

    method HandleEvent(d: Delivery) returns (r: Response)
      modifies audit, store
      ensures (State(), r) == Handle(audit.hash, audit.stamps, store.retention, old(State()), d)
    {
      var first := store.ClaimEvent(d.id, d.now);
      if !first {
        var _ := audit.Log(EventOf(d, false));
        return DuplicateAck(d.id);
      }
      var _ := audit.Log(EventOf(d, true));
      if ActionOf(d.eventType) != "" {
        ghost var before, logged := old(audit.entries), audit.entries;
        r := Dispatch(d);
        assert logged[|before| := Rewritten(logged[|before|], r)] == before + [Rewritten(logged[|before|], r)];
        return;
      }
      return Ignored(d.eventType);
    }

    /** The _handle_ methods: the receipt they write into is the one the last entry holds. */
    method Dispatch(d: Delivery) returns (r: Response)
      requires audit.entries != []
      modifies audit
      ensures r == Handled(ReceiptOf(d, ActionOf(d.eventType)))
      ensures audit.lastHash == old(audit.lastHash)
      ensures var n := |old(audit.entries)| - 1;
              audit.entries == old(audit.entries)[n := Rewritten(old(audit.entries)[n], r)]
    {
      var n := |audit.entries| - 1;
      var receipt := ReceiptOf(d, ActionOf(d.eventType));
      var entry := audit.entries[n];
      audit.entries := audit.entries[n := entry.(event := entry.event.(details := receipt))];
      return Handled(receipt);
    }
  }

  // ----- runs -----

  /** A handler's surroundings: the digest, the stamps and the retention. */
  datatype Setting = Setting(hash: Digest, stamps: nat -> Stamp, retention: int)

  function After(s: Setting, deliveries: seq<Delivery>): (st: HandlerState)
    decreases |deliveries|
  {
    if deliveries == [] then HandlerState(map[], [], "")
    else Handle(s.hash, s.stamps, s.retention, After(s, deliveries[..|deliveries| - 1]), deliveries[|deliveries| - 1]).0
  }

  /** The response to delivery i. */
  function ResponseTo(s: Setting, deliveries: seq<Delivery>, i: nat): Response
    requires i < |deliveries|
  {
    Handle(s.hash, s.stamps, s.retention, After(s, deliveries[..i]), deliveries[i]).1
  }

  function Claims(deliveries: seq<Delivery>): (ops: seq<Op>)
    ensures |ops| == |deliveries|
    ensures forall i | 0 <= i < |ops| :: ops[i] == ClaimOp(deliveries[i].id, deliveries[i].now)
  {
    seq(|deliveries|, i requires 0 <= i < |deliveries| => ClaimOp(deliveries[i].id, deliveries[i].now))
  }

  lemma {:induction false} StoreIsRun(s: Setting, deliveries: seq<Delivery>)
    ensures After(s, deliveries).processed == Run(s.retention, Claims(deliveries))
    decreases |deliveries|
  {
    if deliveries != [] {
      var n := |deliveries| - 1;
      StoreIsRun(s, deliveries[..n]);
      assert Claims(deliveries)[..n] == Claims(deliveries[..n]);
    }
  }

  lemma AnswersFollowClaims(s: Setting, deliveries: seq<Delivery>, i: nat)
    requires i < |deliveries|
    ensures ResponseTo(s, deliveries, i) == ResponseOf(deliveries[i], Won(s.retention, Claims(deliveries), i))
  {
    StoreIsRun(s, deliveries[..i]);
    assert Claims(deliveries)[..i] == Claims(deliveries[..i]);
  }

  ghost predicate MonotoneClock(deliveries: seq<Delivery>) {
    forall i, j | 0 <= i <= j < |deliveries| :: deliveries[i].now <= deliveries[j].now
  }

  /** A delivery is processed exactly when its id is not empty and no earlier processed
      delivery of it lies within the retention; so two dispatches of one event are strictly
      more than the retention apart. */
  lemma ProcessedOncePerWindow(s: Setting, deliveries: seq<Delivery>, i: nat)
    requires i < |deliveries| && MonotoneClock(deliveries)
    ensures !ResponseTo(s, deliveries, i).DuplicateAck? <==>
              deliveries[i].id != "" &&
              forall j: nat | j < i && !ResponseTo(s, deliveries, j).DuplicateAck? && deliveries[j].id == deliveries[i].id ::
                deliveries[i].now - deliveries[j].now > s.retention
  {
    var ops := Claims(deliveries);
    assert Monotone(ops);
    DedupRefinesHistory(s.retention, ops, i);
    forall j: nat | j <= i
      ensures ResponseTo(s, deliveries, j).DuplicateAck? <==> !Won(s.retention, ops, j)
    {
      AnswersFollowClaims(s, deliveries, j);
    }
  }

  // ----- the handler's own audit trail -----

  /** The entry as it was when it was hashed: handlers had not written into it yet. */
  function AsLogged(entry: AuditEntry): AuditEntry {
    match entry.event.details
    case Receipt(id, eventType, intent, at, created, _) =>
      entry.(event := entry.event.(details := Receipt(id, eventType, intent, at, created, "")))
    case _ => entry
  }

  /** Entry i says what delivery i was and how it was answered, and carries the hash that the
      entry before it had when it was logged. */
  ghost predicate Records(s: Setting, deliveries: seq<Delivery>, entries: seq<AuditEntry>, i: nat)
    requires i < |deliveries| && i < |entries|
  {
    && entries[i].previousHash == (if i == 0 then "" else s.hash(AsLogged(entries[i - 1])))
    && AsLogged(entries[i]).event == EventOf(deliveries[i], !ResponseTo(s, deliveries, i).DuplicateAck?)
    && entries[i] == Rewritten(AsLogged(entries[i]), ResponseTo(s, deliveries, i))
  }

  ghost predicate AllRecorded(s: Setting, deliveries: seq<Delivery>, st: HandlerState) {
    && |st.entries| == |deliveries|
    && st.lastHash == (if deliveries == [] then "" else s.hash(AsLogged(st.entries[|deliveries| - 1])))
    && forall i | 0 <= i < |deliveries| :: Records(s, deliveries, st.entries, i)
  }

  lemma RecordsKept(
    s: Setting, deliveries: seq<Delivery>, entries: seq<AuditEntry>, n: nat, entry: AuditEntry, i: nat)
    requires i < n <= |deliveries| && n <= |entries| && Records(s, deliveries[..n], entries, i)
    ensures Records(s, deliveries, entries + [entry], i)
  {
    assert deliveries[..n][..i] == deliveries[..i];
  }

  /** The entry that one more call appends, and its record. */
  lemma LastIsRecorded(s: Setting, deliveries: seq<Delivery>) returns (entry: AuditEntry)
    requires deliveries != []
    requires AllRecorded(s, deliveries[..|deliveries| - 1], After(s, deliveries[..|deliveries| - 1]))
    ensures After(s, deliveries).entries == After(s, deliveries[..|deliveries| - 1]).entries + [entry]
    ensures After(s, deliveries).lastHash == s.hash(AsLogged(entry))
    ensures Records(s, deliveries, After(s, deliveries).entries, |deliveries| - 1)
  {
    var n := |deliveries| - 1;
    var before := After(s, deliveries[..n]);
    var st := After(s, deliveries);
    var d, first := deliveries[n], Claim(before.processed, s.retention, deliveries[n].id, deliveries[n].now).1;
    entry := st.entries[n];
    var logged := AuditEntry(s.stamps(n), EventOf(d, first), before.lastHash);
    assert entry == Rewritten(logged, ResponseOf(d, first));
    LoggedAsIs(d, first, logged);
  }

  lemma LoggedAsIs(d: Delivery, first: bool, logged: AuditEntry)
    requires logged.event == EventOf(d, first)
    ensures AsLogged(Rewritten(logged, ResponseOf(d, first))) == logged
  {
  }

  /** Every call appends exactly one entry, and later calls leave it alone. */
  lemma {:induction false} OneEntryPerCall(s: Setting, deliveries: seq<Delivery>)
    ensures AllRecorded(s, deliveries, After(s, deliveries))
    decreases |deliveries|
  {
    if deliveries != [] {
      var n := |deliveries| - 1;
      OneEntryPerCall(s, deliveries[..n]);
      var entry := LastIsRecorded(s, deliveries);
      AllKept(s, deliveries, After(s, deliveries[..n]), entry);
    }
  }

  lemma AllKept(s: Setting, deliveries: seq<Delivery>, before: HandlerState, entry: AuditEntry)
    requires deliveries != [] && AllRecorded(s, deliveries[..|deliveries| - 1], before)
    ensures forall i | 0 <= i < |deliveries| - 1 :: Records(s, deliveries, before.entries + [entry], i)
  {
    var n := |deliveries| - 1;
    forall i | 0 <= i < n
      ensures Records(s, deliveries, before.entries + [entry], i)
    {
      assert Records(s, deliveries[..n], before.entries, i);
      RecordsKept(s, deliveries, before.entries, n, entry, i);
    }
  }

  // ----- what is answered and recorded -----

  /** The payment intent of a delivery: the attribute's value when the object has it, even None;
      otherwise, for payment intent events, the object's own id. */
  predicate IntentIs(d: Delivery, intent: Option<string>) {
    match d.data.paymentIntent
    case Some(value) => intent == value
    case None => if "payment_intent" <= d.eventType then intent == d.data.id else intent == None
  }

  /** The answer to a delivery that was claimed: the receipt with the action of its event type,
      or that nobody handles the type. */
  predicate Answers(d: Delivery, intent: Option<string>, r: Response) {
    match r
    case DuplicateAck(_) => false
    case Ignored(eventType) =>
      eventType == d.eventType
      && d.eventType !in {"payment_intent.succeeded", "payment_intent.payment_failed", "charge.refunded"}
    case Handled(receipt) =>
      && receipt.Receipt?
      && receipt == Receipt(d.id, d.eventType, intent, d.receivedAt, d.created, receipt.action)
      && (d.eventType, receipt.action) in {
           ("payment_intent.succeeded", "fulfill_order"), ("payment_intent.payment_failed", "notify_failure"),
           ("charge.refunded", "process_refund")}
  }

  /** A duplicate is acknowledged and audited as one. Any other delivery is answered with its
      receipt, which is also what its audit entry holds in the end, under the payment intent or
      else the event's id. */
  lemma AnsweredAndRecorded(s: Setting, deliveries: seq<Delivery>, i: nat) returns (intent: Option<string>)
    requires i < |deliveries|
    ensures IntentIs(deliveries[i], intent)
    ensures var d, r := deliveries[i], ResponseTo(s, deliveries, i);
            r == DuplicateAck(d.id) || Answers(d, intent, r)
    ensures i < |After(s, deliveries).entries|
    ensures var d, r, e := deliveries[i], ResponseTo(s, deliveries, i), After(s, deliveries).entries[i].event;
            if r.DuplicateAck? then
              e == Event("stripe_webhook", "webhook." + d.eventType, "duplicate", d.id, Details.Duplicate(d.id))
            else
              var ref := if intent.Some? && intent.value != "" then intent.value else d.id;
              var receipt := if r.Handled? then r.receipt
                             else Receipt(d.id, d.eventType, intent, d.receivedAt, d.created, "");
              e == Event("stripe_webhook", "webhook." + d.eventType, "success", ref, receipt)
  {
    var d := deliveries[i];
    intent := PaymentIntent(d);
    AnswersFollowClaims(s, deliveries, i);
    OneEntryPerCall(s, deliveries);
    assert Records(s, deliveries, After(s, deliveries).entries, i);
    EntryOfAnswer(d, ResponseTo(s, deliveries, i), After(s, deliveries).entries[i], intent);
  }

  lemma EntryOfAnswer(d: Delivery, r: Response, entry: AuditEntry, intent: Option<string>)
    requires r == ResponseOf(d, !r.DuplicateAck?) && intent == PaymentIntent(d)
    requires AsLogged(entry).event == EventOf(d, !r.DuplicateAck?) && entry == Rewritten(AsLogged(entry), r)
    ensures r == DuplicateAck(d.id) || Answers(d, intent, r)
    ensures if r.DuplicateAck? then
              entry.event == Event("stripe_webhook", "webhook." + d.eventType, "duplicate", d.id, Details.Duplicate(d.id))
            else
              var ref := if intent.Some? && intent.value != "" then intent.value else d.id;
              var receipt := if r.Handled? then r.receipt
                             else Receipt(d.id, d.eventType, intent, d.receivedAt, d.created, "");
              entry.event == Event("stripe_webhook", "webhook." + d.eventType, "success", ref, receipt)
  {
  }

  // ----- when the handler's trail still verifies -----

  /** An entry that a handler wrote into hashes differently from before. */
  ghost predicate RewritesShow(hash: Digest, entries: seq<AuditEntry>) {
    forall i | 0 <= i < |entries| :: hash(entries[i]) == hash(AsLogged(entries[i])) ==> entries[i] == AsLogged(entries[i])
  }

  lemma HandledIsRewritten(s: Setting, deliveries: seq<Delivery>, i: nat)
    requires i < |deliveries|
    ensures var entries := After(s, deliveries).entries;
            && |entries| == |deliveries|
            && (entries[i] != AsLogged(entries[i]) <==> ResponseTo(s, deliveries, i).Handled?)
  {
    OneEntryPerCall(s, deliveries);
    assert Records(s, deliveries, After(s, deliveries).entries, i);
  }

  lemma LinkFollowsHandled(s: Setting, deliveries: seq<Delivery>, i: nat)
    requires 0 < i < |deliveries| && RewritesShow(s.hash, After(s, deliveries).entries)
    ensures |After(s, deliveries).entries| == |deliveries|
    ensures LinkHolds(s.hash, After(s, deliveries).entries, i) <==> !ResponseTo(s, deliveries, i - 1).Handled?
  {
    OneEntryPerCall(s, deliveries);
    assert Records(s, deliveries, After(s, deliveries).entries, i);
    HandledIsRewritten(s, deliveries, i - 1);
  }

  /** The handler's own audit trail verifies exactly when no delivery but the last was
      dispatched to a handler. */
  lemma TrailVerifiesExactly(s: Setting, deliveries: seq<Delivery>)
    requires RewritesShow(s.hash, After(s, deliveries).entries)
    ensures Linked(s.hash, After(s, deliveries).entries) <==>
              forall i: nat | i + 1 < |deliveries| :: !ResponseTo(s, deliveries, i).Handled?
  {
    var entries := After(s, deliveries).entries;
    OneEntryPerCall(s, deliveries);
    forall i: nat | i + 1 < |deliveries|
      ensures LinkHolds(s.hash, entries, i + 1) <==> !ResponseTo(s, deliveries, i).Handled?
    {
      LinkFollowsHandled(s, deliveries, i + 1);
    }
    if deliveries != [] {
      assert Records(s, deliveries, entries, 0);
    }
    if forall i: nat | i + 1 < |deliveries| :: !ResponseTo(s, deliveries, i).Handled? {
      forall i | 0 <= i < |entries|
        ensures LinkHolds(s.hash, entries, i)
      {
        if i > 0 {
          assert !ResponseTo(s, deliveries, i - 1).Handled?;
        }
      }
    }
  }

  /** The verifier points at the entry after the first one that a handler wrote into. */
  lemma FirstDispatchIsReported(s: Setting, deliveries: seq<Delivery>, k: nat)
    requires k + 1 < |deliveries| && RewritesShow(s.hash, After(s, deliveries).entries)
    requires ResponseTo(s, deliveries, k).Handled?
    requires forall i: nat | i < k :: !ResponseTo(s, deliveries, i).Handled?
    ensures FirstBreak(s.hash, After(s, deliveries).entries) == k + 1
  {
    var entries := After(s, deliveries).entries;
    OneEntryPerCall(s, deliveries);
    forall i | 0 <= i <= k
      ensures LinkHolds(s.hash, entries, i)
    {
      if i == 0 {
        assert Records(s, deliveries, entries, 0);
      } else {
        LinkFollowsHandled(s, deliveries, i);
      }
    }
    LinkFollowsHandled(s, deliveries, k + 1);
    FirstBreakIs(s.hash, entries, k + 1);
  }

  /** It does happen: with a digest that shows the action of a receipt, a handler that
      dispatched its first event has a broken trail as soon as anything else is delivered. */
  lemma SecondDeliveryBreaksTrail(s: Setting, first: Delivery, second: Delivery)
    requires first.id != "" && first.eventType == "payment_intent.succeeded"
    requires s.hash == ActionShows
    ensures FirstBreak(s.hash, After(s, [first, second]).entries) == 1
    ensures !Verify(s.hash, After(s, [first, second]).entries, "").intact
  {
    var deliveries := [first, second];
    assert deliveries[..0] == [];
    ShowsRewrites(After(s, deliveries).entries);
    OneEntryPerCall(s, deliveries);
    FirstDispatchIsReported(s, deliveries, 0);
  }

  /** A digest that is never empty. */
  function ActionShows(entry: AuditEntry): (h: string)
    ensures h != ""
  {
    "0" + match entry.event.details
          case Receipt(_, _, _, _, _, action) => action
          case _ => ""
  }

  lemma ShowsRewrites(entries: seq<AuditEntry>)
    ensures RewritesShow(ActionShows, entries)
  {
    forall i | 0 <= i < |entries|
      ensures ActionShows(entries[i]) == ActionShows(AsLogged(entries[i])) ==> entries[i] == AsLogged(entries[i])
    {
      var d := entries[i].event.details;
      if d.Receipt? {
        assert |ActionShows(entries[i])| == 1 + |d.action|;
        assert |ActionShows(AsLogged(entries[i]))| == 1;
      }
    }
  }

  // ----- calls that raise after the claim -----

  /** A delivery whose handling raises once its event has been claimed, or does not. */
  datatype Attempt = Attempt(delivery: Delivery, raises: bool)

  /** handle_event, when what follows a granted claim may raise before anything is logged. */
  function Try(s: Setting, st: HandlerState, a: Attempt): (HandlerState, Option<Response>) {
    var (processed, first) := Claim(st.processed, s.retention, a.delivery.id, a.delivery.now);
    if first && a.raises then (st.(processed := processed), None)
    else
      var (st1, r) := Handle(s.hash, s.stamps, s.retention, st, a.delivery);
      (st1, Some(r))
  }

  function AfterAttempts(s: Setting, attempts: seq<Attempt>): HandlerState
    decreases |attempts|
  {
    if attempts == [] then HandlerState(map[], [], "")
    else Try(s, AfterAttempts(s, attempts[..|attempts| - 1]), attempts[|attempts| - 1]).0
  }

  /** The answer to attempt i; None when it raised. */
  function AnswerTo(s: Setting, attempts: seq<Attempt>, i: nat): Option<Response>
    requires i < |attempts|
  {
    Try(s, AfterAttempts(s, attempts[..i]), attempts[i]).1
  }

  function ClaimsOf(attempts: seq<Attempt>): (ops: seq<Op>)
    ensures |ops| == |attempts|
    ensures forall i | 0 <= i < |ops| :: ops[i] == ClaimOp(attempts[i].delivery.id, attempts[i].delivery.now)
  {
    seq(|attempts|, i requires 0 <= i < |attempts| => ClaimOp(attempts[i].delivery.id, attempts[i].delivery.now))
  }

  lemma {:induction false} ClaimsSurviveRaises(s: Setting, attempts: seq<Attempt>)
    ensures AfterAttempts(s, attempts).processed == Run(s.retention, ClaimsOf(attempts))
    decreases |attempts|
  {
    if attempts != [] {
      var n := |attempts| - 1;
      ClaimsSurviveRaises(s, attempts[..n]);
      assert ClaimsOf(attempts)[..n] == ClaimsOf(attempts[..n]);
    }
  }

  /** An attempt is answered as a duplicate exactly when its claim is refused, whether or not
      earlier ones raised. */
  lemma DuplicateWhenRefused(s: Setting, attempts: seq<Attempt>, i: nat)
    requires i < |attempts|
    ensures AnswerTo(s, attempts, i) == Some(DuplicateAck(attempts[i].delivery.id)) <==>
              !Won(s.retention, ClaimsOf(attempts), i)
  {
    ClaimsSurviveRaises(s, attempts[..i]);
    assert ClaimsOf(attempts)[..i] == ClaimsOf(attempts[..i]);
  }

  ghost predicate AttemptsInOrder(attempts: seq<Attempt>) {
    forall i, j | 0 <= i <= j < |attempts| :: attempts[i].delivery.now <= attempts[j].delivery.now
  }

  /** An event whose handling raised after its claim is not handled by a retry: as long as no
      other claim of it is granted, each redelivery is answered as a duplicate exactly until
      the retention has passed. */
  lemma RaisedEventIsAcknowledged(s: Setting, attempts: seq<Attempt>, i: nat, j: nat)
    requires i < j < |attempts| && AttemptsInOrder(attempts)
    requires AnswerTo(s, attempts, i) == None && attempts[j].delivery.id == attempts[i].delivery.id
    requires forall k: nat | i < k < j && attempts[k].delivery.id == attempts[i].delivery.id ::
               AnswerTo(s, attempts, k) == Some(DuplicateAck(attempts[i].delivery.id))
    ensures AnswerTo(s, attempts, j) == Some(DuplicateAck(attempts[i].delivery.id)) <==>
              attempts[j].delivery.now - attempts[i].delivery.now <= s.retention
  {
    var ops := ClaimsOf(attempts);
    DuplicateWhenRefused(s, attempts, i);
    DuplicateWhenRefused(s, attempts, j);
    forall k: nat | i < k < j && ops[k].ClaimOp? && ops[k].id == ops[i].id
      ensures !Won(s.retention, ops, k)
    {
      assert attempts[k].delivery.id == attempts[i].delivery.id;
      DuplicateWhenRefused(s, attempts, k);
    }
    RefusedUntilRetention(s.retention, ops, i, j);
  }
}
