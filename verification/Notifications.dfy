/** The notification queue: admission by the channel matrix, delivery, retry and dead letter. */
module Notifications {
  import opened Wrappers

  datatype Classification = Public | Internal | Confidential | Restricted

  datatype Channel = PwaPush | Sms | Whatsapp | Email | EncryptedEmail

  datatype Notification = Notification(
    tenantId: string, channel: Channel, classification: Classification, id: string, recipientRef: string,
    encryptedPayload: string, queuedAt: string, attempts: int)

  datatype QueueError = ChannelNotAllowed | PayloadRequired | NotPending

  datatype Queue = Queue(pending: seq<Notification>, delivered: seq<Notification>, deadLetter: seq<Notification>)

  datatype Op = Enqueue(n: Notification) | MarkDelivered(id: string) | MarkFailed(id: string)

  const MAX_DELIVERY_ATTEMPTS := 3

  function ChannelMatrix(c: Classification): set<Channel> {
    match c
    case Public => {PwaPush, Sms, Whatsapp}
    case Internal => {Sms, Whatsapp, Email}
    case Confidential => {EncryptedEmail}
    case Restricted => {EncryptedEmail}
  }

  /** The queue's first reason to refuse a notification. */
  function Refusal(n: Notification): Option<QueueError> {
    if n.channel !in ChannelMatrix(n.classification) then Some(ChannelNotAllowed)
    else if n.classification in {Confidential, Restricted} && n.encryptedPayload == "" then Some(PayloadRequired)
    else None
  }

  /** The first pending notification with an id; the length when there is none. */
  function IndexOf(pending: seq<Notification>, id: string): (i: nat)
    ensures i <= |pending|
    ensures i < |pending| ==> pending[i].id == id
    ensures forall j | 0 <= j < i :: pending[j].id != id
  {
    if pending == [] then 0 else if pending[0].id == id then 0 else 1 + IndexOf(pending[1..], id)
  }

  function Retried(n: Notification): Notification {
    n.(attempts := n.attempts + 1)
  }

  function Without(pending: seq<Notification>, i: nat): seq<Notification>
    requires i < |pending|
  {
    pending[..i] + pending[i + 1..]
  }

  /** One call; the notification it concerned, or why it raised. */
  function Step(q: Queue, op: Op): (Queue, Result<Notification, QueueError>) {
    match op
    case Enqueue(n) =>
      (match Refusal(n)
       case Some(e) => (q, Err(e))
       case None => (q.(pending := q.pending + [n]), Ok(n)))
    case MarkDelivered(id) =>
      var i := IndexOf(q.pending, id);
      if i == |q.pending| then (q, Err(NotPending))
      else (q.(pending := Without(q.pending, i), delivered := q.delivered + [q.pending[i]]), Ok(q.pending[i]))
    case MarkFailed(id) =>
      var i := IndexOf(q.pending, id);
      if i == |q.pending| then (q, Err(NotPending))
      else
        var retried, rest := Retried(q.pending[i]), Without(q.pending, i);
        if retried.attempts >= MAX_DELIVERY_ATTEMPTS then
          (q.(pending := rest, deadLetter := q.deadLetter + [retried]), Ok(retried))
        else (q.(pending := rest + [retried]), Ok(retried))
  }

  class NotificationQueue {
    var pending: seq<Notification>
    var delivered: seq<Notification>
    var deadLetter: seq<Notification>

    constructor ()
      ensures State() == Queue([], [], [])
    {
      pending, delivered, deadLetter := [], [], [];
    }

    function State(): Queue
      reads this
    {
      Queue(pending, delivered, deadLetter)
    }

    method EnqueueNotification(n: Notification) returns (r: Result<Notification, QueueError>)
      modifies this
      ensures (State(), r) == Step(old(State()), Enqueue(n))
    {
      if n.channel !in ChannelMatrix(n.classification) {
        return Err(ChannelNotAllowed);
      }
      if n.classification in {Confidential, Restricted} && n.encryptedPayload == "" {
        return Err(PayloadRequired);
      }
      pending := pending + [n];
      return Ok(n);
    }

    /** Removes and returns the first pending notification with the id. */
    method PopPending(id: string) returns (r: Result<Notification, QueueError>)
      modifies this`pending
      ensures var i := IndexOf(old(pending), id);
              if i == |old(pending)| then r == Err(NotPending) && pending == old(pending)
              else r == Ok(old(pending)[i]) && pending == Without(old(pending), i)
    {
      for i := 0 to |pending|
        invariant pending == old(pending)
        invariant forall j | 0 <= j < i :: pending[j].id != id
      {
        if pending[i].id == id {
          assert i == IndexOf(pending, id);
          r := Ok(pending[i]);
          pending := pending[..i] + pending[i + 1..];
          return;
        }
      }
      assert IndexOf(pending, id) == |pending|;
      return Err(NotPending);
    }

    method Deliver(id: string) returns (r: Result<Notification, QueueError>)
      modifies this
      ensures (State(), r) == Step(old(State()), MarkDelivered(id))
    {
      r := PopPending(id);
      if r.Ok? {
        delivered := delivered + [r.value];
      }
    }

    method Fail(id: string) returns (r: Result<Notification, QueueError>)
      modifies this
      ensures (State(), r) == Step(old(State()), MarkFailed(id))
    {
      r := PopPending(id);
      if r.Err? {
        return;
      }
      var retried := Retried(r.value);
      if retried.attempts >= MAX_DELIVERY_ATTEMPTS {
        deadLetter := deadLetter + [retried];
      } else {
        pending := pending + [retried];
      }
      return Ok(retried);
    }
  }

  // ----- runs -----

  function After(ops: seq<Op>): Queue
    decreases |ops|
  {
    if ops == [] then Queue([], [], []) else Step(After(ops[..|ops| - 1]), ops[|ops| - 1]).0
  }

  /** The last call of a run returned. */
  predicate LastReturned(ops: seq<Op>)
    requires ops != []
  {
    Step(After(ops[..|ops| - 1]), ops[|ops| - 1]).1.Ok?
  }

  /** The notifications that a run accepted, in order. */
  function Accepted(ops: seq<Op>): seq<Notification>
    decreases |ops|
  {
    if ops == [] then []
    else
      var before, last := Accepted(ops[..|ops| - 1]), ops[|ops| - 1];
      if last.Enqueue? && LastReturned(ops) then before + [last.n] else before
  }

  /** How many deliveries and failures a run recorded. */
  function Moves(ops: seq<Op>): nat
    decreases |ops|
  {
    if ops == [] then 0
    else
      var before := Moves(ops[..|ops| - 1]);
      if !ops[|ops| - 1].Enqueue? && LastReturned(ops) then before + 1 else before
  }

  /** How many failures a run recorded for an id. */
  function Failures(ops: seq<Op>, id: string): nat
    decreases |ops|
  {
    if ops == [] then 0
    else
      var before := Failures(ops[..|ops| - 1], id);
      if ops[|ops| - 1] == MarkFailed(id) && LastReturned(ops) then before + 1 else before
  }

  // ----- conservation -----

  /** A notification without its attempt count. */
  function Essence(n: Notification): Notification {
    n.(attempts := 0)
  }

  function Essences(s: seq<Notification>): multiset<Notification>
    decreases |s|
  {
    if s == [] then multiset{} else Essences(s[..|s| - 1]) + multiset{Essence(s[|s| - 1])}
  }

  lemma {:induction false} EssencesAppend(a: seq<Notification>, b: seq<Notification>)
    ensures Essences(a + b) == Essences(a) + Essences(b)
    decreases |b|
  {
    if b == [] {
      assert a + b == a;
    } else {
      assert (a + b)[..|a + b| - 1] == a + b[..|b| - 1];
      EssencesAppend(a, b[..|b| - 1]);
    }
  }

  lemma EssencesGrow(s: seq<Notification>, n: Notification)
    ensures Essences(s + [n]) == Essences(s) + multiset{Essence(n)}
  {
    assert (s + [n])[..|s|] == s;
  }

  lemma {:induction false} EssencesWithout(s: seq<Notification>, i: nat)
    requires i < |s|
    ensures Essences(s) == Essences(Without(s, i)) + multiset{Essence(s[i])}
  {
    assert s == s[..i] + [s[i]] + s[i + 1..];
    EssencesGrow(s[..i], s[i]);
    EssencesAppend(s[..i] + [s[i]], s[i + 1..]);
    EssencesAppend(s[..i], s[i + 1..]);
  }

  function Held(q: Queue): multiset<Notification> {
    Essences(q.pending) + Essences(q.delivered) + Essences(q.deadLetter)
  }

  lemma Rearranged<T>(rest: multiset<T>, one: multiset<T>, other: multiset<T>, last: multiset<T>)
    ensures rest + one + other + last == rest + (other + one) + last == rest + other + (last + one)
  {
  }

  /** Moving a pending notification, retried or not, to another place keeps what is held. */
  lemma MovingConserves(q: Queue, i: nat, n: Notification)
    requires i < |q.pending| && Essence(n) == Essence(q.pending[i])
    ensures Held(Queue(Without(q.pending, i) + [n], q.delivered, q.deadLetter)) == Held(q)
    ensures Held(Queue(Without(q.pending, i), q.delivered + [n], q.deadLetter)) == Held(q)
    ensures Held(Queue(Without(q.pending, i), q.delivered, q.deadLetter + [n])) == Held(q)
  {
    EssencesWithout(q.pending, i);
    EssencesGrow(Without(q.pending, i), n);
    EssencesGrow(q.delivered, n);
    EssencesGrow(q.deadLetter, n);
    Rearranged(Essences(Without(q.pending, i)), multiset{Essence(n)}, Essences(q.delivered), Essences(q.deadLetter));
  }

  lemma AcceptingConserves(q: Queue, n: Notification)
    ensures Held(Queue(q.pending + [n], q.delivered, q.deadLetter)) == Held(q) + multiset{Essence(n)}
  {
    EssencesGrow(q.pending, n);
    Rearranged(Essences(q.pending), multiset{Essence(n)}, Essences(q.delivered), Essences(q.deadLetter));
  }

  lemma StepConserves(q: Queue, op: Op)
    ensures var (q1, r) := Step(q, op);
            Held(q1) == if op.Enqueue? && r.Ok? then Held(q) + multiset{Essence(op.n)} else Held(q)
  {
    var (q1, r) := Step(q, op);
    if r.Err? {
      assert q1 == q;
    } else if op.Enqueue? {
      AcceptingConserves(q, op.n);
      assert q1 == Queue(q.pending + [op.n], q.delivered, q.deadLetter);
    } else {
      MoveConserves(q, op);
    }
  }

  lemma MoveConserves(q: Queue, op: Op)
    requires !op.Enqueue? && Step(q, op).1.Ok?
    ensures Held(Step(q, op).0) == Held(q)
  {
    var i, n := IndexOf(q.pending, op.id), Step(q, op).1.value;
    var rest := Without(q.pending, i);
    MovingConserves(q, i, n);
    assert Step(q, op).0 == if op.MarkDelivered? then Queue(rest, q.delivered + [n], q.deadLetter)
                            else if n.attempts >= MAX_DELIVERY_ATTEMPTS then Queue(rest, q.delivered, q.deadLetter + [n])
                            else Queue(rest + [n], q.delivered, q.deadLetter);
  }

  /** Nothing is lost, duplicated or altered but for its attempt count: whatever is accepted
      is pending, delivered or in the dead letter, and nothing else is. */
  lemma {:induction false} QueueConserves(ops: seq<Op>)
    ensures Held(After(ops)) == Essences(Accepted(ops))
    decreases |ops|
  {
    if ops != [] {
      var n := |ops| - 1;
      QueueConserves(ops[..n]);
      StepConserves(After(ops[..n]), ops[n]);
      if ops[n].Enqueue? {
        EssencesGrow(Accepted(ops[..n]), ops[n].n);
      }
    }
  }

  // ----- admission and attempts -----

  /** Pending and delivered notifications have attempts left, dead ones have used all three,
      and all satisfy the channel matrix and the payload rule. */
  ghost predicate InOrder(q: Queue) {
    && (forall n | n in q.pending + q.delivered :: n.attempts < MAX_DELIVERY_ATTEMPTS && Refusal(n) == None)
    && (forall n | n in q.deadLetter :: n.attempts == MAX_DELIVERY_ATTEMPTS && Refusal(n) == None)
  }

  lemma StepKeepsOrder(q: Queue, op: Op)
    requires InOrder(q) && (op.Enqueue? ==> op.n.attempts < MAX_DELIVERY_ATTEMPTS)
    ensures InOrder(Step(q, op).0)
  {
    if !op.Enqueue? {
      var i := IndexOf(q.pending, op.id);
      if i < |q.pending| {
        assert q.pending[i] in q.pending + q.delivered;
        forall n | n in Without(q.pending, i)
          ensures n in q.pending + q.delivered
        {
        }
      }
    }
  }

  /** Whatever the run, as long as no notification is enqueued with its attempts used up. */
  lemma {:induction false} QueueStaysInOrder(ops: seq<Op>)
    requires forall i | 0 <= i < |ops| && ops[i].Enqueue? :: ops[i].n.attempts < MAX_DELIVERY_ATTEMPTS
    ensures InOrder(After(ops))
    decreases |ops|
  {
    if ops != [] {
      QueueStaysInOrder(ops[..|ops| - 1]);
      StepKeepsOrder(After(ops[..|ops| - 1]), ops[|ops| - 1]);
    }
  }

  // ----- one place for each id -----

  function Count(s: seq<Notification>, id: string): nat
    decreases |s|
  {
    if s == [] then 0
    else
      var before := Count(s[..|s| - 1], id);
      if s[|s| - 1].id == id then before + 1 else before
  }

  lemma CountGrows(s: seq<Notification>, n: Notification, id: string)
    ensures Count(s + [n], id) == Count(s, id) + if n.id == id then 1 else 0
  {
    assert (s + [n])[..|s|] == s;
  }

  lemma {:induction false} CountAppends(a: seq<Notification>, b: seq<Notification>, id: string)
    ensures Count(a + b, id) == Count(a, id) + Count(b, id)
    decreases |b|
  {
    if b == [] {
      assert a + b == a;
    } else {
      assert (a + b)[..|a + b| - 1] == a + b[..|b| - 1];
      CountAppends(a, b[..|b| - 1], id);
    }
  }

  lemma CountWithout(s: seq<Notification>, i: nat, id: string)
    requires i < |s|
    ensures Count(s, id) == Count(Without(s, i), id) + if s[i].id == id then 1 else 0
  {
    assert s == s[..i] + [s[i]] + s[i + 1..];
    CountGrows(s[..i], s[i], id);
    CountAppends(s[..i] + [s[i]], s[i + 1..], id);
    CountAppends(s[..i], s[i + 1..], id);
  }

  lemma CountAtLeastOne(s: seq<Notification>, i: nat)
    requires i < |s|
    ensures Count(s, s[i].id) >= 1
  {
    CountWithout(s, i, s[i].id);
  }

  function Places(q: Queue, id: string): nat {
    Count(q.pending, id) + Count(q.delivered, id) + Count(q.deadLetter, id)
  }

  lemma MovingKeepsPlaces(q: Queue, i: nat, n: Notification, id: string)
    requires i < |q.pending| && n.id == q.pending[i].id
    ensures Places(Queue(Without(q.pending, i) + [n], q.delivered, q.deadLetter), id) == Places(q, id)
    ensures Places(Queue(Without(q.pending, i), q.delivered + [n], q.deadLetter), id) == Places(q, id)
    ensures Places(Queue(Without(q.pending, i), q.delivered, q.deadLetter + [n]), id) == Places(q, id)
  {
    CountWithout(q.pending, i, id);
    CountGrows(Without(q.pending, i), n, id);
    CountGrows(q.delivered, n, id);
    CountGrows(q.deadLetter, n, id);
  }

  lemma StepPlaces(q: Queue, op: Op, id: string)
    ensures var (q1, r) := Step(q, op);
            Places(q1, id) == Places(q, id) + if op.Enqueue? && r.Ok? && op.n.id == id then 1 else 0
  {
    match op
    case Enqueue(n) => CountGrows(q.pending, n, id);
    case MarkDelivered(to) =>
      var i := IndexOf(q.pending, to);
      if i < |q.pending| {
        MovingKeepsPlaces(q, i, q.pending[i], id);
      }
    case MarkFailed(to) =>
      var i := IndexOf(q.pending, to);
      if i < |q.pending| {
        MovingKeepsPlaces(q, i, Retried(q.pending[i]), id);
      }
  }

  /** An id is found in the three lists together as often as it was accepted. */
  lemma {:induction false} PlacesMatchAccepted(ops: seq<Op>, id: string)
    ensures Places(After(ops), id) == Count(Accepted(ops), id)
    decreases |ops|
  {
    if ops != [] {
      var n := |ops| - 1;
      PlacesMatchAccepted(ops[..n], id);
      StepPlaces(After(ops[..n]), ops[n], id);
      if ops[n].Enqueue? {
        CountGrows(Accepted(ops[..n]), ops[n].n, id);
      }
    }
  }

  ghost predicate DistinctIds(s: seq<Notification>) {
    forall i, j | 0 <= i < j < |s| :: s[i].id != s[j].id
  }

  lemma {:induction false} DistinctCount(s: seq<Notification>, id: string)
    requires DistinctIds(s)
    ensures Count(s, id) <= 1 && (Count(s, id) == 1 <==> exists i :: 0 <= i < |s| && s[i].id == id)
    decreases |s|
  {
    if s != [] {
      var n := |s| - 1;
      DistinctCount(s[..n], id);
      if s[n].id == id {
        assert forall i | 0 <= i < n :: s[..n][i].id != id;
      } else if i: int :| 0 <= i < |s| && s[i].id == id {
        assert s[..n][i].id == id;
      }
    }
  }

  /** Accepted ids are partitioned: with distinct ids, every accepted one is in exactly one of
      the three lists, once, and no other id is in any. */
  lemma ListsPartitionAccepted(ops: seq<Op>, id: string)
    requires DistinctIds(Accepted(ops))
    ensures Places(After(ops), id) ==
              if exists i :: 0 <= i < |Accepted(ops)| && Accepted(ops)[i].id == id then 1 else 0
  {
    PlacesMatchAccepted(ops, id);
    DistinctCount(Accepted(ops), id);
  }

  // ----- attempts count failures -----

  lemma AcceptedStaysDistinct(ops: seq<Op>)
    requires ops != [] && DistinctIds(Accepted(ops))
    ensures DistinctIds(Accepted(ops[..|ops| - 1]))
  {
    var before := Accepted(ops[..|ops| - 1]);
    assert forall i | 0 <= i < |before| :: before[i] == Accepted(ops)[i];
  }

  lemma {:induction false} FailedWasAccepted(ops: seq<Op>, id: string)
    requires Failures(ops, id) > 0
    ensures Count(Accepted(ops), id) > 0
    decreases |ops|
  {
    var n := |ops| - 1;
    var q := After(ops[..n]);
    if Failures(ops[..n], id) > 0 {
      FailedWasAccepted(ops[..n], id);
    } else {
      CountAtLeastOne(q.pending, IndexOf(q.pending, id));
      PlacesMatchAccepted(ops[..n], id);
    }
    if ops[n].Enqueue? {
      CountGrows(Accepted(ops[..n]), ops[n].n, id);
    }
  }

  ghost predicate CountsFailures(ops: seq<Op>, s: seq<Notification>) {
    forall i | 0 <= i < |s| :: s[i].attempts == Failures(ops, s[i].id)
  }

  ghost predicate AttemptsAreFailures(ops: seq<Op>, q: Queue) {
    CountsFailures(ops, q.pending) && CountsFailures(ops, q.delivered) && CountsFailures(ops, q.deadLetter)
  }

  /** With distinct ids and fresh notifications, an attempt count is the number of failures
      recorded for its notification. */
  lemma {:induction false} AttemptsCountFailures(ops: seq<Op>)
    requires DistinctIds(Accepted(ops))
    requires forall i | 0 <= i < |ops| && ops[i].Enqueue? :: ops[i].n.attempts == 0
    ensures AttemptsAreFailures(ops, After(ops))
    decreases |ops|
  {
    if ops != [] {
      var n := |ops| - 1;
      var before, q, last := ops[..n], After(ops[..n]), ops[n];
      AcceptedStaysDistinct(ops);
      AttemptsCountFailures(before);
      if last.MarkFailed? && LastReturned(ops) {
        FailureCounts(ops);
      } else {
        assert forall id :: Failures(ops, id) == Failures(before, id);
        if last.Enqueue? && LastReturned(ops) {
          NewHasNoFailures(ops);
        }
      }
    }
  }

  lemma NewHasNoFailures(ops: seq<Op>)
    requires ops != [] && DistinctIds(Accepted(ops)) && ops[|ops| - 1].Enqueue? && LastReturned(ops)
    ensures Failures(ops[..|ops| - 1], ops[|ops| - 1].n.id) == 0
  {
    var before, last := ops[..|ops| - 1], ops[|ops| - 1];
    AcceptedStaysDistinct(ops);
    if Failures(before, last.n.id) > 0 {
      FailedWasAccepted(before, last.n.id);
      CountGrows(Accepted(before), last.n, last.n.id);
      DistinctCount(Accepted(ops), last.n.id);
    }
  }

  lemma {:induction false} FailureCounts(ops: seq<Op>)
    requires ops != [] && ops[|ops| - 1].MarkFailed? && LastReturned(ops)
    requires DistinctIds(Accepted(ops[..|ops| - 1])) && AttemptsAreFailures(ops[..|ops| - 1], After(ops[..|ops| - 1]))
    ensures AttemptsAreFailures(ops, After(ops))
  {
    var before, q, id := ops[..|ops| - 1], After(ops[..|ops| - 1]), ops[|ops| - 1].id;
    var i := IndexOf(q.pending, id);
    OthersDiffer(before, id, i);
    assert forall other | other != id :: Failures(ops, other) == Failures(before, other);
    var rest, retried := Without(q.pending, i), Retried(q.pending[i]);
    CountsOn(before, ops, id, rest);
    CountsOn(before, ops, id, q.delivered);
    CountsOn(before, ops, id, q.deadLetter);
    assert retried.attempts == Failures(ops, id);
    CountsOneMore(ops, rest, retried);
    CountsOneMore(ops, q.deadLetter, retried);
  }

  /** With distinct ids no other entry of the three lists has the id of pending entry i. */
  lemma OthersDiffer(ops: seq<Op>, id: string, i: nat)
    requires DistinctIds(Accepted(ops)) && i < |After(ops).pending| && After(ops).pending[i].id == id
    ensures forall k | 0 <= k < |Without(After(ops).pending, i)| :: Without(After(ops).pending, i)[k].id != id
    ensures forall k | 0 <= k < |After(ops).delivered| :: After(ops).delivered[k].id != id
    ensures forall k | 0 <= k < |After(ops).deadLetter| :: After(ops).deadLetter[k].id != id
  {
    var q := After(ops);
    PlacesMatchAccepted(ops, id);
    DistinctCount(Accepted(ops), id);
    CountWithout(q.pending, i, id);
    NoneCounted(Without(q.pending, i), id);
    NoneCounted(q.delivered, id);
    NoneCounted(q.deadLetter, id);
  }

  lemma NoneCounted(s: seq<Notification>, id: string)
    requires Count(s, id) == 0
    ensures forall k | 0 <= k < |s| :: s[k].id != id
  {
    forall k: nat | k < |s|
      ensures s[k].id != id
    {
      CountAtLeastOne(s, k);
    }
  }

  lemma CountsOn(before: seq<Op>, ops: seq<Op>, id: string, s: seq<Notification>)
    requires forall other | other != id :: Failures(ops, other) == Failures(before, other)
    requires CountsFailures(before, s) && forall k | 0 <= k < |s| :: s[k].id != id
    ensures CountsFailures(ops, s)
  {
  }

  lemma CountsOneMore(ops: seq<Op>, s: seq<Notification>, n: Notification)
    requires CountsFailures(ops, s) && n.attempts == Failures(ops, n.id)
    ensures CountsFailures(ops, s + [n])
  {
  }

  /** A fresh notification is in the dead letter after exactly three failures and stays out of
      it before. */
  lemma DeadAfterThreeFailures(ops: seq<Op>)
    requires DistinctIds(Accepted(ops))
    requires forall i | 0 <= i < |ops| && ops[i].Enqueue? :: ops[i].n.attempts == 0
    ensures forall n | n in After(ops).deadLetter :: Failures(ops, n.id) == MAX_DELIVERY_ATTEMPTS
    ensures forall n | n in After(ops).pending + After(ops).delivered :: Failures(ops, n.id) < MAX_DELIVERY_ATTEMPTS
  {
    AttemptsCountFailures(ops);
    QueueStaysInOrder(ops);
  }

  // ----- which list holds an id -----

  ghost predicate Has(s: seq<Notification>, id: string) {
    exists i :: 0 <= i < |s| && s[i].id == id
  }

  /** Some call that marked the id as delivered returned. */
  predicate WasDelivered(ops: seq<Op>, id: string)
    decreases |ops|
  {
    ops != [] &&
    (WasDelivered(ops[..|ops| - 1], id) || (ops[|ops| - 1] == MarkDelivered(id) && LastReturned(ops)))
  }

  lemma HasOneMore(s: seq<Notification>, n: Notification, id: string)
    ensures Has(s + [n], id) <==> Has(s, id) || n.id == id
  {
    assert (s + [n])[|s|] == n;
    if i :| 0 <= i < |s| && s[i].id == id {
      assert (s + [n])[i].id == id;
    }
  }

  lemma {:induction false} HasCount(s: seq<Notification>, id: string)
    ensures Has(s, id) <==> Count(s, id) > 0
    decreases |s|
  {
    if s != [] {
      var n := |s| - 1;
      HasCount(s[..n], id);
      assert s == s[..n] + [s[n]];
      HasOneMore(s[..n], s[n], id);
    }
  }

  lemma {:induction false} DeliveredExactly(ops: seq<Op>, id: string)
    ensures Has(After(ops).delivered, id) <==> WasDelivered(ops, id)
    decreases |ops|
  {
    if ops != [] {
      var n := |ops| - 1;
      var q := After(ops[..n]);
      DeliveredExactly(ops[..n], id);
      if ops[n].MarkDelivered? && LastReturned(ops) {
        HasOneMore(q.delivered, q.pending[IndexOf(q.pending, ops[n].id)], id);
      }
    }
  }

  /** With distinct ids and fresh notifications, an accepted id is delivered exactly when a
      delivery of it was recorded, dead exactly when three failures of it were, and otherwise
      pending. */
  lemma ListOfId(ops: seq<Op>, id: string)
    requires DistinctIds(Accepted(ops)) && Has(Accepted(ops), id)
    requires forall i | 0 <= i < |ops| && ops[i].Enqueue? :: ops[i].n.attempts == 0
    ensures Has(After(ops).delivered, id) <==> WasDelivered(ops, id)
    ensures Has(After(ops).deadLetter, id) <==> Failures(ops, id) == MAX_DELIVERY_ATTEMPTS
    ensures Has(After(ops).pending, id) <==> !WasDelivered(ops, id) && Failures(ops, id) < MAX_DELIVERY_ATTEMPTS
    ensures Failures(ops, id) <= MAX_DELIVERY_ATTEMPTS
  {
    DeliveredExactly(ops, id);
    InOneList(ops, id);
    FailuresOfHeld(ops, id);
  }

  /** An accepted id is in some list, and in no two. */
  lemma InOneList(ops: seq<Op>, id: string)
    requires DistinctIds(Accepted(ops)) && Has(Accepted(ops), id)
    ensures var q := After(ops);
            && (Has(q.pending, id) || Has(q.delivered, id) || Has(q.deadLetter, id))
            && !(Has(q.pending, id) && Has(q.delivered, id))
            && !(Has(q.pending, id) && Has(q.deadLetter, id))
            && !(Has(q.delivered, id) && Has(q.deadLetter, id))
  {
    var q := After(ops);
    OnePlace(ops, id);
    HasCount(q.pending, id);
    HasCount(q.delivered, id);
    HasCount(q.deadLetter, id);
  }

  lemma OnePlace(ops: seq<Op>, id: string)
    requires DistinctIds(Accepted(ops)) && Has(Accepted(ops), id)
    ensures Places(After(ops), id) == 1
  {
    PlacesMatchAccepted(ops, id);
    HasCount(Accepted(ops), id);
    CountOfDistinct(Accepted(ops), id);
  }

  lemma CountOfDistinct(s: seq<Notification>, id: string)
    requires DistinctIds(s)
    ensures Count(s, id) <= 1
  {
    DistinctCount(s, id);
  }

  lemma FailuresOfHeld(ops: seq<Op>, id: string)
    requires DistinctIds(Accepted(ops))
    requires forall i | 0 <= i < |ops| && ops[i].Enqueue? :: ops[i].n.attempts == 0
    ensures Has(After(ops).deadLetter, id) ==> Failures(ops, id) == MAX_DELIVERY_ATTEMPTS
    ensures Has(After(ops).pending, id) || Has(After(ops).delivered, id) ==> Failures(ops, id) < MAX_DELIVERY_ATTEMPTS
  {
    var q := After(ops);
    DeadAfterThreeFailures(ops);
    if i :| 0 <= i < |q.deadLetter| && q.deadLetter[i].id == id {
      assert q.deadLetter[i] in q.deadLetter;
    }
    if i :| 0 <= i < |q.pending| && q.pending[i].id == id {
      assert q.pending[i] in q.pending + q.delivered;
    }
    if i :| 0 <= i < |q.delivered| && q.delivered[i].id == id {
      assert q.delivered[i] in q.pending + q.delivered;
    }
  }

  /** A recorded failure takes the first pending notification with the id out of its place and,
      with attempts left, puts it at the end of the queue with one attempt more; the others
      keep their order. */
  lemma RetriedGoesLast(ops: seq<Op>, id: string) returns (i: nat)
    requires ops != [] && ops[|ops| - 1] == MarkFailed(id) && LastReturned(ops)
    ensures var before, after := After(ops[..|ops| - 1]).pending, After(ops).pending;
            i < |before| && before[i].id == id && forall j | 0 <= j < i :: before[j].id != id
    ensures var before, after := After(ops[..|ops| - 1]).pending, After(ops).pending;
            var retried := before[i].(attempts := before[i].attempts + 1);
            && Step(After(ops[..|ops| - 1]), MarkFailed(id)).1 == Ok(retried)
            && after == before[..i] + before[i + 1..] + if retried.attempts < 3 then [retried] else []
  {
    var before := After(ops[..|ops| - 1]).pending;
    i := IndexOf(before, id);
    assert Without(before, i) + [] == Without(before, i);
  }

  /** A delivery or a failure of an id is recorded exactly when a notification with the id is
      pending; otherwise the call raises and changes nothing. */
  lemma RecordedExactly(q: Queue, id: string)
    ensures Step(q, MarkDelivered(id)).1.Ok? <==> Has(q.pending, id)
    ensures Step(q, MarkFailed(id)).1.Ok? <==> Has(q.pending, id)
    ensures !Has(q.pending, id) ==>
              Step(q, MarkDelivered(id)) == Step(q, MarkFailed(id)) == (q, Err(NotPending))
  {
    var i := IndexOf(q.pending, id);
    assert i < |q.pending| ==> q.pending[i].id == id;
  }

  // ----- admission -----

  /** Public and internal notifications go to their own channels, in the clear; confidential
      and restricted ones by encrypted email only, with a payload. */
  predicate Admissible(n: Notification) {
    match n.classification
    case Public => n.channel == PwaPush || n.channel == Sms || n.channel == Whatsapp
    case Internal => n.channel == Sms || n.channel == Whatsapp || n.channel == Email
    case Confidential => n.channel == EncryptedEmail && n.encryptedPayload != ""
    case Restricted => n.channel == EncryptedEmail && n.encryptedPayload != ""
  }

  /** A notification is accepted, to the end of the queue, exactly when it is admissible. */
  lemma AcceptedExactly(q: Queue, n: Notification)
    ensures Admissible(n) ==> Step(q, Enqueue(n)) == (Queue(q.pending + [n], q.delivered, q.deadLetter), Ok(n))
    ensures !Admissible(n) ==>
              Step(q, Enqueue(n)) ==
                (q, Err(if Admissible(n.(encryptedPayload := "x")) then PayloadRequired else ChannelNotAllowed))
  {
  }

  /** Whatever the run, nothing inadmissible is ever pending, delivered or dead. */
  lemma {:induction false} OnlyAdmissible(ops: seq<Op>)
    ensures forall n | n in After(ops).pending + After(ops).delivered + After(ops).deadLetter :: Admissible(n)
    decreases |ops|
  {
    if ops != [] {
      var n := |ops| - 1;
      OnlyAdmissible(ops[..n]);
      StepKeepsAdmissible(After(ops[..n]), ops[n]);
    }
  }

  lemma StepKeepsAdmissible(q: Queue, op: Op)
    requires forall n | n in q.pending + q.delivered + q.deadLetter :: Admissible(n)
    ensures var q1 := Step(q, op).0; forall n | n in q1.pending + q1.delivered + q1.deadLetter :: Admissible(n)
  {
    if op.Enqueue? {
      AcceptedExactly(q, op.n);
    } else {
      var i := IndexOf(q.pending, op.id);
      if i < |q.pending| {
        assert q.pending[i] in q.pending + q.delivered + q.deadLetter;
        forall n | n in Without(q.pending, i)
          ensures n in q.pending + q.delivered + q.deadLetter
        {
        }
      }
    }
  }

  // ----- termination -----

  /** The attempts left. */
  function Budget(s: seq<Notification>): int
    decreases |s|
  {
    if s == [] then 0 else Budget(s[..|s| - 1]) + (MAX_DELIVERY_ATTEMPTS - s[|s| - 1].attempts)
  }

  lemma BudgetGrows(s: seq<Notification>, n: Notification)
    ensures Budget(s + [n]) == Budget(s) + (MAX_DELIVERY_ATTEMPTS - n.attempts)
  {
    assert (s + [n])[..|s|] == s;
  }

  lemma {:induction false} BudgetAppends(a: seq<Notification>, b: seq<Notification>)
    ensures Budget(a + b) == Budget(a) + Budget(b)
    decreases |b|
  {
    if b == [] {
      assert a + b == a;
    } else {
      assert (a + b)[..|a + b| - 1] == a + b[..|b| - 1];
      BudgetAppends(a, b[..|b| - 1]);
    }
  }

  lemma {:induction false} BudgetWithout(s: seq<Notification>, i: nat)
    requires i < |s|
    ensures Budget(s) == Budget(Without(s, i)) + (MAX_DELIVERY_ATTEMPTS - s[i].attempts)
  {
    assert s == s[..i] + [s[i]] + s[i + 1..];
    BudgetGrows(s[..i], s[i]);
    BudgetAppends(s[..i] + [s[i]], s[i + 1..]);
    BudgetAppends(s[..i], s[i + 1..]);
  }

  /** Every delivery or failure uses up attempts that were left. */
  lemma MovesSpend(q: Queue, op: Op)
    requires InOrder(q) && !op.Enqueue? && Step(q, op).1.Ok?
    ensures Budget(Step(q, op).0.pending) < Budget(q.pending)
  {
    var i := IndexOf(q.pending, op.id);
    assert q.pending[i] in q.pending + q.delivered;
    BudgetWithout(q.pending, i);
    BudgetGrows(Without(q.pending, i), Retried(q.pending[i]));
  }

  lemma {:induction false} BudgetIsNatural(s: seq<Notification>)
    requires forall n | n in s :: n.attempts <= MAX_DELIVERY_ATTEMPTS
    ensures Budget(s) >= 0
    decreases |s|
  {
    if s != [] {
      assert s[|s| - 1] in s && forall n | n in s[..|s| - 1] :: n in s;
      BudgetIsNatural(s[..|s| - 1]);
    }
  }

  /** The attempts left and the calls that used them up never exceed those that came in, so
      n fresh notifications admit at most 3n deliveries and failures. */
  lemma {:induction false} MovesAreBounded(ops: seq<Op>)
    requires forall i | 0 <= i < |ops| && ops[i].Enqueue? :: 0 <= ops[i].n.attempts < MAX_DELIVERY_ATTEMPTS
    ensures Moves(ops) + Budget(After(ops).pending) <= Budget(Accepted(ops)) <= MAX_DELIVERY_ATTEMPTS * |Accepted(ops)|
    ensures Moves(ops) <= MAX_DELIVERY_ATTEMPTS * |Accepted(ops)|
    decreases |ops|
  {
    if ops != [] {
      var n := |ops| - 1;
      var q := After(ops[..n]);
      MovesAreBounded(ops[..n]);
      QueueStaysInOrder(ops[..n]);
      QueueStaysInOrder(ops);
      if LastReturned(ops) {
        if ops[n].Enqueue? {
          BudgetGrows(q.pending, ops[n].n);
          BudgetGrows(Accepted(ops[..n]), ops[n].n);
        } else {
          MovesSpend(q, ops[n]);
        }
      }
      forall m | m in After(ops).pending
        ensures m.attempts <= MAX_DELIVERY_ATTEMPTS
      {
        assert m in After(ops).pending + After(ops).delivered;
      }
      BudgetIsNatural(After(ops).pending);
    }
  }
}
