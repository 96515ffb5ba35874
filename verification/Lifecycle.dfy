/** The order state machine: statuses, allowed transitions, and what a history of
    transitions can look like. */
module Lifecycle {

  datatype OrderStatus = Draft | Reserved | Confirmed | InProgress | PaymentPending | Completed | Cancelled

  datatype OrderStateChange = OrderStateChange(
    orderId: string, from: OrderStatus, to: OrderStatus, changedAt: string, changedBy: string, reason: string)

  /** VALID_TRANSITIONS. */
  function ValidTransitions(status: OrderStatus): set<OrderStatus> {
    match status
    case Draft => {Reserved, Cancelled}
    case Reserved => {Confirmed, Cancelled}
    case Confirmed => {InProgress, Cancelled}
    case InProgress => {Completed, PaymentPending, Cancelled}
    case PaymentPending => {Completed, Cancelled}
    case Completed => {}
    case Cancelled => {}
  }

  const CANCELLABLE_STATES := {Draft, Reserved, Confirmed, InProgress, PaymentPending}

  /** How many more transitions an order can make at most. */
  function Rank(status: OrderStatus): nat {
    match status
    case Draft => 5
    case Reserved => 4
    case Confirmed => 3
    case InProgress => 2
    case PaymentPending => 1
    case Completed => 0
    case Cancelled => 0
  }

  /** The changes lead from one status to another along allowed transitions. */
  predicate Leads(start: OrderStatus, changes: seq<OrderStateChange>, end: OrderStatus)
    decreases |changes|
  {
    if changes == [] then start == end
    else
      var last := changes[|changes| - 1];
      && last.to == end && last.to in ValidTransitions(last.from)
      && Leads(start, changes[..|changes| - 1], last.from)
  }

  lemma LeadsExtends(start: OrderStatus, changes: seq<OrderStateChange>, change: OrderStateChange)
    requires Leads(start, changes, change.from) && change.to in ValidTransitions(change.from)
    ensures Leads(start, changes + [change], change.to)
  {
    assert (changes + [change])[..|changes|] == changes;
  }

  /** Each transition uses up rank, so a history from a status has at most its rank many. */
  lemma {:induction false} HistoryIsBounded(start: OrderStatus, changes: seq<OrderStateChange>, end: OrderStatus)
    requires Leads(start, changes, end)
    ensures |changes| + Rank(end) <= Rank(start)
    decreases |changes|
  {
    if changes != [] {
      HistoryIsBounded(start, changes[..|changes| - 1], changes[|changes| - 1].from);
    }
  }

  /** Consecutive changes link up: each starts where the one before ended. */
  lemma {:induction false} ChangesLinkUp(start: OrderStatus, changes: seq<OrderStateChange>, end: OrderStatus, i: nat)
    requires Leads(start, changes, end) && i < |changes|
    ensures changes[i].to in ValidTransitions(changes[i].from)
    ensures changes[i].from == if i == 0 then start else changes[i - 1].to
    ensures i == |changes| - 1 ==> changes[i].to == end
    decreases |changes|
  {
    if i < |changes| - 1 {
      ChangesLinkUp(start, changes[..|changes| - 1], changes[|changes| - 1].from, i);
    } else if i > 0 {
      ChangesLinkUp(start, changes[..i], changes[i].from, i - 1);
    }
  }

  /** The status of an order that has moved i times and was neither completed nor cancelled. */
  function Course(i: nat): OrderStatus
    requires i <= 4
  {
    match i
    case 0 => Draft
    case 1 => Reserved
    case 2 => Confirmed
    case 3 => InProgress
    case 4 => PaymentPending
  }

  /** A history along the course, whose last change goes on, cancels, or completes the order once
      it is in progress. */
  ghost predicate IsCourse(changes: seq<OrderStateChange>, end: OrderStatus) {
    var n := |changes|;
    && n <= 5
    && (forall i | 0 <= i < n :: changes[i].from == Course(i))
    && (forall i | 0 <= i < n - 1 :: changes[i].to == Course(i + 1))
    && (n == 0 ==> end == Draft)
    && (n > 0 ==> changes[n - 1].to == end && (end == Cancelled || (end == Completed && n >= 4) || (n <= 4 && end == Course(n))))
  }

  /** From draft, these are all the histories there can be. */
  lemma {:induction false} HistoriesExactly(changes: seq<OrderStateChange>, end: OrderStatus)
    ensures Leads(Draft, changes, end) <==> IsCourse(changes, end)
    decreases |changes|
  {
    if changes != [] {
      var n := |changes| - 1;
      var last, before := changes[n], changes[..n];
      HistoriesExactly(before, last.from);
      if IsCourse(before, last.from) && last.to == end && end in ValidTransitions(last.from) {
        OneStepOn(changes, end);
      }
      if IsCourse(changes, end) {
        OneStepBack(changes, end);
      }
    }
  }

  lemma OneStepOn(changes: seq<OrderStateChange>, end: OrderStatus)
    requires changes != [] && IsCourse(changes[..|changes| - 1], changes[|changes| - 1].from)
    requires changes[|changes| - 1].to == end && end in ValidTransitions(changes[|changes| - 1].from)
    ensures IsCourse(changes, end)
  {
    var n := |changes| - 1;
    assert forall i | 0 <= i < n :: changes[..n][i] == changes[i];
    assert n <= 4 && changes[n].from == Course(n);
  }

  lemma OneStepBack(changes: seq<OrderStateChange>, end: OrderStatus)
    requires changes != [] && IsCourse(changes, end)
    ensures IsCourse(changes[..|changes| - 1], changes[|changes| - 1].from)
    ensures end in ValidTransitions(changes[|changes| - 1].from)
  {
    var n := |changes| - 1;
    assert forall i | 0 <= i < n :: changes[..n][i] == changes[i];
    assert changes[n].from == Course(n);
  }

  /** Cancellation is allowed exactly from the cancellable states. */
  lemma CancellableExactly(status: OrderStatus)
    ensures status in CANCELLABLE_STATES <==> Cancelled in ValidTransitions(status)
    ensures Rank(status) == 0 <==> ValidTransitions(status) == {}
  {
    if status.Draft? || status.Reserved? || status.Confirmed? || status.InProgress? || status.PaymentPending? {
      assert Cancelled in ValidTransitions(status);
    }
  }
}
