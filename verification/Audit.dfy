/** The audit log: entries chained by hash, the logger that appends them, and the verifier
    that re-derives the chain. */
module Audit {
  import opened Wrappers
  import opened Decimals
  import opened Lifecycle

  /** The detail dictionaries that the modelled callers log. */
  datatype Details =
    | OrderCreated(tenantId: string, amountCents: int)
    | StatusChanged(tenantId: string, from: OrderStatus, to: OrderStatus)
    | CommissionSettled(tenantId: string, rate: Dec, feeCents: int, settlementCents: int)
    | CommissionReversed(tenantId: string, fraction: Dec, feeCents: int, reasonPresent: bool)
    | OrderCancelled(tenantId: string, refundRef: string, reasonPresent: bool)
    | Duplicate(eventId: string)
    | Receipt(eventId: string, eventType: string, paymentIntent: Option<string>, timestamp: string, created: int, action: string)

  /** What a caller asks the logger to record. */
  datatype Event = Event(
    actor: string, eventType: string, outcome: string, transactionRef: string, details: Details)

  /** The generated fields of an entry: its UUID and its clock reading. */
  datatype Stamp = Stamp(entryId: string, timestamp: string)

  datatype AuditEntry = AuditEntry(stamp: Stamp, event: Event, previousHash: string)

  /** The digest of an entry's serialised content. It is never the empty string. */
  type Digest = h: AuditEntry -> string | forall e :: h(e) != "" witness e => "0"

  /** The hash that entry i of a chain has to carry. */
  function HashBefore(hash: Digest, entries: seq<AuditEntry>, i: nat): string
    requires i <= |entries|
  {
    if i == 0 then "" else hash(entries[i - 1])
  }

  predicate LinkHolds(hash: Digest, entries: seq<AuditEntry>, i: nat)
    requires i < |entries|
  {
    entries[i].previousHash == HashBefore(hash, entries, i)
  }

  /** Every entry carries the hash of the one before it. */
  predicate Linked(hash: Digest, entries: seq<AuditEntry>) {
    forall i | 0 <= i < |entries| :: LinkHolds(hash, entries, i)
  }

  function Events(entries: seq<AuditEntry>): (events: seq<Event>)
    ensures |events| == |entries|
  {
    seq(|entries|, i requires 0 <= i < |entries| => entries[i].event)
  }

  lemma EventsExtend(entries: seq<AuditEntry>, entry: AuditEntry)
    ensures Events(entries + [entry]) == Events(entries) + [entry.event]
  {
  }

  lemma LinkedExtends(hash: Digest, entries: seq<AuditEntry>, entry: AuditEntry)
    requires Linked(hash, entries) && entry.previousHash == HashBefore(hash, entries, |entries|)
    ensures Linked(hash, entries + [entry])
  {
    forall i | 0 <= i < |entries|
      ensures LinkHolds(hash, entries + [entry], i)
    {
      assert LinkHolds(hash, entries, i);
    }
  }

  class AuditLogger {
    const hash: Digest
    /** The stamp of the n-th entry: any sequence of UUIDs and clock readings. */
    const stamps: nat -> Stamp
    var entries: seq<AuditEntry>
    var lastHash: string

    /** The log is intact and the logger remembers its head. */
    predicate Valid()
      reads this
    {
      Linked(hash, entries) && lastHash == HashBefore(hash, entries, |entries|)
    }

    constructor (hash: Digest, stamps: nat -> Stamp)
      ensures this.hash == hash && this.stamps == stamps && entries == [] && Valid()
    {
      this.hash := hash;
      this.stamps := stamps;
      entries := [];
      lastHash := "";
    }

    method Log(event: Event) returns (entry: AuditEntry)
      modifies this
      ensures entry == AuditEntry(stamps(|old(entries)|), event, old(lastHash))
      ensures entries == old(entries) + [entry] && lastHash == hash(entry)
      ensures Events(entries) == old(Events(entries)) + [event]
      ensures old(Valid()) ==> Valid()
    {
      entry := AuditEntry(stamps(|entries|), event, lastHash);
      EventsExtend(entries, entry);
      if Linked(hash, entries) && lastHash == HashBefore(hash, entries, |entries|) {
        LinkedExtends(hash, entries, entry);
      }
      entries := entries + [entry];
      lastHash := hash(entry);
    }

    method VerifyChainIntegrity() returns (intact: bool)
      ensures intact <==> Linked(hash, entries)
    {
      var previousHash := "";
      for i := 0 to |entries|
        invariant previousHash == HashBefore(hash, entries, i)
        invariant forall j | 0 <= j < i :: LinkHolds(hash, entries, j)
      {
        if entries[i].previousHash != previousHash {
          assert !LinkHolds(hash, entries, i);
          return false;
        }
        previousHash := hash(entries[i]);
      }
      return true;
    }
  }
}

module ChainVerifier {
  import opened Audit

  datatype Report = Report(
    intact: bool, verifiedCount: nat, firstBrokenIndex: int, firstBrokenEntryId: string, reason: string)

  const LINK_MISMATCH := "previous_hash link mismatch"
  const HEAD_MISMATCH := "head hash mismatch (terminal entry modified)"

  /** The head check: skipped without an expected hash and on an empty sequence. */
  predicate HeadAccepted(hash: Digest, entries: seq<AuditEntry>, expectedHead: string) {
    expectedHead == "" || entries == [] || hash(entries[|entries| - 1]) == expectedHead
  }

  /** The index of the first broken link; the length when there is none. */
  function FirstBreak(hash: Digest, entries: seq<AuditEntry>, i: nat := 0): (k: nat)
    requires i <= |entries|
    ensures i <= k <= |entries|
    ensures k < |entries| ==> !LinkHolds(hash, entries, k)
    ensures forall j | i <= j < k :: LinkHolds(hash, entries, j)
    decreases |entries| - i
  {
    if i == |entries| || !LinkHolds(hash, entries, i) then i else FirstBreak(hash, entries, i + 1)
  }

  /** What a verification pass reports. */
  function Verify(hash: Digest, entries: seq<AuditEntry>, expectedHead: string): Report {
    var k := FirstBreak(hash, entries);
    if k < |entries| then
      Report(false, k, k, entries[k].stamp.entryId, LINK_MISMATCH)
    else if !HeadAccepted(hash, entries, expectedHead) then
      Report(false, k, k - 1, entries[k - 1].stamp.entryId, HEAD_MISMATCH)
    else
      Report(true, k, -1, "", "")
  }

  method VerifyChain(hash: Digest, entries: seq<AuditEntry>, expectedHead: string) returns (report: Report)
    ensures report == Verify(hash, entries, expectedHead)
    ensures report.intact <==> Linked(hash, entries) && HeadAccepted(hash, entries, expectedHead)
  {
    var previousHash := "";
    for i := 0 to |entries|
      invariant previousHash == HashBefore(hash, entries, i)
      invariant FirstBreak(hash, entries) == FirstBreak(hash, entries, i)
      invariant forall j | 0 <= j < i :: LinkHolds(hash, entries, j)
    {
      if entries[i].previousHash != previousHash {
        assert !LinkHolds(hash, entries, i);
        return Report(false, i, i, entries[i].stamp.entryId, LINK_MISMATCH);
      }
      previousHash := hash(entries[i]);
    }
    if expectedHead != "" && entries != [] && previousHash != expectedHead {
      return Report(false, |entries|, |entries| - 1, entries[|entries| - 1].stamp.entryId, HEAD_MISMATCH);
    }
    return Report(true, |entries|, -1, "", "");
  }

  // ----- what an intact chain says about its entries -----

  /** No two different entries among these have the same digest. */
  ghost predicate CollisionFree(hash: Digest, entries: seq<AuditEntry>) {
    forall a, b | a in entries && b in entries && hash(a) == hash(b) :: a == b
  }

  /** No entry occurs twice in an intact chain. */
  lemma {:induction false} EntriesAreDistinct(hash: Digest, log: seq<AuditEntry>, i: nat, j: nat)
    requires Linked(hash, log) && CollisionFree(hash, log)
    requires i < |log| && j < |log| && log[i] == log[j]
    ensures i == j
    decreases i
  {
    assert LinkHolds(hash, log, i) && LinkHolds(hash, log, j);
    if i > 0 && j > 0 {
      assert log[i - 1] in log && log[j - 1] in log;
      EntriesAreDistinct(hash, log, i - 1, j - 1);
    }
  }

  /** Of all sequences that can be put together from entries of a log, with any subset,
      order or repetition, exactly the prefixes of the log verify: apart from truncation no
      deletion, reordering or duplication passes. */
  lemma OnlyPrefixesVerify(hash: Digest, log: seq<AuditEntry>, forged: seq<AuditEntry>)
    requires Linked(hash, log) && CollisionFree(hash, log)
    requires forall e <- forged :: e in log
    ensures Verify(hash, forged, "").intact <==> forged <= log
  {
    if Linked(hash, forged) {
      forall i | 0 <= i < |forged|
        ensures i < |log| && forged[i] == log[i]
      {
        AgreesAt(hash, log, forged, i);
      }
      if forged != [] {
        AgreesAt(hash, log, forged, |forged| - 1);
      }
      assert forged == log[..|forged|];
    }
    if forged <= log {
      assert forged == log[..|forged|];
      PrefixIsLinked(hash, log, |forged|);
      FirstBreakIs(hash, forged, |forged|);
    }
  }

  lemma {:induction false} AgreesAt(hash: Digest, log: seq<AuditEntry>, forged: seq<AuditEntry>, i: nat)
    requires Linked(hash, log) && CollisionFree(hash, log) && Linked(hash, forged)
    requires i < |forged| && forall e <- forged :: e in log
    ensures i < |log| && forged[i] == log[i]
  {
    assert forged[i] in log && LinkHolds(hash, forged, i);
    var j :| 0 <= j < |log| && log[j] == forged[i];
    assert LinkHolds(hash, log, j);
    if i > 0 {
      AgreesAt(hash, log, forged, i - 1);
      assert j > 0 && log[j - 1] in log && log[i - 1] in log;
      EntriesAreDistinct(hash, log, j - 1, i - 1);
    }
  }

  /** A sequence that verifies against the head hash of a log is the log, or is empty: the
      checkpoint pins the whole history, and only the empty sequence slips past it. */
  lemma CheckpointPinsHistory(hash: Digest, log: seq<AuditEntry>, forged: seq<AuditEntry>)
    requires Linked(hash, log) && log != [] && CollisionFree(hash, log + forged)
    ensures Verify(hash, forged, hash(log[|log| - 1])).intact <==> forged == log || forged == []
  {
    if forged != [] && Linked(hash, forged) && hash(forged[|forged| - 1]) == hash(log[|log| - 1]) {
      SameHeadSameChain(hash, log, forged);
    }
  }

  lemma {:induction false} SameHeadSameChain(hash: Digest, a: seq<AuditEntry>, b: seq<AuditEntry>)
    requires Linked(hash, a) && Linked(hash, b) && a != [] && b != []
    requires CollisionFree(hash, a + b)
    requires hash(a[|a| - 1]) == hash(b[|b| - 1])
    ensures a == b
    decreases |a|
  {
    var m, n := |a| - 1, |b| - 1;
    assert a[m] in a + b && b[n] in a + b;
    assert LinkHolds(hash, a, m) && LinkHolds(hash, b, n);
    assert a == a[..m] + [a[m]] && b == b[..n] + [b[n]];
    if m > 0 && n > 0 {
      forall e | e in a[..m] + b[..n]
        ensures e in a + b
      {
      }
      PrefixIsLinked(hash, a, m);
      PrefixIsLinked(hash, b, n);
      SameHeadSameChain(hash, a[..m], b[..n]);
    }
  }

  lemma PrefixIsLinked(hash: Digest, log: seq<AuditEntry>, n: nat)
    requires Linked(hash, log) && n <= |log|
    ensures Linked(hash, log[..n])
  {
    forall i | 0 <= i < n
      ensures LinkHolds(hash, log[..n], i)
    {
      assert LinkHolds(hash, log, i);
    }
  }

  // ----- where tampering is reported -----

  lemma FirstBreakIs(hash: Digest, entries: seq<AuditEntry>, k: nat)
    requires k <= |entries| && forall j | 0 <= j < k :: LinkHolds(hash, entries, j)
    requires k < |entries| ==> !LinkHolds(hash, entries, k)
    ensures FirstBreak(hash, entries) == k
  {
    var b := FirstBreak(hash, entries);
  }

  /** Where a replaced entry shows: at once when it carries another previous hash, else at
      its successor when its own hash differs, else nowhere. */
  lemma ReplacementIsReported(hash: Digest, log: seq<AuditEntry>, k: nat, fake: AuditEntry)
    requires Linked(hash, log) && k < |log|
    ensures FirstBreak(hash, log[k := fake]) ==
              if fake.previousHash != log[k].previousHash then k
              else if k + 1 < |log| && hash(fake) != hash(log[k]) then k + 1
              else |log|
  {
    var forged := log[k := fake];
    forall j | 0 <= j < |log|
      ensures j != k && j != k + 1 ==> LinkHolds(hash, forged, j)
      ensures j == k ==> (LinkHolds(hash, forged, j) <==> fake.previousHash == log[k].previousHash)
      ensures j == k + 1 ==> (LinkHolds(hash, forged, j) <==> hash(fake) == hash(log[k]))
    {
      assert LinkHolds(hash, log, j);
    }
    FirstBreakIs(hash, forged,
                 if fake.previousHash != log[k].previousHash then k
                 else if k + 1 < |log| && hash(fake) != hash(log[k]) then k + 1
                 else |log|);
  }

  /** A deleted entry shows at its own index, unless it was the last one. */
  lemma DeletionIsReported(hash: Digest, log: seq<AuditEntry>, k: nat)
    requires Linked(hash, log) && k < |log| && CollisionFree(hash, log)
    ensures FirstBreak(hash, log[..k] + log[k + 1..]) == k
    ensures Verify(hash, log[..k] + log[k + 1..], "").intact <==> k == |log| - 1
  {
    var forged := log[..k] + log[k + 1..];
    forall j | 0 <= j < k
      ensures LinkHolds(hash, forged, j)
    {
      assert LinkHolds(hash, log, j);
    }
    if k < |forged| {
      assert LinkHolds(hash, log, k + 1);
      if LinkHolds(hash, forged, k) {
        assert k > 0 && log[k - 1] in log && log[k] in log;
        EntriesAreDistinct(hash, log, k - 1, k);
      }
    }
    FirstBreakIs(hash, forged, k);
  }
}
