/** The append-only commission ledger and its reconciliation totals. */
module Ledger {
  import opened Wrappers
  import opened Decimals

  datatype LedgerEntry = LedgerEntry(
    tenantId: string, orderId: string, currency: string, gross: int, fee: int, settlement: int, rate: Dec)

  datatype LedgerError = Unbalanced

  predicate Balanced(e: LedgerEntry) {
    e.fee + e.settlement == e.gross
  }

  /** The entry's constructor with its balance check. */
  function NewEntry(e: LedgerEntry): Result<LedgerEntry, LedgerError> {
    if !Balanced(e) then Err(Unbalanced) else Ok(e)
  }

  /** The amounts that are reconciled. */
  datatype Column = Gross | Fee | TenantSettlement

  function Amount(e: LedgerEntry, column: Column): int {
    match column
    case Gross => e.gross
    case Fee => e.fee
    case TenantSettlement => e.settlement
  }

  /** What a reconciliation covers: every entry, or one tenant's. */
  datatype Scope = Everyone | Tenant(id: string)

  predicate Covers(scope: Scope, e: LedgerEntry) {
    scope.Everyone? || e.tenantId == scope.id
  }

  /** The total of one column over the entries in scope. */
  function Total(entries: seq<LedgerEntry>, scope: Scope, column: Column): int {
    if entries == [] then 0
    else (if Covers(scope, entries[0]) then Amount(entries[0], column) else 0) + Total(entries[1..], scope, column)
  }

  class CommissionLedger {
    var entries: seq<LedgerEntry>

    constructor ()
      ensures entries == []
    {
      entries := [];
    }

    method Append(entry: LedgerEntry)
      modifies this
      ensures entries == old(entries) + [entry]
    {
      entries := entries + [entry];
    }

    /** daily_reconciliation_balance: of one tenant, or of all entries when no tenant or the
        empty one is given. */
    method DailyReconciliationBalance(tenantId: Option<string>) returns (gross: int, fee: int, settlement: int)
      ensures var scope := if tenantId.Some? && tenantId.value != "" then Tenant(tenantId.value) else Everyone;
              && gross == Total(entries, scope, Gross)
              && fee == Total(entries, scope, Fee)
              && settlement == Total(entries, scope, TenantSettlement)
    {
      gross, fee, settlement := 0, 0, 0;
      var scope := if tenantId.Some? && tenantId.value != "" then Tenant(tenantId.value) else Everyone;
      for i := 0 to |entries|
        invariant gross == Total(entries[..i], scope, Gross)
        invariant fee == Total(entries[..i], scope, Fee)
        invariant settlement == Total(entries[..i], scope, TenantSettlement)
      {
        var e := entries[i];
        assert entries[..i + 1] == entries[..i] + [e];
        TotalAppends(entries[..i], e, scope, Gross);
        TotalAppends(entries[..i], e, scope, Fee);
        TotalAppends(entries[..i], e, scope, TenantSettlement);
        if Covers(scope, e) {
          gross, fee, settlement := gross + e.gross, fee + e.fee, settlement + e.settlement;
        }
      }
      assert entries[..|entries|] == entries;
    }
  }

  lemma {:induction false} TotalAppends(entries: seq<LedgerEntry>, e: LedgerEntry, scope: Scope, column: Column)
    ensures Total(entries + [e], scope, column) ==
              Total(entries, scope, column) + if Covers(scope, e) then Amount(e, column) else 0
  {
    if entries == [] {
      assert entries + [e] == [e];
    } else {
      assert (entries + [e])[1..] == entries[1..] + [e];
      TotalAppends(entries[1..], e, scope, column);
    }
  }

  // ----- conservation -----

  /** Fee plus settlement equals gross, overall and for any tenant. */
  lemma {:induction false} TotalsBalance(entries: seq<LedgerEntry>, scope: Scope)
    requires forall e <- entries :: Balanced(e)
    ensures Total(entries, scope, Fee) + Total(entries, scope, TenantSettlement) == Total(entries, scope, Gross)
  {
    if entries != [] {
      assert Balanced(entries[0]);
      TotalsBalance(entries[1..], scope);
    }
  }

  /** The totals of a list of tenants, added up. */
  function SumOfTenants(entries: seq<LedgerEntry>, tenants: seq<string>, column: Column): int {
    if tenants == [] then 0
    else Total(entries, Tenant(tenants[0]), column) + SumOfTenants(entries, tenants[1..], column)
  }

  /** How often a tenant is listed. */
  function Mentions(tenants: seq<string>, id: string): nat {
    if tenants == [] then 0 else (if tenants[0] == id then 1 else 0) + Mentions(tenants[1..], id)
  }

  /** An entry counts once, with its own tenant. */
  lemma {:induction false} EntryCountsOnce(entries: seq<LedgerEntry>, tenants: seq<string>, column: Column)
    requires entries != [] && Mentions(tenants, entries[0].tenantId) <= 1
    ensures SumOfTenants(entries, tenants, column) ==
              SumOfTenants(entries[1..], tenants, column) +
              if Mentions(tenants, entries[0].tenantId) == 1 then Amount(entries[0], column) else 0
  {
    if tenants != [] {
      EntryCountsOnce(entries, tenants[1..], column);
    }
  }

  lemma {:induction false} SumOfNothing(tenants: seq<string>, column: Column)
    ensures SumOfTenants([], tenants, column) == 0
  {
    if tenants != [] {
      SumOfNothing(tenants[1..], column);
    }
  }

  /** When every tenant of the ledger is listed once, and the empty tenant never, their
      totals add up to the overall one up to the entries that carry no tenant. */
  lemma {:induction false} TenantsReconcile(entries: seq<LedgerEntry>, tenants: seq<string>, column: Column)
    requires forall e <- entries :: Mentions(tenants, e.tenantId) == if e.tenantId == "" then 0 else 1
    ensures Total(entries, Everyone, column) ==
              SumOfTenants(entries, tenants, column) + Total(entries, Tenant(""), column)
  {
    if entries == [] {
      SumOfNothing(tenants, column);
    } else {
      assert entries[0] in entries;
      TenantsReconcile(entries[1..], tenants, column);
      EntryCountsOnce(entries, tenants, column);
    }
  }
}
