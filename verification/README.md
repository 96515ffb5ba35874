# Commerce core: orders, commissions, audit chain, schema migrations, webhooks, notifications, VAT

This project models the stateful and arithmetic core of the JOL Commerce backend and proves
properties of it over every input, every run and every executor or callback behaviour.

| file | what it holds |
|---|---|
| `Wrappers.dfy`, `Arithmetic.dfy`, `Text.dfy` | results, slices, products, Python's string order |
| `Decimals.dfy` | finite decimals and the 28-digit, half-even rounding of Python's default context |
| `Commission.dfy` | the commission engine: splits, reversals, sums of partial reversals |
| `Vat.dfy`, `Invoices.dfy` | VAT from net and from gross, rate lookup, invoice totals |
| `Lifecycle.dfy`, `Ledger.dfy`, `Audit.dfy` | the order state graph, the ledger class, the audit logger class and the chain verifier |
| `OrderWorld.dfy` | the order service as a step function over a whole process: orders, repository, ledger, audit, refunds |
| `OrderRuns.dfy`, `OrderAudit.dfy`, `OrderTenancy.dfy`, `OrderInterleaving.dfy` | theorems over whole runs: settlement and refund, replay of the audit trail, tenant isolation for blocks of foreign requests and for any interleaving |
| `OrderRequests.dfy` | what each request does to order, repository, ledger, audit trail and refund calls, and what that comes to over runs |
| `OrderService.dfy` | the mutable objects (order, repository, refund callback, service), each request proved to refine the step function |
| `Provisioning.dfy` | the schema provisioner as scripts over an executor that may fail at any attempt |
| `Migrations.dfy`, `Rollback.dfy`, `RoundTrip.dfy` | theorems about `migrate_all` and `downgrade`, complete, interrupted or refused, and their round trip on an abstract database |
| `Bookkeeping.dfy` | the applied list in memory against the rows of the bookkeeping table, over failing runs and all later ones |
| `Provisioner.dfy` | the executor and provisioner classes, each loop proved against the scripts |
| `Webhooks.dfy` | the deduplication store, the webhook handler and its runs |
| `Notifications.dfy` | the notification queue class and its runs |

Conventions. A Python exception is an `Err`, a `Some(error)` or an error field, and what was
changed before it was raised stays changed. Amounts are integer cents; a `Decimal` is a
coefficient and a scale, and every product, quotient and sum goes through the context's
rounding to 28 significant digits. Clock readings, UUIDs, the digest, the refund callback and
the SQL executor are parameters: any values and any failures. A digest is any function of an
entry that is never `""`; where a theorem needs that particular entries do not collide it says
so in its `requires`.

Where the code and its comments differ, the model follows the code:

- "Fee truncated in the tenant's favour" holds exactly as long as the product does not lie so
  close below a whole cent that 28 digits carry it there
  (`Commission.TruncationFavoursTenantExactly`, with a counterexample).
- One partial reversal can take back one cent more than the tenant was paid
  (`Commission.OverReversalExactly`, with a counterexample).
- The net amount taken out of a gross one is not always the exact quotient rounded once: the
  division rounds to 28 digits first. `Vat.FromGrossExactly` says exactly when that shows, and
  two counterexamples show it in either direction. Nor is the VAT on a net amount always its
  product rounded once (`Vat.VatOnExactly`, `Vat.NetSkewedCounterexample`).
- Completion changes, stores and audits the status before the commission is calculated, so a
  negative total, a bad rate or a refused save leaves a completed order without a settlement
  (`OrderRuns.UnsettledExactlyWhenInterrupted` says exactly when;
  `OrderRuns.NegativeTotalStaysUnsettled` is such a run).
- A transition requested by another tenant is refused, but only after the order has been
  changed in place (`OrderTenancy.TransitionInterferesExactly`,
  `OrderTenancy.RefusedTransitionShows`).
- `verify_chain` accepts an empty sequence against any head hash
  (`ChainVerifier.CheckpointPinsHistory`).
- The webhook handlers write into the receipt that the audit log already holds, so the
  handler's own trail stops verifying after the first dispatched event that is not its last
  (`WebhookHandler.TrailVerifiesExactly`, `WebhookHandler.SecondDeliveryBreaksTrail`).
- The store claims an event before it is dispatched, while its module text says that a crash
  before completion leaves the event unclaimed. When handling raises after the claim (and the
  process, with the store it keeps in memory, goes on), redeliveries are answered as
  duplicates exactly until the retention has passed (`WebhookHandler.RaisedEventIsAcknowledged`).
- "One tenant's failure never blocks the others": `migrate_all` raises at the first failure and
  leaves later schemas untouched (`Migrations.MigrateAllStops`).
- The list of applied revisions is extended before the row is inserted. The table gets a row
  for every id added to the list (but the template's, which has none) unless that insertion is
  what failed (`Bookkeeping.ListAgainstTable`,
  `Bookkeeping.TableFollowsExactly`); the row then stays missing through every later migration
  (`Bookkeeping.MissingForGood`), and any revision can lose its row this way
  (`Bookkeeping.RowCanBeLost`).
- Rolling back to `""` on a schema that recorded the template undoes every other revision and
  then raises (`Rollback.TemplateBlocksEmptyTarget`).
- Revisions are undone in the reverse order of the list but chosen by comparing ids, so once a
  revision was added late a rollback to it leaves no prefix of the list
  (`Rollback.LateRevisionComesLast`).

## Model

| member | source | states |
|---|---|---|
| Decimals.RoundSigRelativeError | backend/jol_commerce/commissions/commission_engine.py:63-68 | rounding to 28 digits errs by at most five units in the 29th digit, upwards or downwards, and not at all below 10^28 |
| Decimals.RoundSigMonotone | backend/jol_commerce/commissions/commission_engine.py:63-68 | rounding to 28 digits never reorders two amounts |
| Commission.TimesDownExactly | backend/jol_commerce/commissions/commission_engine.py:63-68 | a share of any amount is the exact share rounded down if and only if its product lies neither so close below the next cent that 28 digits carry it there nor, with digits of whole cents to drop, above a multiple they sink it to; up to 10^28 cents only the first happens, and adds one cent |
| Commission.ChargeIsBalanced | backend/jol_commerce/commissions/commission_engine.py:45-75 | every accepted split carries the tenant's own rate (the platform's when there is none) and loses nothing between the parties; up to 10^28 cents it charges between nothing and the whole amount, the exact fee rounded down but for a cent that 28 digits can add |
| Commission.RefusedCharges | backend/jol_commerce/commissions/commission_engine.py:45-68 | a calculation raises exactly for a negative amount, a malformed rate or a rate outside 0 to 1, checked in this order |
| Commission.FeeWithinGrossExactly | backend/jol_commerce/commissions/commission_engine.py:63-68 | all valid rates keep the fee within the amount exactly for amounts that 28 digits do not round up |
| Commission.TruncationFavoursTenantExactly | backend/jol_commerce/commissions/commission_engine.py:63-68 | the fee is at most the exact fee if and only if the product is not within half a unit of its dropped digits below the next cent (or, on a tie with no decimals left, below an even neighbour); a product below 10^28 never is |
| Commission.TruncationFavoursTenantCounterexample | backend/jol_commerce/commissions/commission_engine.py:63-68 | a rate of twenty-nine nines takes the whole of one cent |
| Commission.FullReversalIsExact | backend/jol_commerce/commissions/commission_engine.py:94-109 | the fraction "1" reverses exactly what was settled if and only if 28 digits hold its gross and fee, as they do up to 10^28 cents |
| Commission.ReversesExactly | backend/jol_commerce/commissions/commission_engine.py:94-109 | a reversal is accepted exactly for fractions above 0 and up to 1, takes back that share of gross and fee rounded down (but for such a cent), and keeps rate and balance |
| Commission.OverReversalExactly | backend/jol_commerce/commissions/commission_engine.py:94-109 | one reversal stays within the settled gross and fee, and exceeds the settled tenant amount if and only if the exact shares take all of it and the gross product alone lies that close below a cent |
| Commission.OverReversalCounterexample | backend/jol_commerce/commissions/commission_engine.py:94-109 | a split of 11 cents whose reversal takes 11 cents from a tenant who was paid 10 |
| Commission.TrailingZerosIgnored | backend/jol_commerce/commissions/commission_engine.py:94-109 | the same fraction written with more zeros reverses the same amounts |
| Commission.PartialReversalsStayWithin | backend/jol_commerce/commissions/commission_engine.py:94-109 | reversals whose fractions add up to at most one leave gross and fee non-negative and overdraw the tenant by at most a cent for each of them (each but one, when the products fit in 28 digits) |
| Commission.CommonRateFees | backend/jol_commerce/commissions/commission_engine.py:63-68 | the fees of n settlements at one rate are less than n cents off the rate of their gross total, and never above it when the products fit in 28 digits |
| Vat.DoubleRoundingCollapses | backend/jol_commerce/tax/vat_calculator.py:101-104 | a quotient rounded to k decimals and then half up to cents is the quotient rounded half up once, for denominators of at most k digits |
| Vat.QuotientCentsExactly | backend/jol_commerce/tax/vat_calculator.py:101-104 | the divided and quantized amount is the exact quotient rounded half up once if and only if it fits in 28 digits and the quotient does not lie so close below the next half cent (or, without decimals left, on one above an even neighbour) that 28 digits move it |
| Vat.FromGrossExactly | backend/jol_commerce/tax/vat_calculator.py:81-114 | the net amount taken out of any gross amount at any rate is the exact quotient by 1 + rate rounded half up once if and only if the quotient by 1 + rate as 28 digits hold it lands within its half cents; when they hold all of it, if and only if it is not moved as in the row before |
| Vat.FromGrossIsExact | backend/jol_commerce/tax/vat_calculator.py:81-114 | for every rate, amounts whose product with 1 + rate leaves room in 28 digits never meet that case, and net and VAT are exact |
| Vat.HalfUpExists | backend/jol_commerce/tax/vat_calculator.py:101-104 | every non-negative quotient has a half-up rounding, so the exact net that the other rows speak of always exists |
| Vat.DoubleRoundingCounterexample | backend/jol_commerce/tax/vat_calculator.py:101-104 | a gross amount whose net is one cent above the quotient rounded once |
| Vat.EvenNeighbourCounterexample | backend/jol_commerce/tax/vat_calculator.py:101-104 | a gross amount whose net is one cent below it |
| Vat.VatOnExactly | backend/jol_commerce/tax/vat_calculator.py:46-79 | the VAT on any net amount, fractions of cents included, is the exact product rounded half up once if and only if it fits in 28 digits and the product does not lie within half a unit of its dropped digits below the next half cent (or, without decimals left, on one above an even neighbour) |
| Vat.NetSkewedCounterexample | backend/jol_commerce/tax/vat_calculator.py:46-79 | a net amount at 21% whose VAT is one cent below its product rounded once |
| Vat.FromNetIsExact | backend/jol_commerce/tax/vat_calculator.py:46-79 | amounts in range never meet that case, and VAT and gross are exact |
| Vat.NetRoundTrip | backend/jol_commerce/tax/vat_calculator.py:65-105 | net to gross to net returns the same net and VAT, at every rate |
| Vat.GrossRoundTrip | backend/jol_commerce/tax/vat_calculator.py:65-105 | gross to net to gross is off by at most a cent and half the rate's share of one, so by at most one cent for rates below 200% |
| Invoices.RateOnIsInForce | backend/jol_commerce/tax/country_rates.py:120-131 | on a newest-first list the scan finds the one latest rate effective by the date, or the oldest before all of them |
| Invoices.NewerRatesAreNotRetroactive | backend/jol_commerce/tax/country_rates.py:120-131 | rates that start later never change the answer for an earlier date |
| Invoices.RateLookupExactly | backend/jol_commerce/tax/country_rates.py:113-131 | a lookup fails exactly for a country that the table lacks or that has no rates |
| Invoices.LineVatIs | backend/jol_commerce/tax/invoice_generator.py:29-37 | a line of a known country is calculated on price times quantity, at the rate looked up for its date |
| Invoices.LineRateIsInForce | backend/jol_commerce/tax/invoice_generator.py:29-37 | and that rate is the one in force on its date |
| Invoices.TotalsAddUp | backend/jol_commerce/tax/invoice_generator.py:53-66 | the totals of an invoice are the sums of price times quantity, of its lines' own VAT and of their gross amounts, although every partial sum is rounded |
| Invoices.InvoiceRaisesExactly | backend/jol_commerce/tax/invoice_generator.py:53-66 | an invoice raises what its first line that raises does, and otherwise has totals |
| Invoices.LineVatError | backend/jol_commerce/tax/invoice_generator.py:29-37 | a line's VAT is within half a cent of price times quantity times the rate in force |
| Invoices.TotalVatError | backend/jol_commerce/tax/invoice_generator.py:53-66 | the total VAT of an invoice of n lines is within n/2 cents of the exact sum over its lines |
| Lifecycle.HistoryIsBounded | backend/jol_commerce/orders/order_lifecycle.py:52-64 | every path of allowed transitions uses up rank, so it is at most as long as its start's rank |
| Lifecycle.ChangesLinkUp | backend/jol_commerce/orders/order_lifecycle.py:123-161 | in a history each change starts where the one before ended, along an allowed edge, and the last ends in the current status |
| Lifecycle.HistoriesExactly | backend/jol_commerce/orders/order_lifecycle.py:52-64 | the histories from DRAFT are exactly those that go RESERVED, CONFIRMED, IN_PROGRESS, PAYMENT_PENDING without leaving one out, and then stop, cancel, or complete once in progress |
| Lifecycle.CancellableExactly | backend/jol_commerce/orders/order_lifecycle.py:66-73 | the cancellable states are exactly those from which CANCELLED is allowed |
| OrderObjects.Order.TransitionTo | backend/jol_commerce/orders/order_lifecycle.py:123-161 | the refusal changes nothing; otherwise status, time stamp and history change together and nothing else does |
| OrderObjects.Order.IsCancellable | backend/jol_commerce/orders/order_lifecycle.py:163-166 | it answers true exactly when a transition to CANCELLED would be accepted |
| OrderObjects.OrderRepository.Save | backend/jol_commerce/orders/order_repository.py:26-29 | a permitted save replaces the order stored under the id or appends it; a refused one stores nothing |
| OrderObjects.OrderRepository.FindById | backend/jol_commerce/orders/order_repository.py:31-37 | the stored order, nothing, or the refusal for another tenant's |
| OrderObjects.OrderRepository.Find | backend/jol_commerce/orders/order_repository.py:39-60 | without a tenant context an error; else the tenant's matching orders in insertion order |
| Audit.AuditLogger.Log | backend/jol_commerce/audit/audit_log.py:77-112 | one entry is appended with the hash of the one before, and an intact log stays intact |
| Audit.AuditLogger.VerifyChainIntegrity | backend/jol_commerce/audit/audit_log.py:139-150 | true exactly when every entry carries the hash of the one before it |
| ChainVerifier.VerifyChain | backend/jol_commerce/audit/chain_verifier.py:47-86 | intact exactly when every link and the head check hold; else the first broken index, with that many entries verified |
| ChainVerifier.FirstBreak | backend/jol_commerce/audit/chain_verifier.py:64-74 | the reported index is broken and every link before it holds |
| ChainVerifier.EntriesAreDistinct | backend/jol_commerce/audit/chain_verifier.py:64-74 | no entry occurs twice in an intact chain |
| ChainVerifier.OnlyPrefixesVerify | backend/jol_commerce/audit/chain_verifier.py:64-74 | of all sequences of entries of a log, with any order or repetition, exactly its prefixes verify |
| ChainVerifier.CheckpointPinsHistory | backend/jol_commerce/audit/chain_verifier.py:64-86 | exactly the log itself and the empty sequence verify against the log's head hash |
| ChainVerifier.SameHeadSameChain | backend/jol_commerce/audit/chain_verifier.py:64-86 | two non-empty chains with the same head hash are equal entry for entry |
| ChainVerifier.ReplacementIsReported | backend/jol_commerce/audit/chain_verifier.py:64-86 | a replaced entry shows at its own index when its link differs, at the next when its hash differs, else nowhere |
| ChainVerifier.DeletionIsReported | backend/jol_commerce/audit/chain_verifier.py:64-86 | a deleted entry shows at its own index, and passes only if it was the last |
| Ledger.CommissionLedger.Append | backend/jol_commerce/commissions/commission_ledger.py:47-50 | the ledger only grows, by the one entry |
| Ledger.CommissionLedger.DailyReconciliationBalance | backend/jol_commerce/commissions/commission_ledger.py:65-72 | the three column totals of the tenant, or of all entries when no tenant or "" is given |
| Ledger.TotalsBalance | backend/jol_commerce/commissions/commission_ledger.py:31-72 | fee plus settlement equals gross, overall and per tenant |
| Ledger.TenantsReconcile | backend/jol_commerce/commissions/commission_ledger.py:52-72 | the totals of all distinct tenants add up to the overall totals, up to entries without a tenant |
| OrderWorld.StepKeepsValid | backend/jol_commerce/orders/order_service.py:61-174 | every request, failed ones included, keeps the process well-formed and every order under its id |
| OrderRuns.StepKeepsSound | backend/jol_commerce/orders/order_service.py:61-212 | every request, failed ones included, keeps settlement, refund, snapshot and history of every order consistent |
| OrderRuns.SettledXorRefunded | backend/jol_commerce/orders/order_service.py:78-123 | in every reachable state a snapshot goes with exactly one settlement and a completed order, a refund call with a cancelled one and at most once, and no order has both |
| OrderRuns.HistoriesAreBounded | backend/jol_commerce/orders/order_lifecycle.py:123-161 | in every reachable state a history leads from DRAFT to the status in at most five transitions |
| OrderRuns.UnsettledExactlyWhenInterrupted | backend/jol_commerce/orders/order_service.py:82-97 | an order is completed without a settlement if and only if some completion of it had its save refused, a negative total or a bad rate |
| OrderRuns.NegativeTotalStaysUnsettled | backend/jol_commerce/orders/order_service.py:82-97 | a run that ends so, for any new order with a negative total |
| OrderRequests.ReversedOrdersStayCovered | backend/jol_commerce/orders/order_service.py:125-174 | in every reachable state, while the fractions of the accepted reversal requests of an order add up to at most one, net gross and fee are non-negative and the tenant is overdrawn by at most a cent a reversal |
| OrderRequests.FractionsAreRequested | backend/jol_commerce/orders/order_service.py:125-174 | the fractions by which the ledger reverses an order are those of its accepted reversal requests, in order |
| OrderRequests.ReverseDoes | backend/jol_commerce/orders/order_service.py:125-174 | a reversal is accepted exactly when the order has a snapshot and the fraction is a number above 0 and up to 1; it appends the negative of that share of the settled gross and fee under the order's tenant, id, currency and rate, and audits it; otherwise nothing changes |
| OrderRequests.CancelDoes | backend/jol_commerce/orders/order_service.py:106-123 | an accepted cancellation calls the callback, if there is one, once for its order; it raises exactly when the callback does, and otherwise audits the reference that it answered |
| OrderRequests.RefundedExactlyWhenAsked | backend/jol_commerce/orders/order_service.py:106-123 | over any run the callback was called for an order once if and only if some cancellation of it was accepted while there was a callback, and else never |
| OrderRequests.CompletionDoes | backend/jol_commerce/orders/order_service.py:176-212 | a completion charges the total at the rate in context (the platform's without one): snapshot, ledger entry under the order's tenant, id and currency, and audit entry all carry it; one that cannot be charged raises the engine's error after the order has moved |
| OrderRequests.SettlementsCarryTheirRate | backend/jol_commerce/orders/order_service.py:176-212 | every settlement in a reachable ledger is that of an accepted completion, under the order's tenant, id, currency and total, at the rate of its context |
| OrderRequests.CompletionsAreSettled | backend/jol_commerce/orders/order_service.py:78-98 | and every accepted completion that can be charged has its settlement there |
| OrderRequests.SnapshotsArePosted | backend/jol_commerce/orders/order_service.py:176-212 | a snapshot says what the order's settlement in the ledger says |
| OrderRequests.TransitionDoes | backend/jol_commerce/orders/order_service.py:78-98 | a forbidden change does nothing; any other sets status, time stamp and history of its order alone; an accepted one is stored and audited, a refused one raises without being stored |
| OrderRequests.ChangedSinceTransition | backend/jol_commerce/orders/order_repository.py:62-78 | after an accepted transition the tenant finds the order among those changed since a time if and only if that time is before the transition's |
| OrderRequests.RegisterDoes | backend/jol_commerce/orders/order_service.py:61-76 | registration stamps tenant and branch only where they are empty, and then stores and audits the order unless the save is refused |
| OrderRuns.ReachableLedgersBalance | backend/jol_commerce/commissions/commission_ledger.py:52-72 | in every reachable ledger fee and settlement add up to gross, overall and per tenant |
| OrderRuns.TotalsAreNetPositions | backend/jol_commerce/commissions/commission_ledger.py:52-72 | the reconciliation totals are the net positions of all orders added up |
| OrderAudit.AuditReplaysHistory | backend/jol_commerce/orders/order_service.py:82-94 | the audit trail of an order id merges the transitions of its orders in the order they were made, but for refused saves; while no other order with the id moves, replaying it gives the order's history if and only if no save during a transition was refused, and each refused save leaves out one |
| OrderAudit.UniqueIdHasNoOthers | backend/jol_commerce/orders/order_service.py:82-94 | no other order moves under an id that only one order has |
| OrderAudit.TrailLinksUp | backend/jol_commerce/orders/order_service.py:82-94 | a complete trail leads from DRAFT to the current status along allowed edges |
| OrderTenancy.ScanSelectsVisible | backend/jol_commerce/orders/order_repository.py:39-60 | a list query selects from the tenant's own orders only |
| OrderTenancy.FindsExactly | backend/jol_commerce/orders/order_repository.py:39-78 | a list query finds exactly the tenant's stored orders of that customer, in that status, or changed after that time; without a tenant context it raises |
| OrderTenancy.ScanKeepsOrder | backend/jol_commerce/orders/order_repository.py:39-60 | the answers stand in insertion order, one for each matching slot |
| OrderTenancy.SaveStores | backend/jol_commerce/orders/order_repository.py:26-29 | a saved order is what its id names; every other id names what it did before, and stored orders keep their places |
| OrderTenancy.FindByIdIs | backend/jol_commerce/orders/order_repository.py:31-37 | a lookup answers the order that the id names to its own tenant, to requests without a tenant, and for orders without one |
| OrderTenancy.SaveInterferesExactly | backend/jol_commerce/orders/order_repository.py:26-29 | another tenant's save leaves a tenant's orders alone if and only if it does not reuse one of their ids |
| OrderTenancy.TransitionInterferesExactly | backend/jol_commerce/orders/order_service.py:78-98 | another tenant's transition leaves a tenant's orders alone if and only if it neither targets one of them nor reuses an id; in the first case it fails after the change |
| OrderTenancy.RefusedTransitionShows | backend/jol_commerce/orders/order_service.py:78-98 | a run after which a registered draft is no longer found among its tenant's drafts, after another tenant's refused request |
| OrderTenancy.TenantsDoNotInterfere | backend/jol_commerce/orders/order_repository.py:39-78 | any number of other tenants' requests on their own orders leave a tenant's list queries unchanged |
| OrderTenancy.OwnIdsStillFound | backend/jol_commerce/orders/order_repository.py:31-37 | and leave every lookup by one of its own ids unchanged |
| OrderInterleaving.InterleavingIsInvisible | backend/jol_commerce/orders/order_repository.py:39-78 | any interleaving of requests on a tenant's orders with requests on others' orders answers its list queries as the run without the latter, as long as no id is reused across tenants and no one else binds orders to it |
| OrderInterleaving.OwnIdsFindTheSame | backend/jol_commerce/orders/order_repository.py:31-37 | and every lookup by an id that no order of others has |
| OrderInterleaving.OwnRequestAnswersTheSame | backend/jol_commerce/orders/order_service.py:61-174 | and any request on one of its orders that follows: the same error, the same order with its history, the same ledger entries, audit entries and refund calls |
| OrderInterleaving.ApartNeverEvicts | backend/jol_commerce/orders/order_repository.py:26-29 | ids that are not reused across tenants evict nothing |
| OrderService.Service.Register | backend/jol_commerce/orders/order_service.py:61-76 | the objects end in the state of the step function, errors included |
| OrderService.Service.Transition | backend/jol_commerce/orders/order_service.py:78-98 | transition, save, audit and settlement end in the state of the step function wherever they stop, and return the change |
| OrderService.Service.SettleCommission | backend/jol_commerce/orders/order_service.py:176-212 | snapshot, ledger entry and audit entry as in the step function |
| OrderService.Service.Complete | backend/jol_commerce/orders/order_service.py:100-104 | completion is the transition to COMPLETED, with the change it returns and the errors it raises |
| OrderService.Service.Cancel | backend/jol_commerce/orders/order_service.py:106-123 | transition, refund call and audit entry as in the step function, whatever the callback does; the returned change is the one to CANCELLED |
| OrderService.Service.RecordCommissionReversal | backend/jol_commerce/orders/order_service.py:125-174 | exactly the returned entry is appended, as in the step function; an error appends none |
| OrderService.Service.Bind | backend/jol_commerce/orders/order_service.py:214-223 | only an order without a tenant is bound, and its branch only if it has none |
| OrderService.Service.FindOrders | backend/jol_commerce/orders/order_repository.py:39-60 | the list queries on objects answer as those on the modelled state |
| OrderService.Service.FindOrderById | backend/jol_commerce/orders/order_repository.py:31-37 | so does the lookup by id |
| Provisioning.ScriptTrace | backend/jol_commerce/db/provisioning/schema_provisioner.py:185-198 | an operation executes exactly the statements of its performed part, in order, under its own schema |
| Provisioning.ScriptMarks | backend/jol_commerce/db/provisioning/schema_provisioner.py:185-198 | it changes only its own schema's list, as its performed part says, and stops only at a statement or a refusal |
| Provisioning.StatementsOfParts | backend/jol_commerce/db/provisioning/schema_provisioner.py:207-209 | a text of two parts joined by a semicolon yields the statements of the first and then those of the second |
| Provisioning.OneStatementAtMost | backend/jol_commerce/db/provisioning/schema_provisioner.py:207-209 | a text without semicolons yields nothing when it is blank, and otherwise the text without the blanks around it |
| Provisioning.SafeNamesExactly | backend/jol_commerce/db/provisioning/schema_provisioner.py:201-205 | the accepted schema names are tenant_ and 32 lower-case hexadecimal digits, and no others |
| Provisioning.ByIdExactly | backend/jol_commerce/db/provisioning/schema_provisioner.py:154-158 | an id names the last revision that has it |
| Migrations.CreationExecutes | backend/jol_commerce/db/provisioning/schema_provisioner.py:106-116 | the creation of a schema executes CREATE SCHEMA and then the template's statements in order, up to the first that fails, and records the template exactly when all ran; an unsafe name or an empty template is refused and does nothing |
| Migrations.PendingExactly | backend/jol_commerce/db/provisioning/schema_provisioner.py:181-183 | pending are exactly the revisions that the list does not name, in their order |
| Migrations.MigrateAllStops | backend/jol_commerce/db/provisioning/schema_provisioner.py:118-138 | whether a run returns or raises: the schemas before the stop are fully migrated, the one at the stop was refused or interrupted, all others untouched |
| Migrations.MigrateAllCompletes | backend/jol_commerce/db/provisioning/schema_provisioner.py:118-138 | after a completed run each named schema has the trace and list of being migrated alone, nothing is pending, and a second run executes nothing and returns 0 |
| Migrations.MigrateAllCounts | backend/jol_commerce/db/provisioning/schema_provisioner.py:125-138 | the returned count is the number of revisions that were pending, each schema counted once however often it is named |
| Migrations.MigrateAllCompletesExactly | backend/jol_commerce/db/provisioning/schema_provisioner.py:118-138 | with an executor that never fails a run completes if and only if all schema names are safe |
| Migrations.FullHasNothingPending | backend/jol_commerce/db/provisioning/schema_provisioner.py:181-183 | recording what is pending leaves nothing pending |
| Migrations.UpStopsInside | backend/jol_commerce/db/provisioning/schema_provisioner.py:133-137 | an interrupted migration stops inside one revision's statements or at its row, with exactly the revisions before in the list |
| Migrations.FailureKeepsAPrefix | backend/jol_commerce/db/provisioning/schema_provisioner.py:133-198 | after a failure the schema's list is the old one and a prefix of what was pending, all statements of which ran |
| Migrations.RecordedIsNeverInserted | backend/jol_commerce/db/provisioning/schema_provisioner.py:181-192 | one migration of a schema inserts no row for a revision in its list |
| Bookkeeping.ListAgainstTable | backend/jol_commerce/db/provisioning/schema_provisioner.py:118-198 | whatever a run does, to any schema: the ids added to its list are exactly those whose rows are added to its table (the template has no row) if and only if the run was not stopped at the insertion of one of its rows; then the list has that one id more |
| Bookkeeping.RowsAreReplayed | backend/jol_commerce/db/provisioning/schema_provisioner.py:166-192 | the table that these rows speak of is the one of the database replayed in the round trip, whatever its other statements do |
| Bookkeeping.TableFollowsExactly | backend/jol_commerce/db/provisioning/schema_provisioner.py:133-198 | after a failed run the schema at the stop has the first m pending revisions in its list, and their rows in its table if and only if the stop was not at the last of these rows |
| Bookkeeping.FailedRowIsMissing | backend/jol_commerce/db/provisioning/schema_provisioner.py:185-192 | a run stopped at a row leaves an id in the list whose row the table lacks, if and only if the id was not pending twice |
| Bookkeeping.MissingForGood | backend/jol_commerce/db/provisioning/schema_provisioner.py:118-192 | such a row stays missing through any number of later runs, with any executors, revisions and schemas |
| Bookkeeping.RowCanBeLost | backend/jol_commerce/db/provisioning/schema_provisioner.py:118-198 | it happens to any revision on any schema with one failing statement |
| Bookkeeping.RollbackTakesBoth | backend/jol_commerce/db/provisioning/schema_provisioner.py:140-175 | a rollback, complete, failed or refused on the way, takes the same revisions out of the list and out of the table, and leaves other tables alone |
| Rollback.ToUndoIsNewest | backend/jol_commerce/db/provisioning/schema_provisioner.py:155-155 | in an ascending list the revisions after the target are the newest ones, taken newest first |
| Rollback.DowngradeRollsBack | backend/jol_commerce/db/provisioning/schema_provisioner.py:140-175 | complete, failed or refused, on any list: the first of the revisions to undo are out of the list, each undone completely, newest first, and no other schema is touched; when it returns, the list is the old one up to the target, and otherwise it stopped inside the undoing of the next |
| Rollback.AscendingRollsBack | backend/jol_commerce/db/provisioning/schema_provisioner.py:140-175 | on an ascending list what is left is a prefix |
| Rollback.LateRevisionComesLast | backend/jol_commerce/db/provisioning/schema_provisioner.py:125-181 | a revision added late comes last in the list, and a rollback to it leaves no prefix |
| Rollback.DowngradeRefuses | backend/jol_commerce/db/provisioning/schema_provisioner.py:147-152 | a rollback is refused, and does nothing, exactly for an unsafe name or a target other than "" that is not applied |
| Text.LessExactly | backend/jol_commerce/db/provisioning/schema_provisioner.py:155-155 | one id comes after another as Python orders strings: by the first differing character, a proper prefix first |
| Rollback.DowngradeCompletesExactly | backend/jol_commerce/db/provisioning/schema_provisioner.py:155-175 | with an executor that never fails a rollback returns if and only if every revision after the target has a down artifact |
| Rollback.TemplateBlocksEmptyTarget | backend/jol_commerce/db/provisioning/schema_provisioner.py:155-163 | rolling back to "" undoes everything but the template and then raises |
| RoundTrip.MigrateReachesLatest | backend/jol_commerce/db/provisioning/schema_provisioner.py:118-138 | a completed migration brings list, data and table right after the last revision |
| RoundTrip.DowngradeReachesTarget | backend/jol_commerce/db/provisioning/schema_provisioner.py:140-175 | a rollback that returns restores list, data and table as right after the target |
| RoundTrip.MigrationsRoundTrip | backend/jol_commerce/db/provisioning/schema_provisioner.py:118-175 | when each down artifact undoes its up artifact on the data where it is applied: migrate, roll back to any applied revision, migrate again: latest, target, latest |
| RoundTrip.FaultlessRoundTrip | backend/jol_commerce/db/provisioning/schema_provisioner.py:118-175 | with safe names, down artifacts and an executor that does not fail, all three calls return and visit those states |
| RoundTrip.CreateAndDropQualifies | backend/jol_commerce/db/provisioning/schema_provisioner.py:52-59 | a revision that creates a table and drops it again meets the hypothesis of the round trip, though its down artifact does not undo its up artifact on every database |
| Provisioner.SchemaProvisioner.CreateTenantSchema | backend/jol_commerce/db/provisioning/schema_provisioner.py:106-116 | the object performs the creation script up to the first failure |
| Provisioner.SchemaProvisioner.MigrateAll | backend/jol_commerce/db/provisioning/schema_provisioner.py:118-138 | the nested loops end in the state and result of the modelled run |
| Provisioner.SchemaProvisioner.Downgrade | backend/jol_commerce/db/provisioning/schema_provisioner.py:140-175 | the loop ends in the state and result of the modelled rollback |
| Provisioner.SchemaProvisioner.Record | backend/jol_commerce/db/provisioning/schema_provisioner.py:185-192 | the list grows even when the insert fails; the template has no row |
| WebhookDedup.WebhookEventStore.New | backend/jol_commerce/payments/webhook_dedup.py:34-42 | a store is made exactly for retentions of at least 24 hours |
| WebhookDedup.WebhookEventStore.ClaimEvent | backend/jol_commerce/payments/webhook_dedup.py:44-57 | purge, check and insert as in the modelled claim |
| WebhookDedup.WebhookEventStore.PurgeExpired | backend/jol_commerce/payments/webhook_dedup.py:62-71 | exactly the claims before the cutoff are dropped, and counted |
| WebhookDedup.StoreIsHistory | backend/jol_commerce/payments/webhook_dedup.py:44-71 | the dictionary holds an event exactly when some granted claim of it survived every cutoff since |
| WebhookDedup.ClaimGrantedExactly | backend/jol_commerce/payments/webhook_dedup.py:44-71 | whatever the clock does, a claim is granted if and only if its id is not empty and every earlier granted claim of it expired at some call since |
| WebhookDedup.DedupRefinesHistory | backend/jol_commerce/payments/webhook_dedup.py:44-71 | with a clock that never goes back, if and only if no earlier granted claim lies within the retention |
| WebhookHandler.StripeWebhookHandler.HandleEvent | backend/jol_commerce/payments/webhook_handler.py:106-161 | claim, audit entry and dispatch end in the modelled state, with the receipt of the last entry rewritten |
| WebhookHandler.StripeWebhookHandler.Dispatch | backend/jol_commerce/payments/webhook_handler.py:163-191 | the handlers change the logged receipt but not the hash that the log remembers |
| WebhookHandler.ProcessedOncePerWindow | backend/jol_commerce/payments/webhook_handler.py:121-161 | a delivery is processed if and only if its id is not empty and no earlier processed delivery of it lies within the retention |
| WebhookDedup.RefusedUntilRetention | backend/jol_commerce/payments/webhook_dedup.py:44-71 | after a granted claim with none granted since, a claim is refused exactly until the retention has passed |
| WebhookHandler.RaisedEventIsAcknowledged | backend/jol_commerce/payments/webhook_handler.py:121-152 | an event whose handling raised after its claim is answered as a duplicate exactly until the retention has passed |
| WebhookHandler.OneEntryPerCall | backend/jol_commerce/payments/webhook_handler.py:121-152 | every call appends exactly one entry that says what came and how it was answered, and later calls leave it alone |
| WebhookHandler.AnsweredAndRecorded | backend/jol_commerce/payments/webhook_handler.py:121-191 | a duplicate is acknowledged and audited as one; any other delivery is answered with its receipt and the action of its event type (or as ignored), and audited under its payment intent or else its id |
| WebhookHandler.TrailVerifiesExactly | backend/jol_commerce/payments/webhook_handler.py:139-191 | the handler's own trail verifies if and only if no delivery but the last was dispatched |
| WebhookHandler.SecondDeliveryBreaksTrail | backend/jol_commerce/payments/webhook_handler.py:139-191 | two deliveries, the first dispatched: the trail breaks at the second |
| WebhookHandler.FirstDispatchIsReported | backend/jol_commerce/payments/webhook_handler.py:139-191 | the verifier points at the entry after the first dispatched one |
| Notifications.NotificationQueue.EnqueueNotification | backend/jol_commerce/notifications/notification_service.py:57-74 | the matrix and then the payload rule are checked; a refusal queues nothing |
| Notifications.NotificationQueue.Deliver | backend/jol_commerce/notifications/notification_service.py:76-79 | the first pending notification with the id moves to delivered, or the call raises and changes nothing |
| Notifications.NotificationQueue.Fail | backend/jol_commerce/notifications/notification_service.py:81-103 | it is retried at the end of the queue or moved to the dead letter |
| Notifications.NotificationQueue.PopPending | backend/jol_commerce/notifications/notification_service.py:109-113 | the search removes the first match and nothing else |
| Notifications.QueueConserves | backend/jol_commerce/notifications/notification_service.py:57-113 | whatever is accepted is pending, delivered or dead, unaltered but for its attempt count, and nothing else is |
| Notifications.ListsPartitionAccepted | backend/jol_commerce/notifications/notification_service.py:57-113 | with distinct ids each accepted id is in exactly one list, once |
| Notifications.QueueStaysInOrder | backend/jol_commerce/notifications/notification_service.py:57-103 | pending and delivered attempts stay below 3, dead ones are 3, and all keep the channel matrix and payload rule |
| Notifications.AttemptsCountFailures | backend/jol_commerce/notifications/notification_service.py:81-103 | an attempt count is the number of failures recorded for that id |
| Notifications.DeadAfterThreeFailures | backend/jol_commerce/notifications/notification_service.py:81-103 | a notification is dead after exactly three failures and not before |
| Notifications.ListOfId | backend/jol_commerce/notifications/notification_service.py:76-103 | an accepted id is delivered exactly when a delivery of it was recorded, dead exactly after three failures, and otherwise pending |
| Notifications.RetriedGoesLast | backend/jol_commerce/notifications/notification_service.py:81-113 | a failure takes the first pending notification with the id out of its place and, with attempts left, puts it at the end with one attempt more |
| Notifications.RecordedExactly | backend/jol_commerce/notifications/notification_service.py:76-113 | a delivery or failure is recorded exactly when the id is pending; otherwise the call raises and changes nothing |
| Notifications.AcceptedExactly | backend/jol_commerce/notifications/notification_service.py:57-74 | a notification is queued, at the end, exactly when its channel is allowed for its classification and confidential or restricted content has a payload |
| Notifications.OnlyAdmissible | backend/jol_commerce/notifications/notification_service.py:57-103 | no run ever holds any other notification |
| Notifications.MovesSpend | backend/jol_commerce/notifications/notification_service.py:76-103 | every delivery or failure strictly decreases the attempts left over |
| Notifications.MovesAreBounded | backend/jol_commerce/notifications/notification_service.py:57-103 | n accepted notifications admit at most 3n deliveries and failures |

## Left out

- Order fields that no modelled branch reads: items, country, service type, external id, creation time.
- The fulfilment service, which moves orders without auditing them.
- Tenant objects beyond id, branch and commission rate; the schema name is given as text and only its shape is checked.
- Decimal strings other than finite numbers and malformed text: NaN and infinities count as malformed.
- Vat.FromNetIsExact: whole cents in the range of `Vat.NetRoundTrip`; the VAT on net amounts with fractions of a cent is in `Vat.VatOnExactly`, their gross amounts are not modelled.
- Vat.NetRoundTrip: stated for amounts n with 15 * n * (1 + rate), counted in the rate's last decimal of a cent, below 10^28; beyond that the products need more than 28 digits, and `Vat.VatOnExactly` and `Vat.FromGrossExactly` say when each half of the trip is still exact.
- Vat.FromGrossIsExact: the same range; `Vat.FromGrossExactly` covers every amount.
- Vat.GrossRoundTrip: the same range.
- Invoices.LineVatIs: lines of whole cents in that range; so are `Invoices.LineRateIsInForce` and `Invoices.TotalsAddUp`.
- Invoices.TotalVatError: such lines, with sums below 10^28 cents, since beyond that the partial sums are rounded.
- Commission.OverReversalExactly: amounts up to 10^28 cents, the largest that 28 digits hold.
- Commission.CommonRateFees: single amounts up to 10^28 cents.
- Commission.PartialReversalsStayWithin: amounts below a fifth of 10^28 cents, where the context's relative error stays below one cent; so is `OrderRequests.ReversedOrdersStayCovered`.
- A raising audit log is modelled only right after a granted claim of the webhook handler.
- The text of a VAT rate, invoice numbering and dates, and upper-casing of country codes.
- The concrete rate table: the lookup is proved for any newest-first table.
- Audit entries' entity type, address and user agent, the `get_entries` filters, and the JSON form that is hashed.
- SHA-256 itself (section 6.2 of FIPS 180-4): any digest that is never empty.
- SQL: statements are opaque texts, and `_statements` is modelled for ASCII blanks only.
- Loading applied revisions from a database and artifacts from a directory.
- RoundTrip.DowngradeReachesTarget: the executor either executes a statement or raises without effect; a statement with a partial effect is not modelled.
- Webhook signature and freshness checks, and the event body beyond id, type, payment intent and creation time.
- `is_processed` and `size` of the deduplication store, `task_payload` and the counters of the queue: one-line reads.
- The web application, its routes, settings and middleware, the Stripe client, and command-line tools.
