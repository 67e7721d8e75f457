# Verified model of a USDC treasury backend

A Dafny model of the money-moving core of the treasury API, with proofs over whole runs. Each module
follows one component of the repository; the classes keep the rows and maps the services update, and each
method is tied to a specification function whose properties are proved as lemmas.

- `Ledger`, `HashChain`, `ChainLinks`, `Totals`: the append-only double-entry log as a state machine of concurrent posting
  transactions (begin and read the previous hash, then commit or roll back) and expiry-sweep inserts; the hash
  links and which row each goes to; and the two independent ledger totals, one over balance snapshots and one over
  entries by type.
- `LedgerService`, `ReconciliationService`: `postEntry`, the two reconcilers, and the reservation sweep.
- `TreasuryFlows`, `TreasuryMoney`, `FarSides`, `OrderReservations`, `TreasuryService`, `ConcurrentReserves`: reserve, quote,
  order, finalize and chain events over one idempotency cache, sweeps and reconciliations between them, what runs of them
  do to balances on both sides and to the two totals, such runs as runs of the ledger machine, the reservation behind each
  order, and reservations that run concurrently.
- `WalletTables`, `WalletInvariants`, `WalletRuns`, `WalletRows`, `WalletCollisions`, `WalletIdentityService`: wallet registration
  over four tables, what it leaves in them, and the account ids it derives.
- `CanonicalJson`, `Idempotency`, `Recipients`: the request hash, the idempotency record machine, and the
  default recipient of the API server, each request alone and interleaved.
- `Webhook`: at-least-once provider deliveries driving a ranked order status.
- `Remittance`, `BoardModel`: the integer fee and spread, the real-valued pricing it agrees with, and the ramp
  and steady-state loops.
- `UsdcText`, `Trend`: amounts typed as text, and the seven-day trend with its sparkline.
- `Prelude`: options, results, table lookups and text tests.

`dafny verify dfyconfig.toml` checks everything.

## Assumptions

- SHA-256 over a serialised record is an injective function of the record. A posted entry's record is its id,
  type, accounts, amount, currency, reference, previous hash and timestamp, not its metadata. A sweep row's record is
  a random value.
- `localeCompare` is a strict total order on keys. The canonical form enumerates keys in one fixed order.
- JavaScript numbers that are not integers in the source are reals; amounts are unbounded integers.
- Row identifiers, clock readings, chain calls, screening, FX sources, payouts and database failures are parameters.
- Tables are in insertion order, which is `created_at` order up to ties; ties in the previous-hash query are left open.
- The ledger tables start with the seeded snapshots of `apps/api/db/migrations/001_master_schema.sql:371-384`.

## Where the code differs from what is written about it

- The two ledger totals agree exactly as long as every settlement that posts has a plain reference: one that is not
  `available`, `reserved` or `invested` and does not end in a colon and one of these words. `/finalize` takes the
  reference from its body. Treasury account ids start with `pta-` and deposits carry an address, so of the account ids that
  would matter, `revenue`, `system` and those starting with `revenue:` or `system:`, none is made by the code
  (`Totals.AgreeIffSettledPlainly`, `TreasuryMoney.ServiceTotalsAgreeIff`, `Totals.MadeIdsAreClean`; for any ids at all,
  `Totals.AgreeThroughoutIffClean`).
- `withTransaction` around a provider delivery does not cover its queries, which run on the pool
  (apps/api/src/webhooks/zerohash.webhook.ts:375-390), so every statement is a step of its own here.
- COMPLIANCE_HOLD cannot be entered from SETTLED or FAILED (apps/api/src/webhooks/zerohash.webhook.ts:203-216),
  whatever line 19 says (`Webhook.HoldsEnterUnlessDecided`).
- Finalizing charges both fees on top of the settled amount, so the reserved balance ends below where it started
  (`TreasuryMoney.FinalizationOverdrawsByFees`).
- With the chain call, the database and fresh row ids in order, a finalization settles exactly if the order's amount and both
  fees are positive (`TreasuryService.TreasuryService.FinalizeOrder`). Orders store a partner fee of zero, and the route defaults
  both fees to zero (apps/api/src/server.ts:707-708), so an order finalized with its own stored fee never settles
  (`TreasuryMoney.NeverSettlesOnStoredFee`); retrying such a finalization pays settlement and platform fee again
  each time (`TreasuryMoney.RetriedFinalizationRun`).
- An order row refers to a row of `remittance_quotes` (apps/api/db/migrations/001_master_schema.sql:156), which no service code
  writes, so against that schema `createOrder` fails at its last statement, the payout made. Whether the quote row exists is a
  parameter of `TreasuryService.TreasuryService.CreateOrder`.
- An order under a key that has already reserved for another quote or account is stored, and paid out, against that reservation
  (`OrderReservations.OrderIsBacked` gives the exact condition, `OrderReservations.ReusedKeyUnderReserves` a run).
- Two `reserveFunds` calls under one key can both post, since the cache is read before and written after everything the call
  awaits (`ConcurrentReserves.PostsTwiceIffOverlap` gives the exact condition, `ConcurrentReserves.TwoCallsPostTwice` a run).
- `canonicalize` drops a `__proto__` key, because assigning it sets the prototype (`CanonicalJson.PROTO_KEY`).
- A quote overwrites a cached reservation whose key equals the quote's own id
  (`TreasuryFlows.RepeatsReturnTheCachedAnswer` gives the exact condition, `TreasuryFlows.QuoteOverwritesReservation` a run).
- A derived account id that already names another user's account takes it over, and can strand that user's wallets
  (`WalletInvariants.RegisterKeepsInvIff` gives the exact condition, `WalletCollisions.CollisionReached` a run).
- Between lookup and claim other requests on the key may run, and a handler may outlive its lock. So two handlers of one key run
  at once exactly if an admitted claim finds one running (`Idempotency.OneInFlightIffClaimsFree`), which first happens by one of
  these two causes (`Idempotency.FirstOverlap`); and a stored answer is replayed exactly until a claim of its key is admitted or a
  handler of its key finishes with another answer (`Idempotency.StoredAnswerStaysIff`).
- Between reading and writing an order another delivery may write it. An order's status is the outcome of what was applied to it
  exactly if every write is harmless: between its read and itself the order did not enter a terminal status other than the one it
  brings (`Webhook.StatusIsOutcomeIffHarmless`; `Webhook.HarmfulWriteUndoesSettlement` is a run that breaks it).
- Two interleaved requests can each unset all defaults and then set one; the unique index refuses the second
  (`Recipients.RefusedIffOvertaken`).
- Postings on an account form one chain if made one after the other (`ChainLinks.OneChainPerAccount`), but two whose reads no
  committed row of the account separates fork it (`ChainLinks.PostsForkIffNothingBetween` gives the exact condition,
  `HashChain.ConcurrentPostsFork` a run).
- The hashes do not cover everything. A posting's hash covers all but its metadata; that of a sweep's RELEASE row covers
  only what is the same in all such rows, neither amount nor reference, id or link (`HashChain.WhatHashesCover`). The sweep's INSERT
  also names no id while migration 001 gives the column no default (apps/api/db/migrations/001_master_schema.sql:96-97),
  so it may fail; here each of its inserts may go through or not.
- When clocks go forward two local days can share a UTC date, and the trend then counts that date twice
  (`Trend.RepeatedDayMissesCurrentTotal`).

## Model

| member | source | states |
|---|---|---|
| Ledger.SnapshotsMirrorEntries | apps/api/src/ledger/ledger.service.ts:109-208 | Under any interleaving of concurrent postings, commits, rollbacks and sweep inserts, every snapshot is its account's committed credits minus debits, and all snapshots sum to zero. |
| Ledger.ReachableConserved | apps/api/src/ledger/ledger.service.ts:456-470 | For any weighting of accounts, the snapshots weigh exactly what the committed posted entries moved, in every reachable state. |
| Ledger.PostMoves | apps/api/src/ledger/ledger.service.ts:169-171 | One posting changes any weighted total by its amount times the difference of its two accounts' weights. |
| HashChain.ReachableLinked | apps/api/src/ledger/ledger.service.ts:125-151 | Even with forks, every committed row links to the zero string or to the hash of an earlier committed row, one touching its debit account if it is a posting; hashes and ids stay unique. |
| HashChain.History | apps/api/src/ledger/ledger.service.ts:129-151 | Following links from a row visits only earlier rows, so the walk terminates; its records are those of rows up to it. |
| HashChain.EqualHashesEqualHistories | apps/api/src/ledger/ledger.service.ts:138-151 | Rows with equal hashes in any two reachable logs have field-for-field equal chained histories. |
| HashChain.ConcurrentPostsFork | apps/api/src/ledger/ledger.service.ts:129-136 | Two posts that read the previous hash before either commits land with the same previous hash. |
| ChainLinks.OneChainPerAccount | apps/api/src/ledger/ledger.service.ts:125-171 | In any run whose postings are each committed before the next begins, stamped in commit order, every posting links to the last earlier row that debits or credits its debit account, or starts from the zero string, and no two postings of an account share a previous hash. |
| ChainLinks.PostsForkIffNothingBetween | apps/api/src/ledger/ledger.service.ts:125-136 | In any interleaving, of two postings debiting one account the second links where the first does exactly if no row of the account was committed between their begins. |
| ChainLinks.SameLinkIffNothingBetween | apps/api/src/ledger/ledger.service.ts:129-136 | Two reads of an account find the same hash exactly if no row of it was committed in between. |
| ChainLinks.NewestRowWins | apps/api/src/ledger/ledger.service.ts:129-134 | If one row of the account is newer than every other, its hash is what the query yields, whatever the order of the rows. |
| ChainLinks.NoRowNoLink | apps/api/src/ledger/ledger.service.ts:136 | Without a row of the account the query yields the zero string. |
| ChainLinks.ZeroHashIsZeros | apps/api/src/ledger/ledger.service.ts:136 | The zero string is sixty-four zeros. |
| ChainLinks.SweepReadsNewest | apps/api/src/reconciliation/reconciliation.service.ts:249-250 | A sweep row links to the newest row of the whole log, or to the zero string if there is none. |
| HashChain.WhatHashesCover | apps/api/src/reconciliation/reconciliation.service.ts:236-255 | For every row of every reachable log, exactly what its hash covers: type, accounts and currency always; amount, reference, id and previous hash if and only if it was posted; metadata if and only if it was swept, where they are fixed. |
| HashChain.RelabelRun | apps/api/src/ledger/ledger.service.ts:138-151 | Giving all postings of a run other metadata is again a run, step by step, with the same hashes and balances. |
| Totals.TotalsDifferByDrift | apps/api/src/reconciliation/reconciliation.service.ts:127-145 | Over any interleaving, snapshot total minus entry total is the sum of the drifts of the committed entries. |
| Totals.ReconcilersAgree | apps/api/src/reconciliation/reconciliation.service.ts:127-145 | In every state reachable by deposits, reservations, yield, settlements and fees in any combination, adjustments, failed posts and sweeps, clean flows keep the snapshot total equal to the entry total. |
| Totals.FlowDriftsIffUnclean | apps/api/src/ledger/ledger.service.ts:348-365 | A committed flow leaves the two totals equally far apart exactly if it is clean. |
| Totals.UncleanFlowSplitsTotals | apps/api/src/treasury/treasury.service.ts:555-583 | From any reachable state, committing a flow keeps the difference of the totals exactly if the flow is clean. |
| Totals.AgreeThroughoutIffClean | apps/api/src/ledger/ledger.service.ts:348-365 | A run of flows keeps the snapshot total equal to the entry total in every state it goes through exactly if every committed flow was clean. |
| Totals.UncleanReferences | apps/api/src/ledger/ledger.service.ts:353-360 | Exactly which settlement references make the settlement account count as user money. |
| Totals.UncleanAccountIds | apps/api/src/ledger/ledger.service.ts:353-360 | Exactly which account ids take an account's money out of the snapshot query. |
| Totals.UncleanFlowSplitsFreshLedger | apps/api/src/reconciliation/reconciliation.service.ts:127-145 | Every unclean flow of a positive amount, posted alone on a fresh ledger, leaves the totals different. |
| Totals.MadeIdsAreClean | apps/api/src/auth/wallet-identity.service.ts:42-45 | No account id starting with `pta-` or `0x` takes an account out of the snapshot query. |
| Totals.AgreeIffSettledPlainly | apps/api/src/reconciliation/reconciliation.service.ts:127-145 | With account ids the code makes, in every reachable state the snapshot total is at least the entry total, and equal exactly if every committed settlement has a plain reference. |
| Totals.MisreadReferenceSplits | apps/api/src/treasury/treasury.service.ts:555-564 | Settling any `pta-` account under any reference that is not plain, alone on a fresh ledger, puts the snapshot total above the entry total by the amount. |
| Totals.FlowWeights | apps/api/src/treasury/treasury.service.ts:326-334 | For every flow, which of its two accounts counts as user money, and on what condition. |
| LedgerService.LedgerService.PostEntry | apps/api/src/ledger/ledger.service.ts:109-208 | A posting that succeeds appends one linked, hashed row and moves both snapshots; one that fails changes nothing; a non-positive amount is the only amount rejected; without a conflict a working database accepts. |
| LedgerService.LedgerService.BeginPost | apps/api/src/ledger/ledger.service.ts:121-136 | The amount check and the previous-hash read, as the begin step of the ledger machine. |
| LedgerService.LedgerService.CommitPost | apps/api/src/ledger/ledger.service.ts:153-173 | The insert, both snapshot updates and the commit, as the commit step; it goes through exactly if id and hash are new. |
| LedgerService.LedgerService.RollbackPost | apps/api/src/ledger/ledger.service.ts:201-208 | Rolling back leaves log and snapshots alone. |
| LedgerService.LedgerService.UpdateBalanceSnapshot | apps/api/src/ledger/ledger.service.ts:456-470 | The snapshot upsert adds the delta to the old balance, or to zero. |
| LedgerService.LedgerService.PreviousHash | apps/api/src/ledger/ledger.service.ts:129-136 | A hash the query may yield for the account, which is that of its newest row if there is one (`ChainLinks.NewestRowWins`) and the zero string if not. |
| Ledger.PostIsARun | apps/api/src/ledger/ledger.service.ts:125-173 | A sequential posting is a two-step run of the concurrent machine. |
| LedgerService.FreshIdNoConflict | apps/api/src/ledger/ledger.service.ts:138-167 | On the log of any reachable ledger a fresh row id is all a posting needs to be inserted, since its hash is then new too. |
| LedgerService.ReachableHealthy | apps/api/src/ledger/ledger.service.ts:138-167 | Every reachable log holds distinct ids and the hashes of its own records. |
| LedgerService.ThreeSums | apps/api/src/ledger/ledger.service.ts:348-365 | The three suffix sums of the query split the user-side total: no account is counted twice or missed. |
| LedgerService.LedgerService.QueryTotals | apps/api/src/ledger/ledger.service.ts:348-360 | Each of the query's sums is the sum of its own suffix, and together they are the user-side snapshot total. |
| LedgerService.LedgerService.Reconcile | apps/api/src/ledger/ledger.service.ts:342-404 | A mismatch is a distance of a thousand or more that is not an empty ledger before a funded chain; its delta is the user-side snapshot total less the chain total; a working database moves exactly that distance from suspense to the delta reserve; user-side total and grand total stay; rerunning on the same chain total gives the same report. |
| LedgerService.LedgerService.BookDelta | apps/api/src/ledger/ledger.service.ts:386-398 | A mismatch is posted as one adjustment, never rejected for its amount, and on a working database with a fresh id it goes through. |
| LedgerService.AdjustmentInvisible | apps/api/src/ledger/ledger.service.ts:387-398 | An adjustment from suspense to the delta reserve moves no user money and no money in all. |
| LedgerService.AdjustmentMoves | apps/api/src/ledger/ledger.service.ts:388-398 | An adjustment raises `system:delta_reserve` and lowers `suspense:reconciliation` by its amount. |
| FarSides.ReserveHoldsMismatches | apps/api/src/ledger/ledger.service.ts:363-398 | Over any run of the service the delta reserve rises, and suspense falls, by the sum of the distances between user-side total and chain total that reconciliations booked. |
| LedgerService.LedgerService.InsertSweepRow | apps/api/src/reconciliation/reconciliation.service.ts:236-255 | A RELEASE row linking to the newest row of the log is appended as a sweep step, touching no snapshot, or refused exactly for a duplicate id or hash. |
| ReconciliationService.ReconciliationService.Reconcile | apps/api/src/reconciliation/reconciliation.service.ts:90-222 | The report's total is the entry total of the log; its delta is the distance to the chain total, or zero if that was not read; it matches up to 10,000, suspends from 10,000,000 and alerts in between; its exceptions are stuck reservations, all of them if fewer than ten. |
| ReconciliationService.EngineVerdict | apps/api/src/reconciliation/reconciliation.service.ts:147-163 | The delta as a distance, and the three ranges of the verdict, in numbers. |
| ReconciliationService.ReconciliationService.StuckReservations | apps/api/src/reconciliation/reconciliation.service.ts:166-186 | At most ten different active reservations over an hour past expiry, and all of them if fewer than ten are returned. |
| ReconciliationService.VerdictsCompared | apps/api/src/ledger/ledger.service.ts:363-376 | Given one ledger total, exactly when the two reconcilers' verdicts differ. |
| ReconciliationService.ReconciliationService.ExpireStuckReservations | apps/api/src/reconciliation/reconciliation.service.ts:226-259 | Exactly the due reservations become EXPIRED; with unused ids and hashes exactly those whose insert works and whose amount is positive get their one RELEASE row; both ledger totals stay; the ledger is where sweep inserts alone lead. |
| ReconciliationService.ReconciliationService.PostRelease | apps/api/src/reconciliation/reconciliation.service.ts:236-255 | One expired reservation adds its RELEASE row, of its own id and amount, exactly if the insert works, the amount is positive and row id and hash are unused. |
| ReconciliationService.SweepLeavesNothingDue | apps/api/src/reconciliation/reconciliation.service.ts:226-234 | After a sweep nothing is due or stuck at that time, and sweeping again changes nothing. |
| ReconciliationService.ExpiresExactly | apps/api/src/reconciliation/reconciliation.service.ts:166-234 | Exactly the active reservations past their expiry expire, nothing else about any changes, and exactly those an hour past it count as stuck. |
| TreasuryFlows.AtMostOneReservePerKey | apps/api/src/treasury/treasury.service.ts:278-345 | Over any sequential run with retries, a reservation key posts at most one RESERVE entry, and is cached once it has. |
| TreasuryFlows.RepeatsReturnTheCachedAnswer | apps/api/src/treasury/treasury.service.ts:278-353 | A cached reservation answers every repeat unchanged exactly as long as no quote built in between has the key as its own id. |
| TreasuryFlows.QuoteOverwritesReservation | apps/api/src/treasury/treasury.service.ts:428-430 | For any key, a run in which funds are reserved and posted under it, a quote is built whose id it is, and the retry is answered with the quote. |
| TreasuryFlows.AnswersAreCached | apps/api/src/treasury/treasury.service.ts:278-430 | An answer is cached under its key, a quote also under its id; nothing else in the cache changes, and a failed reservation or quote changes nothing. |
| OrderReservations.OrderIsBacked | apps/api/src/treasury/treasury.service.ts:453-470 | In any run, behind every stored order stands a RESERVE row posted under `res:` and the order's key, with the order's reservation id; it is of the order's account and amount exactly if what the key held before the order, if anything, was. |
| OrderReservations.DifferentKeysDifferentRows | apps/api/src/treasury/treasury.service.ts:457-463 | Two orders stored under different keys are backed by different RESERVE rows of the final log. |
| OrderReservations.OneRowPerOrderKey | apps/api/src/treasury/treasury.service.ts:457-463 | Over any run without direct reservations there are exactly as many new RESERVE rows as order keys whose reservation posted. |
| OrderReservations.ReusedKeyUnderReserves | apps/api/src/treasury/treasury.service.ts:453-470 | A run in which a key reserves for one quote, whose payout fails, and an order on a larger quote under the same key is stored against that reservation. |
| OrderReservations.DerivedKeys | apps/api/src/treasury/treasury.service.ts:462 | An order's reservation key is `res:` and its own key, so different order keys give different ones. |
| OrderReservations.OrderFigures | apps/api/src/treasury/treasury.service.ts:490-523 | A stored order carries its live quote's id and figures, no partner fee and the id of the reservation under its key, and its account exists. |
| ConcurrentReserves.UndisturbedRefusal | apps/api/src/treasury/treasury.service.ts:286-308 | A refusal that nothing comes between is the refusal of the sequential model, and is cached. |
| ConcurrentReserves.PostsTwiceIffOverlap | apps/api/src/treasury/treasury.service.ts:278-345 | In any interleaving of reservations, failures and restarts, a key posts two RESERVE rows exactly if a call entered while another of its key was on its way, or forgotten by a restart, and both posted. |
| ConcurrentReserves.RowsAreCalls | apps/api/src/treasury/treasury.service.ts:322-345 | In any interleaving the RESERVE rows are those of the calls that posted, one for each. |
| ConcurrentReserves.TwoCallsPostTwice | apps/api/src/treasury/treasury.service.ts:280-345 | Under any key, two calls that enter before either posts both post. |
| ConcurrentReserves.UndisturbedCall | apps/api/src/treasury/treasury.service.ts:278-345 | The steps of a call that nothing comes between are the call of the sequential model. |
| TreasuryMoney.ReservationsKeepUserMoney | apps/api/src/treasury/treasury.service.ts:326-334 | Reserving, quoting, ordering, sweeping and reconciling never change what an account holds in all, nor the user-side total. |
| TreasuryMoney.FinalizationOverdrawsByFees | apps/api/src/treasury/treasury.service.ts:555-583 | Reserving and then finalizing with any subset of the three postings, under any settlement reference: the exact change of both sub-accounts; with all three, reserved ends lower by the two fees, unless the settlement's account is itself one of the two. |
| TreasuryMoney.SubsetMoves | apps/api/src/treasury/treasury.service.ts:555-583 | Any subset of postings moves every account by exactly what went through. |
| TreasuryMoney.HeldOverRuns | apps/api/src/treasury/treasury.service.ts:534-628 | Over any run of reservations, quotes, orders, finalizations, chain events, sweeps and reconciliations, what an account holds changes by exactly its deposits less what its finalizations took, each retry again. |
| FarSides.FinalizationArrives | apps/api/src/treasury/treasury.service.ts:555-583 | Whichever of the three postings go through, under any reference: the platform fee arrives on `revenue:platform`, the partner fee on `revenue:partner`, and the settled amount on the account of its reference, unless that is the one it is taken from. |
| FarSides.ReceivedOverRuns | apps/api/src/treasury/treasury.service.ts:534-628 | Over any run, every account that is nobody's available or reserved sub-account changes by exactly what settlements under its reference, fees, deposits, yield and booked mismatches brought or took. |
| FarSides.NoSubAccountIff | apps/api/src/ledger/ledger.service.ts:78-90 | Those are all accounts but the ones ending in `:available` or `:reserved`. |
| FarSides.FinalizationWrites | apps/api/src/treasury/treasury.service.ts:555-583 | The rows of a finalization, in order: type, both accounts, amount, currency and reference of each that goes through. |
| FarSides.FinalizationSettles | apps/api/src/treasury/treasury.service.ts:534-588 | A finalization settles its order exactly if the order exists, the chain call succeeds and all three postings go through, and changes nothing else about any order. |
| FarSides.EventWrites | apps/api/src/treasury/treasury.service.ts:604-628 | The row a deposit or yield event writes. |
| FarSides.ReserveWrites | apps/api/src/treasury/treasury.service.ts:326-334 | The row a reservation writes. |
| TreasuryMoney.RetriedFinalizationPaysAgain | apps/api/src/treasury/treasury.service.ts:555-585 | From any healthy state with an order, any number of finalizations with a refused partner fee is a run, and takes settlement and platform fee that many times. |
| TreasuryMoney.RetriedFinalizationRun | apps/api/src/treasury/treasury.service.ts:534-585 | Such a run from a fresh service: a quote, an order, and any number of those finalizations. |
| TreasuryMoney.CanPostSubset | apps/api/src/treasury/treasury.service.ts:555-583 | On any healthy log every choice among the postings of positive amount can be the one that goes through. |
| TreasuryMoney.NeverSettlesOnStoredFee | apps/api/src/treasury/treasury.service.ts:499-523 | In any run, an order finalized with its own stored partner fee never settles. |
| TreasuryMoney.ServiceTotalsAgreeIff | apps/api/src/reconciliation/reconciliation.service.ts:127-145 | After any run of the service on accounts the code makes, sweeps and reconciliations included, the snapshot total exceeds the entry total by exactly the sums settled under references that are not plain; they are equal exactly if there were none. |
| TreasuryMoney.GapOverRuns | apps/api/src/treasury/treasury.service.ts:555-564 | The same from any state: what a run adds to the gap between the two totals. |
| TreasuryMoney.ServiceRunReconciles | apps/api/src/reconciliation/reconciliation.service.ts:127-145 | Every run of the service from a fresh ledger whose finalizations and chain events are clean, whatever the account ids, is a run of the ledger machine and leaves both totals equal. |
| TreasuryService.TreasuryService.ReserveFunds | apps/api/src/treasury/treasury.service.ts:278-353 | Cached answer, missing account, refusal, chain failure, rejected amount; with screening, chain and database in order, exactly a positive amount posts its one RESERVE row and caches its answer. |
| TreasuryService.TreasuryService.BuildQuote | apps/api/src/treasury/treasury.service.ts:361-431 | A quote carries the FX quote's figures, expires in five minutes, and is cached under its key and its own id. |
| TreasuryService.TreasuryService.CreateOrder | apps/api/src/treasury/treasury.service.ts:439-530 | An order reserves the quote's amount under a derived key of its own first (`OrderReservations.OrderIsBacked`); a failure after that keeps the reservation; without a payout or a stored quote there is no order; and exactly when, given both, there is one. |
| TreasuryService.TreasuryService.FinalizeOrder | apps/api/src/treasury/treasury.service.ts:534-588 | The three postings go through or not one by one, then the status; with chain, database and row ids in order, the order settles exactly if its amount and both fees are positive. Where the money arrives is `FarSides.FinalizationArrives`. |
| TreasuryService.TreasuryService.OnChainEvent | apps/api/src/treasury/treasury.service.ts:605-628 | A deposit or yield event posts its one row, or changes nothing; with the database in order it posts exactly for a positive amount. |
| WalletInvariants.RegisterKeepsInvIff | apps/api/src/auth/wallet-identity.service.ts:62-134 | A registration keeps accounts, wallets and identities agreeing on their user exactly if it does not take over a colliding account and strand its wallets. |
| WalletInvariants.UserMatchesIdentity | apps/api/src/auth/wallet-identity.service.ts:199-253 | The user found or made is the one the request's identity, if known, is linked to. |
| WalletInvariants.IdentityStep | apps/api/src/auth/wallet-identity.service.ts:255-286 | The identity upsert keeps every link and links its identity to the user. |
| WalletInvariants.AccountStep | apps/api/src/auth/wallet-identity.service.ts:288-335 | The account chosen is owned by the user; without a takeover the whole invariant holds. |
| WalletInvariants.UpsertStep | apps/api/src/auth/wallet-identity.service.ts:337-409 | A wallet upsert keeps keys unique and changes only the wallet of its provider, chain and address. |
| WalletRuns.OwnershipAgrees | apps/api/src/auth/wallet-identity.service.ts:62-134 | In every state reached by registrations and account creations that strand no wallet, ownership agrees and rows stay unique. |
| WalletRuns.LinksAreForever | apps/api/src/auth/wallet-identity.service.ts:255-286 | Identity-to-user links never change over any run, collisions or not. |
| WalletRuns.RegisteringTwiceIsRegisteringOnce | apps/api/src/auth/wallet-identity.service.ts:60-166 | Registering again with the same input returns the same user, identity, account, primary wallet and wallets, and leaves every modelled column of every table as it was. |
| WalletRuns.RegistrationIsRecorded | apps/api/src/auth/wallet-identity.service.ts:70-134 | What a registration returns is what its rows say, and the primary wallet is the smart one if given, else the embedded, else the external one. |
| WalletCollisions.OwnershipAgreesWithoutCollisions | apps/api/src/auth/wallet-identity.service.ts:42-45 | If the user ids of a run differ in their first twelve characters, dashes apart, and no account created otherwise is named after such twelve, ownership agrees in every state it reaches. |
| WalletCollisions.DerivedIdsIff | apps/api/src/auth/wallet-identity.service.ts:42-45 | A derived account id is `pta-` and the first twelve characters of the user id, dashes apart, so two users derive the same one exactly if those agree. |
| WalletCollisions.UuidsDeriveIff | apps/api/src/auth/wallet-identity.service.ts:42-45 | For UUIDs those are the first eight characters and the four after the first dash. |
| WalletCollisions.DashesGo | apps/api/src/auth/wallet-identity.service.ts:43 | Dashes are removed and every other character stays in order. |
| WalletCollisions.SharedPrefixCollides | apps/api/src/auth/wallet-identity.service.ts:42-45 | User ids that share twelve characters, dashes apart, derive the same account id. |
| WalletCollisions.CollidingUsersStrandWallets | apps/api/src/auth/wallet-identity.service.ts:311-335 | Two people with such ids: the second registration takes over the first one's account, strands her wallet and breaks the ownership invariant. |
| WalletCollisions.CollisionReached | apps/api/src/auth/wallet-identity.service.ts:311-335 | With two UUIDs such tables and such a registration exist. |
| WalletTables.NormalForms | apps/api/src/auth/wallet-identity.service.ts:37-40 | A normalised address is its own normal form; two addresses share a normal form exactly if they differ in the case of hex digits only. |
| WalletTables.AddressMeans | apps/api/src/auth/wallet-identity.service.ts:37-40 | A text is an address exactly if it is `0x` and forty hex digits, and its normal form has the capitals among them in lower case. |
| WalletIdentityService.WalletIdentityService.RegisterWallets | apps/api/src/auth/wallet-identity.service.ts:60-166 | A registration is its specification; one that throws leaves every table unchanged. |
| WalletIdentityService.WalletIdentityService.EnsureUserRow | apps/api/src/auth/wallet-identity.service.ts:199-253 | The user step is its specification, row by row. |
| WalletIdentityService.WalletIdentityService.EnsureAuthIdentityRow | apps/api/src/auth/wallet-identity.service.ts:255-286 | The identity step is its specification, row by row. |
| WalletIdentityService.WalletIdentityService.EnsureTreasuryAccountRow | apps/api/src/auth/wallet-identity.service.ts:288-335 | The account step is its specification, row by row, whose choices are `WalletRows.AccountChosen` and `WalletRows.AccountMade`. |
| WalletRows.AccountChosen | apps/api/src/auth/wallet-identity.service.ts:288-312 | An account asked for must exist and be the user's; else it is the first that is the user's or linked to the identity; else the derived one. |
| WalletRows.AccountMade | apps/api/src/auth/wallet-identity.service.ts:311-335 | A new account has the derived id, its user and identity, the jurisdiction, and the first valid address of smart, embedded and external wallet, else the session's; it is refused exactly if that address is taken. |
| WalletRows.AccountCreated | apps/api/src/ledger/ledger.service.ts:503-514 | An account made outside registration has the figures asked for; an id taken changes nothing, an address taken is refused. |
| WalletRows.ClosingWrites | apps/api/src/auth/wallet-identity.service.ts:113-134 | The closing update sets identity, primary wallet and provider, fills an empty address or jurisdiction, and changes neither owner nor any other account. |
| WalletRows.WalletRowsWritten | apps/api/src/auth/wallet-identity.service.ts:66-109 | The wallet rows a registration leaves, column by column, which is primary, and whose parent is whose. |
| WalletRows.WalletsListed | apps/api/src/auth/wallet-identity.service.ts:136-165 | A registration lists exactly the wallets of its account, the primary ones first. |
| WalletRows.IdentityAndAccountWritten | apps/api/src/auth/wallet-identity.service.ts:113-134 | The identity row and the account row after a registration, and when the provider is `HYBRID`. |
| WalletRows.UserFound | apps/api/src/auth/wallet-identity.service.ts:204-243 | The user is the one the identity is linked to, else the first with the email hash, given or made up. |
| WalletRows.UserMade | apps/api/src/auth/wallet-identity.service.ts:245-253 | Without either, a new user with that email hash and the request's phone and country. |
| WalletRows.OldUsersAfter | apps/api/src/auth/wallet-identity.service.ts:212-240 | Of the users there were, only the one found changes: its source, and its phone hash if one is given. |
| WalletRows.LoginMethodsAccepted | apps/api/db/migrations/006_privy_identity_wallet_schema.sql:30-31 | Exactly the six login methods of the table are accepted. |
| WalletIdentityService.WalletIdentityService.UpsertWalletProfile | apps/api/src/auth/wallet-identity.service.ts:337-409 | The wallet step is its specification, row by row. |
| CanonicalJson.SameFormIffEquivalent | apps/api/src/server.ts:287-299 | Two bodies have the same canonical form exactly if they are equal up to key order at every depth, array order significant. |
| CanonicalJson.CanonicalizeIdempotent | apps/api/src/server.ts:287-299 | Canonicalizing twice is canonicalizing once. |
| CanonicalJson.HashesAgreeIffSameRequest | apps/api/src/server.ts:301-308 | Two requests hash alike exactly if method and path agree and their bodies are equal up to key order, or are both blank: falsy, or objects without a key that is kept. |
| CanonicalJson.PrototypeKeyNotHashed | apps/api/src/server.ts:290-295 | An object of one field has the canonical form of the empty object exactly if its key is `__proto__`. |
| Idempotency.MismatchNeverRuns | apps/api/src/server.ts:320-349 | In any interleaving and at any time, a running handler carries its key's recorded hash. |
| Idempotency.RecordedHashIsForever | apps/api/src/server.ts:351-364 | A key's recorded hash never changes. |
| Idempotency.OneInFlightIffClaimsFree | apps/api/src/server.ts:310-402 | Over any run, at most one handler is in flight per partner, scope and key in every state exactly if every admitted claim finds none of its key running. |
| Idempotency.FirstOverlap | apps/api/src/server.ts:320-364 | The claim that first makes two handlers overlap read a row that changed before it wrote, or joins a handler that outlived its lock. |
| Idempotency.ClaimHoldsTwoMinutes | apps/api/src/server.ts:342-364 | For exactly two minutes after a claim a request with its payload is told one is in progress, then it is let through; one with another payload is a conflict throughout. |
| Idempotency.StoredAnswerStaysIff | apps/api/src/server.ts:327-396 | A stored answer stays and is replayed exactly as long as no claim of its key is admitted and no handler of its key finishes with another answer. |
| Idempotency.AtMostOneInFlight | apps/api/src/server.ts:310-402 | With undisturbed claims and handlers inside their lock, at most one handler runs per partner, scope and key. |
| Idempotency.CompletedIsForever | apps/api/src/server.ts:327-340 | Under the same conditions a stored response is replayed unchanged for ever and no handler of its key runs again. |
| Idempotency.FinishStores | apps/api/src/server.ts:373-396 | A finishing handler's response is replayed from then on if below 500, and its key is claimable again otherwise. |
| Idempotency.DisturbedClaimsRunTwice | apps/api/src/server.ts:320-364 | Without undisturbed claims, two retries of a FAILED key both run. |
| Idempotency.SlowHandlerOverwrites | apps/api/src/server.ts:351-396 | A handler outliving its lock overwrites an answer already stored. |
| Idempotency.IdempotencyStore.LookUp | apps/api/src/server.ts:320-349 | The lookup's replies, and its step of the machine. |
| Idempotency.IdempotencyStore.ClaimKey | apps/api/src/server.ts:351-364 | The claim's insert or update, and its step of the machine. |
| Idempotency.IdempotencyStore.OnFinish | apps/api/src/server.ts:373-396 | The response is recorded by key, and its step of the machine. |
| Recipients.OneDefaultInEveryRun | apps/api/src/server.ts:880-959 | Over any run of creations, patches and deactivations, cut anywhere between their statements, each account and corridor has at most one active default. |
| Recipients.RefusedIffOvertaken | apps/api/src/server.ts:880-959 | With requests interleaved, at most one default holds in every state, and a request's own statement is refused exactly if, since it unset the others, another recipient was made the default where it would put its own, and still is. |
| Recipients.SettingADefaultSelectsIt | apps/api/src/server.ts:915-963 | An uninterrupted request that sets a default leaves exactly that recipient as the default. |
| Recipients.RowAfter | apps/api/src/server.ts:880-959 | What any request, cut off or not, does to any recipient: account and corridor stay; memo, status and default change on the one named as asked; other defaults are only cleared, on active recipients of the account and corridor a default is asked for. |
| Recipients.NewRows | apps/api/src/server.ts:892-905 | New recipients come only from requests to create them, as asked. |
| Recipients.OtherDefaultsStay | apps/api/src/server.ts:883-889 | The default of any other account or corridor stays. |
| Recipients.RecipientStore.PostRecipient | apps/api/src/server.ts:864-909 | Creation unsets the other defaults, then inserts; the one-default invariant survives it and a crash in it. |
| Recipients.RecipientStore.PatchRecipient | apps/api/src/server.ts:915-963 | Patching unsets the other defaults, then updates; the one-default invariant survives it and a crash in it. |
| Webhook.StatusIsOutcomeIffHarmless | apps/api/src/webhooks/zerohash.webhook.ts:176-245 | With any duplicates, reordering, crashes and interleavings, every order is at the outcome of what was applied to it throughout a run exactly if every write of the run is harmless. |
| Webhook.KeepsOutcomeIffHarmless | apps/api/src/webhooks/zerohash.webhook.ts:184-245 | One step keeps every order at its outcome exactly if it is harmless. |
| Webhook.StatusIsOutcome | apps/api/src/webhooks/zerohash.webhook.ts:176-245 | After a run of harmless writes, every order's status is the first terminal status applied to it, else IN_TRANSIT if any was applied, else its start. |
| Webhook.MarkedWasApplied | apps/api/src/webhooks/zerohash.webhook.ts:328-391 | In any run at all, every delivery marked processed was itself applied to its order, if that exists. |
| Webhook.UndisturbedRunsAreHarmless | apps/api/src/webhooks/zerohash.webhook.ts:184-245 | A run in which no write comes between another's read and write is harmless. |
| Webhook.WhichOrdersAdvance | apps/api/src/webhooks/zerohash.webhook.ts:203-216 | The rank test lets an event move an order exactly if the order's status is not terminal. |
| Webhook.HoldsEnterUnlessDecided | apps/api/src/webhooks/zerohash.webhook.ts:203-216 | A hold request that is not cut off leaves its order in COMPLIANCE_HOLD, unless it was SETTLED or FAILED, which it then stays. |
| Webhook.TerminalIsAbsorbing | apps/api/src/webhooks/zerohash.webhook.ts:203-216 | No further harmless run moves an order out of SETTLED, FAILED or COMPLIANCE_HOLD. |
| Webhook.RedeliveryChangesNothing | apps/api/src/webhooks/zerohash.webhook.ts:328-391 | Writing again for a delivery already marked processed changes no order exactly if that write is harmless. |
| Webhook.ReprocessingIsHarmless | apps/api/src/webhooks/zerohash.webhook.ts:203-245 | Applying again a status applied before cannot change the outcome. |
| Webhook.OnlyWhichStatusesMatter | apps/api/src/webhooks/zerohash.webhook.ts:203-245 | While the events agree on one terminal status, the outcome depends only on which statuses were applied, not on order or repetition. |
| Webhook.OutcomeStep | apps/api/src/webhooks/zerohash.webhook.ts:203-216 | One rank-guarded write tracks the outcome of one more event. |
| Webhook.EffectiveDeliveries | apps/api/src/webhooks/zerohash.webhook.ts:51-78 | Exactly which deliveries move an order, which settle it, and which hold it. |
| Webhook.TransferEvents | apps/api/src/webhooks/zerohash.webhook.ts:52-66 | What each transfer event stands for. |
| Webhook.OtherEvents | apps/api/src/webhooks/zerohash.webhook.ts:67-78 | What each withdrawal, trade and participant event stands for. |
| Webhook.KnownEvents | apps/api/src/webhooks/zerohash.webhook.ts:51-79 | There are no other known events. |
| Webhook.IdentifierChosen | apps/api/src/webhooks/zerohash.webhook.ts:354-357 | Of the message if there is one, else of the top level, the first identifier present counts, in the order of the source. |
| Webhook.HarmfulWriteUndoesSettlement | apps/api/src/webhooks/zerohash.webhook.ts:184-245 | A run in which another write between reading and writing an order lets a settlement be undone. |
| Webhook.Receiver.Deliver | apps/api/src/webhooks/zerohash.webhook.ts:328-391 | One delivery, cut off anywhere: the final order table and the event row. |
| Webhook.Receiver.Handle | apps/api/src/webhooks/zerohash.webhook.ts:274-324 | A request without event id or type is refused and changes nothing; any other has the whole effect of its delivery; it touches no order but the one it names, and informational events touch none. |
| Webhook.Receiver.InsertEventRecord | apps/api/src/webhooks/zerohash.webhook.ts:124-161 | An event already processed is a duplicate; any other is recorded as unprocessed. |
| Webhook.Receiver.UpdateOrder | apps/api/src/webhooks/zerohash.webhook.ts:176-245 | The rank test and the update, as the write step. |
| Webhook.Receiver.MarkProcessed | apps/api/src/webhooks/zerohash.webhook.ts:165-172 | Marking processed, as the mark step. |
| Remittance.AcceptedAmountBounds | apps/api/src/treasury/remittance.service.ts:184-198 | For every accepted amount, four times the fee and the sum of both fees are at most the amount, and the value delivered exceeds the amount less fees less one micro-USDC. |
| Remittance.ReceiveMonotone | apps/api/src/treasury/remittance.service.ts:184-198 | At a fixed positive rate, sending more delivers no less. |
| Remittance.FeeMonotone | apps/api/src/treasury/remittance.service.ts:187-191 | Sending more costs no less and nets no less. |
| Remittance.FeesInNumbers | apps/api/src/treasury/remittance.service.ts:187-191 | The fee is 80 millionths rounded down, at least a quarter dollar; the spread 25 basis points rounded down; the net amount is what the fee leaves. |
| Remittance.ReceiveIsNetTimesRate | apps/api/src/treasury/remittance.service.ts:184-198 | The receive amount is at most, and within one unit of, the net amount in dollars times the mid rate times 0.9975. |
| Remittance.CorridorLimits | apps/api/src/treasury/remittance.service.ts:74-103 | Exactly which amounts each corridor accepts. |
| Remittance.SplittingGainsAtMostOne | apps/api/src/treasury/remittance.service.ts:187-191 | One transfer costs at most one micro-USDC more than the same sum split in two, and exactly when that happens. |
| Remittance.Price | apps/api/src/treasury/remittance.service.ts:184-198 | The figures of a quote conserve the amount sent and bound what is taken; the effective basis points are the fee's share rounded down. |
| Remittance.RemittanceOrchestrator.GetFXQuote | apps/api/src/treasury/remittance.service.ts:129-216 | A quote is given exactly for amounts inside an enabled corridor's limits, at the provider's positive rate, else one read under thirty seconds ago, else the source's; it delivers the provider's positive amount, else the net amount at that rate less a quarter of a percent, rounded down. |
| Remittance.RemittanceOrchestrator.GetFXRate | apps/api/src/treasury/remittance.service.ts:273-294 | A rate under thirty seconds old is reused, otherwise the source's rate is cached. |
| BoardModel.IntegerFeeIsBoardFeeFloored | apps/api/scripts/board-lock-model.ts:124-126 | For every amount the integer fee is the floor of the pricing model's fee. |
| BoardModel.AvgFeeCoversAvgTicket | apps/api/scripts/board-lock-model.ts:128-130 | A mix's average fee is at least the fee of its average ticket. |
| BoardModel.AvgFeeIsWeightedSum | apps/api/scripts/board-lock-model.ts:128-130 | The average fee of a mix is the weighted sum of its tickets' fees. |
| BoardModel.BuildRampModel | apps/api/scripts/board-lock-model.ts:133-195 | For any monthly volumes: total yield is a twelfth of the annual rate times the sum over months of all earlier positive margins; retained capital never falls; break-even is the least month with a positive margin. |
| BoardModel.EachMarginEarnsFromTheNextMonth | apps/api/scripts/board-lock-model.ts:150-165 | Summing retained capital over months is summing, over margins, the months each is retained for. |
| BoardModel.BreakEvenAtOnceOrNever | apps/api/scripts/board-lock-model.ts:158-160 | With positive volumes the ramp breaks even in its first month or never, exactly as the average fee exceeds the cost. |
| BoardModel.SteadyStateARR | apps/api/scripts/board-lock-model.ts:198-231 | The twelve-month loop's yield in closed form, and the annual figures. |
| BoardModel.SteadyClosedForm | apps/api/scripts/board-lock-model.ts:212-221 | After n months the steady-state yield is rate times n start plus margin times n (n - 1) / 2. |
| BoardModel.SteadyIsFlatRamp | apps/api/scripts/board-lock-model.ts:212-221 | From no capital the steady-state loop is the ramp loop at constant margin. |
| UsdcText.ReadsDecimalText | apps/web/src/components/DepositFlow.tsx:79-90 | Well-formed decimal text, with commas, spaces around it and any number of digits, is read as the numeral of its value in millionths, rounded down. |
| UsdcText.AlwaysCanonical | apps/web/src/components/DepositFlow.tsx:79-90 | Whatever is typed, the result is a numeral without superfluous leading zeros. |
| UsdcText.PrintedReadsBack | apps/web/src/components/DepositFlow.tsx:79-90 | Reading back whole part, point and six digits gives the amount that was printed. |
| UsdcText.OthersAreIgnored | apps/web/src/components/DepositFlow.tsx:79-90 | Whatever in a text is neither a digit nor a point is ignored, wherever it stands. |
| UsdcText.SignIsDropped | apps/web/src/components/DepositFlow.tsx:85-86 | A sign, or any other such character, before well-formed text leaves it read as before. |
| Trend.BuildTrend | apps/web/src/components/DashboardSnapshotPanel.tsx:60-93 | Each day shows the start plus every bucket so far, never below zero; an unparsable date fails the call. |
| Trend.BucketsPartitionWindow | apps/web/src/components/DashboardSnapshotPanel.tsx:72-83 | The buckets of distinct days sum to the signed amounts of exactly the entries in the window. |
| Trend.SignOf | apps/web/src/components/DashboardSnapshotPanel.tsx:24-53 | How an entry is signed by its type, whatever its case: which words add the amount, which take it away, and that others count as nothing. |
| Trend.EndsAtCurrentTotalIff | apps/web/src/components/DashboardSnapshotPanel.tsx:83-93 | Over distinct days the trend ends at the current total exactly if that is nonnegative and not below the net change. |
| Trend.RepeatedDaysCountAgain | apps/web/src/components/DashboardSnapshotPanel.tsx:64-93 | With repeated days, exactly when the trend still ends at the current total. |
| Trend.RepeatedDayMissesCurrentTotal | apps/web/src/components/DashboardSnapshotPanel.tsx:64-70 | On the seven days up to 31 March 2025 in Paris, whose last two share a UTC date, a deposit on that date is drawn twice. |
| Trend.SparklineFits | apps/web/src/components/DashboardSnapshotPanel.tsx:95-109 | Every point lies within the width and height, and the line runs from edge to edge. |
| Trend.SparklineOrder | apps/web/src/components/DashboardSnapshotPanel.tsx:95-109 | A value is drawn higher exactly if it is larger. |

## Left out

- React rendering, hooks, styles, wallet and payment widgets: no algorithmic content.
- The Solidity contracts, ethers calls and RPC reads: their outcomes are parameters.
- HTTP routing, rate limits, API keys, JWTs, webhook signatures: library work.
- Kafka, EventEmitter, Slack, PagerDuty, Datadog and cron: a publish can fail after an event is marked processed, so
  exactly-once publishing does not hold and is not claimed.
- SHA-256 and JSON text encoding: an injective function of the record.
- NUMERIC(36,0) overflow: amounts are unbounded.
- Account activation, treasury mode changes, reports, ISO 20022 export, the AML velocity sum, risk and yield reports.
- "One primary wallet per account", and the available and reserved splits of the entry-based reconciler as balances: the
  code does not maintain them.
- Binding of orders to provider transfer ids: the payout's update runs before the order row exists
  (apps/api/src/treasury/treasury.service.ts:490-526). `Webhook` starts with orders already carrying their id, one order
  per transfer.
- `updated_at`, risk and KYC columns, and text columns no statement here tests.
- The rows of `getOrder`: the real row uses column names (apps/api/src/ledger/ledger.service.ts:531-536), so finalizing reads
  the order `createOrder` stored.
- TreasuryService.TreasuryService.FinalizeOrder: posts its three entries in one order; that concurrent postings keep the
  ledger's laws is `Ledger.SnapshotsMirrorEntries`, over every interleaving.
- TreasuryService.TreasuryService.CreateOrder: a cached reservation found under the quote id counts as a missing quote; the code
  would read undefined fields from it. The travel rule submission and the payout's own quote are part of the payout outcome.
- ConcurrentReserves.PostsTwiceIffOverlap: quotes and orders between the steps of a reservation are not part of it; they add keys to the
  cache and remove none.
- Webhook.EffectiveDeliveries: an event type that names an inherited object member, such as `constructor`, counts as unknown; the plain
  object lookup (apps/api/src/webhooks/zerohash.webhook.ts:51) finds a function for it.
- Idempotency.IdempotencyStore.ClaimKey: its step is stated for states in which claimants carry the recorded hash, which every
  reachable state is (`Idempotency.MismatchNeverRuns`).
- Trend.BuildTrend: day keys and labels come from the clock and the locale as parameters, for any number of days.
- WalletIdentityService.WalletIdentityService.RegisterWallets: lists its wallets primary first and then in insertion order;
  wallets of one registration tie on `created_at`, so the database may list those in another order.
- Admin formatting, emergency, seed and migration scripts, the landing page and its forms.
