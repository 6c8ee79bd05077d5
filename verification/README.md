# Verification model of acp-server

A Dafny 4.11 model of the covenant server's accounting, sealing and audit logic, with proofs over every input, every
run and every reachable state. Check it with `dafny verify dfyconfig.toml`.

## What is modelled

**Accounting.** `Books` holds one covenant's rows: members, tiers, access requests, audit log, token ledger, pending
drafts, budget counter, reservations and rate buckets. `Engine` gives the eight steps of `Engine.Run` with the budget
operations and the repository's tools as functions of those rows; a `Fault` names the database statement that fails, so
a run can stop before the audit insert, in Step 6, between the two statements of `reject_draft`, or in Step 7.
`Server.Tables` is the imperative server: a class with one field per table whose methods do what the Go functions do and
are proved equal to the functions of `Engine` and `History`. `History` replays any sequence of runs, budget
administration, applications, joins, tiers and lifecycle changes.
- `Accounting`, `Drift`, `FourViews`: the live counter, the total rebuilt from the log, the ledger and the settlement
  and snapshot totals agree, with the exact gap when runs fail.
- `Receipts`, `Authority`: for each tool, in the columns of the rows alone, who may run it, exactly when it is refused and the
  whole state it leaves; over histories, that awards are owners', that ownership is never given and the lifecycle only moves on.
- `Ceiling`, `RebuiltCeiling`: the budget limit for runs one at a time, without and with rebuilds.
- `Interleaving`: the same runs as single steps that interleave, together with budget settings and rebuilds, refined to
  `Engine.Run` when one runs alone. On it, `Reservations` (the ceiling and the reservation table), `AbsorbedCeiling` (the
  ceiling under rebuilds), `Reconciliation` (the exact gap between counter and log), `TokenFlows` (tokens), `Overlaps`
  (drafts), `Rejections` (refunds), `StaleSums` (running balances) and `Resolutions` (access requests) prove what every
  interleaving keeps and exactly when it breaks; `Witnesses` plays the interleavings that break it, each from a floor with
  no run in flight.
- `Drafts`, `AccessRequests`, `Balances`, `RunRate`: what happens to each draft, applicant, balance and hourly allowance
  over whole histories of runs one at a time.
- `GitTwin`: the git bridge's handler. `BridgeFloor`: its requests as five steps that interleave with each other, with the
  covenant's other operations and with other covenants, refined to the handler when one runs alone, and what each pull
  request is awarded. `BridgeOverlaps`: the histories that award one twice, and exactly which request is one too many.
- `Settlement`, `Concentration`, `Snapshots`, `Anchors`, `Preview`: the reports, independent of row and map order.

**Sealing.** `Sealing` (header, AAD, keyring), `Reencrypt` (the resumable pass) and `Vault` (writes by the running server,
rotations and interrupted passes by commands in other processes, and restarts, in any order) and `BusyPass` (inserts
that land inside a pass). The AEAD is an ideal seal/open pair in the sense of section 2 of RFC 5116, and no text opens under two of the
associated data in use.

**Algorithms.** `Audit` and `Printing` (hash payload and chain), `Like` (escaping and the residual scan), `Formula`
(rule evaluator and validator), `RateLimit` (fixed windows), `Sessions` (grace and lazy expiry), `Ordering` (sorting).

## Assumptions

- Random ids are fresh: they are drawn from a counter. `platform_id_hash` is injective, so a platform stands for its hash.
- SHA-256 and JSON encoding are parameters, injective where a lemma says so. Sealing with equal inputs is deterministic
  given the nonce.
- `float64` is modelled by `real`, `int64` by `int`, formatted timestamps by integer time. The clock does not run back
  where a lemma says so.
- Database failures occur at the modelled statements; a failed statement changes nothing and a transaction rolls back as
  a whole. Of the statements whose error the code ignores, the reservation updates of `RecordSpend` and
  `ReleaseReservation` may be lost in every interleaving, and the two `git_twin_events` writes in every request;
  `logRejection` succeeds.
- Every statement of the modelled paths names the covenant or a globally unique id, so one covenant is modelled; the
  exception is git_twin_events, keyed by the reference alone (internal/api/git_twin.go:120-173), where the requests of
  other covenants are arbitrary writes of the event.
- The `LIMIT 1` query over an agent's pending drafts, whose order the code leaves to SQLite, returns the oldest.
- Tools other than the repository's five accounting tools are an arbitrary call whose side effects touch none of these
  tables but whose estimate and reported effects are unconstrained.

## Findings

Where the code does not meet a property, the model keeps the code and proves exactly when the property holds.
- README.md:337 describes an atomic deduction at the gate. `CheckAndReserve` only checks; n concurrent runs may exceed
  the limit by (n - 1) times the largest estimate, and can reach it (`Witnesses.CeilingIsReached`). The ceiling holds in
  every interleaving exactly as long as no counter is created under runs that exceed it and no rebuild writes a total that
  does (`Reservations.StaysUnderIff`); with rebuilds at any time it is raised by what their totals absorbed of runs in
  flight and of failed ones, less what the log grew since each was read (`AbsorbedCeiling.StaysUnderAbsorbed`).
- The rows of budget_reservations have no ceiling: a settlement that fails in Step 7, or an update of the row that fails
  unnoticed (`Witnesses.LostUpdateLeavesRow`), leaves it `reserved`, and such rows pile up with one run at a time
  (`Witnesses.ReservationsPileUp`). Every open row belongs to a run in flight exactly when no settlement with a reservation
  failed and no such update was lost (`Reservations.OpenRowsHaveRunsIff`).
- A run checked before the counter exists is charged to it unchecked (`Witnesses.LateCounterIsExceeded`); a limit of at
  least one estimate makes that harmless (`Reservations.LateCounterFits`).
- A run that fails in Step 6 leaves a success row that is never charged. `RebuildFromAuditLog` then counts it; the gap
  is exactly the sum of those rows (`History.CounterFollowsLog`), and so is what rebuilds may add above the limit
  (`RebuiltCeiling.HistoryStaysWithinOrphans`).
- A rebuild while a run stands between Step 5 and Step 7 counts that run twice (`Reconciliation.RebuildInFlightCountsTwice`);
  a rebuild leaves counter and log agreed exactly when what the log grew between its two statements is what was due in
  flight at the second (`Reconciliation.WriteTotalAgreesIff`).
- A run that fails in Step 7 has paid the award without charging for it; rejecting it refunds money that was never
  charged, and the clamp at zero can swallow the refund (`History.UnsettledAwardCanBeRefunded`, `Drift.RunDrifts`).
- A tool that reports a cost of its own other than its estimate drifts the counter by the difference
  (`Drift.CompletedRunsAgreeIff`). No tool of the repository does.
- Two rejections of one award whose checks both pass before either acts refund it twice
  (`Reconciliation.OverlappingRejectionsRefundTwice`). No row can come to be refunded twice exactly as long as no run checks a
  row that another has checked and not yet reversed (`Rejections.RefundsOnceIffNoOverlap`).
- `ClaimPending` reads and deletes in two statements: two approvals that both read a draft award it twice
  (`Witnesses.OverlappingClaimsAwardTwice`). No draft can come to be awarded twice exactly as long as no run reads a draft
  that another has read and not yet deleted (`Overlaps.AtMostOnceIffNoOverlap`); an overlap whose second run fails still
  awards once.
- `ConfirmContribution` sums and inserts in two statements: two awards of one agent can leave a balance_after short
  (`Witnesses.OverlappingSumsMisstate`). The running balance holds exactly when the sum behind an agent's latest row was
  current as the row was inserted (`StaleSums.RunningBalanceIff`).
- An access request is read and resolved in separate statements: an approval and a rejection that both read it leave a
  member, and its fee, for a rejected request (`Resolutions.OverlappingResolutionsDisagree`). No request can come to leave
  pending twice exactly as long as no run reads one that a run in conflict with it, a rejection beside an approval or another
  rejection, has read and not yet resolved (`Resolutions.ResolvesOnceIffNoOverlap`).
- `approve_draft` deletes the pending row in Step 3. The draft is lost, neither pending nor awarded, exactly when the
  approval is admitted and claims it and is then refused for its currency, or its log row or its award fails
  (`Drafts.DraftIsLostIff`, reached by `Drafts.DraftsCanBeLost`). No modelled operation sets a budget currency other than
  USD; it comes from the database column alone.
- The git bridge awards a pull request again after an approval that failed in Step 7 or whose mark was lost
  (`BridgeOverlaps.RetriedLossAwardsTwice`).
- A request whose approval is refused leaves its draft pending, and the retry proposes another: if any other run approves the
  first, the pull request is awarded twice with nothing lost and nothing overlapping (`BridgeOverlaps.LeftoverIsAwarded`).
  While requests for a reference do not overlap, one approved here was awarded exactly once if and only if no mark was lost
  and no other run awarded a draft left behind (`BridgeFloor.OneAwardIff`).
- Two requests for one reference that both pass the check award it twice (`BridgeOverlaps.OverlappingMergesAwardTwice`), and
  the second can unmark an approved reference and be refused, so that a retry is awarded again
  (`BridgeOverlaps.OverlapReopens`). With nothing lost and no leftover awarded, a request that passes the check is safe from
  both exactly when no other for its reference is in flight (`BridgeOverlaps.ArrivalIsSafeIff`).
- A reference that another covenant's request approved is answered as done, and is awarded here only by lost marks and
  leftover drafts (`BridgeFloor.OneAwardIff`).
- `ValidateFormula` evaluates with every variable zero, so it refuses a formula that divides by a variable although it
  may evaluate elsewhere (`Formula.ValidationIsIncomplete`).
- `VerifyChain` accepts every prefix of a log: a removed tail is not seen (`Audit.DrawnRowsVerifyIffPrefix`). Links
  carry the previous log id, not the previous hash.
- `VerifyChain` never compares a row's params_preview with its params_hash: a rewritten preview alone is not seen, although it no
  longer matches its hash (`Audit.RewrittenPreviewIsNotSeen`).
- The approval of an access request counts no slots: it admits its applicant to a tier that is full, which `Join` refuses
  (`Authority.ApprovalsIgnoreSlots`, `Authority.JoinFits`).
- Two rows and columns can share their associated data when a column name contains the separator; otherwise it tells all apart
  (`Sealing.AadIsExact`).
- The residual scan's total counts (identity, row) pairs, not rows (`Like.TotalCountsContainments`).
- `Rotate` goes on past version 0xFFFFFF, and every later `Seal` is refused (`Sealing.RotationOutgrowsTheHeader`).
- A running server's keyring is as old as its start: it cannot open rows that a command rotated and re-encrypted until it
  restarts (`Vault.ServerOpensIff`, reached by `Vault.ServerIsOvertaken`). A rotation whose file does not close leaves a key
  that only a restart picks up.
- A failing insertion in `CaptureSnapshot` leaves the rows before it, after the covenant is already LOCKED.

## Model

| member | source | states |
|---|---|---|
| Server.Tables.Run | internal/execution/execution.go:134-270 | Running the eight steps on the tables leaves exactly the rows and the outcome of the specification `Engine.Run`, for every call and every failing statement, so every theorem about `Engine.Run` is about this method |
| Server.Tables.Perform | internal/execution/execution.go:174-247 | Steps 3 to 7: execute, price, currency gate, log, apply, settle, with the reservation released on each failing path |
| Server.Tables.Commit | internal/execution/execution.go:213-247 | The success row is written before the side effects; a Step 6 failure releases the reservation and leaves the row |
| Server.Tables.PassGate | internal/execution/execution.go:154-159 | Only clause tools are counted by the rate limit |
| Server.Tables.CalculateSideEffects | tools/approve_draft.go:95-132 | Award by configured rule or fixed formula at the proposer's tier, with the engine's cost and currency fallbacks |
| Server.Tables.ExecuteLogic | tools/approve_draft.go:48-93 | An approval claims and deletes its pending draft, by draft id or by the log's proposer; the other tools hand over what they read |
| Server.Tables.ApplySideEffects | tools/approve_draft.go:134-151 | Step 6 of every tool writes exactly the specified rows or fails as specified |
| Server.Tables.ReverseAndRefund | tools/reject_draft.go:82-101 | The row is reversed first; the refund is a second statement that may fail on its own |
| Server.Tables.EnsureCounter | internal/budget/budget.go:36-46 | A counter is created once; its limit never changes |
| Server.Tables.CheckAndReserve | internal/budget/budget.go:51-95 | Refuses exactly when the remaining budget is below the estimate; deducts nothing |
| Server.Tables.RecordSpend | internal/budget/budget.go:101-124 | Adds the estimate to the counter and settles the reservation; the second update may be lost, and then the row stays as it was |
| Server.Tables.Release | internal/budget/budget.go:127-138 | Subtracts a positive amount, clamped at zero |
| Server.Tables.ReleaseReservation | internal/budget/budget.go:142-147 | Marks the reservation released and touches nothing else; the update may be lost |
| Server.Tables.RebuildFromAuditLog | internal/budget/budget.go:176-204 | Alone, the counter becomes the cost of successful rows whose ledger row is not reversed, and it fails without a counter; Reconciliation treats its two statements apart |
| Server.Tables.CheckAndIncrement | internal/ratelimit/ratelimit.go:94-149 | Insert-or-increment that refuses a full bucket, with the random cleanup |
| Server.Tables.LogEvent | internal/audit/audit.go:41-107 | Appends one row with a fresh id |
| Server.Tables.ConfirmContribution | internal/tokens/tokens.go:25-43 | Alone, appends a confirmed row whose balance_after is the agent's balance plus the delta; StaleSums treats its two statements apart |
| Server.Tables.CreatePending | internal/tokens/tokens.go:79-86 | The draft becomes pending for its agent |
| Server.Tables.ClaimPending | internal/tokens/tokens.go:92-101 | Alone, reads the pending row and deletes it; Overlaps treats its two statements apart |
| Server.Tables.CreateAccessRequest | internal/covenant/access_request.go:49-106 | Open covenants with that tier only: the identity is known and one pending request exists |
| Server.Tables.ApproveAccessRequest | internal/covenant/access_request.go:145-228 | All of member, status flip and entry fee, or nothing |
| Server.Tables.RejectAccessRequest | internal/covenant/access_request.go:233-250 | A pending request becomes rejected; a resolved one is left alone |
| Server.Tables.AddTier | internal/covenant/covenant.go:204-218 | Tiers are inserted once, never changed, with a non-negative fee |
| Server.Tables.Transition | internal/covenant/covenant.go:221-255 | Only the next lifecycle state, and DRAFT only with a tier |
| Server.Tables.Join | internal/covenant/covenant.go:258-313 | max_slots and one membership a platform; the identity is written even when the insert fails |
| Receipts.ProposalReceipt | tools/propose_passage.go:29-47 | Exactly when a proposal is refused, in columns: an active member, a call left in the hour, an ACTIVE covenant, positive units, a covered cost in US dollars and a kept log row; and the whole state after one that is not |
| Receipts.ApprovalReceipt | tools/approve_draft.go:26-151 | Exactly when an approval that finds its draft is refused, the caller being an owner among the conditions; and the whole state after one that is not: one success row, the draft gone, the proposer's priced award, the budget, nothing else |
| Receipts.ApprovalFindsNothing | tools/approve_draft.go:56-82 | An approval whose target names no pending draft, by its id or as the oldest of the agent of the named row, is refused |
| Receipts.RejectionReceipt | tools/reject_draft.go:25-101 | Exactly when a rejection is refused; how it ends under each failing statement; one success row, the rows of that log id reversed, the last such log row's cost refunded down to zero, nothing else |
| Receipts.AccessApprovalReceipt | tools/approve_agent_access.go:25-78 | Exactly when an access approval is refused, completes or fails, and the whole state after it: the applicant an active member who owns nothing, the request approved, the entry fee booked |
| Receipts.AccessRejectionReceipt | tools/reject_agent_access.go:24-67 | Exactly when an access rejection is refused, completes or fails, and the whole state after it |
| Receipts.OtherReceipt | internal/execution/execution.go:134-270 | For any other tool: exactly when its run is refused, how it ends, the logged cost and tokens, and that the budget is charged its estimate |
| Receipts.RefusalReceipt | internal/execution/execution.go:140-234 | A refused run of one who is no active member changes nothing; any other moves no tokens and no money, leaves no reservation open and logs one refusal row, missing only where its own statement fails |
| Receipts.BudgetIsColumns | internal/budget/budget.go:101-147 | A settlement charges the counter and settles the reservation under the run's log id; a failure before it charges nothing and releases it; a failing settlement leaves both as they were |
| Authority.RunIsAuthorized | tools/approve_draft.go:26-39 | For every tool, time and failing statement a run that is not refused is an active member's and meets what the tool demands: an ACTIVE covenant and positive units to propose; also an owner and a named target to approve; an owner and a confirmed row to reject; an owner and a pending request for access |
| Authority.AwardsAreOwners | tools/approve_draft.go:26-39 | From a covenant without logged activity, over every history, each award was logged by an owner with the same delta, and only those own who did from the start |
| Authority.LifecycleMovesOn | internal/covenant/covenant.go:204-255 | Over every history the state only moves on from DRAFT through OPEN, ACTIVE and LOCKED to SETTLED, tiers stay as added and no entry fee is negative |
| Authority.TransitionIsNext | internal/covenant/covenant.go:221-255 | A transition moves exactly one place on, leaves DRAFT with a tier only, and changes nothing else |
| Authority.JoinReceipt | internal/covenant/covenant.go:258-313 | A join adds a pending member who owns nothing exactly when the covenant is open, has the tier with a slot left, and the platform is new |
| Authority.JoinFits | internal/covenant/covenant.go:276-290 | A join never leaves a limited tier with more members than slots |
| Authority.ApprovalsIgnoreSlots | internal/covenant/access_request.go:145-228 | An access approval adds its applicant to a tier however full it is |
| Authority.ApplicationReceipt | internal/covenant/access_request.go:49-106 | An application is one pending request of its platform and tier exactly when the covenant is open and has the tier |
| Sums.RebuildCounts | internal/budget/budget.go:176-192 | A rebuild counts a row exactly when it succeeded and no ledger row of its log id is reversed |
| Sums.BalanceCounts | internal/tokens/tokens.go:46-53 | A balance counts a row exactly when it is the agent's and confirmed |
| Accounting.RunConservesTokens | internal/execution/execution.go:134-270 | Every run, however it ends, keeps each ledger row backed by exactly its success log row (same log id, same delta for an award), each un-orphaned approval posted, and the balances equal to approvals minus fees |
| Accounting.RunKeepsCounter | internal/budget/budget.go:101-138 | With a counter, every run of the repository's tools that fails at most up to Step 6 keeps budget_spent equal to the un-reversed, un-orphaned log costs |
| Accounting.ReversalSpends | tools/reject_draft.go:82-101 | The refund never exceeds what is spent, so the clamp never bites in an agreeing state |
| Accounting.GapIsOrphanCost | internal/budget/budget.go:176-204 | Rebuilt total minus counter is exactly the cost of the orphaned runs |
| Accounting.RebuildMatches | internal/budget/budget.go:176-204 | From any drift, a rebuild re-establishes the agreement |
| Accounting.OthersSpendNothing | internal/execution/execution.go:236-242 | No side effect but a reversal touches the counter or the reversed rows |
| Drift.RunDrifts | internal/execution/execution.go:134-270 | The exact change of the gap between log and counter for every run, every tool and every fault |
| Drift.CompletedRunsAgreeIff | internal/execution/execution.go:184-192 | A completed run keeps counter and log equal exactly when the logged cost is the charged one and, for a rejection, the refund lies between zero and what was spent |
| Drift.ReversalGap | tools/reject_draft.go:86-89 | Reversing a row takes exactly its logged cost out of the rebuilt total |
| History.TokensAreConserved | internal/tokens/tokens.go:46-76 | In every reachable state the confirmed balances are the un-rejected approvals minus the un-rejected entry fees |
| TokenFlows.TokensAreDueOrStray | internal/execution/execution.go:213-242 | In every interleaving the un-rejected approvals exceed the confirmed awards by exactly what runs in flight have logged and not posted, plus what runs logged that ended without their award |
| TokenFlows.BalancesAgreeIff | internal/tokens/tokens.go:25-76 | Once all runs have ended, balances are approvals minus fees exactly when the tokens of the logged approvals that ended without their award sum to zero |
| History.CounterFollowsLog | internal/budget/budget.go:101-204 | In every reachable state the counter falls short of the rebuilt total by exactly the Step 6 failures since the last rebuild |
| History.UnsettledAwardCanBeRefunded | internal/execution/execution.go:244-247 | A concrete history in which a failed Step 7 and a rejection hide an uncharged cost behind the clamp |
| FourViews.FourViewsAgree | internal/settlement/settlement.go:47-55 | In every reachable state of a new covenant: counter, rebuilt total, snapshot costs, settlement total, snapshot tokens and concentration total are tied by exact equations |
| Ceiling.RunStaysWithin | internal/budget/budget.go:51-95 | One run at a time keeps 0 <= spent <= limit, whatever fails |
| Ceiling.HistoryStaysWithin | internal/budget/budget.go:51-138 | Every history of sequential runs without a rebuild stays within the limit the counter was created with |
| RebuiltCeiling.HistoryStaysWithinOrphans | internal/budget/budget.go:51-204 | Every history of the repository's tools, rebuilds included, stays within the limit plus the orphaned costs that rebuilds absorbed |
| Interleaving.SoloRunIsRun | internal/execution/execution.go:134-270 | The single steps, taken without another run in between, are Engine.Run |
| Interleaving.SoloRebuildIsRebuild | internal/budget/budget.go:176-204 | The two statements of a rebuild, taken together, are the rebuild |
| Reservations.StepKeepsCeilingIff | internal/budget/budget.go:51-204 | A move keeps spent plus what the runs in flight may still charge under limit + (n - 1) * c exactly when it is not an unchecked write past it |
| Reservations.StaysUnderIff | internal/budget/budget.go:51-204 | Over every interleaving of runs, budget settings and rebuilds the ceiling holds exactly as long as no counter is created under runs that exceed it and no rebuild writes a total that does |
| Reservations.LateCounterFits | internal/budget/budget.go:61-73 | A counter created under runs in flight keeps the ceiling when its limit covers one estimate or no run past the gate has one |
| Reservations.OpenRowsAreRunsOrLeaks | internal/budget/budget.go:75-147 | In every interleaving the open rows of budget_reservations are those of the runs in flight, each its own, and those whose settlement failed or whose update was lost |
| Reservations.OpenRowsHaveRunsIff | internal/budget/budget.go:75-147 | Every open row belongs to a run in flight exactly when no settlement with a reservation failed and no update of a reservation was lost as its run ended |
| Reservations.OpenReservedIs | internal/budget/budget.go:75-147 | The sum of the open rows is the estimates of the runs in flight plus what ended runs left open |
| Reservations.TableStaysUnder | internal/budget/budget.go:51-147 | Spent plus the open rows stays within limit + (n - 1) * c plus what ended runs left open |
| AbsorbedCeiling.StaysUnderAbsorbed | internal/budget/budget.go:51-204 | In every interleaving of the repository's tools with rebuilds at any time, spent plus what the runs in flight may still charge stays within limit + (n - 1) * c plus what each written total absorbed: due in flight and astray as it was written, less what the log grew since it was read |
| Witnesses.CeilingIsReached | internal/budget/budget.go:48-95 | For every n and c some interleaving of proposals from a floor at rest reaches that bound |
| Witnesses.ReservationsPileUp | internal/execution/execution.go:244-247 | For every n, n failing settlements of one run at a time leave n rows open with nothing spent and no run in flight |
| Witnesses.LostUpdateLeavesRow | internal/budget/budget.go:101-124 | From a floor at rest, a run that is charged and ends, with no settlement failing, leaves its row open when the update of the row is lost |
| Witnesses.LateCounterIsExceeded | internal/budget/budget.go:61-73 | For every limit below an estimate, a run checked before the counter was created ends above the limit |
| Reconciliation.GapIsDueAndStray | internal/budget/budget.go:101-204 | Under every interleaving of runs, budget settings and the two statements of rebuilds, log minus counter is what is due in flight plus what is astray since the counter was last written whole |
| Reconciliation.AgreeAtRestIff | internal/budget/budget.go:176-204 | Once all runs have ended, counter and log agree exactly when what went astray since the counter was last written whole sums to zero |
| Reconciliation.WriteTotalAgreesIff | internal/budget/budget.go:176-204 | A rebuild followed by clean turns leaves agreement exactly when what the log grew since its total was read is what was due in flight as it was written |
| Reconciliation.RebuildInFlightAgreesIff | internal/budget/budget.go:176-204 | A rebuild as a whole leaves agreement exactly when nothing was due in flight |
| Reconciliation.RebuildInFlightCountsTwice | internal/budget/budget.go:176-204 | From a floor at rest, a rebuild between a run's log row and its settlement ends with the counter one estimate above the log |
| Reconciliation.OverlappingRejectionsRefundTwice | tools/reject_draft.go:25-101 | From a floor at rest, two rejections of one award that both pass the check refund its cost twice |
| Rejections.RefundsOnceIffNoOverlap | tools/reject_draft.go:25-101 | An interleaving leaves no row that could yet be reversed and refunded twice exactly when no run in it checked a row another had checked and not yet reversed; and then none was |
| Drafts.EachDraftIsAwardedAtMostOnce | internal/tokens/tokens.go:79-101 | Over any history of runs one at a time each draft yields at most one ledger row, and none while it is pending |
| Drafts.ApprovalPaysProposer | tools/approve_draft.go:95-151 | An approval that completes or fails in Step 7 adds one row for the draft's proposer at the price of its units and ratio, whose arithmetic is that of Formula.Means and not the evaluator's, with the run's log id and the running balance |
| Drafts.DraftIsLostIff | tools/approve_draft.go:48-93 | An approval, by draft or by log id, leaves a pending draft neither pending nor awarded exactly when it is admitted and claims it and then its currency is refused or its log row or award fails |
| Drafts.DraftsCanBeLost | tools/approve_draft.go:79-82 | Every pending draft of an active covenant can be lost, by a failing award or, under a budget in another currency, with nothing failing |
| Overlaps.AtMostOnceIffNoOverlap | internal/tokens/tokens.go:92-101 | Under a USD budget, an interleaving leaves no draft that could yet be awarded twice exactly when no run in it read a draft another had read and not yet deleted |
| Overlaps.OnceIffNoOverlap | internal/tokens/tokens.go:92-101 | In every interleaving each draft stays awarded at most once and also in at most one run's hands exactly as long as there is no such read |
| Overlaps.AdvanceDoes | internal/tokens/tokens.go:79-101 | What each step of a run does with pending drafts, awards and the draft in hand |
| Witnesses.OverlappingClaimsAwardTwice | internal/tokens/tokens.go:92-101 | From a floor at rest every pending draft can be awarded twice, under two log ids |
| GitTwin.Bridge.HandleMerge | internal/api/git_twin.go:87-209 | The handler does what its specification says to tables, events and response |
| GitTwin.ActiveMember | internal/covenant/covenant.go:400-418 | Finds an active member of the platform exactly when there is one |
| GitTwin.HandleAwards | internal/api/git_twin.go:140-209 | A request served alone adds at most one row, an award to the author, exactly when it merges or fails in Step 7 of the approval |
| GitTwin.MergePays | internal/api/git_twin.go:140-196 | A request that merges, or fails in Step 7 of its approval, adds exactly one row: the author's, at the price of the request's own units and ratio, 1 where that is 0, at the author's tier and under the configured rule |
| GitTwin.RequestReceipt | internal/api/git_twin.go:103-201 | Which answer a request gets, in its own fields and those of the rows, and the exact record it leaves in git_twin_events, lost writes included |
| GitTwin.MergedIsOnRecord | internal/api/git_twin.go:116-129 | A merge whose writes are kept is on record with its draft and both log rows, and the next request for it is answered with that record |
| GitTwin.ApprovalRunAwards | internal/api/git_twin.go:182-196 | An approval run awards the draft it names, or finds through a log, exactly when it completes or fails in Step 7 |
| GitTwin.ProposalRunProposes | internal/api/git_twin.go:140-165 | The proposal run awards nothing and leaves the author's draft pending |
| GitTwin.HandleMarks | internal/api/git_twin.go:168-201 | A request served alone changes the approval of its own reference only, and makes it approved exactly when it merges and neither write is lost |
| BridgeFloor.SoloVisitIsHandle | internal/api/git_twin.go:87-209 | The five steps of a request, taken without another move in between, are the handler |
| BridgeFloor.RunAddsRef | internal/execution/execution.go:134-270 | Any run adds to the ledger's awards the draft it claims by draft id or through a log, exactly when it is an approval that completes or fails in Step 7, and no other |
| BridgeFloor.AwardsAreMarksLossesAndLeftovers | internal/api/git_twin.go:116-202 | Over every interleaving of requests, other operations and other covenants, the ledger rows for the drafts proposed for a reference, whoever awarded them, number its marks made, its marks lost, its leftover drafts awarded by other runs, and its approvals not yet closed |
| BridgeFloor.OneAwardIff | internal/api/git_twin.go:116-202 | While requests for a reference do not overlap, one approved here was awarded exactly once if and only if no mark was lost and no other run awarded one of its drafts; one approved abroad only by such accidents |
| BridgeFloor.StaysApproved | internal/api/git_twin.go:168-201 | While requests for a reference do not overlap, an approved reference stays approved |
| BridgeOverlaps.ArrivalIsSafeIff | internal/api/git_twin.go:116-202 | After any history without overlap, loss or leftover award, a further request that passes the check leaves its reference safe from a second award, and safe from losing its mark, exactly when no other for it is in flight, provided those in flight may go on in an active covenant with an unlimited USD budget |
| BridgeOverlaps.OverlappingMergesAwardTwice | internal/api/git_twin.go:116-202 | From a site at rest, two overlapping requests that lose nothing both merge and award their reference twice |
| BridgeOverlaps.OverlapReopens | internal/api/git_twin.go:168-202 | From a site at rest, one of two overlapping requests merges, the other unmarks the reference and is refused, and a retry is awarded a second time with nothing lost |
| BridgeOverlaps.LeftoverIsAwarded | internal/api/git_twin.go:116-202 | From a site at rest, without overlap or loss, a refused approval leaves a draft that another run awards, and the retry is awarded again |
| BridgeOverlaps.RetriedLossAwardsTwice | internal/api/git_twin.go:182-202 | From a site at rest, without overlap or leftover, an approval fails in Step 7 and the retry is awarded again |
| AccessRequests.RequestsResolveOnce | internal/covenant/access_request.go:145-250 | Over every history of runs one at a time: one membership a platform, approved requests have exactly their member and fee row, requests leave pending at most once, terms never change |
| AccessRequests.OnlyApprovedRequestsPay | internal/covenant/access_request.go:200-214 | A request that is not approved has no fee row, in every reachable state |
| AccessRequests.ApprovalCompletesIff | internal/covenant/access_request.go:145-228 | Exactly when an approval run completes, the member and fee it creates, and that a failed one changes nothing but the audit log |
| AccessRequests.ApprovalAdmits | internal/covenant/access_request.go:184-214 | A successful approval creates one member and, for a positive fee, its one row |
| AccessRequests.ApprovalKeepsOrder | internal/covenant/access_request.go:145-228 | An approval keeps the invariant of all other requests |
| Resolutions.ResolvesOnceIffNoOverlap | internal/covenant/access_request.go:145-250 | An interleaving leaves no request that could yet leave pending twice exactly when no run in it read a request that a run in conflict with it had read and not yet resolved; and then none did |
| Resolutions.OverlappingResolutionsDisagree | internal/covenant/access_request.go:145-250 | From a floor at rest, an overlapping approval and rejection leave a member for a rejected request |
| Balances.RunningBalanceHolds | internal/tokens/tokens.go:25-53 | In every history of runs one at a time an agent's balance is balance_after of its latest row minus the deltas rejected since |
| Balances.RunStepsLedger | internal/tokens/tokens.go:25-43 | Every run leaves the ledger as it was, appends one confirmed row with the right running balance, or reverses one log's rows |
| StaleSums.BalanceIsOffBySkew | internal/tokens/tokens.go:25-43 | In every interleaving the balance is balance_after of the latest row less what was rejected since, plus what the sum behind that row had missed |
| StaleSums.RunningBalanceIff | internal/tokens/tokens.go:25-43 | The running balance holds exactly when that sum was still current as the row was inserted |
| Witnesses.OverlappingSumsMisstate | internal/tokens/tokens.go:25-43 | From a floor at rest, two awards of one agent leave its latest balance_after short by the first |
| RateLimit.BucketCountsAcceptedCalls | internal/ratelimit/ratelimit.go:94-135 | Each usable bucket counts the accepted calls of its hour, never above the limit; cleanup never resets one |
| RateLimit.AnySixtyMinutesHoldAtMostTwiceTheLimit | internal/ratelimit/ratelimit.go:94-141 | Any sixty minutes hold at most twice the limit |
| RateLimit.TwiceTheLimitIsReached | internal/ratelimit/ratelimit.go:94-141 | For every limit that bound is reached |
| RateLimit.CallIsCounted | internal/ratelimit/ratelimit.go:94-135 | An accepted call adds one to its own bucket, a refused one to none |
| RateLimit.PruneKeepsADay | internal/ratelimit/ratelimit.go:144-149 | Cleanup drops exactly the windows that began more than a day ago |
| RunRate.RunPassesGate | internal/execution/execution.go:154-159 | Exactly the clause runs of active members reach the gate, and only accepted ones complete |
| RunRate.CompletedRunsStayUnderLimit | internal/execution/execution.go:154-159 | Over any history, completed clause runs of an agent gated in one window never exceed the limit, and twice the limit in any sixty minutes |
| Settlement.TotalByAgent | internal/tokens/tokens.go:56-76 | The map holds each agent with confirmed rows and its balance, whatever the row order |
| Settlement.Compute | internal/settlement/settlement.go:52-70 | Total and shares are those of the balances for any two map orders |
| Settlement.Outputs.Generate | internal/settlement/settlement.go:38-100 | Refused outside LOCKED and ACTIVE; the report is saved and returned, or neither |
| Settlement.SettlementSharesOut | internal/settlement/settlement.go:52-70 | The total is the ledger's confirmed deltas; for a positive total the shares sum to 1 and the final shares to the pool |
| Settlement.EachIsPaidItsBalance | internal/settlement/settlement.go:57-70 | Each distribution is one agent's: its confirmed balance, that part of the total, and that part of the pool |
| Settlement.BalancesAddUp | internal/tokens/tokens.go:46-76 | However the agents are listed, their balances sum to the confirmed deltas |
| Settlement.SumsPermute | internal/settlement/settlement.go:52-56 | The total does not depend on the map's order |
| Concentration.CheckConcentration | internal/ratelimit/concentration.go:41-103 | The loops produce the specified report |
| Concentration.ReportAddsUp | internal/ratelimit/concentration.go:58-92 | Empty exactly without positive balances; otherwise shares descend and sum to 100 |
| Concentration.EntriesAreHolders | internal/ratelimit/concentration.go:58-92 | The entries are the rows with a positive balance, each once, by tokens descending and then agent ascending, with the total they hold and their percentages of it |
| Concentration.WarningsLead | internal/ratelimit/concentration.go:94-102 | Warnings are exactly the leading entries above the threshold, fewer than 100 / threshold |
| Concentration.ReportIgnoresOrder | internal/ratelimit/concentration.go:80-85 | The report is the same for every row order |
| Concentration.SettlementIsConcentrationPlusDebts | internal/ratelimit/concentration.go:58-74 | The settlement total is the concentration total plus the balances that are not positive |
| Snapshots.SkippedRowsDoNotMatter | internal/tokens/snapshot.go:72-75 | Skipped rows change neither sum |
| Snapshots.SnapshotTable.CaptureSnapshot | internal/tokens/snapshot.go:34-97 | One hashed row a member with tokens or cost; a failing insertion returns an error and leaves exactly the rows before it |
| Snapshots.EachMemberIsTaken | internal/tokens/snapshot.go:72-95 | A member is skipped only when both its columns are zero |
| Snapshots.RowsAreTheirMembers | internal/tokens/snapshot.go:55-95 | A member's row holds the covenant, its name, its confirmed balance, the cost of its successful log rows, the time, and the hash of just these |
| Snapshots.RowsAreMembers | internal/tokens/snapshot.go:55-95 | The rows are those of members with a non-zero column, in the order of the query |
| Snapshots.HashedText | internal/tokens/snapshot.go:108-112 | The hashed text is the five columns in order, separated |
| Snapshots.HistoryEnrols | internal/execution/execution.go:140-147 | Every logged, credited or drafting agent is a member, in every reachable state |
| Snapshots.SnapshotAgreesWithLedger | internal/tokens/snapshot.go:34-97 | In every reachable state snapshot tokens sum to the ledger's confirmed deltas and snapshot costs to the rebuilt spend plus all refunded costs |
| Snapshots.TamperingIsDetected | internal/tokens/snapshot.go:102-112 | A row that keeps its hash verifies exactly when no hashed column changed |
| Anchors.RollupSnapshotHash | internal/gittwin/anchors.go:258-289 | The collect, sort and fold loops compute the specified roll-up |
| Anchors.RollUpIsTheMultiset | internal/gittwin/anchors.go:258-289 | Two roll-ups are equal exactly when each non-empty hash is as often in the one list as in the other; empty exactly without one |
| Anchors.RollUpText | internal/gittwin/anchors.go:258-289 | The roll-up is the hash of the non-empty hashes' lines in ascending order, however they were given |
| Preview.ApplyParamsPolicy | internal/execution/policy.go:37-61 | The loop yields the specified preview for every map order |
| Preview.PreviewsAgreeIff | internal/execution/policy.go:37-95 | Two maps have one preview exactly when they agree on surviving fields: value, rune length, or truncated form |
| Preview.PreviewShows | internal/execution/policy.go:37-95 | What is shown of each surviving field: the length of a sensitive one, eight runes of a longer hash, any other as it is |
| Preview.DefaultHides | internal/execution/policy.go:37-95 | The default policy shows no content, text, draft or password, and no content hash in full |
| Preview.HashOnlyShows | internal/execution/policy.go:37-112 | A hash-only preview is the hash of every field once, with its value, by name ascending |
| Preview.HashOnlyAgreesIff | internal/execution/policy.go:99-112 | The canonical hash ignores map order and is equal exactly for equal maps |
| Audit.AuditLog.LogEvent | internal/audit/audit.go:41-107 | Appends the row stamped with the next sequence and the previous log id |
| Audit.StampKeepsDraft | internal/audit/audit.go:41-107 | A row keeps all its caller gave but the id, the next sequence, the link, the defaults and the two hashes; its params hash is that of its own preview and its hash that of its own payload |
| Audit.PreviewsAreCommitted | internal/audit/audit.go:77-79 | In every built log two rows have one params hash exactly when they have one preview |
| Audit.DifferentPreviewsDiffer | internal/audit/audit.go:77-82 | Rows written for different previews have different params hashes and different chain hashes |
| Audit.RewrittenPreviewIsNotSeen | internal/audit/audit.go:111-160 | A log verifies whatever its previews are rewritten to |
| Audit.PayloadText | internal/audit/audit.go:172-210 | The text that is hashed, field by field in order, for each version |
| Audit.AuditLog.VerifyChain | internal/audit/audit.go:111-160 | Reports exactly the violations of the rows in order |
| Audit.ViolationsAreExact | internal/audit/audit.go:126-157 | A link is reported exactly for each row that does not name the row before it, a hash exactly for each row whose own is not derived from it |
| Audit.PayloadIsExact | internal/audit/audit.go:172-210 | Across versions and layouts two payloads are equal exactly when version and every covered field are |
| Audit.JoinInjective | internal/audit/audit.go:172-210 | Separator-free components are determined by the joined text |
| Audit.BuiltLogsVerify | internal/audit/audit.go:41-160 | Every log built by LogEvent verifies |
| Audit.DrawnRowsVerifyIffPrefix | internal/audit/audit.go:111-160 | Of all sequences drawn from a built log exactly the prefixes verify |
| Audit.CoveredChangesAreReported | internal/audit/audit.go:145-157 | A rewritten row that keeps its hash is reported exactly when a covered field changed |
| Printing.DecimalInjective | internal/audit/audit.go:172-210 | Decimal printing is injective |
| Printing.FixedParts | internal/audit/audit.go:172-210 | Sign, point and units of a %.8f text are read back, so it keeps a number up to eight decimals |
| Printing.UnitsAreNearest | internal/audit/audit.go:172-210 | The printed units are the nearest hundred-millionths, the even ones of two |
| Like.EscapingIsExact | internal/doctor/doctor.go:171-196 | The escaped pattern matches exactly the texts that contain the identity up to ASCII case |
| Like.ScanAudit | internal/doctor/doctor.go:175-257 | The scan loops return every hit and the capped details |
| Like.HitsAreRows | internal/doctor/doctor.go:186-223 | The hits of an identity are the log ids of exactly the rows that contain it, in table order |
| Like.TotalCountsContainments | internal/doctor/doctor.go:186-223 | The reported total is the number of (identity, row) containments |
| Like.BareIdentityOverMatches | internal/doctor/doctor.go:168-173 | Without escaping the pattern over-matches |
| Formula.ValidationIsSound | internal/tokens/rules.go:93-199 | An accepted formula fails later only by dividing by zero, and never when no divisor mentions an identifier |
| Formula.ValidationIsIncomplete | internal/tokens/rules.go:93-104 | A formula refused by the dry run that evaluates elsewhere |
| Formula.OneSuccessBoundsAll | internal/tokens/rules.go:117-199 | One success bounds the failures of every other environment to division by zero |
| Formula.EvalIsMeaning | internal/tokens/rules.go:117-199 | An evaluation succeeds with exactly the number the formula means, each operator, variable and rounding being given by its own law, and fails exactly when it means none |
| Formula.EvalFaults | internal/tokens/rules.go:117-199 | It fails with exactly the first fault of the formula from left to right |
| Formula.EvaluateIsNearest | internal/tokens/rules.go:82-91 | An award exists exactly when the formula has a meaning, and is the whole number nearest to it, ties away from zero |
| Sessions.Store.Issue | internal/sessions/sessions.go:19-33 | Adds one active token |
| Sessions.Store.Rotate | internal/sessions/sessions.go:37-72 | Afterwards exactly the new token of that agent is active; the old ones are in grace |
| Sessions.Store.Validate | internal/sessions/sessions.go:76-112 | Answers from the row and expires a stale grace token in place |
| Sessions.Store.ExpireGraceTokens | internal/sessions/sessions.go:146-156 | Expires exactly the stale grace tokens |
| Sessions.ExpiryIsTransparent | internal/sessions/sessions.go:76-156 | The answer of both validations is a pure function of issues, rotations and time, whatever lazy expiry or sweeps wrote; the one for a covenant holds exactly for some agent of it |
| Sessions.InvalidStaysInvalid | internal/sessions/sessions.go:76-112 | A rotated token that became invalid stays invalid |
| Sessions.ValidForThirtySeconds | internal/sessions/sessions.go:76-112 | A rotated token is valid, and in grace, for exactly thirty seconds after its rotation |
| Sealing.HeaderRoundTrip | internal/crypto/seal.go:170-191 | The header keeps a key version exactly when it fits 24 bits |
| Sealing.SealOpens | internal/crypto/seal.go:85-155 | What was sealed opens to its plaintext under its own row and column |
| Sealing.AadIsExact | internal/crypto/seal.go:157-167 | Without a separator in the columns, two associated data are equal exactly when row and column are; with one they may collide |
| Sealing.SealBindsRowAndColumn | internal/crypto/seal.go:85-155 | What was sealed for a row and a column opens for a row and a column exactly when they are the same, under any ring that has the key, and otherwise fails to authenticate |
| Sealing.SealedBytes | internal/crypto/seal.go:85-180 | When Seal refuses and why, and its blob in bytes: format, key version from the highest byte, nonce, sealed text |
| Sealing.OpenAnswers | internal/crypto/seal.go:119-192 | Each refusal of Open exactly when, in order, and otherwise the AEAD's answer for the key the blob names |
| Sealing.RotationOutgrowsTheHeader | internal/crypto/seal.go:85-93 | After n rotations every Seal is refused exactly when the version passed 24 bits, while older blobs still open; rotation itself ends at 32 bits |
| Sealing.Provider.constructor | internal/keys/local.go:95-130 | First start, migration or reload yields a valid ring |
| Sealing.Provider.LoadVersions | internal/keys/local.go:306-320 | Every file is a key and the largest version is current |
| Sealing.Provider.MigrateLegacy | internal/keys/local.go:326-357 | The legacy key becomes version 1 |
| Sealing.Provider.Rotate | internal/keys/local.go:217-259 | The next version becomes current and no key is lost; a taken version is refused; a file that fails to close stays on disk outside the ring |
| Sealing.Provider.Versions | internal/keys/local.go:194-208 | Every loaded version once, ascending |
| Sealing.InsertionSort | internal/keys/local.go:194-208 | The in-place sort sorts and permutes |
| Reencrypt.Store.ScanTable | internal/reencrypt/reencrypt.go:118-169 | The read loop partitions the rows and counts them |
| Reencrypt.Store.RewritePending | internal/reencrypt/reencrypt.go:171-190 | The update loop rewrites the pending rows until the database fails |
| Reencrypt.Store.RunTargets | internal/reencrypt/reencrypt.go:94-115 | The run over all targets is the specified one, with its statistics and failure |
| Reencrypt.PassKeepsData | internal/reencrypt/reencrypt.go:118-190 | One pass keeps every plaintext, wherever it stops |
| Reencrypt.RunKeepsData | internal/reencrypt/reencrypt.go:94-190 | A run keeps every plaintext; an error-free one leaves every row current with Scanned = Reencrypted + Skipped + NullEnc; a second rewrites nothing |
| Reencrypt.PassCounts | internal/reencrypt/reencrypt.go:118-190 | A pass that does not fail counts every row, those behind the current version as rewritten, those at it as skipped, those without a ciphertext as null |
| Reencrypt.ScanStopsAt | internal/reencrypt/reencrypt.go:118-169 | A scan stops at the first unreadable row, with the counts up to it, and nothing is rewritten |
| Reencrypt.TotalsAddUp | internal/reencrypt/reencrypt.go:94-115 | Each total is the sum of its column over the reported tables, wherever the run stopped |
| Reencrypt.DefaultRunIsComplete | internal/reencrypt/reencrypt.go:43-89 | An error-free run of the command leaves both tables that seal platform ids at the current version |
| BusyPass.InsertsCommute | internal/reencrypt/reencrypt.go:118-190 | Whenever rows are inserted between the rewrites of a pass, the table is the scanned rows rewritten so far followed by the rows inserted |
| BusyPass.BusyPassKeepsData | internal/reencrypt/reencrypt.go:118-190 | A pass with inserts inside it leaves what the quiet pass leaves, followed by the rows inserted: every blob still opens to its plaintext, and unless it failed exactly the scanned rows were brought to the current version |
| Vault.HistoryKeepsData | internal/reencrypt/reencrypt.go:94-204 | Over any writes, rotations here and elsewhere, restarts and interrupted runs every non-NULL blob still opens, under the keyring of the directory, to its original plaintext |
| Vault.CopiedBlobsDoNotOpen | internal/crypto/seal.go:116-167 | A ciphertext copied to a row of another anchor or to another column does not open there |
| Vault.WritesAreSealed | internal/covenant/covenant.go:113-131 | When a new row is inserted, and that its ciphertext is at the current version and opens to its plaintext |
| Vault.RotationReceipt | internal/keys/local.go:217-259 | What a rotation here or elsewhere leaves in the directory and in the server's ring |
| Vault.RestartOpensAll | internal/keys/local.go:265-320 | After a restart the server opens every blob |
| Vault.ResumedRunAgrees | internal/reencrypt/reencrypt.go:94-190 | An interrupted and completed run agrees with an uninterrupted one on plaintexts and versions |
| Vault.ServerOpensIff | internal/keys/local.go:178-188 | The running server opens a blob exactly when its own keyring has the blob's key version |
| Vault.ServerIsOvertaken | internal/keys/local.go:178-188 | From any vault that can still rotate, a rotation and a re-encryption elsewhere leave the running server unable to open any row of the table |
| Vault.RestartRestoresRingIff | internal/keys/local.go:265-320 | A restart finds the server's keyring exactly when the directory has no other key |

## Left out

- HTTP routing, JSON decoding, MCP, the bridge loop, webhook parsing and git: plumbing around the modelled calls.
- SQL text, drivers and migrations: tables, keys and transactions are modelled directly.
- SHA-256, AES-GCM, ed25519, HMAC, randomness and base64: parameters or fresh ids.
- File permissions, paths and environment variables of the keyring: only the version-to-key map and the current pointer.
- The Go parser and ParseRules: formulas start from the parsed expression. IEEE rounding, NaN and integer overflow.
- Owner tools that touch none of the accounting tables, platform id validation, AckAnchor, ListPendingAnchors: single-branch members.
- net_delta in the accounting rows: it enters no total; the audit payload covers it.
- Engine steps finer than the modelled ones: the reads of Steps 1 and 2, which no step changes for an existing member, are fused with the rate gate's write; resolving a draft by log id is one read; a refusal's release and log row are one step.
- Drafts.EachDraftIsAwardedAtMostOnce: holds for runs one at a time; Overlaps.AtMostOnceIffNoOverlap gives the exact condition when they interleave.
- Balances.RunningBalanceHolds: holds for runs one at a time; StaleSums.RunningBalanceIff gives the exact condition when they interleave.
- AccessRequests.RequestsResolveOnce: holds for runs one at a time; Resolutions.ResolvesOnceIffNoOverlap gives the exact condition when they interleave.
- History.TokensAreConserved: holds for runs one at a time; TokenFlows.BalancesAgreeIff gives the exact condition when they interleave.
- Applications, joins, tiers and lifecycle changes interleaved with the steps of a run: Join counts a tier's members and inserts in separate statements.
- Engine runs of the git bridge interleaved with the steps of other runs: its proposals and approvals are whole runs.
- Lost reservation updates in Engine.Run and the histories of runs one at a time: the interleaved model has them.
- Rate policy changes during a history: the hourly limit is fixed.
- Inserts inside a pass in Vault's histories: BusyPass.BusyPassKeepsData shows that they come to the same as inserts after it.
- Stored hashes shorter than eight characters: the mismatch message of VerifyChain slices them and would panic.
- Accounting.RunKeepsCounter: leaves out failures inside a settlement, for which equality is false; Drift.RunDrifts gives the exact change for those.
- Ceiling.HistoryStaysWithin: leaves out rebuilds; RebuiltCeiling.HistoryStaysWithinOrphans gives the bound with them.
