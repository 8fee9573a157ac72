# Kubera: a verified model of its protocols, ledgers and migrations

Kubera is a multi-tenant back office: audit engagements, a chart of accounts, a fixed-asset
register, an encrypted document vault, compliance records and the operator scripts around them.
This project models its hardest parts in Dafny 4.11 and proves what they keep, mostly over every
run of every request. `dafny verify dfyconfig.toml` checks it.

Each HTTP handler is one atomic step: `app/database.py:10-17` commits on success and rolls back on
any exception, so a handler that answers an error leaves the store as it was. A handler that
assigns to rows is a method of a class holding the tables; its postcondition equates the answer and
the new state with a specification function of the old state, and the theorems are about that
function. For each request the modules named `...Requests`, `LimiterRules`, `AssetPatch`, `CostingRules` and
`PlannerVerdicts` say, without naming that function, exactly when it is accepted and what it then
does to each row. A loop of the source is a loop here.

| file | what it models |
|---|---|
| `Prelude.dfy` | options, answers, text normalisation |
| `RateLimiter.dfy`, `LimiterRules.dfy` | the fixed-window limiter over a store that may fail between any two commands |
| `Workspace.dfy`, `WorkspaceRequests.dfy` | entries, requirements and queries of one engagement; double-entry conservation |
| `AuditProtocol.dfy`, `AuditRequests.dfy` | engagements, grants, pending invites, registration |
| `ChartOfAccounts.dfy`, `ChartRequests.dfy` | the shared forest of ledger groups and the mapping of ledgers |
| `MappingImport.dfy`, `MappingPlanner.dfy`, `PlannerVerdicts.dfy` | copying mappings between engagements |
| `AssetCosting.dfy`, `CostingRules.dfy` | the costing of an acquisition |
| `AssetBatch.dfy`, `AssetPatch.dfy`, `BatchRequests.dfy`, `AssetFreeze.dfy` | an acquisition and its units, its PATCH column by column, what moves under its cost freeze |
| `AssetLifecycle.dfy`, `AssetRequests.dfy` | the asset lifecycle and whose names its stamps carry |
| `Compliance.dfy`, `ComplianceRequests.dfy` | the compliance archive over documents |
| `DocVault.dfy`, `DocRequests.dfy` | versions and approval of documents |
| `CaddyConfig.dfy`, `MaintenanceSwitch.dfy`, `MaintenanceCountdown.dfy`, `MaintenanceCommands.dfy` | the maintenance edge switch, its countdown, its two commands |
| `KeyRotation.dfy`, `KeyRequests.dfy` | the key hierarchy and root-key rotation over an ideal AEAD |
| `Backfills.dfy`, `AccessModules.dfy`, `AccessOrder.dfy` | data migrations; module grants, their SQL twin and when the two agree in order |

## Where the code differs from what it says

Each of these is a theorem with the exact condition, or a concrete input, mostly both.

- `app/rate_limit.py:57-59` calls the fallback to the full window "never an under-estimate". It is
  one exactly when the counter has no expiry (`RetryAfterHonest`). One crash between `INCR` and
  `EXPIRE` leaves such a counter, and for every limit the pair is then locked out for good exactly
  once that many of its attempts have been counted (`CrashLeavesNoExpiry`, `OneCrashLocksThePairOut`).
- `app/rate_limit.py:87` joins address and identifier with a colon, so an address holding a colon
  can share a counter with another pair; `TightKeySharedExactly` says with which.
- `app/routers/auditor_engagements.py:197-199` compares sums of binary floats that are not rounded to
  paise, so an accepted entry can be unbalanced once stored; it is off by exactly the error of its
  sums and roundings (`AcceptedEntryNet`, `SubPaisaEntryUnbalanced`). The handler also accepts
  ledgers outside the engagement (`ForeignLedgerIsAccepted`).
- `app/services/ledger_groups.py:55-106` adds what the seed chart lacks without looking at mappings. On
  a partly seeded chart that puts children under a mapped group exactly when a ledger is mapped to a
  seeded head that lacks a sub-group (`SeedingBreaksExactly`).
- `app/routers/asset_acquisitions.py:6-7` says units always sum to the landed cost. They do for every
  cost exactly when nothing is locked and indices are 1..N; deleting a draft keeps that exactly when
  it was the last unit (`UnitsTieOutExactly`, `DraftDeleteTiesOutExactly`). New units come last
  exactly when the old indices had no gap (`GrowthAppendsIffDense`).
- The cost freeze of `app/routers/asset_acquisitions.py:39-41` refuses cost-affecting fields, but every
  PATCH costs the acquisition again. Under the lock that moves the books to the last costing restated
  with the numbers as rounded by their columns and the supplier's state as it is today
  (`FreezeExactly`, `LockedBooksMoveExactly`). With two-decimal inputs the tax amounts move exactly
  when the purchase flips between intra-state and inter-state, and the landed cost by a paisa at most
  (`LockedCostMovesByFlipsOnly`). Inputs: `SupplierStateMovesLockedCost`, `TypedPriceMovesLockedCost`.
- `residual_value` is not in `POST_CAPITALIZATION_EDITABLE`, yet it moves on a capitalized asset:
  `app/routers/assets.py:614-622` derives it from the percentage as typed, the column keeps two decimals
  (`app/models/assets.py:315`), and the next edit derives it from those. It moves exactly when an admin
  edits the asset there and the stored percentage gives another value than the one last used
  (`LockedResidualMovesExactly`, `FinePercentageDrifts`). An asset that predates the register is created
  without a residual value (`app/services/asset_existing.py:171-231`) and gets one at its first edit.
- `app/routers/assets.py:591-596` allows a code change only on drafts, but a null or empty code skips
  the check (`ReadyCodeChangesExactly`).
- `app/routers/compliance.py:358-363` only ever undoes what it did; closed in any but last-in
  first-out order, records can leave their document archived (`UnarchiveRestoresExactly`,
  `FirstInFirstOutStaysArchived`). Unarchiving can also bring back a verification that does not speak
  for the current version, or one without stamps: exactly when since then an upload, restore, approval
  request or review went through and the last of them is not a verifying review (`ReinstatedExactly`).
  It is safe when no admin acted on the document and every other record unarchived meanwhile was
  archived while the document was shut to everybody else; no weaker condition on those records will do
  (`ShutFacesKeepTheVerdict`, `OnlyShutFacesAreSafe`). Inputs: `ReinstatedVerdictIsStale`,
  `ReinstatedWithoutStamps`, and without an admin after the verification `AnotherRecordSpoilsIt`.
- A PATCH with a null approver leaves a pending document without one (`ApproverLostExactly`).
- `maintenance.py:476-484` recovers from a failed switch, but not from Ctrl+C, which only the countdown
  catches: interrupted right after the relink, the app stays linked and the state `closing`. The
  contracts of `Switch` and `GoLive` give the link for every ending from the outcomes so far, and
  `InterruptLeavesMaintenanceExactly` the commands at which Ctrl+C leaves the new one.
- The SQL module split stores the same list as the Python normalisation exactly under the condition of
  `UpgradeKeepsOrderExactly` (`UpgradeMayReorder` is an input), and its downgrade widens rows that
  held one half only (`DowngradeUndoesUpgradeExactly`).

## Model

| member | source | states |
|---|---|---|
| Prelude.CleanIdempotent | app/routers/auth.py:524 | cleaning an address twice changes nothing, so a stored address matches itself |
| RateLimiter.Limiter.Bump | app/rate_limit.py:46-51 | one counter command pair, including a fault before either command |
| RateLimiter.Limiter.EnforceRateLimit | app/rate_limit.py:65-119 | outcome and counters equal the specification; disabled means untouched |
| RateLimiter.Limiter.CountAttempt | app/rate_limit.py:93-119 | both buckets are charged in order, a fault fails open |
| RateLimiter.WindowBound | app/rate_limit.py:46-119 | any window-long interval lets at most twice the limit through per pair and per address, crashes included |
| RateLimiter.CountersBound | app/rate_limit.py:93-105 | the same bound for already built keys, from any starting store |
| RateLimiter.DeploymentSeparates | app/rate_limit.py:82-88 | the key construction gives the counting the separation it needs |
| RateLimiter.KeySeparation | app/rate_limit.py:82-88 | id and ip keys never meet; equal keys mean equal scope and equal text |
| RateLimiter.TightKeyIdentity | app/rate_limit.py:87 | without colons in addresses a tight counter belongs to one (address, identifier) pair |
| RateLimiter.TightKeySharedExactly | app/rate_limit.py:87 | two different pairs share a tight counter exactly when one address is the other, a colon and a text that, with another colon, starts the other identifier |
| RateLimiter.IpCounterCountsEveryAttempt | app/rate_limit.py:100-105 | without faults the address counter is exactly the number of attempts in its window, rejected ones included |
| RateLimiter.IpCounterNeverOvercounts | app/rate_limit.py:46-105 | whatever crashes, it is at most the attempts of its window, or of ever when it has no expiry |
| RateLimiter.AdmittedExactlyWithinLimits | app/rate_limit.py:97-119 | an undisturbed attempt passes exactly when both counters are within their limits |
| LimiterRules.FaultsFailOpenExactly | app/rate_limit.py:46-119 | a fault lets an attempt through, or kills it, exactly when it hits a command the attempt sends; otherwise exactly its two counters change, each with its own window, and it is rejected exactly when one is over its limit |
| RateLimiter.RetryAfterHonest | app/rate_limit.py:54-62 | for a counter with an expiry Retry-After is the least wait that finds it gone; without one the counter is there for ever and the answer is the full window |
| RateLimiter.FaultlessCountersExpire | app/rate_limit.py:46-51 | without faults every counter of every trace has an expiry |
| RateLimiter.StuckKeyRejectsForever | app/rate_limit.py:46-51 | a full counter without expiry rejects its pair in every later trace |
| RateLimiter.CrashLeavesNoExpiry | app/rate_limit.py:48-50 | a crash between the two commands on a pair without an open window leaves a counter of one without expiry |
| RateLimiter.OpenCounterCountsOn | app/rate_limit.py:46-51 | such a counter only grows, by one for each increment its key gets, and never gains an expiry |
| RateLimiter.OneCrashLocksThePairOut | app/rate_limit.py:46-51 | for every limit: after the crash the pair is stuck exactly when that many attempts have been counted, at any times, and every later undisturbed attempt is rejected |
| Workspace.WorkFile.CreateAuditEntry | app/routers/auditor_engagements.py:188-235 | the two float sums, for any arithmetic of a step and of the end (so Python's compensated `sum` too), their comparison and the line loop compute the specified entry or a 400 |
| Workspace.WorkFile.DeleteAuditorEntry | app/routers/auditor_engagements.py:257-289 | removes exactly the named proposed entry, else 404 or 400 |
| Workspace.WorkFile.ApproveRejectEntry | app/routers/auditease.py:1370-1400 | sets the status of exactly the named entry, whatever it was |
| Workspace.WorkFile.RespondRequirement | app/routers/auditease.py:1458-1488 | adds one submission to an open requirement of an open engagement, else 404, 400 or 422 |
| Workspace.WorkFile.CloseRequirementRow | app/routers/auditor_engagements.py:386-411 | closes an open requirement with its closer |
| Workspace.WorkFile.ReopenRequirementRow | app/routers/auditor_engagements.py:415-439 | reopens a closed requirement and clears its closer |
| Workspace.WorkFile.DeleteRequirementRow | app/routers/auditor_engagements.py:354-381 | deletes only a requirement without submissions |
| WorkspaceRequests.CreateEntryDoes | app/routers/auditor_engagements.py:188-235 | an entry is accepted exactly when its totals are equal; it is stored as proposed in the auditor's name, line by line with ledger, side and the nearest paisa |
| WorkspaceRequests.ExactTotals | app/routers/auditor_engagements.py:197-198 | with exact arithmetic each total would be the sum of its side |
| WorkspaceRequests.DeleteEntryDoes | app/routers/auditor_engagements.py:257-289 | exactly a proposed entry goes, and nothing else |
| WorkspaceRequests.ReviewEntryDoes | app/routers/auditease.py:1370-1400 | any entry takes the approved or the rejected status, the others stay |
| WorkspaceRequests.RequirementTurns | app/routers/auditor_engagements.py:323-439 | text and closing exactly of an open requirement, reopening exactly of a closed one, each with its whole effect |
| WorkspaceRequests.DeleteRequirementDoes | app/routers/auditor_engagements.py:354-381 | a requirement goes exactly when nobody answered it |
| WorkspaceRequests.RespondDoes | app/routers/auditease.py:1458-1488 | an answer is taken exactly by an open requirement of an engagement that is not closed, and counted |
| WorkspaceRequests.QueryDoes | app/routers/auditor_engagements.py:536-670 | queries are opened about existing requirements, take messages while open, and are closed by their opener alone |
| WorkspaceRequests.RequirementTellsItsStory | app/routers/auditor_engagements.py:386-439 | in every run a requirement is closed exactly when a closing of it stands, names who closed it, and counts the answers since its creation |
| Conservation.LoadAdjustments | app/services/trial_balance_query.py:40-67 | the two loops leave each ledger its net debit over approved entries, and only touched ledgers |
| Conservation.AddLines | app/services/trial_balance_query.py:63-66 | the inner loop adds one entry's lines to the running totals |
| Conservation.Exchange | app/services/trial_balance_query.py:61-66 | summing over ledgers equals summing over lines, less what lines post elsewhere |
| Conservation.AcceptedEntryNet | app/routers/auditor_engagements.py:196-217 | a stored entry is off by exactly the error of its float sums and roundings, so it balances exactly when that is below a paisa; with exact sums it misses by at most half a paisa a line |
| Conservation.SubPaisaEntryUnbalanced | app/routers/auditor_engagements.py:197-199 | an accepted entry that does not balance once stored |
| Conservation.EntriesStayBalanced | app/routers/auditor_engagements.py:188-289 | in every run entries balance if every request erred by less than a paisa, and nearly balance if the sums were exact |
| Conservation.StepKeepsLines | app/routers/auditor_engagements.py:211-217 | no request invents or alters lines |
| Conservation.StepsMoveAdjustments | app/routers/auditease.py:1387-1390 | a review moves each ledger by new less old contribution; creating and deleting move none |
| Conservation.Conserved | app/services/trial_balance_query.py:40-67 | over every run the adjusted total is the closing total less what approved lines post elsewhere, exactly or within half a paisa a line under the same conditions |
| Conservation.ForeignLedgerIsAccepted | app/routers/auditor_engagements.py:211-217 | an accepted entry that posts outside the trial balance |
| AuditProtocol.AuditStore.Create | app/routers/auditease.py:932-949 | a draft engagement with a new id |
| AuditProtocol.AuditStore.Invite | app/routers/auditease.py:1043-1128 | answer and tables equal the specification, whose effect InviteDoes pins: grant for a registered address, pending invite otherwise, promotion of a draft, all refusals |
| AuditProtocol.AuditStore.UpdateAccess | app/routers/auditease.py:1214-1255 | replaces the areas of a live grant |
| AuditProtocol.AuditStore.Remove | app/routers/auditease.py:1259-1286 | revokes a live grant |
| AuditProtocol.AuditStore.Cancel | app/routers/auditease.py:1293-1325 | deletes the pending invite of the cleaned address |
| AuditProtocol.AuditStore.Close | app/routers/auditease.py:979-1013 | closes, revokes every grant and deletes every pending invite of the engagement |
| AuditProtocol.AuditStore.Delete | app/routers/auditease.py:1017-1039 | deletes a non-active engagement with everything under it |
| AuditProtocol.AuditStore.Accept | app/routers/auditor_engagements.py:115-158 | accepts an open invitation and activates an invited engagement |
| AuditProtocol.AuditStore.RegisterAuditorAccount | app/routers/auth.py:508-590 | the raw address and token are cleaned, then registered as specified |
| AuditProtocol.AuditStore.Register | app/routers/auth.py:533-590 | new auditor holding a token of an unexpired invite; 409 and 400 otherwise |
| AuditProtocol.AuditStore.Consume | app/routers/auth.py:573-586 | in whatever order, each invite is deleted and each engagement granted once |
| AuditProtocol.AuditStore.Work | app/routers/auditor_engagements.py:41-68 | auditor work happens only behind the access check of its area |
| AuditProtocol.StepKeepsInv | app/routers/auditease.py:978-1128 | every request keeps the consistency of grants, invites and status |
| AuditProtocol.ReachableStatesConsistent | app/routers/auditease.py:978-1325 | the same in every reachable state; a registered address has no unexpired invite |
| AuditProtocol.StatusMovesForward | app/routers/auditor_engagements.py:137-141 | status never moves back and only an acceptance activates |
| AuditProtocol.GrantsAreHistory | app/routers/auditor_engagements.py:41-68 | a pair's grant is a function of its invite, accept, revoke and close events |
| AuditProtocol.AccessIsLastAccept | app/routers/auditor_engagements.py:47-68 | the access check passes exactly when the pair's last event that bears on access is an accept, and per area by the last areas named |
| AuditProtocol.InviteOpensAccess | app/routers/auth.py:533-588 | the holder of an unexpired token can register, accept and work with the invited areas |
| AuditProtocol.ClosedIsFinal | app/routers/auditease.py:986-996 | after closing, no auditor request of any later run changes the engagement's work |
| AuditRequests.InviteDoes | app/routers/auditease.py:1043-1128 | accepted exactly on a company's own open engagement with understood areas and no standing grant; a registered address then holds an open grant, an unregistered one a pending invite with that token and seven days, for exactly the areas marked true (all five without a payload); every other grant and invite stays |
| AuditRequests.UpdateAccessDoes | app/routers/auditease.py:1214-1255 | exactly a standing grant takes the new areas, and nothing else changes |
| AuditRequests.RemoveDoes | app/routers/auditease.py:1259-1286 | exactly a standing grant is revoked |
| AuditRequests.CancelDoes | app/routers/auditease.py:1293-1325 | exactly a pending invite goes |
| AuditRequests.CloseDoes | app/routers/auditease.py:979-1013 | every grant of the engagement is revoked and every invite to it dropped, and no others |
| AuditRequests.DeleteDoes | app/routers/auditease.py:1017-1039 | exactly an engagement that is not active goes, with its grants, invites and work |
| AuditRequests.AcceptDoes | app/routers/auditor_engagements.py:115-158 | exactly an open grant becomes accepted and its engagement active |
| AuditRequests.RegisterDoes | app/routers/auth.py:533-590 | accepted exactly for a new address with the token of an unexpired invite; every unexpired invite to it becomes an open grant and is used up |
| AuditRequests.AuditorWorkDoes | app/routers/auditor_engagements.py:41-68 | an auditor's request passes exactly when he was let in to its area of the active engagement and the work allows it |
| AuditRequests.CompanyWorkDoes | app/routers/auditease.py:1370-1488 | a company's request passes exactly on its own engagement when the work allows it |
| AuditRequests.InvitedGetsIn | app/routers/auditease.py:1093-1118 | from the invite on: whatever else happens within seven days, registering with its token and accepting gives access to exactly the areas it named |
| ChartOfAccounts.ChartStore.CreateGroup | app/routers/auditease.py:567-611 | child of a visible group above depth 2 with no own ledger mapped to it, else 404, 400 or 409 |
| ChartOfAccounts.ChartStore.RenameGroup | app/routers/auditease.py:615-634 | renames an own group, never a seeded one |
| ChartOfAccounts.ChartStore.DeleteGroup | app/routers/auditease.py:638-660 | deletes an own group without children or mapped ledgers |
| ChartOfAccounts.ChartStore.MapLedger | app/routers/auditease.py:676-700 | maps one ledger of the engagement to a visible leaf |
| ChartOfAccounts.ChartStore.BulkMapLedgers | app/routers/auditease.py:704-729 | maps exactly the named ledgers of the engagement |
| ChartOfAccounts.ChartStore.UnmapLedgers | app/routers/auditease.py:733-757 | unmaps exactly the named ledgers of the engagement |
| ChartOfAccounts.ChartStore.ImportMappings | app/routers/auditease.py:813-926 | checks, then applies a plan to the engagement's mapping column; each counter is the number of assigned targets in its own case |
| ChartOfAccounts.StepKeepsInv | app/routers/auditease.py:505-757 | every request keeps the forest, the mapping and the seeded chart sound |
| ChartOfAccounts.MappedGroupsAreLeaves | app/routers/auditease.py:566-757 | in every run a mapped group exists, is visible and has no visible child; no parent dangles; depth at most 2 |
| ChartOfAccounts.PathsEndAtSeededHeads | app/routers/auditease.py:573-602 | a walk up takes exactly `level` steps to a seeded head, through groups its viewer sees |
| ChartOfAccounts.EnsureKeepsInv | app/services/ledger_groups.py:55-106 | seeding completes an empty chart, changes nothing later, and never breaks a mapping |
| ChartOfAccounts.SeedingBreaksExactly | app/services/ledger_groups.py:55-106 | on any partly seeded chart seeding completes it, and leaves every mapping on a leaf exactly when none is on a seeded head lacking a sub-group |
| ChartOfAccounts.TenantsDoNotInterfere | app/routers/auditease.py:505-757 | no request of one company changes anything another sees |
| ChartOfAccounts.PlannedImportNeverFails | app/routers/auditease.py:856-884 | with the real planner the three server-error checks never fire |
| ChartRequests.CreateGroupDoes | app/routers/auditease.py:567-611 | accepted exactly under a visible group above depth 2 that no own ledger is mapped to; one group is added |
| ChartRequests.RenameGroupDoes | app/routers/auditease.py:615-634 | exactly an own group takes the name |
| ChartRequests.DeleteGroupDoes | app/routers/auditease.py:638-660 | exactly an own group without children and mapped ledgers goes |
| ChartRequests.MapLedgerDoes | app/routers/auditease.py:676-700 | exactly a ledger of the engagement is mapped, to a visible leaf |
| ChartRequests.BulkMapDoes | app/routers/auditease.py:704-729 | exactly the named ledgers of the engagement are mapped |
| ChartRequests.UnmapDoes | app/routers/auditease.py:733-757 | exactly the named ledgers of the engagement are unmapped |
| ChartRequests.DropDoes | app/routers/auditease.py:1017-1039 | exactly an engagement of the company goes, with its ledgers and no others |
| ChartRequests.ImportDoes | app/routers/auditease.py:813-926 | exactly when an import is accepted; without overwrite every mapped ledger keeps its group, every other assigned target takes its source's, and no other ledger of any engagement changes |
| ChartRequests.ImportRowsDoes | app/routers/auditease.py:387-410 | a trial balance import drops exactly the named ledgers of the engagement, adds unmapped ones and keeps the rest with their mapping |
| MappingImport.ApplyAssignments | app/routers/auditease.py:886-899 | the counting loop computes the specified column and counters |
| MappingImport.ChecksMeanOneToOne | app/routers/auditease.py:879-884 | the set-size checks hold exactly for one-to-one plans no longer than the sources |
| MappingImport.ImportConservesCounts | app/routers/auditease.py:876-899 | the counters add up, unassigned targets and (without overwrite) existing mappings stay, and a second run updates nothing |
| MappingImport.CountsAreCases | app/routers/auditease.py:886-899 | the three counters are the numbers of kept, already right and changed targets |
| MappingImport.UncheckedPlanNeverSettles | app/routers/auditease.py:883-899 | a plan the checks refuse would never settle |
| MappingPlanner.IdentityUsesOnce | app/services/mapping_import.py:98-121 | exact identities never reuse a source |
| MappingPlanner.PlanIsChecked | app/services/mapping_import.py:69-216 | every plan passes its closing assertions and carries its sources' groups |
| MappingPlanner.MatchesAreConservative | app/services/mapping_import.py:98-173 | a match has equal names, never two different codes, and agrees with every identical source |
| MappingPlanner.UnmatchedMeansUnrelated | app/services/mapping_import.py:174-206 | unmatched is reported exactly when no source shares the name or the code |
| PlannerVerdicts.TwinsAreDealtInOrder | app/services/mapping_import.py:98-121 | a target with identical sources is matched exactly when they agree on the group and outnumber the earlier identical targets, and takes the one as far down as it is itself |
| PlannerVerdicts.NamesAreDealtOnce | app/services/mapping_import.py:122-206 | any other target is matched exactly when sources of its name are free and agree on the group, with the first; else the issue says exactly why not |
| PlannerVerdicts.PlanIsTheMatches | app/services/mapping_import.py:108-173 | the plan assigns exactly the matched targets, each its source and its group |
| AssetCosting.AllocatePerUnit | app/services/asset_costing.py:89-104 | the remainder loop computes the specified allocation |
| AssetCosting.AllocationTiesOut | app/services/asset_costing.py:89-104 | parts sum to the total exactly when it is not negative or divides evenly |
| AssetCosting.AllocationIsFair | app/services/asset_costing.py:98-104 | parts differ by at most a paisa, larger ones first |
| AssetCosting.RegisterReconciles | app/services/asset_costing.py:140-207 | tax halves exhaust the tax, outlay less cost is the recoverable tax, units sum to the cost |
| AssetCosting.SplitWithinAPaisa | app/services/asset_costing.py:107-137 | intra- and inter-state tax differ by at most a paisa |
| AssetCosting.StatesMoveCostExactly | app/services/asset_costing.py:119-207 | another state code changes the tax exactly by flipping the split of a tax that is not nil or typed, and the landed cost exactly when besides the tax on the unchanged net price rounds to different capitalized amounts under the two splits, a paisa at most |
| CostingRules.CostingIsExact | app/services/asset_costing.py:107-207 | costing succeeds exactly for a positive quantity, a discount in range and a named credit; price, discount, tax by the two states or as typed, credit and incidentals are then each the exact amount to the paisa, and cost and outlay their sums |
| CostingRules.SharesAre | app/services/asset_costing.py:89-104 | each part is the quotient, and a paisa more for as many leading units as there are paise over |
| AssetBatch.Reallocate | app/services/asset_register.py:141-151 | the loop writes each unlocked unit its own share and leaves the rest |
| AssetBatch.Acquisition.RecomputeCosts | app/services/asset_register.py:59-151 | derived columns and unit costs, or nothing when costing raises |
| AssetBatch.Acquisition.Resize | app/routers/asset_acquisitions.py:176-247 | grow or shrink and renumber, or refuse leaving the batch unchanged |
| AssetBatch.Acquisition.Renumber | app/routers/asset_acquisitions.py:243-246 | the loop numbers the units 1..N in their order |
| AssetBatch.Acquisition.UpdateAcquisition | app/routers/asset_acquisitions.py:104-173 | every branch of the PATCH as specified, whose effect PatchDoes pins column by column; an error restores the whole batch |
| AssetBatch.Acquisition.DeleteDraftAsset | app/routers/assets.py:951-994 | removes one draft, recounts, recosts; the last unit takes the acquisition with it |
| AssetBatch.QuickAddStartsCounted | app/routers/assets.py:220-287 | a new batch has as many units as asked for, numbered 1..N |
| AssetBatch.BatchesStayCounted | app/routers/assets.py:965-988 | in every run quantity is the number of units, and ids and indices are distinct |
| AssetBatch.ResizeRenumbers | app/routers/asset_acquisitions.py:185-247 | indices 1..N, survivors in order, new units drafts, a shrink removes exactly trailing drafts |
| AssetBatch.ShrinkRefusedExactly | app/routers/asset_acquisitions.py:216-227 | refused exactly when a trailing unit is not a draft |
| AssetBatch.GrowthAppendsIffDense | app/routers/asset_acquisitions.py:197-246 | new units come last, however ties fall, exactly when there was no gap |
| AssetBatch.UnitsTieOutExactly | app/services/asset_register.py:141-151 | units sum to every landed cost exactly when none is locked and indices are 1..N |
| AssetBatch.DraftDeleteTiesOutExactly | app/routers/assets.py:980-988 | after a draft delete that holds exactly when the last unit went |
| AssetBatch.ResizeTiesOut | app/routers/asset_acquisitions.py:243-247 | right after a resize the units sum to the landed cost |
| AssetBatch.CapitalizedCostIsFixed | app/services/asset_register.py:67-69 | in every run a capitalized unit keeps its place, number and cost |
| AssetPatch.PatchDoes | app/routers/asset_acquisitions.py:104-173 | exactly when a PATCH is accepted; each column then holds what was sent, in two decimals where numeric, or what it held; untyped tax amounts, the flag, the place of supply and the books are those of costing exactly these columns with today's states |
| BatchRequests.PatchKeepsUnits | app/services/asset_register.py:141-151 | without another quantity the units stay and those off the books take their share of the new cost |
| BatchRequests.PatchResizes | app/routers/asset_acquisitions.py:176-247 | with another quantity they are numbered anew and share the cost; fewer are the first ones, more all the old in order and new drafts |
| BatchRequests.DeleteDoes | app/routers/assets.py:951-994 | exactly a draft of the batch goes; the rest keep order, number and status and share what one unit less costs |
| BatchRequests.MoveDoes | app/routers/assets.py:704-947 | a unit moves exactly along the lifecycle and nothing else about the batch changes |
| BatchRequests.QuickAddDoes | app/routers/assets.py:220-287 | accepted exactly within the bounds when its costing runs; numbered drafts that share the cost |
| AssetFreeze.FreezeExactly | app/routers/asset_acquisitions.py:110-161 | under the lock an accepted PATCH keeps the quantity and every typed column but a NULL place of supply; tax amounts not typed by hand and all books come from costing the stored columns and today's master data |
| AssetFreeze.BooksAreLastCosting | app/services/asset_register.py:59-151 | in every run books and tax amounts are those of the last accepted costing, and the columns hold its inputs in two decimals |
| AssetFreeze.LockedBooksMoveExactly | app/services/asset_register.py:72-128 | under the lock books and tax amounts move exactly when that costing, restated with rounded numbers and today's states, comes out differently |
| AssetFreeze.LockedCostMovesByFlipsOnly | app/services/asset_register.py:72-128 | with two-decimal inputs they move only by a flip of the split: tax amounts exactly if it is not nil or typed, the landed cost exactly if the stored net price's tax rounds to different capitalized amounts under the two splits, by a paisa at most |
| AssetFreeze.SupplierStateMovesLockedCost | app/services/asset_register.py:73-82 | a corrected supplier state takes a paisa off a capitalized acquisition, whose unit keeps its cost |
| AssetFreeze.TypedPriceMovesLockedCost | app/models/assets.py:153 | a price typed with three decimals does so with the master data unchanged |
| AssetLifecycle.AssetStore.SubmitAsset | app/routers/assets.py:705-752 | drafts of the batch move to ready with the submitter, or none; `updated` lists them |
| AssetLifecycle.AssetStore.ApproveAsset | app/routers/assets.py:756-817 | ready units move to capitalized with the approver, or none |
| AssetLifecycle.AssetStore.RejectAsset | app/routers/assets.py:821-851 | ready units go back to draft; 409 when there is none |
| AssetLifecycle.AssetStore.DisposeAsset | app/routers/assets.py:855-947 | only a capitalized asset, only by an admin, only if valid |
| AssetLifecycle.AssetStore.UpdateAsset | app/routers/assets.py:568-639 | every branch of the edit, the category's defaults, the percentage as typed and as stored, and the commit-time code index |
| AssetLifecycle.AssetStore.AssignSerials | app/routers/assets.py:643-688 | the grid is written entry by entry or not at all |
| AssetLifecycle.AssetStore.DeleteDraftAsset | app/routers/assets.py:951-963 | only drafts are deleted |
| AssetLifecycle.GateMovesAllOrNone | app/routers/assets.py:712-752 | a batch gate moves exactly the eligible units or, on one incomplete unit, none |
| AssetLifecycle.StampsTellTheStage | app/routers/assets.py:737-739 | in every run submitter and approver are set exactly by stage |
| AssetLifecycle.StepIsLawful | app/routers/assets.py:704-994 | only draft, ready, capitalized, disposed in order, and ready back to draft, ever occur |
| AssetLifecycle.DefaultsFillGapsOnly | app/services/asset_register.py:162-181 | an edit stores what it sends, keeps what it does not, and a newly named category fills exactly the gaps among its five columns |
| AssetLifecycle.CapitalizedStaysPut | app/routers/assets.py:573-589 | in every run a capitalized asset stays, keeps its code and all columns outside the editable set but the two derived ones; its residual value is unchanged exactly until the first edit there, and then what the stored columns give; disposal is final |
| AssetLifecycle.ResidualIsLastDerived | app/services/asset_register.py:154-159 | in every run a residual value is its cost at the percentage of its last derivation, typed or stored |
| AssetLifecycle.LockedResidualMovesExactly | app/routers/assets.py:614-622 | the residual value of an asset on the books moves exactly when an admin edits it there and the stored percentage gives another value than the one last used |
| AssetLifecycle.FinePercentageDrifts | app/models/assets.py:315 | 5.005 per cent of 100000.00 is 5005.00 until an edit of the remarks makes it 5010.00 |
| AssetLifecycle.ReadyCodeChangesExactly | app/routers/assets.py:591-600 | when the code of a ready asset changes despite the draft-only rule |
| AssetRequests.SubmitDoes | app/routers/assets.py:705-752 | exactly when a submit is accepted; exactly the drafts it reaches become ready in the user's name |
| AssetRequests.ApproveDoes | app/routers/assets.py:756-817 | exactly when an approval is accepted; exactly the ready units it reaches become capitalized in the admin's name |
| AssetRequests.RefuseDoes | app/routers/assets.py:821-851 | exactly the ready units reached go back to draft and lose the submitter |
| AssetRequests.DisposeDoes | app/routers/assets.py:855-947 | exactly a capitalized asset is disposed of, by an admin |
| AssetRequests.CreateDoes | app/routers/assets.py:291-337 | a new asset is an unsigned draft under a code nobody has |
| AssetRequests.EditDoes | app/routers/assets.py:568-639 | exactly when an edit is accepted; it leaves status, stamps and every other asset alone |
| AssetRequests.EditStores | app/services/asset_register.py:162-181 | every column holds what was sent or what it held, but for the gaps a new category fills |
| AssetRequests.EditRederives | app/services/asset_register.py:154-159 | residual value and end of warranty are those of the columns and of the percentage typed or else stored |
| AssetRequests.GridDoes | app/routers/assets.py:643-688 | a serial grid is accepted exactly when its entries can be written one after the other; each unit ends with the last code given for it |
| AssetRequests.RecostDoes | app/services/asset_register.py:141-151 | a costing gives exactly the units off the books their share and derives their columns again |
| AssetRequests.DeleteDoes | app/routers/assets.py:951-963 | exactly a draft goes, by an admin |
| AssetRequests.StampsNameTheActors | app/routers/assets.py:737-802 | in every run the stamps name the user of the last submit that stands and the admin of the last approval |
| Compliance.RecordStore.ArchiveRecord | app/routers/compliance.py:320-350 | snapshots and archives the linked document, locks the record |
| Compliance.RecordStore.UnarchiveRecord | app/routers/compliance.py:353-384 | restores the snapshot and unlocks the record |
| Compliance.RecordStore.UpdateRecord | app/routers/compliance.py:299-317 | an archived record is locked |
| Compliance.RecordStore.SyncFromDocvault | app/routers/compliance.py:270-296 | one new record per importable document, in order |
| Compliance.SyncIsAdditiveAndComplete | app/routers/compliance.py:127-161 | existing records stay, and exactly the importable documents get exactly one record |
| Compliance.SyncIsIdempotent | app/routers/compliance.py:274-278 | an immediate second sync imports nothing |
| Compliance.ClaimedForGood | app/routers/compliance.py:137-147 | a claimed document is never importable again, whatever is archived or unarchived |
| Compliance.SnapshotsRemember | app/routers/compliance.py:335-340 | an open archive's snapshot is the document as it was, whatever happened since |
| Compliance.UnarchiveRestoresExactly | app/routers/compliance.py:368-372 | for every order: the document comes back to a face exactly when the record was archived from it |
| Compliance.NestedArchivingRestores | app/routers/compliance.py:319-384 | every well-nested run keeps the document archived while anything is open and then restores status and lock |
| Compliance.FirstInFirstOutStaysArchived | app/routers/compliance.py:319-384 | two records closed in opening order leave the document archived |
| ComplianceRequests.ArchiveDoes | app/routers/compliance.py:320-350 | exactly an open record is archived; its document's status and lock are remembered, then archived and locked |
| ComplianceRequests.UnarchiveDoes | app/routers/compliance.py:353-384 | exactly an archived record is reopened; its document gets exactly the remembered status and lock back |
| ComplianceRequests.UpdateDoes | app/routers/compliance.py:299-317 | exactly an open record takes the edit |
| ComplianceRequests.SyncDoes | app/routers/compliance.py:127-161 | exactly the documents of the domain's bucket that are not archived and that no record names get one open record each, oldest first |
| DocVault.UploadStartsClean | app/routers/docvault.py:365-410 | an upload has version 1 current and is pending exactly with an approver |
| DocVault.DocumentRow.UploadVersion | app/routers/docvault.py:436-475 | next number after the maximum, made current; approval withdrawn |
| DocVault.DocumentRow.Update | app/routers/docvault.py:618-700 | every refusal and write of the PATCH |
| DocVault.DocumentRow.RequestReview | app/routers/docvault.py:711-763 | pending with approver and request time, old approval cleared |
| DocVault.DocumentRow.Decide | app/routers/docvault.py:792-829 | answer and document equal the specification, whose guards and effect ReviewDoes pins |
| DocVault.DocumentRow.Archive | app/routers/docvault.py:862-889 | archived and locked by creator or admin, not over a pending approval |
| DocVault.DocumentRow.Unarchive | app/routers/docvault.py:893-921 | an archived document starts over as uploaded |
| DocVault.VersionsAndStampsHold | app/routers/docvault.py:435-921 | in every run versions are 1..n with n current, and approval stamps are complete and only where due |
| DocVault.ApproverLostExactly | app/routers/docvault.py:696-697 | one request strips a pending document of its approver exactly by PATCHing null while meeting the handler's guards, each of which the caller can check |
| DocVault.PendingHasApprover | app/routers/docvault.py:758-763 | without such a PATCH every pending document has an approver in every run |
| DocVault.VerifiedVersionWasReviewed | app/routers/docvault.py:809-829 | in every run a verified document's current version is the reviewed one, by the stamped reviewer, who was the approver named at the time or an admin, saw the bucket and was not the uploader unless an admin |
| DocVault.LockedContentIsFrozen | app/routers/docvault.py:650-664 | no non-admin request changes a locked document's content or unlocks it |
| DocVault.StampsSpeakExactly | app/routers/docvault.py:435-921 | in every run, unarchiving included, the stamps speak for the current version exactly when the last upload, restore, approval request or review that went through is a verifying review |
| DocVault.VerifiedIsReviewedExactly | app/routers/compliance.py:368-372 | a verified document, however it got there, is covered and stamped exactly then |
| DocVault.ReinstatedExactly | app/routers/compliance.py:368-372 | after any requests in between, other records' unarchivings included, a verified document brought back by its record is covered by its last verdict and stamped exactly when nothing disturbed it for good |
| DocVault.OldVerdictStands | app/routers/compliance.py:368-372 | corollary: the verdict it was archived with covers it exactly when current version and approver are those it was archived with |
| DocVault.ShutFacesKeepTheVerdict | app/routers/compliance.py:368-372 | it comes back verified, stamped and on the reviewed version if no admin acted on it and every other record unarchived meanwhile was archived while it was locked and neither pending nor open to an approval request |
| DocVault.OnlyShutFacesAreSafe | app/routers/compliance.py:368-372 | after another record's unarchiving users who are not admins cannot spoil the verdict exactly when it brought back such a face |
| DocVault.ReinstatedVerdictIsStale | app/routers/compliance.py:368-372 | an admin's upload in between is presented as verified |
| DocVault.ReinstatedWithoutStamps | app/routers/docvault.py:893-921 | an admin's restore in between leaves it verified without stamps |
| DocVault.AnotherRecordSpoilsIt | app/routers/compliance.py:353-384 | a run in which another record's unarchiving opens it, its creator uploads and the new version is presented as verified |
| DocRequests.UploadDoes | app/routers/docvault.py:347-430 | accepted exactly into an existing bucket the uploader sees and, for approval, to an eligible approver who is not himself unless an admin |
| DocRequests.VersionDoes | app/routers/docvault.py:436-475 | exactly the creator or an admin who sees the bucket adds version n + 1 to an unlocked document that is not pending with somebody else; a verification is lost |
| DocRequests.AskDoes | app/routers/docvault.py:711-763 | exactly the creator or an admin asks approval, of an eligible other user, while the document is uploaded or sent back |
| DocRequests.ReviewDoes | app/routers/docvault.py:792-829 | a review passes exactly on a pending document for the named approver who did not upload it, or an admin, who sees the bucket; its whole effect |
| DocRequests.ArchiveDoes | app/routers/docvault.py:862-889 | exactly the creator or an admin who sees the bucket archives and locks it, unless it is pending with somebody else |
| DocRequests.RestoreDoes | app/routers/docvault.py:893-921 | exactly an admin restores exactly an archived document, which loses every trace of its approval |
| DocRequests.PatchDoes | app/routers/docvault.py:618-700 | exactly when a PATCH is accepted; every field sent is stored and no other changes |
| DocRequests.NamedApproverDecidesExactly | app/routers/docvault.py:742-814 | whoever approval was asked of can decide, whatever uploads and edits come in between, exactly unless he uploaded the document and is no admin |
| CaddyConfig.ExtractDials | maintenance.py:78-90 | the recursive loops compute the specified set |
| CaddyConfig.DialsAreExactlyTheDialStrings | maintenance.py:78-90 | exactly the strings under a "dial" key reachable by some path, at any depth |
| MaintenanceSwitch.Gateway.WaitForRoute | maintenance.py:362-370 | true means the mode is served; false on a route that was coming up means the time ran out and the last poll got no answer or none saw the reload settle |
| MaintenanceSwitch.Gateway.Switch | maintenance.py:306-328 | success means linked and serving; it fails only if one of its own commands was refused or its own wait was bad in that sense; for every ending, Ctrl+C included, the outcomes so far say whether the new mode is linked and whether the switch succeeded |
| MaintenanceSwitch.Gateway.Activate | maintenance.py:312-328 | the same after the relink: the old link is back exactly when the relink back that the outcomes make due has gone through |
| MaintenanceSwitch.InterruptLeavesMaintenanceExactly | maintenance.py:306-328 | Ctrl+C leaves the new mode linked exactly at the relink once that took effect, later while no relink back is due, or at the relink back before that took effect |
| MaintenanceSwitch.CaddyEdge.AssertGatewayRoute | maintenance.py:180-186 | passes only with the live route exactly the gateway |
| MaintenanceSwitch.CaddyEdge.EnsureGatewayRoute | maintenance.py:188-230 | returns only with the live route exactly the gateway; reloads only after Caddy answered, the live route was read, the mounted configuration was adapted and is exactly the gateway, and its validation passed; never installs another; leaves a good route alone; every failure has its reason: a refused command, an unsafe mounted configuration, or a wait whose last read failed or that never saw the reload settle |
| MaintenanceCountdown.RunCountdown | maintenance.py:407-423 | ends interrupted exactly when the pass at which Ctrl+C comes is reached before the time is up; shows exactly the numbers due by then, strictly falling, and with exact sleeps all of them |
| MaintenanceCountdown.ExactClock | maintenance.py:413-423 | with exact sleeps pass p is reached exactly when p tenths of a second do not exceed the countdown |
| MaintenanceCountdown.BeatStep | maintenance.py:416-423 | one exact pass keeps the display in step with the clock |
| MaintenanceCommands.CommandOn | maintenance.py:445-453 | success means maintenance linked, served, recorded and reached through the gateway; without the gateway nothing is touched, and the state is recorded only over an edge that leads to it; from a good edge only Ctrl+C, a refused command or a bad wait prevents it |
| MaintenanceCommands.CommandOff | maintenance.py:456-488 | every ending, Ctrl+C at any command included, with link and state it leaves; after a failed switch it is back in maintenance unless Ctrl+C comes or the recovery's own switch or write fails for a reason; from a good edge and without Ctrl+C only a refused command or a bad wait prevents status 0; every reason lies within the commands that ran |
| MaintenanceCommands.CountdownIsCancelledExactly | maintenance.py:469-474 | from active maintenance, when the commands up to the countdown are accepted, a Ctrl+C that the countdown hears and nothing else cancels: maintenance stays linked and served, and active unless that write is refused; otherwise the command ends as its switch does |
| MaintenanceCommands.GoLive | maintenance.py:476-480 | succeeds only with the app linked, served and reached through the gateway, fails only for a reason within its own commands, and however it ends the outcomes so far say whether the app stays linked |
| MaintenanceCommands.Recover | maintenance.py:481-484 | recovery ends in maintenance with state active unless Ctrl+C comes, its own switch is bad or its last write is refused |
| KeyRotation.RewrapInMemory | ops/kubera-rotate-root-kek.py:96-118 | all keys are re-wrapped in memory, or one does not open and nothing is kept |
| KeyRotation.KeyTable.WriteRows | ops/kubera-rotate-root-kek.py:129-137 | every row gets its own re-wrapped key |
| KeyRotation.KeyTable.RotateRoot | ops/kubera-rotate-root-kek.py:68-149 | exit status and key table equal the specification |
| KeyRotation.RotationKeepsCompanyKeys | ops/kubera-rotate-root-kek.py:98-137 | the same company keys under the new root and none under the old; rows change only if every key opened and apply was given |
| KeyRotation.RotationPreservesReads | ops/kubera-rotate-root-kek.py:98-137 | every document and mail password reads the same after any rotation, accepted or refused |
| KeyRotation.UploadReadsBack | app/routers/docvault.py:293-343 | a stored file decrypts to what was uploaded |
| KeyRotation.UploadsStayReadable | app/encryption.py:25-83 | in every run of companies, uploads and rotations every upload stays readable |
| KeyRequests.CompanyDoes | app/encryption.py:25-51 | a company gets a key once, and it opens to what was generated |
| KeyRequests.UploadDoes | app/routers/docvault.py:293-343 | accepted exactly for a company whose key opens; one version and one file are added, which read back as sent |
| KeyRequests.SmtpDoes | app/routers/company_smtp.py:70-115 | a mail password is stored exactly for a company whose key opens, and reads back |
| KeyRequests.RotationDoes | ops/kubera-rotate-root-kek.py:68-149 | a rotation puts the next root in place exactly when applied with another key than the one that opens every company key; these then open to what they were, and else nothing changes |
| KeyRequests.MailStaysReadable | app/encryption.py:86-100 | in every run, rotations included, a company's mail password is the last it set |
| Backfills.LastOf | alembic/versions/a7c4e9b1d2f8_pending_invite_unique_engagement_email.py:37-38 | every group of rows has one last by (time, id) |
| Backfills.InviteTable.Upgrade | alembic/versions/a7c4e9b1d2f8_pending_invite_unique_engagement_email.py:25-47 | the two statements make the unique constraint creatable |
| Backfills.InvitesKeepTheNewest | alembic/versions/a7c4e9b1d2f8_pending_invite_unique_engagement_email.py:31-40 | each (engagement, lower-cased e-mail) keeps exactly its newest row, lower-cased and otherwise unchanged |
| Backfills.RunTable.Upgrade | alembic/versions/c1f2e3d4a5b6_depreciation_run_unique_per_fy.py:35-64 | the update makes the unique index creatable |
| Backfills.YearsKeepTheirLatestRun | alembic/versions/c1f2e3d4a5b6_depreciation_run_unique_per_fy.py:35-56 | each year with a finalized run keeps exactly the latest, even with null times; nothing else changes |
| Backfills.RoundsAreOneToN | alembic/versions/7e5ea3f3eed7_requirements_open_closed.py:57-63 | round numbers are exactly 1..n per requirement in order of time |
| Backfills.BackfilledNumbersAreNew | alembic/versions/7e5ea3f3eed7_requirements_open_closed.py:83-92 | filled-in numbers differ from each other and from existing ones, which stay, and follow them without a gap in order of time; nothing else changes |
| AccessModules.NormalizeAccessibleModules | app/access_modules.py:22-43 | the nested loops compute the specified list |
| AccessModules.FirstsAreTheOnlyOne | alembic/versions/4f6a8b0c2d1e_split_compliance_module_access.py:27-35 | the loop's de-duplication is the only list the SQL grouping describes |
| AccessModules.NormalizedGrants | app/access_modules.py:22-43 | exactly the canonical grants, the legacy one expanded and gone, no repeats |
| AccessModules.NormalizingIsIdempotent | app/access_modules.py:22-43 | normalising twice changes nothing |
| AccessModules.NormalizingIsCompositional | app/access_modules.py:32-41 | normalising piecewise changes nothing |
| AccessModules.ValidationIsExact | app/access_modules.py:46-51 | accepts exactly known ids and the legacy one, and its result validates to itself |
| AccessModules.UpgradeGrantsTheSame | alembic/versions/4f6a8b0c2d1e_split_compliance_module_access.py:20-39 | every row is granted the same modules as by the Python normalisation |
| AccessModules.UpgradeMayReorder | alembic/versions/4f6a8b0c2d1e_split_compliance_module_access.py:27-35 | a row whose order differs |
| AccessOrder.UpgradeKeepsOrderExactly | alembic/versions/4f6a8b0c2d1e_split_compliance_module_access.py:20-39 | SQL and Python store the same list exactly when a row without the legacy grant had no repeats, or the missing halves and the new names after the legacy grant begin one another |
| AccessModules.DowngradeUndoesUpgradeExactly | alembic/versions/4f6a8b0c2d1e_split_compliance_module_access.py:42-60 | down after up restores a row's grants exactly when it held neither half by itself |

## Left out

- Concurrent transactions: every handler is one atomic step; locks, retries and races between requests are not modelled.
- Unique constraints (grant per auditor and engagement, pending invite per engagement and e-mail, key per company, e-mail per auditor) are the keys of the tables, so a violation cannot be expressed.
- Text: characters are compared one by one; `lower` and `strip` cover ASCII letters and the common blanks, not Unicode case folding or other white space.
- Numbers: amounts are exact reals or whole paise; the float sums of an audit entry are those of an arbitrary float arithmetic; the 28-digit limit of decimal arithmetic and column overflow are not modelled.
- RateLimiter.WindowBound: assumes the scopes are colon-free and that one scope is used with one set of parameters, as at every call site; a store that is down admits everybody, so such requests are excluded.
- Audit engagements: e-mails, notifications, document access overrides, sequence numbers of requirements, requirement import and company-side query messages are left out.
- Conservation.Conserved: ledgers of an approved entry may lie outside the trial balance, because the handler does not check; the theorem says what is then lost.
- Chart of accounts: the `has_children` and `nature` columns, sign conventions and re-derived canonical figures are left out; the re-import planner appears only as a set of inserted and deleted rows.
- MappingPlanner.Plan: the planner is modelled as functions on rows whose codes and names are already normalised and in order, not as loops over shared buckets.
- AssetBatch: asset codes, category defaults of new units and the supplier's name and tax number as copied to the row are left out; a null in a mandatory column and an unknown branch, which fail at commit, are not modelled.
- AssetLifecycle: the checklists of a transition enter as the set of complete units; custom-field validation and serial numbers are left out; a category enters a request by its defaults, and a date is a number.
- Compliance: records never lose their document, because documents are archived and not deleted.
- DocVault.VersionsAndStampsHold: excludes the unarchiving of compliance records, for which StampsSpeakExactly and ReinstatedExactly take its place.
- MaintenanceSwitch: a probe answers only if Nginx serves the probed mode; printing, file locking and the status command are left out.
- KeyRotation: encryption is an ideal sealed box; real AES-GCM, nonce reuse and key generation are not modelled.
- Backfills: each statement reads one snapshot of its table; schema changes, the document backfill and the collapse of requirement states are left out.
- AccessModules.Downgraded: only the effect on the set of grants is stated.
- Report building, exports, health checks, the remaining routers and the frontend are left out as plain input and output.
