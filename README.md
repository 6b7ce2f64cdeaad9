# Workspace handlers of sphinx-tribes, modelled in Dafny

This project models the decision logic of the workspace HTTP handlers in
`handlers/workspaces.go` of sphinx-tribes. A workspace has an owner, members, role
grants, a budget and budget invoices paid over lightning. Each handler is modelled
without its HTTP and JSON layers. It becomes a function or method from the
authenticated caller, the request, an abstract database state and the answers of the
calls this model does not define. Its result is a status or a typed rejection, plus
the resulting state.

Modules:

- `WorkspaceState` (`state.dfy`) holds the shared vocabulary:
  - statuses and role names;
  - the workspace and membership records;
  - the `Store`, which maps uuids to workspaces and holds the membership rows and the known people;
  - the zero-record lookups `GetWorkspaceByUuid` and `PersonPubKey`.
- `Text` (`text.dfy`) holds the Go string operations the validation uses:
  - `strings.TrimSpace` with the `unicode.IsSpace` code points;
  - `len`, which counts UTF-8 bytes;
  - `strings.Contains`.
- `Invoices` (`invoices.dfy`) covers `PollBudgetInvoices`:
  - the class `WorkspaceLedger` holds the budget and invoice rows that the handler updates in place;
  - `Poll` is the loop as a function;
  - a closed form (`Examined`, `CreditedAmount`, `CreditedRequests`) is an independent description of one poll, proved equal to `Poll`.
- `RoleGrants` (`roles.dfy`) covers `AddUserRoles`: the guard chain, the loop that validates and stamps each role, and the membership check. The method returns the batch it would write.
- `Membership` (`membership.dfy`) covers `CreateWorkspaceUser`, `DeleteWorkspaceUser` and `DeleteWorkspace` as functions from a `Store` to a rejection or a new `Store`.
- `Listings` (`listings.dfy`) covers `GetCreatedWorkspaces`, a loop over an array updated in place, and the appending loops of `GetUserWorkspaces` and `GetUserDropdownWorkspaces`.
- `WorkspaceEdit` (`edit.dfy`) covers the validation and write of `CreateOrEditWorkspace`.

Calls whose definitions lie outside `handlers/workspaces.go` are parameters of the model:

- `db.UserHasAccess`, `db.CheckUser`, `userHasManageBountyRoles`;
- the roles map, the budget and bounty-count queries;
- `getLightningInvoice`;
- `db.Validate.Struct`;
- `GetWorkspaceByName`;
- the clock, `xid`, and whether a database write fails.

The handlers are sequential and make their checks one by one. The model follows the code in
the places where a stricter behaviour would be natural:

- The handler stops polling at the first failing gateway call and answers 403 (`Invoices.PollStopsAtFirstError`). A reconciler that treated each invoice separately would skip that invoice and continue.
- The handler credits the budget and marks the invoice paid in two separate calls, `AddAndUpdateBudget` and then `UpdateInvoice`, with no transaction; the class method does the same. An atomic reconciler would perform both as one claim on the invoice.
- The handler leaves a settled invoice that is not of kind BUDGET untouched.
- `DeleteWorkspaceUser` has no guard against a caller removing themself, while `CreateWorkspaceUser` refuses to let a caller add themself (`Membership.SelfRemovalAllowed`).
- Whether the owner implicitly holds every capability is decided inside `db.UserHasAccess`, whose definition is not part of this model, so access is an uninterpreted parameter.
- The `AddUserRoles` guards run in the code's order: the caller-in-entries check, then caller equals target, then the ADD ROLES capability.

## Model

| member | source | states |
|---|---|---|
| `Invoices.WorkspaceLedger.PollBudgetInvoices` | handlers/workspaces.go:643-676 | An empty caller gets 401 and nothing changes. Otherwise the status and the new budget and invoice rows are exactly `Poll` of the old rows over the invoice list fetched at the start. |
| `Invoices.WorkspaceLedger.AddAndUpdateBudget` | handlers/workspaces.go:667 | The budget grows by the invoice amount; the invoices are unchanged. |
| `Invoices.WorkspaceLedger.UpdateInvoice` | handlers/workspaces.go:669 | Every invoice with that payment request is marked paid; nothing else changes. |
| `Invoices.WorkspaceLedger.constructor` | handlers/workspaces.go:654 | The ledger starts from the given budget and invoice rows. |
| `Invoices.Poll` | handlers/workspaces.go:656-672 | The status is OK or Forbidden, and OK exactly when every gateway call answered without error. The budget never decreases, and the number of invoice rows is unchanged. |
| `Invoices.PollClosedForm` | handlers/workspaces.go:656-672 | One poll is Forbidden exactly when a gateway call failed. The budget grows by the amounts of the settled, unpaid BUDGET invoices examined before the failure, and exactly their payment requests are marked paid. |
| `Invoices.ExaminedIsPrefixBeforeError` | handlers/workspaces.go:656-663 | The examined invoices are the prefix before the first failing gateway call. Every call in it succeeded and the next one failed. |
| `Invoices.PollStopsAtFirstError` | handlers/workspaces.go:656-663 | If invoice k is the first failing call, the poll answers Forbidden with exactly the effects of the invoices before k. Invoice k and the ones after it are never examined. |
| `Invoices.PollChangesOnlyCredited` | handlers/workspaces.go:665-670 | The budget never decreases. An invoice whose payment request was not credited is left unchanged, and a credited one only has its paid flag set. With nothing creditable, the ledger is unchanged. |
| `Invoices.PollAgainCreditsNothing` | handlers/workspaces.go:665-670 | A second poll over the rows the first one left, with the same gateway answers, returns the same result and changes nothing. |
| `Invoices.PollNeverCreditsTwice` | handlers/workspaces.go:665-670 | No payment request credited by one poll is credited by the next one over the rows it left, whatever the gateway answers the second time. |
| `Invoices.CreditedAfterMarkingAvoids` | handlers/workspaces.go:666-669 | After invoices are marked paid for a set of payment requests, no request of that set is credited from them. |
| `Invoices.ExaminedAfterMarking` | handlers/workspaces.go:669 | Marking invoices paid does not change which invoices a poll examines before a gateway failure. |
| `Invoices.NothingCreditableAfterMarking` | handlers/workspaces.go:666 | Once the credited payment requests are marked, no examined invoice is creditable any more. |
| `Invoices.NoCreditedRequestNoAmount` | handlers/workspaces.go:665-667 | When no payment request is credited, no amount is credited. |
| `Invoices.MarkAllNothing` | handlers/workspaces.go:669 | Marking no payment requests leaves the invoices unchanged. |
| `Invoices.MarkAllTwice` | handlers/workspaces.go:669 | Marking one set of payment requests and then another is the same as marking their union. |
| `Invoices.SettledBudgetInvoiceScenario` | handlers/workspaces.go:665-670 | Budget 0 and one settled, unpaid BUDGET invoice of 5000: the poll credits 5000 and marks the invoice paid, and a second poll leaves the budget at 5000. |
| `Invoices.GatewayErrorThenRecoveryScenario` | handlers/workspaces.go:656-670 | A failing gateway call leaves the invoice unpaid and the budget unchanged. A later poll whose call succeeds credits it. |
| `RoleGrants.AddUserRoles` | handlers/workspaces.go:331-423 | The rejections come in the code's order: missing params, no auth, caller among the entries, caller equals target, no ADD ROLES. Then the first role that fails decides UnknownRole or RoleNotHeld, then a missing membership gives NotMember. A self-grant always fails. On success the batch is every submitted role, in order, stamped with the same time. The caller holds every granted role and ADD ROLES, and the target is a member. |
| `RoleGrants.Precheck` | handlers/workspaces.go:338-382 | The straight-line guards pass exactly when the uuid and target are present, the caller is authenticated and not among the entries, the caller is not the target, and the caller holds ADD ROLES. |
| `RoleGrants.FirstUngrantable` | handlers/workspaces.go:386-403 | Every role before the returned index is in the roles map and held by the caller, and the role at the index is not. |
| `Membership.CreateWorkspaceUser` | handlers/workspaces.go:195-244 | The add succeeds exactly when all of these hold: the caller is authenticated; the target is neither the owner nor the caller; the caller holds ADD USER; the target is a known person, or the empty pubkey, which matches the zero record; the target is not already a member. The rejections come in the code's order: an empty caller, an owner target, the caller as target, a missing ADD USER, an unknown person, an existing membership. A success adds exactly that membership row; a rejection returns no store. |
| `Membership.DeleteWorkspaceUser` | handlers/workspaces.go:297-318 | The removal succeeds exactly when the caller is authenticated, the target is not the owner, and the caller holds DELETE USER; otherwise the rejection is NoAuth, then TargetIsOwner, then LacksPermission, in that order. A success removes exactly that row. |
| `Membership.AddTwiceRejected` | handlers/workspaces.go:232-237 | Adding the same member a second time is rejected as a duplicate. |
| `Membership.AddThenDeleteRestores` | handlers/workspaces.go:318 | Removing a member who was just added, by line 244, restores the previous store. |
| `Membership.OwnerMembershipUntouched` | handlers/workspaces.go:202-309 | Neither handler adds or removes the owner's membership, whoever asks. |
| `Membership.SelfRemovalAllowed` | handlers/workspaces.go:209-318 | A member with DELETE USER can remove their own membership, while adding oneself is always rejected. |
| `Membership.DeleteWorkspace` | handlers/workspaces.go:694-733 | A caller who is not the owner gets 401 and nothing changes. The status is OK exactly when the owner asks, the workspace exists and neither write fails. Then the record stays, cleared and flagged deleted, no membership row of it remains, and everything else is unchanged. For the owner, a failed clear answers 500 and changes nothing, and a failed member removal answers 500 and keeps the clear. |
| `Membership.DeletedWorkspaceKeepsOwner` | handlers/workspaces.go:716-730 | After a successful delete, the workspace record keeps its owner and is flagged deleted, and it has no members. |
| `Listings.GetCreatedWorkspaces` | handlers/workspaces.go:518-535 | The result has one entry per created workspace. Each entry equals the created record except for its bounty count and its budget. The budget is the workspace's total budget when the user holds VIEW REPORT, and 0 otherwise. |
| `Listings.AssignedListingStep` | handlers/workspaces.go:452-470 | The listing of the uuids from position i on is the entry for uuid i, if it is shown, followed by the listing of the rest. This is one turn of the loop. |
| `Listings.AssignedEntry` | handlers/workspaces.go:452-468 | One assigned uuid is shown exactly when its workspace is not deleted and, for the dropdown, the user may manage bounties in it. A shown entry is the stored record with the reported budget and the bounty count of that uuid. |
| `Listings.AppendAssigned` | handlers/workspaces.go:452-512 | The loop appends exactly `AssignedListing` of the assigned uuids to the listing it started from. |
| `Listings.GetUserWorkspaces` | handlers/workspaces.go:435-474 | A zero user id gives 406 and nothing. Otherwise OK: the listing starts with each created workspace, in order, with its bounty count and its budget gated by VIEW REPORT. After them comes exactly the assigned listing, without the dropdown filter. |
| `Listings.GetUserDropdownWorkspaces` | handlers/workspaces.go:476-516 | As `GetUserWorkspaces`: the created workspaces decorated, in order, then the assigned listing, which here also requires bounty-management roles. |
| `Listings.AssignedListing` | handlers/workspaces.go:452-512 | The assigned listing has no more entries than assigned membership rows (a uuid returned twice is listed twice), and none of its entries is deleted. |
| `Listings.AssignedListingIsShownUuids` | handlers/workspaces.go:452-512 | The assigned listing is the shown uuids, in membership order, each looked up and decorated. No entry is deleted, and each budget is the total budget under VIEW REPORT and 0 otherwise. |
| `Listings.AssignedListingComplete` | handlers/workspaces.go:459-510 | Every assigned workspace that is not deleted, and passes the dropdown filter when it applies, appears in the listing. |
| `Listings.DropdownWithinFullListing` | handlers/workspaces.go:459-501 | The dropdown's assigned entries are among the full listing's. The two are equal when the user may manage bounties in every assigned workspace. |
| `Listings.DeletedWorkspaceNotListed` | handlers/workspaces.go:730 | Once its owner has deleted a workspace, the assigned part of no listing shows it to anyone, since that loop skips deleted workspaces at lines 459 and 501. The created part is not covered. |
| `Text.IsSpace` | handlers/workspaces.go:60 | On ASCII, a space is exactly tab, newline, vertical tab, form feed, carriage return or the space character; the rest of the set is Unicode White_Space as Go's `unicode.IsSpace` defines it. |
| `Text.TrimSpace` | handlers/workspaces.go:60 | The result is the slice of the input after its leading spaces. Everything after it is space, and it has no space at either end. It is empty exactly when the input is all spaces. |
| `Text.TrimSpaceFixpoint` | handlers/workspaces.go:60 | A string with no space at either end is its own trimming, so trimming twice is trimming once. |
| `Text.ByteLen` | handlers/workspaces.go:62-69 | A string's byte length is between one and four bytes per character, and exactly one per character for ASCII. |
| `Text.Contains` | handlers/workspaces.go:97 | A string contains each of its prefixes and the empty string, and it contains nothing longer than itself. |
| `Text.ContainsIff` | handlers/workspaces.go:97 | `Contains` holds exactly when the substring occurs at some offset. |
| `WorkspaceEdit.StatusOf` | handlers/workspaces.go:62-147 | No auth, no EDIT ORGANIZATION, an edit of a missing workspace and a taken name answer 401. Every other rejection answers 400. |
| `WorkspaceEdit.CreateOrEditWorkspace` | handlers/workspaces.go:39-152 | An empty caller gets NoAuth. Otherwise the submission, with its name trimmed, is saved exactly when it passes every guard of `Rejection` and the write does not fail. A rejection is the first failing guard, and a failed write that follows passing guards is WriteFailed. The early guards are also stated directly, in order: name, description, EDIT ORGANIZATION, github. A success is well formed and authorised, and the store then holds the written record under its uuid. A creation has id 0 and a free name, and is written with the fresh id, both timestamps, and a fresh uuid if it had none. An edit is written as submitted, with the name trimmed. |
| `WorkspaceEdit.Rejection` | handlers/workspaces.go:62-128 | The guards pass exactly when all of these hold: the trimmed name is 1 to 20 bytes; the description is at most 120 bytes; the caller is the owner or holds EDIT ORGANIZATION; the validator accepts; a github value, if any, contains "github.com/"; and a new workspace carries no id and a name that no other uuid uses. Otherwise the result is the first failing guard, in the handler's order: BadName, BadDescription, NoEditAccess, FailedValidation, BadGithub, EditOfMissing, NameTaken. |
| `WorkspaceEdit.Save` | handlers/workspaces.go:39-148 | The handler with a switch for whose pubkey the ownership guard compares with. An empty caller gets NoAuth. A success writes only that workspace: every other workspace, the memberships and the people are unchanged. A created record always has a database id. |
| `WorkspaceEdit.TrimName` | handlers/workspaces.go:60 | Only the name changes, to its trimming, which has no space at either end. |
| `WorkspaceEdit.CreationAccepted` | handlers/workspaces.go:104-152 | A new workspace submitted by the owner it names, passing every guard, with no id and a free name, is created with the fresh id and the current time, and stored under its uuid. |
| `WorkspaceEdit.ResubmitStored` | handlers/workspaces.go:104-148 | A well-formed stored workspace, resubmitted unchanged by its owner, is written back and the store is unchanged. |
| `WorkspaceEdit.SaveAgainIsNoOp` | handlers/workspaces.go:39-152 | Saving what a save produced, again by its owner, is accepted and changes nothing. A creation always has an id; an edit submitted with id 0 is stored with id 0 and would then count as new, so the lemma assumes a non-zero id. |
| `WorkspaceEdit.OwnerClaimAccepted` | handlers/workspaces.go:76-87 | A caller without EDIT ORGANIZATION who names themself as owner of someone else's stored workspace has the edit accepted, and becomes its stored owner. |
| `WorkspaceEdit.CreateOrEditWorkspaceOwnerChecked` | handlers/workspaces.go:76-87 | With the ownership guard judged by the stored owner, an existing workspace is edited only by that owner or an EDIT ORGANIZATION holder. An authenticated submission is accepted exactly when every guard passes with that owner and the write succeeds; otherwise the first failing guard, or WriteFailed, is the rejection. An accepted edit, including one that transfers ownership, writes the trimmed submission over the stored record. The result is the handler's own wherever the submitted owner is the stored one or the workspace is new. |
| `WorkspaceEdit.OwnerClaimRefusedWhenChecked` | handlers/workspaces.go:76-87 | The submission that `OwnerClaimAccepted` lets through is refused with NoEditAccess once the stored owner is consulted. |

## Left out

- HTTP and JSON: request decoding (a decoding failure answers 406), response bodies, printed messages and URL parameters, which are inputs here.
- The `db` package is not part of this model:
  - `UserHasAccess`, `CheckUser`, `GetRolesMap` and `userHasManageBountyRoles` are parameters.
  - `GetWorkspaceBudget`, `GetWorkspaceBountyCount`, `GetPerson`, `GetUserCreatedWorkspaces`, `GetUserAssignedWorkspaces` and `GetWorkspaceByName` are parameters.
  - `AddAndUpdateBudget` and `UpdateInvoice` are modelled only for their effect on one workspace's budget and invoice rows. The budget-history rows they may also write are not modelled, and neither are invoices of other workspaces sharing a payment request.
  - `UpdateWorkspaceForDeletion` is shown as the `cleared` flag; which profile fields it clears is not modelled.
  - `CreateOrEditWorkspace` in the database layer is modelled as an upsert by uuid, with the id of a new row, always positive, given as an input.
- The lightning gateway is a function from payment request to reply; the network call, its response format and its timeouts are not modelled.
- `time.Now()` and `xid.New()` are inputs.
- `db.Validate.Struct` is an input predicate.
- `main.go` and `routes/chat.go` are start-up, scheduling and route tables with no logic of their own, and are not part of this model.
- The other handlers of `handlers/workspaces.go` are not modelled:
  - `GetPaymentHistory`: an identity lookup per entry.
  - The getters, counts, mission, tactics and schematic updates.
- `Listings.DeletedWorkspaceNotListed` covers only the assigned part of a listing. The created part is whatever `GetUserCreatedWorkspaces` returns, and `GetCreatedWorkspaces` does not filter deleted rows, so whether a deleted workspace still appears there depends on the database layer, which this model does not define.
- Concurrency: the handlers are sequential, and neither overlapping polls nor an atomic claim on an invoice is modelled.
- The creation and update timestamps of membership rows are not modelled. Neither is any purge of a member's role grants on removal: the handler makes no separate purge call, and whether `db.DeleteWorkspaceUser` removes role rows is not shown.
- `Text.ByteLen`: strings are sequences of code points, so invalid UTF-8 in a Go string is not modelled.
- `Listings.GetUserWorkspaces`: Go's `uint` parsing of the user id is not modelled; the id is a `nat`.
- `Listings.GetCreatedWorkspaces`: budgets are unbounded naturals, so the overflow of Go's `uint` budget total is not modelled.
- `Invoices.Poll`: the same for the budget credit; the sum is not reduced modulo 2^64.

## Findings

| source | as written | input that shows it | evidently intended | confidence | as-written member | corrected member |
|---|---|---|---|---|---|---|
| handlers/workspaces.go:76-87 | The ownership guard compares the caller with the `OwnerPubKey` in the submitted body, so a caller can pass it by naming themself as owner. | Workspace `w1`, stored with owner `alice`. Caller `mallory` has no EDIT ORGANIZATION and submits `w1` unchanged except `ownerPubKey = "mallory"`. The edit is saved and `mallory` becomes the owner. | When editing an existing workspace, compare the caller with the stored owner (`existing.OwnerPubKey`). | not executed | `WorkspaceEdit.OwnerClaimAccepted` | `WorkspaceEdit.CreateOrEditWorkspaceOwnerChecked`, `WorkspaceEdit.OwnerClaimRefusedWhenChecked` |
