# Bill-splitting ledger: settlement derivation and its views

A Dafny model of the core of a bill-splitting ledger. Users create itemised bills. Each item is assigned to one user. For every user other than the payer, the ledger derives one "pending" settlement owed to the payer, covering all that user's items. The model covers:

- **`Derivation`** (`derivation.dfy`): `computeSettlements`. The imperative loop fills a per-user totals record. It is proved equal to a specification (`Derive`) that is stated in terms of per-user totals and the set of assignees. Lemmas then prove the sum, ordering, skip and order-independence properties of that specification.
- **`BillsRoute`** (`bills_route.dfy`):
  - `toNumber`.
  - The read-time `total` / `outstanding` / `paid` projection of the list route.
  - The create route. It validates the body, normalises it, and writes the bill, its items and its settlements in one all-or-nothing step. The store is modelled as a `Ledger` class: its bills in creation order, plus the next fresh bill id.
- **`SplitBillsPage`** (`split_bills.dfy`):
  - The `globalBalances` fold: nested loops over a balance record.
  - The item-row edits of the create form (add, remove, change a field).
  - The submit step: validation, payload mapping and the reset after success.
- **`UserDebtView`** (`user_debt_view.dfy`):
  - Flattening every bill's settlements (nested loops that push).
  - The selected-user filter.
  - The split into to-pay / to-receive / paid-out / received.
  - The two totals. A lemma proves they agree with the page's global balance sheet.
- **`Wrappers`** (`wrappers.dfy`): an `Option` type for absent JSON fields.

Amounts are integer cents, added exactly. User ids are natural numbers, and 0 stands for any id JavaScript treats as falsy (0, or the NaN of `Number(undefined)`).

A user whose counted amounts cancel out still gets a row. The code creates a totals entry for every counted item (src/app/api/bills/route.ts:14), so amounts 5 and -5 give a row for 0 (`Derivation.CancellingAmountsKeepRow`). The route does not reject negative amounts. With non-negative amounts every row is positive (`Derivation.DerivePositive`).

## Model

| member | source | states |
|---|---|---|
| `Derivation.Derive` | src/app/api/bills/route.ts:10-24 | every derived row is owed to the payer, is pending and does not come from the payer; its debtor was assigned a counted item and its amount is that debtor's counted total; debtors come in strictly ascending id order; every non-payer assignee of a counted item gets a row |
| `Derivation.ComputeSettlements` | src/app/api/bills/route.ts:10-24 | the totals loop followed by the entries/filter/map yields exactly `Derive(items, payerId)` |
| `Derivation.AscendingKeys` | src/app/api/bills/route.ts:16 | the entries of an integer-keyed record come in strictly increasing key order and are exactly its keys |
| `Derivation.IncreasingUnique` | src/app/api/bills/route.ts:16 | two strictly increasing id lists with the same members are equal, so the entry order is determined by the key set |
| `Derivation.DeriveTotal` | src/app/api/bills/route.ts:12-21 | the derived amounts add up to the counted item amounts whose assignee is not the payer |
| `Derivation.DeriveOrderIndependent` | src/app/api/bills/route.ts:11-21 | item lists that are permutations of each other derive the same settlements |
| `Derivation.DeriveSkipsUncounted` | src/app/api/bills/route.ts:13 | inserting an item with a falsy assignee or a zero amount anywhere changes nothing |
| `Derivation.DeriveAllToPayer` | src/app/api/bills/route.ts:17 | if every item is assigned to the payer, no settlement is derived |
| `Derivation.DerivePositive` | src/app/api/bills/route.ts:12-21 | with non-negative amounts every derived amount is positive |
| `Derivation.CancellingAmountsKeepRow` | src/app/api/bills/route.ts:13-14 | counted amounts 5 and -5 for user 2 still produce a row for 0 |
| `Derivation.WorkedExample` | src/app/api/bills/route.ts:10-24 | items 30 to user 2, 20 to user 3 and 10 to payer 1 derive exactly rows 2→1 for 30 and 3→1 for 20 |
| `BillsRoute.ToNumber` | src/app/api/bills/route.ts:4-8 | an absent value reads as 0; a number or decimal reads as its value |
| `BillsRoute.WithStatus` | src/app/api/bills/route.ts:39 | a settlement is kept exactly when it has the requested status; `WithStatusCounts` and `WithStatusConcat` give its multiplicities and order |
| `BillsRoute.WithStatusCounts` | src/app/api/bills/route.ts:39-42 | the status filter keeps each settlement with that status exactly as often as it occurs and drops every other one, so `outstanding` and `paid` count each row once |
| `BillsRoute.WithStatusConcat` | src/app/api/bills/route.ts:39-42 | the status filter distributes over concatenation, so it keeps the settlements' order |
| `BillsRoute.StatusSplit` | src/app/api/bills/route.ts:38-43 | pending total plus paid total equals the total of all settlements |
| `BillsRoute.Project` | src/app/api/bills/route.ts:36-51 | a bill's view keeps the bill, and its `outstanding` plus `paid` is the sum of all its settlement amounts |
| `BillsRoute.Ledger.Create` | src/app/api/bills/route.ts:69-131 | a failing body gets 400 and changes nothing; an aborted transaction gets 500 and changes nothing; a committed transaction appends exactly one bill, under an id no existing bill has, with the normalised items and exactly the derived settlements, and leaves the earlier bills unchanged; the answer is then 201 with that bill, or 500 when the read-back fails, with the bill still stored |
| `BillsRoute.NewBillShape` | src/app/api/bills/route.ts:76-114 | a created bill keeps title, date and payer; it has one item per request item in the same order, with the description defaulting to "", the amount to 0 and the assignee to the falsy id; all its settlements are pending and owed to the payer by someone else |
| `BillsRoute.NewBillProjection` | src/app/api/bills/route.ts:37-43 | a freshly created bill shows `paid` 0 and `outstanding` equal to the non-payer counted amounts, and its `total` is the sum of the request's amounts |
| `SplitBillsPage.GlobalBalances` | src/app/split-bills/page.tsx:193-204 | the record's keys are exactly the users in some pending settlement, and each user's entry (0 when missing) is their net over pending settlements: credited as payee, debited as debtor |
| `SplitBillsPage.OutsiderHasZeroBalance` | src/app/split-bills/page.tsx:199-200 | a user in no pending settlement has balance 0 |
| `SplitBillsPage.BalancesSumToZero` | src/app/split-bills/page.tsx:198-200 | the balances of any list of distinct users that includes everyone in a pending settlement add up to 0 |
| `SplitBillsPage.AddItem` | src/app/split-bills/page.tsx:120-125 | one blank row is appended under the fresh id and the existing rows are unchanged |
| `SplitBillsPage.RemoveItem` | src/app/split-bills/page.tsx:127-129 | a row survives exactly when its id differs from the removed one; the list never grows |
| `SplitBillsPage.ChangeItem` | src/app/split-bills/page.tsx:131-133 | length is kept; only the named field of rows with the matching id takes the new value, and every other field of every row is unchanged |
| `SplitBillsPage.RemoveUndoesAdd` | src/app/split-bills/page.tsx:120-129 | removing the row just added under a fresh id gives back the original rows |
| `SplitBillsPage.RemoveExactlyOne` | src/app/split-bills/page.tsx:127-129 | with unique ids, removing row k's id removes exactly row k and keeps the rest in order |
| `SplitBillsPage.RowEditsKeepOneRow` | src/app/split-bills/page.tsx:308-312 | a removal, offered only with two or more rows, removes exactly one row and leaves at least one (adding and changing keep at least one row by the length clauses of `AddItem` and `ChangeItem`) |
| `SplitBillsPage.AddKeepsUniqueIds` | src/app/split-bills/page.tsx:120-125 | adding a row under an id no row has keeps the row ids unique |
| `SplitBillsPage.RemoveKeepsUniqueIds` | src/app/split-bills/page.tsx:127-129 | removing rows keeps the row ids unique |
| `SplitBillsPage.ChangeKeepsUniqueIds` | src/app/split-bills/page.tsx:131-133 | editing a description, amount or assignee (the only fields the inputs change) keeps the row ids unique |
| `SplitBillsPage.EditKeepsRows` | src/app/split-bills/page.tsx:120-133 | each edit the page offers keeps the ids unique and at least one row |
| `SplitBillsPage.ReplayKeepsRows` | src/app/split-bills/page.tsx:120-133 | any run of offered edits keeps the ids unique and at least one row |
| `SplitBillsPage.ReachableRowsUnique` | src/app/split-bills/page.tsx:77-79 | every item list reachable from one blank row (the initial form and the form after a successful submit) has unique ids and at least one row, so `RemoveExactlyOne` covers every Remove the page offers |
| `SplitBillsPage.SomeIncomplete` | src/app/split-bills/page.tsx:141 | true exactly when some row has an empty description, amount or assignee |
| `SplitBillsPage.CheckForm` | src/app/split-bills/page.tsx:137-156 | the header error exactly when title, date or payer is empty; the rows error exactly when the header is filled and there is no row or some row is incomplete; no other error; a payload exactly when the header is filled, there is at least one row and every row is complete; the payload keeps title and date, converts the payer, and has one item per row in order with its description and converted amount and assignee |
| `SplitBillsPage.HandleSubmit` | src/app/split-bills/page.tsx:135-176 | something is sent exactly when the form checks out, and it is the checked payload; after an accepted request the title is cleared, the date is today and the items are one blank row; otherwise the form is untouched |
| `SplitBillsPage.SentPayloadIsAccepted` | src/app/split-bills/page.tsx:147-156 | the route rejects a sent payload only if the payer id converts to a falsy number, and its normalisation keeps every row as sent |
| `UserDebtView.CollectSettlements` | src/components/user-debt-view.tsx:69-81 | the nested push loops produce exactly `Flatten(bills)` |
| `UserDebtView.Flatten` | src/components/user-debt-view.tsx:69-81 | the flattened list has as many entries as the bills have settlements together |
| `UserDebtView.FlattenAt` | src/components/user-debt-view.tsx:69-81 | settlement j of bill k sits at the count of the earlier bills' settlements plus j, tagged with bill k's id, title and date |
| `UserDebtView.UserSettlements` | src/components/user-debt-view.tsx:83-85 | a flattened settlement is kept exactly when the selected user is its debtor or its payee |
| `UserDebtView.UserSettlementsConcat` | src/components/user-debt-view.tsx:83-85 | the user filter distributes over concatenation, so it keeps the original order |
| `UserDebtView.Split` | src/components/user-debt-view.tsx:110-113 | to-pay holds the pending rows from the user, to-receive the pending rows to the user, paid-out the paid rows from the user and received the paid rows to the user; to-pay and paid-out are disjoint, and so are to-receive and received; `SplitCounts` gives each list's multiplicities |
| `UserDebtView.BucketCounts` | src/components/user-debt-view.tsx:110-113 | each filter keeps every settlement that belongs in its list as often as it occurs, and no other |
| `UserDebtView.BucketConcat` | src/components/user-debt-view.tsx:110-113 | each filter distributes over concatenation, so every list keeps the order of the user's settlements |
| `UserDebtView.SplitCounts` | src/components/user-debt-view.tsx:110-116 | each of the four lists holds every matching settlement exactly as often as the user's list does, which is what the two totals sum over |
| `UserDebtView.NothingToShowIffNoSettlements` | src/components/user-debt-view.tsx:241 | all four lists are empty exactly when the user has no settlement |
| `UserDebtView.DebtViewMatchesBalances` | src/components/user-debt-view.tsx:115-116 | the total to receive minus the total to pay equals the user's net on the global balance sheet |

## Left out

- Bill update and delete, the settlement-status route, and the users routes are not part of this model. The update's full replace and the status route's mutate-before-check order are therefore not modelled.
- The store client, its relation `include`s and the list's ordering by date are not modelled. The re-read of the created bill is modelled only as success or failure (`rereads`): on success the route answers with the bill it staged.
- A 500 from the create route does not mean nothing was written. A failed read-back after the commit answers 500 with the bill stored, and the page then keeps the form, so resubmitting creates a second bill. The page's keep-the-form-on-failure behaviour is modelled by `HandleSubmit`; the two are not composed into one lemma.
- A `null` request item passes the route's validation and makes the normalisation throw, giving 500 with nothing written. `RawItem` cannot represent it, so this path is not modelled. A number, string or boolean item has no fields, so it is represented as `RawItem(None, None, None)`. It normalises to description "", amount 0 and the falsy assignee, as the source does.
- Store failures: the `commits` parameter of `Ledger.Create` stands for them. Foreign-key checks, which would reject unknown payers or assignees, are folded into it.
- Item and settlement row ids are not modelled. Bill ids come from a counter standing for "a fresh id".
- Floating-point arithmetic and rounding: amounts are exact integer cents. `fmtRM` formatting is UI only.
- String-to-number conversion (`Number`, `parseFloat`): the form's conversions are the parameters `parseAmount` and `parseId`.
- The create route's body is modelled after its `Number(...)` conversions: `CreateRequest` holds the numbers that `Number(payerId)`, `Number(item.amount || 0)` and `Number(item.assignedUserId)` would give. The presence test on the raw `payerId` is modelled as a test on the converted id. A raw payer that is truthy but converts to 0 or NaN (such as the string "0") passes the source's validation and fails at the store with 500, but the model answers 400. String or boolean amounts and assignees that convert to a number are represented by it (`true` by 1).
- NaN amounts are not modelled. An amount that converts to NaN (a non-numeric string such as "abc") is represented by 0. `computeSettlements` skips such an item, as it skips 0, so the derived settlements are the same. The source would store NaN as the item amount and the list route's `total` would not be a number, while the model stores 0 and counts it as 0.
- BillsRoute.ToNumber: a store decimal is assumed to read back as its own value, and values of other types (which `parseFloat` could turn into NaN) are not modelled.
- Ids are natural numbers, and a NaN id is represented by the falsy id 0 (`computeSettlements` skips it, so it never becomes a totals key). A negative or fractional id is not modelled. JavaScript would list such a record key after the integer keys, in insertion order.
- `new Date(date)` is not modelled: dates are kept as the request's text.
- `crypto.randomUUID`: the fresh row id is a parameter, and the lemmas that need it fresh say so.
- HTTP, `fetch`, toasts, the `submitting` and `loading` flags and all rendering are not modelled. Whether the create request succeeded is the `accepted` parameter of `HandleSubmit`.
- The debt view's early return when no user is selected, and the `?.` guard for a bill without a settlements array, are not modelled. The list route always includes the settlements.
