# Driver app core: trip state machine, walk-up queue scanner, balance screen

This project models the core of a driver's app for shuttle routes and proves
properties of the model in Dafny. The core has four parts:

- **Trip state machine** (`lib/fsm-types.ts`, module `TripFsm`). It has six
  trip states and a table of seven transitions, two of which carry a guard. On top of the table
  sit:
  - the `canTransition`, `getNextState` and `getAvailableActions` queries;
  - the validation that returns the next state or a Russian error message;
  - the builder for the trip context;
  - the policy that decides which panel shows in which state;
  - the two tables that give the main button for each state.
- **Walk-up queue scanner** (`components/queue-qr-scanner.tsx`, module
  `QueueScan`). The component is a class:
  - its fields are the four pieces of component state and the three props it
    reads (`passengers`, `disabled`, `language`);
  - its methods are the click, scan-start, scan-result, accept, reject and
    return handlers;
  - the list rewrites, the visible renumbered queue and the list of
    passengers awaiting a decision are pure functions.
- **Balance screen** (`app/balance/page.tsx`):
  - module `Balance` is the settlement ledger, written as pure functions:
    - the totals ("to accept", "to debit", saldo);
    - routing a settlement through a dispatcher;
    - the deposit-and-commission record;
    - the QR check for a settlement;
    - the payment-method filter and the settlement buttons.
  - module `BalancePage` is the screen itself, a class with one field per
    piece of screen state and one method per handler.
- **Formatting helpers** (`lib/utils.ts`, module `Utils`): currency
  formatting with thousands grouping, date formatting as `DD.MM HH:mm`, and
  trip-id generation.

Module `Common` holds `Option` and an order-preserving `Filter`, the
equivalent of `Array.prototype.filter`.

How the model represents things:

- **Money.** Amounts on the balance screen are `real`, because the source
  compares them with a literal tolerance of `0.1`. Queue amounts are whole
  counts of a 320-rouble ticket, so they are `int`.
- **Dates.** A date is the four calendar fields that the formatting reads
  (`DateParts`).
- **Environment values.** The clock (`new Date()`, `Date.now()`) and the
  outcome of a scan have no value of their own here. Each handler that
  needs one receives it as a parameter.
- **Truthiness.** The source tests ids and strings for JavaScript
  truthiness, and the model keeps that:
  - an id of `0` counts as absent;
  - a dispatcher choice of `""` counts as none.

## Model

| member | source | states |
|---|---|---|
| TripFsm.TableWellFormed | lib/fsm-types.ts:50-88 | The transition table is deterministic: no state and action pair is listed twice. No entry carries the `none` action. |
| TripFsm.CanTransition | lib/fsm-types.ts:91-109 | A transition is allowed exactly when some table entry matches the state and the action and its guard holds in the context. |
| TripFsm.NextState | lib/fsm-types.ts:112-126 | Gives no state exactly when the transition is not allowed. Otherwise gives the target of the matching enabled entry. |
| TripFsm.AvailableInMembers | lib/fsm-types.ts:129-136 | The listed actions are exactly those of the table entries that start at the state and are enabled. |
| TripFsm.AvailableIffCanTransition | lib/fsm-types.ts:91-136 | An action is listed as available exactly when it can be taken. |
| TripFsm.NoActionNeverTransitions | lib/fsm-types.ts:31-39 | The `none` action is never allowed from any state, and it has no next state. |
| TripFsm.ArrivedStopChoice | lib/fsm-types.ts:71-82 | At a stop, the trip continues boarding exactly when this is not the last stop, and it finishes exactly when it is. The available actions are that single one. |
| TripFsm.ArrivedStopNext | lib/fsm-types.ts:71-82 | At a stop, `finish_trip` leads to the finished state at the last stop and is refused elsewhere. `continue_boarding` leads back to boarding off the last stop and is refused at it. |
| TripFsm.FinishedOnlyAtLastStop | lib/fsm-types.ts:77-82 | The finished state is reached only by `finish_trip` from an arrived stop that is the last stop. |
| TripFsm.ExactlyOneAvailable | lib/fsm-types.ts:50-88 | Every state offers exactly one action in every context. |
| TripFsm.ArrivalRouting | lib/fsm-types.ts:377-390 | In a context built by the builder, arriving at a stop leads to finishing exactly at the last stop index or later, and to boarding otherwise. |
| TripFsm.ValidateTransition | lib/fsm-types.ts:393-412 | The result is valid exactly when the transition is allowed. A valid result carries the next state and no error. An invalid result carries no state and the Russian message that names the source state, the action and the available actions. |
| TripFsm.PanelPolicy | lib/fsm-types.ts:268-329 | The main button is always shown. Everything else is hidden offline, before the start, in transit and when finished. The queue panel is active exactly while boarding or at a stop with somebody queued. The cash panel is active exactly while boarding or at a stop. The reservation panel waits while boarding exactly when reservations are active or the trip is at its first stop, and at a stop exactly when reservations are active. The queue panel is never locked, and the reservation panel is never confirming or expired. |
| TripFsm.PanelsAtArrivalFollowBoarding | lib/fsm-types.ts:289-312 | At a stop the queue panel matches the boarding state, and when reservations wait at a stop they also wait while boarding. |
| TripFsm.ButtonTablesAgree | lib/fsm-types.ts:170-263 | Both button tables give the same action for every state, and every button is enabled with a real action. Their Russian captions differ only at an arrived stop. |
| TripFsm.ButtonActionValidity | lib/fsm-types.ts:232-263 | As written, the button action passes validation except at an arrived stop that is the last stop. No button ever proposes `finish_trip`. |
| TripFsm.ProposedAction | lib/fsm-types.ts:232-263 | The corrected button action differs from the table's exactly at the last stop, where it is `finish_trip`. |
| TripFsm.ProposedActionAlwaysValid | components/trip-fsm-button.tsx:26-47 | The corrected action always passes validation and is the one available action. |
| QueueScan.FindPassenger | components/queue-qr-scanner.tsx:57 | A hit is a list member with that id. A miss means no member has that id. |
| QueueScan.ScanTarget | components/queue-qr-scanner.tsx:81-84 | A truthy selection is the target. Otherwise the target is the first passenger that may be scanned (not yet scanned or failed, and not awaiting a decision), or none when there is no such passenger. |
| QueueScan.MarkScanSuccess | components/queue-qr-scanner.tsx:122-133 | Only the scanned passenger changes. It keeps its queue entry, awaits a decision, and carries the QR data. |
| QueueScan.MarkScanError | components/queue-qr-scanner.tsx:150-160 | Only the target changes. It keeps its queue entry and QR data, is flagged as failed, becomes a scan candidate again, and no longer awaits a decision. |
| QueueScan.MarkReturned | components/queue-qr-scanner.tsx:193-204 | Only the returned passenger changes. It is reset to waiting with its scan data cleared, and is a scan candidate. |
| QueueScan.RenumberedQueue | components/queue-qr-scanner.tsx:221-228 | The displayed queue holds exactly the passengers that are neither accepted nor rejected, in their order. They are ranked 1..N without gaps, and apart from the rank each entry is unchanged. |
| QueueScan.VisibleKeepsOrder | components/queue-qr-scanner.tsx:221-223 | Filtering the queue distributes over concatenation, so relative order is kept. |
| QueueScan.TerminalPassengerLeavesNoGap | components/queue-qr-scanner.tsx:221-228 | Ranks are the same whether an accepted or rejected passenger is in the list or not. |
| QueueScan.ScanButtonOffered | components/queue-qr-scanner.tsx:231-233 | The list of passengers awaiting a decision is empty exactly when no passenger awaits one. |
| QueueScan.ScanSuccessAwaitsDecision | components/queue-qr-scanner.tsx:104-140 | After a successful scan, the passenger awaits a decision with the ticket sum (ticket count times 320) and the driver's name in the screen's language, so the scan button is withdrawn. |
| QueueScan.ReturnMakesCandidate | components/queue-qr-scanner.tsx:187-208 | A returned passenger can be scanned again and no longer awaits a decision. |
| QueueScan.ScanTargetExists | components/queue-qr-scanner.tsx:81-84 | With no selection, a scan finds a target exactly when some passenger is a candidate. |
| QueueScan.QueueScanner.constructor | components/queue-qr-scanner.tsx:41-54 | Stores the three props. No scan, lock, dialog or selection. The lock invariant holds. |
| QueueScan.QueueScanner.ReceiveProps | components/queue-qr-scanner.tsx:30-39 | The new props replace the old. |
| QueueScan.QueueScanner.PassengerClick | components/queue-qr-scanner.tsx:56-69 | A passenger that looks accepted is ignored. Otherwise the selection toggles onto or off that passenger. |
| QueueScan.QueueScanner.StartScan | components/queue-qr-scanner.tsx:71-102 | Starts exactly when not disabled and the target is truthy. A start locks on that target and opens the dialog. A refusal changes nothing. |
| QueueScan.QueueScanner.ScanSucceeded | components/queue-qr-scanner.tsx:104-140 | Without a current scan, or when its passenger is missing, nothing changes. Otherwise the list is the success rewrite with the mock QR data, whose recipient is the driver's name in the `language` prop's language, and selection, lock, scan id and dialog are cleared. |
| QueueScan.QueueScanner.ScanFailed | components/queue-qr-scanner.tsx:142-167 | Without a current scan, nothing changes. Otherwise the list is the error rewrite, and lock, scan id and dialog are cleared while the selection is kept. |
| QueueScan.QueueScanner.Accept | components/queue-qr-scanner.tsx:169-176 | Clears the selection and hands the id on. |
| QueueScan.QueueScanner.Reject | components/queue-qr-scanner.tsx:178-185 | Clears the selection and hands the id on. |
| QueueScan.QueueScanner.Return | components/queue-qr-scanner.tsx:187-208 | The list is the return rewrite. The selection is cleared and the id is handed on. |
| QueueScan.QueueScanner.DismissScannerAsWritten | components/queue-qr-scanner.tsx:351-362 | As written, closing the dialog only hides it. A scan in progress stays locked, the scan button stays disabled, and the lock invariant is broken. |
| QueueScan.QueueScanner.DismissScanner | components/queue-qr-scanner.tsx:351-362 | Corrected close: the lock and the target are released, the invariant holds, and the scan button is enabled unless disabled. |
| QueueScan.DismissDuringScan | components/queue-qr-scanner.tsx:339-362 | A concrete run: one waiting passenger, a scan started, then the dialog dismissed. The as-written path leaves the button disabled and the corrected path re-enables it. |
| Utils.NatToStringValue | lib/utils.ts:9 | The decimal rendering of a natural number reads back as that number. |
| Utils.FormatCurrencyShape | lib/utils.ts:8-10 | Removing the group spaces gives the decimal form of the floor of the amount. The digits after the sign are grouped in threes from the right. There is a space exactly when the magnitude of the floor is at least 1000. |
| Utils.GroupThousandsGrouped | lib/utils.ts:9 | The thousands-grouping rewrite yields groups of three digits with a shorter first group. |
| Utils.FormatDateTimeShape | lib/utils.ts:12-18 | For in-range calendar fields, the result has 11 characters with `.`, ` ` and `:` in place. The day, month plus one, hours and minutes read back. |
| Utils.GenerateTripIdShape | lib/utils.ts:20-22 | The id is `T` followed by the last 8 digits of the clock value, or all of them when it has fewer. They read back as the clock value modulo 10^8, and there are exactly 8 of them from 10^7 on, so leading zeros of the kept digits stay. |
| Utils.GenerateTripIdKeepsZeros | lib/utils.ts:20-22 | The clock value 100001234 gives `T00001234`. |
| Balance.ToAccept | app/balance/page.tsx:114 | Never negative, and zero when no open record is positive. |
| Balance.ToDebit | app/balance/page.tsx:116-118 | Never negative, and zero when no open record is negative. |
| Balance.SaldoIsOpenSum | app/balance/page.tsx:114-120 | The saldo equals the signed sum of the amounts of all open records. |
| Balance.DispatcherNamesDistinct | app/balance/page.tsx:196-204 | In either language, two dispatcher choices get the same name exactly when both or neither are `dispatcher1`, so balances routed to Petrov and to Sidorov never merge. One choice has different Russian and English names. |
| Balance.FindDispatcherFrom | app/balance/page.tsx:208 | Finds the first dispatcher record with that name, completed or not, or reports that there is none. |
| Balance.CompleteById | app/balance/page.tsx:210-220 | Records with the id are completed: stamped, taken off the dispatcher route, annotated when routed. All other records are left as they were. |
| Balance.RouteDebitEffect | app/balance/page.tsx:207-236 | A routed debit completes the person's record and lowers the dispatcher's record by the transferred magnitude. Without a dispatcher record, it appends a new one with minus that magnitude instead. Nothing else changes. |
| Balance.RouteCreditEffect | app/balance/page.tsx:261-313 | A routed credit completes the person's record and raises the dispatcher's record by the person's amount. Without a dispatcher record, it appends a new one with that amount. Nothing else changes. |
| Balance.RouteDebitKeepsSaldo | app/balance/page.tsx:207-236 | With unique ids and an open person and dispatcher, routing a debit leaves the saldo unchanged. |
| Balance.RouteCreditKeepsSaldo | app/balance/page.tsx:261-313 | With unique ids and an open person and dispatcher, routing a credit leaves the saldo unchanged. |
| Balance.RouteDebitIntoCompletedDispatcher | app/balance/page.tsx:208-231 | When the dispatcher's record is already completed, a routed debit drops out of the totals: the saldo rises by its magnitude. |
| Balance.RoutingKeepsUniqueIds | app/balance/page.tsx:224-234 | With a fresh id for a new dispatcher record, routing keeps ids unique. |
| Balance.WithDeposit | app/balance/page.tsx:880-897 | Afterwards a deposit record exists. An existing one leaves the list unchanged, and otherwise the record is appended. Ids stay unique. |
| Balance.WithDepositIdempotent | app/balance/page.tsx:883-884 | Adding the deposit a second time changes nothing. |
| Balance.WithDepositSaldo | app/balance/page.tsx:884-893 | Adding the deposit lowers the saldo by deposit plus commission. |
| Balance.SettleButtonFor | app/balance/page.tsx:997-1044 | Open drivers, and open dispatchers with a non-zero amount, get a button. It is "debit" exactly for negative amounts. An enabled button on a routed record implies a driver with a dispatcher chosen. A direct driver's button is enabled. |
| Balance.ToggleDispatcher | app/balance/page.tsx:524-530 | Only records with the id change. Their route flag flips and the dispatcher choice is cleared, so they are not routed. |
| Balance.SelectDispatcher | app/balance/page.tsx:532-534 | Only records with the id change, and they get the choice. |
| Balance.ToggleDispatcherTwice | app/balance/page.tsx:524-530 | Toggling twice restores each record except for the cleared choice. |
| Balance.GeneratedQRPasses | app/balance/page.tsx:252-258 | The code generated for a debit, with the settlement's magnitude and name, passes the QR check. |
| Balance.IsQRValidForSettlement | app/balance/page.tsx:379-390 | Valid exactly on the settlements tab, with a settlement in progress, no scan error, and scanned data whose sum is within 0.1 of the settlement's magnitude and whose recipient is the settlement's name. |
| Balance.QRValidityExamples | app/balance/page.tsx:379-390 | Concrete cases: 450 for 450 passes, and so does 450.05. A wrong sum, a wrong name, a missing scan or the wrong tab fails. |
| Balance.ToggleFilters | app/balance/page.tsx:152-165 | Never empty. "All" gives both methods, and an unselected method is appended. A selected method is removed, or both methods are restored when it was the only one. |
| Balance.ToggleFiltersSets | app/balance/page.tsx:152-165 | Toggling keeps the list non-empty and free of duplicates. The new set is exactly "both", "previous minus the method" (or "both" when that is empty) or "previous plus the method". |
| Balance.FilteredTransactionsSelects | app/balance/page.tsx:167-170 | Keeps exactly the transactions paid by a selected method, and everything when both are selected. |
| Balance.ToggleExpanded | app/balance/page.tsx:148-150 | Only the transaction with the id flips its expanded flag. |
| Balance.ToggleExpandedTwice | app/balance/page.tsx:148-150 | Toggling twice is the identity. |
| BalancePage.BalanceScreen.constructor | app/balance/page.tsx:55-135 | The initial screen: the remembered tab or "operations", both payment filters, and the three sample operations with their amounts (450, 900, 900) and payment methods (QR, QR, cash). The two settlement records are Иванов at +1500 and Смирнов at -500, so 1500 is to accept and 500 to debit, with unique ids. No deposit, no dialog, no recalculation time, and no generated or scanned QR data or QR error. |
| BalancePage.BalanceScreen.Load | app/balance/page.tsx:542-593 | Loads each saved key. A missing deposit is 2500 and a missing commission 325, also when the whole saved state is missing. Loading the state that was saved restores it unchanged. |
| BalancePage.BalanceScreen.SetActiveTab | app/balance/page.tsx:660-662 | The tab becomes the chosen one. |
| BalancePage.BalanceScreen.TogglePaymentFilter | app/balance/page.tsx:152-170 | The filters become the toggled list and stay well formed. "All" shows every transaction. |
| BalancePage.BalanceScreen.ToggleTransactionExpanded | app/balance/page.tsx:148-150 | The transactions become the toggled list. |
| BalancePage.BalanceScreen.Recalculate | app/balance/page.tsx:173-185 | Stamps the recalculation time and locks the panels. |
| BalancePage.BalanceScreen.RecalcTimerElapsed | app/balance/page.tsx:182-184 | The panels are unlocked. |
| BalancePage.BalanceScreen.Settle | app/balance/page.tsx:188-324 | A record routed through its chosen dispatcher is handled at once, and no settlement stays in progress. A routed debit of the deposit record also clears deposit and commission. Otherwise the record becomes the settlement in progress. A debit shows a QR code with the magnitude, the name and the time, and that code passes the QR check. A credit opens the scanner. Ids stay unique given a fresh id. |
| BalancePage.BalanceScreen.RouteThroughDispatcher | app/balance/page.tsx:197-318 | The records become the routed debit or credit for the chosen dispatcher. A debit of the deposit record clears deposit and commission; otherwise they are kept. Ids stay unique given a fresh id. |
| BalancePage.BalanceScreen.StartQRSettlement | app/balance/page.tsx:190-321 | The person and action become the settlement in progress. A debit shows a QR code with the magnitude, the name and the time, and that code passes the QR check. A credit opens the scanner. |
| BalancePage.BalanceScreen.ConfirmScan | app/balance/page.tsx:326-377 | On the operations tab, it shows the fixed 450 sample. On the settlements tab without a settlement, nothing changes. Otherwise it records the outcome's data and error, and the result passes the QR check exactly for the matched outcome. |
| BalancePage.BalanceScreen.AcceptQR | app/balance/page.tsx:394-489 | On the operations tab, the result is cleared. With no scanned data or a scan error, nothing changes. Otherwise a code that passes the check completes the current settlement, and the settlement state is cleared either way. |
| BalancePage.BalanceScreen.RejectQR | app/balance/page.tsx:491-502 | The result and the settlement in progress are cleared, and the panels are unlocked. |
| BalancePage.BalanceScreen.ReturnQR | app/balance/page.tsx:504-511 | The result and the settlement in progress are cleared, and the panels are unlocked. |
| BalancePage.BalanceScreen.CloseGeneratedQR | app/balance/page.tsx:513-522 | The generated QR is closed and the settlement in progress is cleared. |
| BalancePage.BalanceScreen.GeneratedQRSucceeded | app/balance/page.tsx:1113-1140 | The current settlement is completed. For the deposit record, deposit and commission are cleared. The dialog and the settlement state are reset. |
| BalancePage.BalanceScreen.GeneratedQRFailed | app/balance/page.tsx:1147-1158 | The dialog and the settlement state are reset. |
| BalancePage.BalanceScreen.SetGeneratedQROpen | app/balance/page.tsx:1093 | The dialog flag follows the dialog. |
| BalancePage.BalanceScreen.SetCashDialogOpen | app/balance/page.tsx:1188-1190 | The scanner flag follows the dialog or the operations scan button. |
| BalancePage.BalanceScreen.ToggleDispatcher | app/balance/page.tsx:524-530 | The records become the toggled list, and ids stay unique. |
| BalancePage.BalanceScreen.SelectDispatcher | app/balance/page.tsx:532-534 | The records get the choice, and ids stay unique. |
| BalancePage.BalanceScreen.AddDeposit | app/balance/page.tsx:880-901 | The records become the list with the deposit. A second press changes nothing, and after a first press the button is hidden. |
| BalancePage.BalanceScreen.SyncDepositFlag | app/balance/page.tsx:535-540 | The "deposit added" flag is cleared exactly when there is a deposit or commission but no deposit record. |

## Left out

- Logging (`logFSMEvent`, `console.log`) and toasts: they produce no state.
- The legacy status table `TRIP_STATUS_TO_RACE_STATE`: its contents are not used by the core.
- The `variant` of a button: it is presentation only.
- The `default` branch of the panel policy: every state is handled by its own case, so the branch is unreachable.
- Timers: `setTimeout` becomes the separate `RecalcTimerElapsed` method.
- `localStorage`: it becomes the `SavedState` value passed to `Load` and the `Snapshot` function. A JSON parse error is the same as no saved state.
- The `periodFilter` and `balance` state of the balance screen: both are stored, but nothing in the core reads them.
- The random draw inside the scanner dialog (`components/cash-qr-dialog.tsx`): it only chooses between the dialog's `onConfirm` and `onInvalid` callbacks, and on the balance screen `onInvalid` does nothing (`app/balance/page.tsx:1195`). So `ConfirmScan` is the `onConfirm` path. Its `ScanNotFound` and `ScanMismatch` outcomes model the `isSimulateNotFound` and `isSimulateError` branches (`app/balance/page.tsx:343-363`), which are constant `false` in the code; `ScanMatched` is what the screen always reports.
- Number rendering follows `toString` for integers. Values of 1e21 or more, and values outside the exact integer range of a double, are not modelled.
- `Utils.FormatCurrency` takes an exact real, so the rounding of floating-point amounts is not modelled.
- Balance.IsQRValidForSettlement: compares with the exact rational 0.1, not with the double nearest to it.
- BalancePage.BalanceScreen.AcceptQR: drops the branch that routes a settlement through a dispatcher after a scan. `Valid()` proves that such a settlement never waits for a scan, because `Settle` routes it at once.
- BalancePage.BalanceScreen.Settle: a fresh id fed by the clock is assumed. Only under that assumption is uniqueness of ids stated.
- The remaining context files are not part of this model: the login and registration forms, the API client, the home page, the geo tracker and the balance actions dialog.
- Concurrency of React state updates: every handler here runs on the state as it was rendered, since each update in the source is based on that snapshot or on `prev`.

## Findings

| source | as written | input that shows it | evidently intended | confidence | as-written member | corrected member |
|---|---|---|---|---|---|---|
| lib/fsm-types.ts:253-257 | At an arrived stop the button table always proposes `continue_boarding`. | An arrived stop with `isLastStop` true: validation rejects the press, and `finish_trip` is never offered, so the last stop cannot be finished from the button. | Propose `finish_trip` at the last stop. | not executed | TripFsm.ButtonActionValidity | TripFsm.ProposedActionAlwaysValid |
| components/queue-qr-scanner.tsx:351-362 | Closing the scanner dialog without a result only sets `showScanner` to false. | One waiting passenger, a scan started, the dialog dismissed: `scanLocked` stays true, so the scan button stays disabled. | Release the lock and the scan id when the dialog closes. | not executed | QueueScan.QueueScanner.DismissScannerAsWritten | QueueScan.QueueScanner.DismissScanner |

## Behaviour of the code worth noting

- Boarding has no `continue_boarding` outgoing edge (`lib/fsm-types.ts:61-82`). Boarding only departs, and `continue_boarding` leaves an arrived stop that is not the last one.
- The deposit button is shown when `deposit > 0 && !isDepositAdded` (`app/balance/page.tsx:880`). The commission does not enter that test.
