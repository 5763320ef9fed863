# Hotel management: verified model of the pricing, ledger and booking core

The application manages a small hotel. It keeps reservations, guests, rooms and room types,
and it has a ledger of bank accounts and entries. Users have roles, and each role may open
certain pages. This Dafny project models the parts of that application that compute or
change data. Each part becomes functions, or a class with methods, and the project proves
what each part promises.

- **Nightly pricing engine** (`Pricing`). A stay is charged for each night from check-in up
  to, but not including, check-out.
  - Each night starts from the room type's base price.
  - The pricing rules that match the night are applied to it, in list order. A rule matches
    when the night lies in its window (both ends inclusive), the night's weekday is in its
    list, and its room-type scope is absent or equal to the room's type.
  - A percentage rule multiplies the running price by (1 + v/100); a fixed rule adds v.
  - An unknown room, or an unknown room type, is priced 0.
  - The engine is a method with the source's two loops. It is proved equal to a recursive
    specification, and the properties are proved about that specification.
- **Account balances** (`Finance`). A balance is the opening balance, plus the receipts
  booked on the account, minus every other entry booked on it.
- **Bank accounts page** (`ContasBancarias`). It adds or edits accounts. A transfer books an
  expense on the source account and a receipt on the destination account.
  - The proofs show that a transfer moves exactly its amount.
  - Across accounts with distinct ids, a transfer keeps the total of all balances.
- **Reservations page** (`Reservas`). A class holds the reservation list and the dialog state.
  - It adds, edits, deletes and cancels reservations, and changes their status.
  - It gathers what the printed receipt needs.
- **Check-in desk** (`Checkin`). It lists today's arrivals and departures, and it has the two
  status actions.
- **Reservations calendar** (`Calendario`). It covers:
  - the list of days in the visible window;
  - the whole-day difference between two dates;
  - where a reservation's bar is drawn in the window.
- **User administration** (`Users`). The master administrator (id 1) can never be deleted or
  demoted.
- **Financial overview** (`VisaoGeral`), **receivables** (`ContasReceber`), the
  **printed receipt** (`Comprovante`) and **page access by role** (`Permissions`).

Conventions:
- A calendar date is an integer day number: the number of days since 1970-01-01.
- An instant is an integer number of milliseconds.
- An amount is a `real`.
- Partial form data, `Partial<T>`, is a patch datatype of `Option` fields. `{...r, ...data}`
  overrides the record field by field.
- Where the application reads the clock (today's date, the current month, the current
  instant), the model takes that value as a parameter.

## Model

| member | source | states |
|---|---|---|
| `Ids.NextId` | components/administracao/UserManagementPage.tsx:37 | the new id is at least 1 and above every id in use, and it is either 1 or one more than an id in use |
| `Ids.MaxPlusOneAsWritten` | components/reservas/ReservasPage.tsx:46 | `Math.max(...ids) + 1` gives no finite id exactly when the list is empty; otherwise its result is above every id and one more than an id in use |
| `Ids.EmptyListGetsNoId` | components/financeiro/ContasBancariasPage.tsx:24 | for an empty list, the expression as written gives no usable id |
| `Ids.AsWrittenAgreesWithNextId` | components/reservas/ReservasPage.tsx:46 | when some id is non-negative, the expression as written and the corrected one agree |
| `Pricing.Weekday` | utils/pricing.ts:22 | a day's weekday lies in 0..6 |
| `Pricing.ApplicableRules` | utils/pricing.ts:25-34 | the selected rules are an order-preserving sub-list of the rules; each of them matches the night; every rule that matches the night is selected, each as often as it occurs in the rule list |
| `Pricing.AdjustNightlyPrice` | utils/pricing.ts:37-43 | after the loop, the night's price equals the selected rules applied one after another to the base price |
| `Pricing.NoNightsCharged` | utils/pricing.ts:20 | when check-out is not after check-in the loop runs no night and the stay costs 0 |
| `Pricing.PriceNights` | utils/pricing.ts:17-49 | the day-by-day loop's total is the sum of the nightly prices from check-in up to, not including, check-out; it is 0 when check-out is not after check-in |
| `Pricing.CalculateReservationPrice` | utils/pricing.ts:3-50 | the result equals the reference price: 0 for an unknown room or room type, otherwise the sum of the nightly prices over the nights from check-in up to check-out |
| `Pricing.UnknownRoomIsFree` | utils/pricing.ts:11-12 | a room id missing from the room list is priced 0, whatever the dates and rules |
| `Pricing.UnknownRoomTypeIsFree` | utils/pricing.ts:14-15 | a room whose type is missing is priced 0 |
| `Pricing.EmptyStayIsFree` | utils/pricing.ts:17-20 | when check-out is not after check-in, the price is 0 |
| `Pricing.StayPriceSplit` | utils/pricing.ts:20-47 | splitting a stay at any night in between splits its price into the sum of the two parts |
| `Pricing.StayPriceFirstNight` | utils/pricing.ts:45-46 | the total is the check-in night's price plus the price of the stay from the next day |
| `Pricing.UniformNights` | utils/pricing.ts:20-47 | when every night costs the same p, the stay costs the number of nights times p |
| `Pricing.NoApplicableRules` | utils/pricing.ts:21-45 | when no rule matches any night, the stay costs the number of nights times the base price |
| `Pricing.SameRulesSamePrice` | utils/pricing.ts:25-45 | two rule lists that select the same rules on every night give the same price |
| `Pricing.IgnoredRule` | utils/pricing.ts:25-34 | removing, from anywhere in the list, a rule that matches no night of the stay leaves the price unchanged |
| `Pricing.CheckoutDayNotCharged` | utils/pricing.ts:20 | a rule whose window starts on or after the check-out day does not change the price |
| `Pricing.EmptyWeekdaysNeverApply` | utils/pricing.ts:31 | a rule with an empty weekday list does not change the price |
| `Pricing.OtherRoomTypeRuleIgnored` | utils/pricing.ts:32 | a rule scoped to another room type does not change the price |
| `Pricing.ApplyRulesAppend` | utils/pricing.ts:37-43 | rules compound: applying a list is applying its first part, then applying the rest to that result |
| `Pricing.SingleRuleNight` | utils/pricing.ts:38-42 | a night with one matching rule costs that one adjustment applied to the base price |
| `Pricing.OrderMatters` | utils/pricing.ts:37-43 | on base 100, +10 fixed then +10% gives 121, and the reverse order gives 120 |
| `Pricing.WeekendStay` | data/mockData.ts:48 | with the sample weekend rule, Friday 2024-01-05 to Sunday 2024-01-07 at base 150 costs 360; the check-out day is not charged |
| `Pricing.ThreeNightsWithSurcharge` | utils/pricing.ts:39 | three nights at base 150 with a +20% rule cost 540 |
| `Pricing.SampleRulesOnSummerFriday` | data/mockData.ts:48-49 | with both sample rules on Friday 2024-12-20, type 3 at base 400 costs 580 and type 1 at base 150 costs 180, because the summer rule is scoped to type 3 |
| `Pricing.NegativeTotalPossible` | utils/pricing.ts:41-49 | nothing clamps the price: a fixed rule of -150 on base 100 makes a two-night stay cost -100 |
| `Finance.CalculateAccountBalance` | utils/finance.ts:3-15 | the balance is the opening balance plus the entry-by-entry net effect on the account: receipts add, every other type subtracts, entries on other accounts or on none count 0 |
| `Finance.FilteredSumIsEffect` | utils/finance.ts:7-12 | filtering by account and then summing signed values equals the entry-by-entry net effect |
| `Finance.EffectOfUnrelatedLedger` | utils/finance.ts:9 | a ledger with no entry on the account has no effect on it |
| `Finance.BalanceWithoutEntries` | utils/finance.ts:14 | with no entry on the account, the balance is the opening balance |
| `Finance.EffectAppend` | utils/finance.ts:10-12 | the effect of two ledgers joined is the sum of their effects |
| `Finance.BalanceAppend` | utils/finance.ts:9-14 | appending entries changes the balance by exactly their net effect |
| `Finance.OtherAccountEntryIgnored` | utils/finance.ts:9 | an entry on another account, or on none, leaves the balance unchanged |
| `Finance.EffectRemove` | utils/finance.ts:10-12 | the effect is one entry's contribution plus the effect of the other entries |
| `Finance.EffectPermutation` | utils/finance.ts:10-12 | two ledgers with the same entries in any order have the same effect |
| `Finance.BalanceOrderIndependent` | utils/finance.ts:10-12 | the balance does not depend on the order of the entries |
| `ContasBancarias.UpdateConta` | components/financeiro/ContasBancariasPage.tsx:21 | an edit merges the form data into the account with the selected id; the length, the ids and every other account stay unchanged |
| `ContasBancarias.AccountName` | components/financeiro/ContasBancariasPage.tsx:34-36 | the name is that of the first account with the id; with no such account it is the text "undefined" |
| `ContasBancarias.TransferEntries` | components/financeiro/ContasBancariasPage.tsx:32-58 | a transfer makes two entries with ids n and n+1, where n is `NextId` of the entry ids, that is max(ids, 0) + 1 (at least 1 and above every existing id); the first is an expense on the source account, the second a receipt on the destination; both have the amount, the category 'Transferência' and the given time; an empty description becomes "Transferência para / de" plus the other account's name |
| `ContasBancarias.TransferMovesAmount` | components/financeiro/ContasBancariasPage.tsx:39-59 | after the transfer, the source balance has dropped by the amount, the destination balance has risen by it, and every other balance is unchanged |
| `ContasBancarias.SumDeltaDistinct` | components/financeiro/ContasBancariasPage.tsx:39-59 | over accounts with distinct ids, the transfer's per-account changes add up to the amount received minus the amount sent from the listed accounts |
| `ContasBancarias.TotalAfterTransfer` | components/financeiro/ContasBancariasPage.tsx:59 | the total balance after a transfer is the total before it plus the sum of the per-account changes |
| `ContasBancarias.TransferEffect` | components/financeiro/ContasBancariasPage.tsx:32-59 | with distinct account ids, the transfer lowers the source balance by the amount, raises the destination balance by it, leaves every other balance alone, and keeps the total of all balances when source and destination are two different listed accounts |
| `ContasBancarias.TransferConservesTotal` | components/financeiro/ContasBancariasPage.tsx:39-59 | between two different listed accounts whose ids are distinct, a transfer keeps the total of all balances |
| `ContasBancarias.TransferAllowed` | components/financeiro/TransferBalanceModal.tsx:18 | no contract of its own; `AllowedTransfer` shows a transfer it lets through moves the amount strictly between two accounts and keeps the total |
| `ContasBancarias.AllowedTransfer` | components/financeiro/TransferBalanceModal.tsx:18 | a transfer the dialog lets through strictly lowers the source balance, strictly raises the destination balance, and keeps the total |
| `ContasBancarias.ContasBancariasPage.constructor` | components/financeiro/ContasBancariasPage.tsx:12-16 | given accounts with distinct ids, the page starts valid, with those accounts and entries, no selection, and both dialogs closed |
| `ContasBancarias.ContasBancariasPage.OpenNewAccountForm` | components/financeiro/ContasBancariasPage.tsx:70 | the "Nova Conta" button clears the selection and opens the form |
| `ContasBancarias.ContasBancariasPage.HandleSave` | components/financeiro/ContasBancariasPage.tsx:18-30 | an edit merges into the selected account; otherwise one new account is appended with the corrected id max(ids, 0) + 1 (see Findings); account ids stay distinct; the form closes |
| `ContasBancarias.ContasBancariasPage.OpenTransfer` | components/financeiro/ContasBancariasPage.tsx:66 | the transfer button opens the transfer dialog and changes nothing else |
| `ContasBancarias.ContasBancariasPage.HandleTransfer` | components/financeiro/ContasBancariasPage.tsx:32-61 | the ledger gains exactly the two transfer entries at its end; the accounts are unchanged; every balance moves by the transfer's change; between two different listed accounts the total is kept; the dialog closes |
| `Calendario.BuildDays` | components/reservas/CalendarioReservas.tsx:85-99 | a reversed window gives no days; otherwise the days run from start to end inclusive, one apart, end - start + 1 of them |
| `Calendario.DiffDays` | components/reservas/CalendarioReservas.tsx:106-111 | the result n is the rounded number of days: n days lie within half a day of the difference of the two instants; `DiffDaysOfMidnights` gives the day-number difference for local midnights |
| `Calendario.RoundDivOfNearMultiple` | components/reservas/CalendarioReservas.tsx:110 | rounding k days plus less than half a day gives k |
| `Calendario.DiffDaysOfMidnights` | components/reservas/CalendarioReservas.tsx:106-111 | for two local midnights that may each be off the day grid by up to an hour (daylight saving), the day difference is the difference of the day numbers |
| `Calendario.DiffDaysAntisymmetric` | components/reservas/CalendarioReservas.tsx:106-111 | for such instants, the day difference is antisymmetric and is 0 for the same day |
| `Calendario.RowReservas` | components/reservas/CalendarioReservas.tsx:157 | a room's row holds exactly that room's reservations, each as often as in the list, as an order-preserving sub-list |
| `Calendario.BarDuration` | components/reservas/CalendarioReservas.tsx:162-163 | a zero-day reservation is drawn one day long; any other length is kept |
| `Calendario.Hidden` | components/reservas/CalendarioReservas.tsx:165-166 | no contract of its own; `BarAsWritten` draws no bar exactly when it holds, and `ClippedHiddenAsWritten` shows the corrected bar hides in the same cases |
| `Calendario.BarAsWritten` | components/reservas/CalendarioReservas.tsx:161-171 | the bar is hidden exactly when it ends at or before the first column or starts at or past the last one; a drawn bar starts at max(startIndex, 0), inside a non-empty window; a bar starting inside the window spans min(duration, days left in the window), so with a non-negative raw duration it ends inside the window; a bar starting before it spans duration + startIndex > 0 columns |
| `Calendario.EarlyLongStayOverflows` | components/reservas/CalendarioReservas.tsx:169-170 | a ten-day stay that starts one day before a three-day window is drawn 9 columns wide, past the window's end |
| `Calendario.ClippedBar` | components/reservas/CalendarioReservas.tsx:165-171 | the corrected bar is hidden exactly when no day of the stay is visible; a drawn bar starts at max(startIndex, 0), spans at least one column and ends inside the window |
| `Calendario.ClippedBarIsVisiblePartOfStay` | components/reservas/CalendarioReservas.tsx:165-175 | a column lies under the corrected bar exactly when it is in the window and within the stay |
| `Calendario.ClippedHiddenAsWritten` | components/reservas/CalendarioReservas.tsx:165-166 | for a stay of non-negative length in a non-empty window, the corrected bar is hidden exactly when the written guards hide it |
| `Calendario.ClippedAgreesUnlessBothEndsOverflow` | components/reservas/CalendarioReservas.tsx:168-171 | the corrected and written placements differ only for a bar that starts before the window and runs past its end |
| `Reservas.UpdateReserva` | components/reservas/ReservasPage.tsx:42 | an edit merges the form data into the reservation with the selected id; the length, the ids and every other reservation stay unchanged |
| `Reservas.SetStatus` | components/reservas/ReservasPage.tsx:81-83 | the reservations with the id get the new status and keep every other field; every other record is unchanged |
| `Reservas.SetStatusIsStatusEdit` | components/reservas/ReservasPage.tsx:81-83 | setting a status is the same as an edit whose form data carries only that status |
| `Reservas.SetStatusLastWins` | components/reservas/ReservasPage.tsx:81-83 | setting a status twice leaves the last one |
| `Reservas.RemoveReserva` | components/reservas/ReservasPage.tsx:62 | a delete leaves exactly the reservations with other ids, in their order, each as often as before |
| `Reservas.RemoveAbsentId` | components/reservas/ReservasPage.tsx:62 | deleting an id that no reservation has changes nothing |
| `Reservas.RemovePresentId` | components/reservas/ReservasPage.tsx:62 | with distinct ids, deleting an id in use removes exactly one reservation |
| `Reservas.RemovePreservesDistinct` | components/reservas/ReservasPage.tsx:62 | a delete keeps the remaining ids distinct |
| `Reservas.SelectedPrintData` | components/reservas/ReservasPage.tsx:117-126 | there is no print data without a selection, a guest with the reservation's guest id, a room with its room id, and a type for that room; when present, the data are the selection with the first guest, the first room and the first room type whose ids match (the results of the three `find` lookups); when all three lookups succeed there is print data |
| `Reservas.ReservasPage.constructor` | components/reservas/ReservasPage.tsx:17-27 | given reservations with distinct ids, the page starts valid, with those reservations, nothing selected, and every dialog closed |
| `Reservas.ReservasPage.HandleOpenForm` | components/reservas/ReservasPage.tsx:34-37 | the given reservation, or none, becomes the selection, and the form opens |
| `Reservas.ReservasPage.HandleSaveReserva` | components/reservas/ReservasPage.tsx:39-53 | an edit merges into the selected reservation; otherwise one reservation is appended with the corrected id max(ids, 0) + 1 (see Findings); ids stay distinct; the form closes and the selection is cleared |
| `Reservas.Actionable` | components/reservas/ReservasPage.tsx:61 | no contract of its own; the `if (reservaIdToAction)` test at lines 61 and 74; `ReservasPage.ConfirmDelete` and `ReservasPage.ConfirmCancel` filter or re-status the list when it holds and leave the list as it was otherwise |
| `Reservas.ReservasPage.HandleDelete` | components/reservas/ReservasPage.tsx:55-58 | the id is remembered and the delete dialog opens |
| `Reservas.ReservasPage.ConfirmDelete` | components/reservas/ReservasPage.tsx:60-66 | a remembered id that is set and not 0 is deleted, and otherwise nothing changes; the dialog closes and the id is forgotten |
| `Reservas.ReservasPage.HandleCancel` | components/reservas/ReservasPage.tsx:68-71 | the id is remembered and the cancel dialog opens |
| `Reservas.ReservasPage.ConfirmCancel` | components/reservas/ReservasPage.tsx:73-79 | a remembered id that is set and not 0 gets status Cancelada, and otherwise nothing changes; the dialog closes and the id is forgotten |
| `Reservas.ReservasPage.UpdateReservaStatus` | components/reservas/ReservasPage.tsx:81-83 | the list becomes the list with that status set on that id; nothing else changes |
| `Reservas.ReservasPage.HandlePrint` | components/reservas/ReservasPage.tsx:85-88 | the reservation becomes the selection and the print dialog opens |
| `Checkin.DueIn` | components/reservas/CheckinPage.tsx:16-19 | no contract of its own; `CheckinsHoje` lists exactly the reservations it accepts, and `ListsDisjoint` shows no reservation is both due in and due out |
| `Checkin.DueOut` | components/reservas/CheckinPage.tsx:20-23 | no contract of its own; `CheckoutsHoje` lists exactly the reservations it accepts, and `CheckinThenDueOut` and `CheckoutLeavesBothLists` tie it to the status actions |
| `Checkin.CheckinsHoje` | components/reservas/CheckinPage.tsx:16-19 | the arrivals are exactly the reservations whose check-in text starts with today's date and whose status is Confirmada or Pendente, in list order, each as often as in the list |
| `Checkin.RealizarCheckin` | components/reservas/CheckinPage.tsx:65 | "Realizar Check-in" gives every reservation with the id the status Check-in and leaves every other reservation as it was |
| `Checkin.RealizarCheckout` | components/reservas/CheckinPage.tsx:73 | "Realizar Check-out" gives every reservation with the id the status Check-out and leaves every other reservation as it was |
| `Checkin.CheckoutsHoje` | components/reservas/CheckinPage.tsx:20-23 | the departures are exactly the reservations whose check-out text starts with today's date and whose status is Check-in, in list order, each as often as in the list |
| `Checkin.ListsDisjoint` | components/reservas/CheckinPage.tsx:16-23 | no reservation is both an arrival and a departure |
| `Checkin.CheckinLeavesArrivals` | components/reservas/CheckinPage.tsx:65 | after the check-in action, the reservation is gone from today's arrivals and every other arrival is still listed |
| `Checkin.CheckinThenDueOut` | components/reservas/CheckinPage.tsx:65 | after the check-in action, the reservation is among today's departures exactly when its check-out date is today |
| `Checkin.CheckoutLeavesBothLists` | components/reservas/CheckinPage.tsx:73 | after the check-out action, the reservation is on neither list |
| `Users.UpdateUser` | components/administracao/UserManagementPage.tsx:33 | an edit merges the form data into the user with the selected id; the length, the ids and every other user stay unchanged |
| `Users.RemoveUser` | components/administracao/UserManagementPage.tsx:56 | a delete leaves exactly the users with other ids, in their order, each as often as before |
| `Users.EditRefused` | components/administracao/UserManagementPage.tsx:29 | no contract of its own; `AllowedEditKeepsMaster` shows every edit it lets through keeps the master an admin, and `UnguardedEditDemotesMaster` shows what it refuses |
| `Users.AllowedEditKeepsMaster` | components/administracao/UserManagementPage.tsx:29-33 | an edit that passes the guard keeps the master administrator present with role admin |
| `Users.AllowedEditKeepsMasterIfPresent` | components/administracao/UserManagementPage.tsx:29-33 | the same, stated for any list: if the master administrator was present, it still is |
| `Users.UnguardedEditDemotesMaster` | components/administracao/UserManagementPage.tsx:29-32 | without the guard, an edit of the master that names another role would demote it |
| `Users.DeleteOtherKeepsMaster` | components/administracao/UserManagementPage.tsx:45-57 | deleting any id but the master's keeps the master administrator |
| `Users.AddKeepsMaster` | components/administracao/UserManagementPage.tsx:36-40 | adding a user keeps the master administrator |
| `Users.UserManagementPage.constructor` | components/administracao/UserManagementPage.tsx:15-18 | the page starts with the application's users, no selection, and both dialogs closed |
| `Users.UserManagementPage.HandleOpenForm` | components/administracao/UserManagementPage.tsx:21-24 | the given user, or none, becomes the selection, and the form opens |
| `Users.UserManagementPage.HandleSave` | components/administracao/UserManagementPage.tsx:26-43 | an edit that would give the master a role other than admin changes nothing and leaves the form open; any other edit merges into the selected user; otherwise one user is appended with id max(ids, 0) + 1; a master administrator present before is present after |
| `Users.UserManagementPage.HandleDelete` | components/administracao/UserManagementPage.tsx:45-52 | the master administrator is refused and nothing changes; anyone else becomes the selection and the dialog opens; the list is unchanged |
| `Users.UserManagementPage.CancelDelete` | components/administracao/UserManagementPage.tsx:113 | cancelling closes the dialog and changes nothing else |
| `Users.UserManagementPage.ConfirmDelete` | components/administracao/UserManagementPage.tsx:54-59 | the selected user's id, never the master's, is removed; a master administrator present before is present after |
| `VisaoGeral.SumValorAppend` | components/financeiro/VisaoGeralFinanceiro.tsx:10-16 | the sum of values over two record lists joined is the sum of their sums |
| `VisaoGeral.ReceitasMes` | components/financeiro/VisaoGeralFinanceiro.tsx:10-16 | no contract of its own; `MonthTotalIsFilteredSum` fixes it as the sum of the values of that month's receipt records |
| `VisaoGeral.DespesasMes` | components/financeiro/VisaoGeralFinanceiro.tsx:18-24 | no contract of its own; `MonthTotalIsFilteredSum` fixes it as the sum of the values of that month's expense records |
| `VisaoGeral.SaldoMes` | components/financeiro/VisaoGeralFinanceiro.tsx:26 | no contract of its own; `SaldoMesIsNet` fixes it as the receipt sum minus the expense sum |
| `VisaoGeral.AReceber` | components/financeiro/VisaoGeralFinanceiro.tsx:28-31 | no contract of its own; `AReceberIsFilteredSum` fixes it as the outstanding sum over reservations with a status other than Cancelada, and `StatuslessNotCounted` and `OverpaidLowersAReceber` give its edge cases |
| `VisaoGeral.MonthTotalIsFilteredSum` | components/financeiro/VisaoGeralFinanceiro.tsx:10-24 | the month's receipts (or expenses) are the sum of the values of the records of that kind dated in that month and year; every other record contributes 0 |
| `VisaoGeral.OtherRecordIgnored` | components/financeiro/VisaoGeralFinanceiro.tsx:12 | a record of another kind, month or year leaves a month total unchanged |
| `VisaoGeral.SaldoMesIsNet` | components/financeiro/VisaoGeralFinanceiro.tsx:26 | the month's balance is the summed receipts minus the summed expenses of that month |
| `VisaoGeral.SumOutstandingAppend` | components/financeiro/VisaoGeralFinanceiro.tsx:28-31 | the sum of amounts still owed over two lists joined is the sum of their sums |
| `VisaoGeral.AReceberIsFilteredSum` | components/financeiro/VisaoGeralFinanceiro.tsx:28-31 | the amount to receive is the sum of total minus paid (missing paid counts 0) over the reservations that have a status other than Cancelada |
| `VisaoGeral.OverpaidLowersAReceber` | components/financeiro/VisaoGeralFinanceiro.tsx:30 | an overpaid reservation that is counted lowers the amount to receive |
| `VisaoGeral.StatuslessNotCounted` | components/financeiro/VisaoGeralFinanceiro.tsx:29 | a reservation without a status adds nothing to the amount to receive |
| `ContasReceber.Receivable` | components/financeiro/ContasReceberPage.tsx:9 | no contract of its own; `ContasAReceber` lists exactly the reservations it accepts, and `ListedRowsOwe` and `NothingOwedNothingListed` follow from it |
| `ContasReceber.ValorPendente` | components/financeiro/ContasReceberPage.tsx:37 | the pending amount plus what was paid is the total; with nothing paid it is the whole total |
| `ContasReceber.ContasAReceber` | components/financeiro/ContasReceberPage.tsx:9 | the list holds exactly the reservations that owe more than 0.01 and are not Cancelada, each as often as in the list, as an order-preserving sub-list |
| `ContasReceber.ListedRowsOwe` | components/financeiro/ContasReceberPage.tsx:9-37 | every listed row's pending amount exceeds 0.01, so no fully paid or overpaid reservation is listed |
| `ContasReceber.NothingOwedNothingListed` | components/financeiro/ContasReceberPage.tsx:9 | when every reservation is settled or cancelled, the list is empty |
| `ContasReceber.StatuslessListedButNotCounted` | components/financeiro/ContasReceberPage.tsx:9 | a reservation without a status that still owes is listed as receivable, yet the overview's amount to receive leaves it out |
| `Comprovante.Abs` | components/reservas/ComprovanteImpressao.tsx:37 | the absolute value is the number or its negation, and never negative |
| `Comprovante.Noites` | components/reservas/ComprovanteImpressao.tsx:34-41 | the night count is the least whole number of days covering the absolute time between the two instants |
| `Comprovante.NoitesSymmetric` | components/reservas/ComprovanteImpressao.tsx:37 | the night count does not depend on the order of the two dates |
| `Comprovante.NoitesZeroIff` | components/reservas/ComprovanteImpressao.tsx:37-38 | the night count is 0 exactly when the two instants are equal |
| `Comprovante.PartialDayRoundsUp` | components/reservas/ComprovanteImpressao.tsx:38 | n whole days plus any part of a day count as n + 1 nights |
| `Comprovante.NoitesAgreeWithCalendar` | components/reservas/ComprovanteImpressao.tsx:34-39 | between two midnights with the same offset, the receipt's night count equals the calendar's day difference, ignoring sign |
| `Comprovante.ValorRestante` | components/reservas/ComprovanteImpressao.tsx:83 | the remaining balance is the total when nothing is paid; otherwise it plus the payment is the total |
| `Permissions.HasPermission` | utils/permissions.ts:28-30 | no contract of its own; `PermissionsByRole` fixes it for every role and page, and `RolesNest`, `DashboardForAll` and `RestrictedPages` follow from it |
| `Permissions.PermissionsByRole` | utils/permissions.ts:4-30 | admin may open every page; gerente every page but Administracao; recepcionista every page but Financeiro and Administracao |
| `Permissions.RolesNest` | utils/permissions.ts:4-26 | what recepcionista may open, gerente may open; what gerente may open, admin may open |
| `Permissions.DashboardForAll` | utils/permissions.ts:6-21 | every role may open the dashboard |
| `Permissions.RestrictedPages` | utils/permissions.ts:4-26 | only admin may open Administracao, and only recepcionista may not open Financeiro |

## Left out

- Floating point. Amounts are exact reals, so the model ignores rounding in the repeated `*=`, in sums and in `toFixed`.
- Date parsing and time zones. Rule dates are parsed as UTC midnight while `getDay` is local time. The model takes each night as a day number with a weekday and has no offset between the two.
- Date month and year decoding. A billing record's date is taken as an already-decoded local (year, month) pair.
- Invalid-date checks. The `isNaN` test in the day-list builder cannot fail on day numbers.
- Rendering. JSX, CSS, pixel positions (a column is 96 pixels), tabs, context menus, `alert` messages and the print action are not modelled.
- Browser storage, the login page, and the pages and forms outside the modelled core.
- Calendario.BarAsWritten: works in whole-day columns from the already computed start index and duration. Reading the reservation's date strings into those numbers is not modelled.
- ContasBancarias.TransferEntries: both entries carry one timestamp `now`. The source reads the clock once per entry, so the two times can differ by a millisecond.
- ContasBancarias.ContasBancariasPage.HandleSave, Reservas.ReservasPage.HandleSaveReserva: a new record gets the corrected id max(ids, 0) + 1, not the source's `Math.max(...ids) + 1`, which is -Infinity for an empty list (see Findings).
- Add paths (`HandleSave`, `HandleSaveReserva`): a new record's form data must hold every mandatory field, since the forms always send them; the unchecked `as` cast is not modelled.
- Form data carries no id. An edit form sends the record's own id, so spreading it changes nothing, and an add form sends none.
- Users.UserManagementPage.HandleOpenForm: requires that the delete confirmation is closed, because the dialog is modal. This is what keeps the selected user from changing under an open confirmation.
- Checkin.CheckinLeavesArrivals: the status actions are modelled on the reservation list they update. The callback plumbing between the check-in desk and the reservations page is not modelled.
- A reservation without a status is treated differently by the receivables list (listed) and the overview (not counted). This is stated as a lemma, not changed.

## Findings

| source | as written | input that shows it | evidently intended | confidence | as-written member | corrected member |
|---|---|---|---|---|---|---|
| components/reservas/ReservasPage.tsx:46 | a new reservation's id is `Math.max(...ids) + 1`, with no floor | an empty reservation list: `Math.max()` is -Infinity, so the id is -Infinity | `Math.max(...ids, 0) + 1`, as the user page and the transfer ids do | high, not executed | `Ids.EmptyListGetsNoId` | `Ids.NextId` |
| components/financeiro/ContasBancariasPage.tsx:24 | a new account's id is `Math.max(...ids) + 1`, with no floor | an empty account list: the first account's id is -Infinity. The defect is latent: the page starts from the two sample accounts and has no delete, so the list is never empty in this program | `Math.max(...ids, 0) + 1` | low, not executed | `Ids.MaxPlusOneAsWritten` | `Ids.NextId` |
| components/reservas/CalendarioReservas.tsx:169-170 | a bar that starts before the window spans `duration + startIndex` columns, with no clipping at the window's end | a 3-day window, a stay starting one day before it and lasting 10 days: the bar is 9 columns wide and runs 6 past the last column | span `min(startIndex + duration, days.length) - max(startIndex, 0)` | medium, not executed | `Calendario.EarlyLongStayOverflows` | `Calendario.ClippedBar` |
