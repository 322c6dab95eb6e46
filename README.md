# Loan ledger of the credit tracker

This project models the loan ledger of a small credit tracker: a single-page application where one operator registers borrowers and issues short-term loans. New loans carry 20% interest and are due 30 days after issue. The operator records repayments, edits or deletes loans, and runs a scan that e-mails "due soon" and "overdue" alerts.

The model covers the ledger's state machine:
- the accrual arithmetic;
- the status classifier (Paid / Overdue / Due Soon / Active);
- the lifecycle operations on the borrower table, the loan list and the repayment history;
- the pair of notification flags that makes each alert go out at most once per condition.

It has three files:

- `accrual.dfy`, module `Accrual`: the constants (0.01 tolerance, 20% rate, 30-day term, 3-day due-soon window), the two accrual formulas and the classifier.
- `loans.dfy`, module `Loans`: the borrower, loan and repayment records, and what happens to one loan. That covers issuing it (`NewLoan`), paying it (`ApplyPayment`), editing its terms (`EditTerms`) and one loan's step of the notification scan (`ScanLoan`).
- `ledger.dfy`:
  - Module `Ledger` holds the class `LoanLedger`. Its fields are the borrower table (a map keyed by borrower id), the loan list (a sequence, kept in the program's order) and the repayment history (an append-only sequence).
  - Its methods are the operations the pages perform: register and edit a borrower, create, find, pay, edit and delete a loan, and run the notification scan.
  - Its `Valid()` invariant says:
    - every loan's borrower exists;
    - id numbers and loan ids are unique;
    - balances and rates are not negative;
    - every repayment is positive and belongs to a stored loan;
    - every loan's `paymentsMade` is exactly the sum of its recorded repayments.
  - Module `Walkthrough` replays two worked examples against the contracts.

Conventions:
- Money and rates are exact `real`s, and dates are integer day numbers.
- "Today", the fresh ids and the payment date are parameters.
- The outcome of sending an e-mail is a parameter `deliver: (LoanId, AlertKind) -> bool`.

Three behaviours of the code are kept as written:

- A new loan is stored with status `Active` (app.py:410) instead of the classifier's verdict. For a loan backdated by more than its term, these differ (`Loans.BackdatedNewLoanIsOverdue`).
- The notification scan rewrites only the two flags. It never rewrites the stored status.
- A payment of zero or less is not rejected by the payment code. The form only accepts amounts of at least 0.01 (app.py:445) and only lists loans with more than 0.01 outstanding (app.py:427). Both are preconditions of `RecordPayment`.

## Model

| member | source | states |
|---|---|---|
| Accrual.InitialDue | app.py:98-100 | the total due on a positive principal at a non-negative rate is at least the principal, and strictly more when the rate is positive |
| Accrual.Reaccrue | app.py:102-107 | re-accruing a positive remainder never lowers it, and raises it when the rate is positive |
| Accrual.StatusCases | app.py:109-122 | about the classifier `Accrual.Status` itself: the ordered rules as four exclusive if-and-only-if conditions: Paid iff balance ≤ 0.01; Overdue iff unpaid and past due; Due Soon iff unpaid, not past due and at most 3 days left; Active iff unpaid with more than 3 days left |
| Accrual.PaidIgnoresDates | app.py:115-116 | a balance at or below the tolerance is Paid whatever the due date and day |
| Accrual.StatusEscalatesOverTime | app.py:115-122 | with balance and due date fixed, whether a loan is Paid does not depend on the day, and its urgency (Active < Due Soon < Overdue) never decreases as days pass |
| Loans.NewLoan | app.py:392-413 | a new loan has rate 0.2, is due 30 days after issue, owes more than its principal, its balance is the total due, nothing is paid, no alert is sent, and it is stored Active, which for any principal of at least 0.01, the form's floor (app.py:385), is the classifier's verdict on the day of issue |
| Loans.NewLoanActiveUntilDueSoon | app.py:396-410 | the stored Active agrees with the classifier until the due-soon window opens |
| Loans.BackdatedNewLoanIsOverdue | app.py:398-410 | a loan backdated by more than 30 days is stored Active although the classifier says Overdue |
| Loans.ApplyPayment | app.py:456-478 | the applied amount is min(requested, balance); payments made grow by it; both flags are reset; a remainder above 0.01 is re-accrued, otherwise the balance is 0 and the loan Paid; the status is the classifier's; the balance stays non-negative; nothing else changes |
| Loans.OverpaymentSettles | app.py:457-476 | paying at least the balance applies exactly the balance, leaves 0 owed and makes the loan Paid |
| Loans.PartialPaymentReaccrues | app.py:462-474 | a partial payment leaving more than 0.01 is applied in full; the new balance lies between the remainder and the remainder times (1 + rate); the loan is not Paid |
| Loans.EditTerms | app.py:729-748 | the total due is recomputed from the new principal; the balance shifts by the change in principal, clamped at 0; the status is reclassified; both flags are reset; the rate, paid amount and ids are kept |
| Loans.EditUndone | app.py:730-735 | editing the principal back restores the balance and the total due when no clamp was needed |
| Loans.ScanLoan | app.py:836-888 | only the flags change; a paid loan is skipped; an alert is attempted exactly for an Overdue or Due Soon loan whose flag is unset; its flag is set iff delivery succeeds, and the other condition's flag is left as it was; an Active loan has both flags cleared |
| Loans.ScanLoanTwice | app.py:846-880 | a second scan of a loan attempts an alert iff the first scan's alert failed, of the same kind, and otherwise leaves the loan as it was |
| Loans.PaymentRearmsAlerts | app.py:465-468 | after a payment, the next scan attempts an alert iff the loan is Overdue or Due Soon |
| Ledger.RemoveLoan | app.py:804 | the remaining loans are exactly those whose id differs from the deleted one |
| Ledger.RemoveLoanDistinct | app.py:804 | deleting a loan keeps loan ids distinct |
| Ledger.Purge | app.py:802 | the remaining repayments are exactly those of other loans |
| Ledger.TotalPaidAbsent | app.py:409 | a loan with no recorded repayment has been paid nothing, which matches the 0 payments of a new loan |
| Ledger.TotalPaidPurge | app.py:801-804 | deleting one loan's repayments leaves every other loan's total paid unchanged |
| Ledger.ScanLoans | app.py:836-888 | a scan changes no loan's terms, balance, payments or status, only its two alert flags, and leaves every loan with at most 0.01 outstanding exactly as it was |
| Ledger.ScanAlerts | app.py:836-888 | a scan attempts at most as many alerts as there are loans; every alert is the one some stored loan's scan step attempts, so its kind matches that loan's status and unset flag; each alert's delivery is the channel's answer |
| Ledger.ScanAlertsComplete | app.py:836-880 | conversely, every alert some stored loan's scan step attempts (overdue or due soon with its flag unset) is in the scan's list |
| Ledger.ScanAlertsOnePerLoan | app.py:836-888 | with distinct loan ids, no two alerts of one scan concern the same loan |
| Ledger.SecondScanRetriesFailures | app.py:846-880 | a second scan on the same day attempts exactly the first scan's failed alerts, in the same order |
| Ledger.AllDeliveredThenQuiet | app.py:846-880 | once every send succeeds, a repeated scan sends nothing |
| Ledger.ScanKeepsInvariant | app.py:836-888 | the scan preserves the ledger invariant |
| Ledger.PaymentKeepsInvariant | app.py:454-495 | a payment together with its repayment record preserves the ledger invariant, including payments made equals the sum of repayments |
| Ledger.PaymentWithoutHistory | app.py:301-318 | as written: the loan row is updated but the history does not grow |
| Ledger.PaymentWithoutHistoryLosesRepayment | app.py:490-495 | as written: after $50 is paid on a fresh loan, payments made is 50 but the recorded total is 0, so the invariant fails |
| Ledger.DeleteWithoutHistory | app.py:798-812 | as written: the failing repayment delete leaves the loan list (by id) and the history as they were |
| Ledger.DeleteWithoutHistoryKeepsLoan | app.py:802-810 | as written: after deleting loan L1 on a store without a repayments table, L1 is still stored, where the intended cascade removes it |
| Ledger.DeleteKeepsInvariant | app.py:795-812 | deleting a loan and its repayments preserves the invariant: no repayment is orphaned, and every other loan's total still adds up |
| Ledger.DeleteRepaymentsOf | app.py:802 | the loop that drops a loan's repayments computes `Purge` |
| Ledger.DeleteLoanRows | app.py:804 | the loop that drops a loan's row computes `RemoveLoan` |
| Ledger.LoanLedger.constructor | app.py:21-56 | a new store is empty and valid |
| Ledger.LoanLedger.AddBorrower | app.py:354-368 | ValidationError iff name, address or id number is empty; otherwise DuplicateKey iff the id or the id number is taken; otherwise the borrower, with "No payslip uploaded" when none is given, is added; loans and history are untouched; the invariant is kept |
| Ledger.LoanLedger.UpdateBorrower | app.py:655-687 | NotFound iff the borrower is missing; DuplicateKey iff another borrower holds the new id number; otherwise only the identity fields are rewritten, and the payslip and all loans are kept |
| Ledger.LoanLedger.CreateLoan | app.py:392-416 | NotFound iff the borrower is missing; ValidationError iff the amount is not positive; DuplicateKey iff the loan id is taken; otherwise `NewLoan` is appended and the invariant kept |
| Ledger.LoanLedger.FindLoan | app.py:454-455 | returns the position of the first loan with the id, or -1 iff there is none |
| Ledger.LoanLedger.RecordPayment | app.py:452-501 | NotFound iff no loan has the id, and then nothing changes; otherwise that loan becomes `ApplyPayment`'s result, the effective amount is returned and appended to the history, and the invariant is kept |
| Ledger.LoanLedger.EditLoan | app.py:712-755 | NotFound iff no loan has the id; otherwise that loan becomes `EditTerms`'s result, and borrowers and history are untouched |
| Ledger.LoanLedger.DeleteLoan | app.py:795-812 | the history loses exactly the loan's repayments, the list loses exactly the loan, and the invariant is kept |
| Ledger.LoanLedger.NotificationScan | app.py:836-888 | the loans become `ScanLoans` of the old loans, the returned alerts are `ScanAlerts`, borrowers and history are untouched, and the invariant is kept |
| Walkthrough.PaymentWalkthrough | app.py:392-478 | a $100 loan owes $120 by day 30; paying $50 leaves $84 Active with flags reset; paying $84 leaves 0, Paid, $134 paid, and a history of two repayments |
| Walkthrough.NotificationWalkthrough | app.py:836-880 | a $120 balance due in 2 days gets one due-soon alert; a second scan sends none; 5 days past due it gets one overdue alert |

## Left out

- The presentation layer is not modelled: forms, tables, charts, navigation and messages shown to the operator. This includes selecting a borrower by name, where two borrowers with the same name collapse to one choice (app.py:376).
- The delete confirmation checkbox (app.py:792) is part of the presentation layer. `DeleteLoan` is the confirmed deletion.
- Storage in SQLite and the re-fetch into session state are not modelled. Each operation is one atomic step on in-memory state. The loan-then-repayment write sequence is not atomic in the program, and a failure between the two writes is not modelled. The corrected `RecordPayment` writes both or neither.
- Sending e-mail (app.py:125-147) is modelled only as the success or failure returned by `deliver`. A crash between a successful send and the flag write, which would cause a duplicate alert, is not modelled.
- Concurrent operations and lost updates are not modelled: the program is single-user and runs one operation at a time.
- Floating-point rounding is not modelled. Amounts are exact reals, so the 0.01 tolerance absorbs no rounding residue here.
- Fresh ids (uuid4), the current date and the payslip file upload are parameters. Only the payslip's file name is kept.
- Uniqueness of repayment ids is not tracked. The ids come from uuid4.
- Read-only views (loan list, borrower list, summaries) are not modelled. They only re-run the classifier, which is `Accrual.Status`.
- Ledger.LoanLedger.RecordPayment: requires `requested >= 0.01` and more than 0.01 outstanding on the chosen loan. The program guarantees both only through its form (app.py:427, app.py:445).

## Findings

| source | as written | input that shows it | evidently intended | confidence | as-written member | corrected member |
|---|---|---|---|---|---|---|
| app.py:21-56 | the schema set-up creates only the borrowers and loans tables, but payments insert into a repayments table (app.py:307) and deletion deletes from it (app.py:802); on a fresh database the insert fails and is only reported, so the loan is updated while the history is not | a fresh database, a $100 loan, a payment of $50: payments made is 50, the recorded repayments total 0 | a repayments table exists, and each payment appends its record together with the loan update | medium (an older database may already hold the table); not executed | Ledger.PaymentWithoutHistoryLosesRepayment | Ledger.LoanLedger.RecordPayment |
| app.py:802-810 | on the same fresh database every deletion fails: the `DELETE FROM repayments` raises, the error is only reported (app.py:809-810), and the loan row (app.py:804) is never deleted | a fresh database holding loan L1; deleting L1 leaves L1 stored | the loan and its repayments are deleted together | medium (an older database may already hold the table); not executed | Ledger.DeleteWithoutHistoryKeepsLoan | Ledger.LoanLedger.DeleteLoan |
