/** The ledger's records and what happens to one loan record: issuance,
    applying a payment, editing its terms, and one step of the notification
    scan. */
module Loans {
  import opened Accrual

  type BorrowerId = string
  type LoanId = string
  type RepaymentId = string

  datatype Option<T> = None | Some(value: T)

  datatype Borrower = Borrower(
    id: BorrowerId,
    name: string,
    address: string,
    idNumber: string,         // national id number, unique among borrowers
    payslipInfo: string,
    cooperateNumber: string,
    phoneNumber: string)

  datatype Loan = Loan(
    id: LoanId,
    borrowerId: BorrowerId,
    amount: real,             // principal
    rate: real,               // interest per period, as a fraction
    loanDate: Day,
    dueDate: Day,
    initialTotalDue: real,
    balance: real,            // current outstanding balance
    paymentsMade: real,       // cumulative effective payments
    status: LoanStatus,       // stored copy of the classifier's verdict
    dueSoonSent: bool,        // a due-soon alert has been delivered
    overdueSent: bool)        // an overdue alert has been delivered

  /** One entry of the append-only repayment history. */
  datatype Repayment = Repayment(id: RepaymentId, loanId: LoanId, amountPaid: real, date: Day)

  /** A freshly issued loan: fixed 20% rate, due 30 days after the loan date,
      nothing paid, no alert sent, and stored as Active. */
  function NewLoan(id: LoanId, borrowerId: BorrowerId, amount: real, loanDate: Day): (l: Loan)
    requires amount > 0.0
    ensures l.id == id && l.borrowerId == borrowerId && l.amount == amount && l.loanDate == loanDate
    ensures l.rate == NewLoanRate && l.dueDate == loanDate + TermDays
    ensures l.initialTotalDue == InitialDue(amount, NewLoanRate) > amount
    ensures l.balance == l.initialTotalDue && l.paymentsMade == 0.0
    ensures !l.dueSoonSent && !l.overdueSent
    ensures l.status == Active
    // for any principal the form accepts, that is what the classifier says on the day of issue
    ensures amount >= Tolerance ==> Status(l.dueDate, l.balance, loanDate) == l.status
  {
    var total := InitialDue(amount, NewLoanRate);
    Loan(id, borrowerId, amount, NewLoanRate, loanDate, loanDate + TermDays,
         total, total, 0.0, Active, false, false)
  }

  /** The stored status Active agrees with the classifier until the last
      DueSoonDays + 1 days of the term. */
  lemma NewLoanActiveUntilDueSoon(id: LoanId, borrowerId: BorrowerId, amount: real, loanDate: Day, today: Day)
    requires amount >= Tolerance
    requires today < loanDate + TermDays - DueSoonDays
    ensures Status(NewLoan(id, borrowerId, amount, loanDate).dueDate, NewLoan(id, borrowerId, amount, loanDate).balance, today)
            == NewLoan(id, borrowerId, amount, loanDate).status
  {
  }

  /** A loan backdated by more than its term is stored as Active although the
      classifier calls it Overdue; every reader re-derives the status. */
  lemma BackdatedNewLoanIsOverdue(id: LoanId, borrowerId: BorrowerId, amount: real, loanDate: Day, today: Day)
    requires amount >= Tolerance
    requires today > loanDate + TermDays
    ensures NewLoan(id, borrowerId, amount, loanDate).status == Active
    ensures Status(NewLoan(id, borrowerId, amount, loanDate).dueDate, NewLoan(id, borrowerId, amount, loanDate).balance, today)
            == Overdue
  {
  }

  /** The outcome of applying one payment: the updated loan and the effective
      (clamped) amount that was applied and is recorded as the repayment. */
  datatype Settlement = Settlement(loan: Loan, applied: real)

  /** Applies a payment of `requested` to `l`, classifying the result as of
      `today`. */
  function ApplyPayment(l: Loan, requested: real, today: Day): (s: Settlement)
    // the clamp: the effective amount is min(requested, outstanding)
    ensures s.applied <= requested && s.applied <= l.balance
    ensures s.applied == requested || s.applied == l.balance
    ensures s.loan.paymentsMade == l.paymentsMade + s.applied
    ensures !s.loan.dueSoonSent && !s.loan.overdueSent
    ensures l.balance - s.applied > Tolerance ==> s.loan.balance == Reaccrue(l.balance - s.applied, l.rate)
    ensures l.balance - s.applied <= Tolerance ==> s.loan.balance == 0.0 && s.loan.status == Paid
    ensures s.loan.status == Status(s.loan.dueDate, s.loan.balance, today)
    ensures l.rate >= 0.0 ==> s.loan.balance >= 0.0
    // the terms of the loan are not touched; in particular the due date stays
    ensures s.loan == l.(paymentsMade := s.loan.paymentsMade, balance := s.loan.balance,
                         status := s.loan.status, dueSoonSent := false, overdueSent := false)
  {
    var applied := if requested > l.balance then l.balance else requested;
    var remainder := l.balance - applied;
    var balance := if remainder > Tolerance then Reaccrue(remainder, l.rate) else 0.0;
    Settlement(
      l.(paymentsMade := l.paymentsMade + applied, balance := balance,
         status := Status(l.dueDate, balance, today),
         dueSoonSent := false, overdueSent := false),
      applied)
  }

  /** Paying at least the outstanding balance settles the loan: the excess is
      dropped, the whole balance is what is recorded, and the loan is Paid. */
  lemma OverpaymentSettles(l: Loan, requested: real, today: Day)
    requires requested >= l.balance
    ensures ApplyPayment(l, requested, today).applied == l.balance
    ensures ApplyPayment(l, requested, today).loan.balance == 0.0
    ensures ApplyPayment(l, requested, today).loan.status == Paid
    ensures ApplyPayment(l, requested, today).loan.paymentsMade == l.paymentsMade + l.balance
  {
  }

  /** A partial payment of a positive amount on a positive-rate loan makes
      the loan grow by interest on what is left, never beyond the old balance
      times (1 + rate). */
  lemma PartialPaymentReaccrues(l: Loan, requested: real, today: Day)
    requires 0.0 < requested && l.balance - requested > Tolerance && l.rate >= 0.0
    ensures ApplyPayment(l, requested, today).applied == requested
    ensures l.balance - requested <= ApplyPayment(l, requested, today).loan.balance
                                  <= (l.balance - requested) * (1.0 + l.rate)
    ensures ApplyPayment(l, requested, today).loan.balance < l.balance * (1.0 + l.rate)
    ensures ApplyPayment(l, requested, today).loan.status != Paid
  {
  }

  /** Editing a loan's principal, loan date and due date: the total due is
      recomputed from the new principal, the balance shifts by the change in
      principal (never below zero), the status is reclassified and both
      alert flags are re-armed. */
  function EditTerms(l: Loan, newAmount: real, newLoanDate: Day, newDueDate: Day, today: Day): (e: Loan)
    ensures e.initialTotalDue == InitialDue(newAmount, l.rate)
    ensures e.balance >= 0.0
    ensures l.balance + (newAmount - l.amount) >= 0.0 ==> e.balance == l.balance + (newAmount - l.amount)
    ensures l.balance + (newAmount - l.amount) < 0.0 ==> e.balance == 0.0
    ensures e.status == Status(newDueDate, e.balance, today)
    ensures e == l.(amount := newAmount, loanDate := newLoanDate, dueDate := newDueDate,
                    initialTotalDue := e.initialTotalDue, balance := e.balance, status := e.status,
                    dueSoonSent := false, overdueSent := false)
  {
    var shifted := l.balance + (newAmount - l.amount);
    var balance := if shifted < 0.0 then 0.0 else shifted;
    l.(amount := newAmount, loanDate := newLoanDate, dueDate := newDueDate,
       initialTotalDue := InitialDue(newAmount, l.rate), balance := balance,
       status := Status(newDueDate, balance, today),
       dueSoonSent := false, overdueSent := false)
  }

  /** Editing the principal back to what it was restores the balance and the
      total due, unless the first edit had to clamp the balance at zero. */
  lemma EditUndone(l: Loan, newAmount: real, newLoanDate: Day, newDueDate: Day, today: Day)
    requires l.balance >= 0.0 && l.balance + (newAmount - l.amount) >= 0.0
    ensures EditTerms(EditTerms(l, newAmount, newLoanDate, newDueDate, today),
                      l.amount, l.loanDate, l.dueDate, today).balance == l.balance
    ensures EditTerms(EditTerms(l, newAmount, newLoanDate, newDueDate, today),
                      l.amount, l.loanDate, l.dueDate, today).initialTotalDue == InitialDue(l.amount, l.rate)
  {
  }

  datatype AlertKind = OverdueAlert | DueSoonAlert

  /** An alert the scan attempted, and whether the messaging channel
      reported it delivered. */
  datatype Alert = Alert(loanId: LoanId, kind: AlertKind, delivered: bool)

  /** The outcome of sending alert `kind` about a loan: the messaging channel
      is outside the model, only its success or failure is. */
  type Deliver = (LoanId, AlertKind) -> bool

  /** The notification scan's handling of one loan. */
  datatype ScanStep = ScanStep(loan: Loan, alert: Option<Alert>)

  /** The status an alert kind announces. */
  function Announces(kind: AlertKind): LoanStatus
  {
    match kind
    case OverdueAlert => Overdue
    case DueSoonAlert => DueSoon
  }

  /** Whether the alert of `kind` has already been delivered for `l`. */
  function Sent(l: Loan, kind: AlertKind): bool
  {
    match kind
    case OverdueAlert => l.overdueSent
    case DueSoonAlert => l.dueSoonSent
  }

  /** One loan's step of the notification scan, as of `today`. */
  function ScanLoan(l: Loan, today: Day, deliver: Deliver): (r: ScanStep)
    // only the two flags can change
    ensures r.loan == l.(dueSoonSent := r.loan.dueSoonSent, overdueSent := r.loan.overdueSent)
    ensures l.balance <= Tolerance ==> r == ScanStep(l, None)
    // an alert is attempted only for an unsent condition the classifier reports,
    // and its flag is set exactly when the send succeeds
    ensures r.alert.Some? ==>
              && r.alert.value.loanId == l.id
              && Status(l.dueDate, l.balance, today) == Announces(r.alert.value.kind)
              && !Sent(l, r.alert.value.kind)
              && Sent(r.loan, r.alert.value.kind) == r.alert.value.delivered
              && r.alert.value.delivered == deliver(l.id, r.alert.value.kind)
    // ... and it is always attempted in that case
    ensures Status(l.dueDate, l.balance, today) == Overdue && !l.overdueSent ==> r.alert.Some?
    ensures Status(l.dueDate, l.balance, today) == DueSoon && !l.dueSoonSent ==> r.alert.Some?
    // overdue and due-soon leave the other condition's flag alone
    ensures Status(l.dueDate, l.balance, today) == Overdue ==> r.loan.dueSoonSent == l.dueSoonSent
    ensures Status(l.dueDate, l.balance, today) == DueSoon ==> r.loan.overdueSent == l.overdueSent
    ensures Status(l.dueDate, l.balance, today) in {Overdue, DueSoon} && r.alert.None? ==> r.loan == l
    // a loan outside both windows gets both flags cleared
    ensures Status(l.dueDate, l.balance, today) == Active ==>
              r.alert.None? && !r.loan.dueSoonSent && !r.loan.overdueSent
  {
    if l.balance > Tolerance then
      if today > l.dueDate then
        if !l.overdueSent then
          var ok := deliver(l.id, OverdueAlert);
          ScanStep(l.(overdueSent := ok), Some(Alert(l.id, OverdueAlert, ok)))
        else ScanStep(l, None)
      else if l.dueDate - today <= DueSoonDays then
        if !l.dueSoonSent then
          var ok := deliver(l.id, DueSoonAlert);
          ScanStep(l.(dueSoonSent := ok), Some(Alert(l.id, DueSoonAlert, ok)))
        else ScanStep(l, None)
      else if l.dueSoonSent || l.overdueSent then
        ScanStep(l.(dueSoonSent := false, overdueSent := false), None)
      else ScanStep(l, None)
    else ScanStep(l, None)
  }

  /** What a repeated scan on the same day does with one loan: it retries
      exactly the alert that failed the first time, and leaves a loan whose
      alert went out (or that needed none) as it was. */
  lemma ScanLoanTwice(l: Loan, today: Day, first: Deliver, second: Deliver)
    ensures var once := ScanLoan(l, today, first);
            var twice := ScanLoan(once.loan, today, second);
            && (twice.alert.Some? <==> once.alert.Some? && !once.alert.value.delivered)
            && (twice.alert.Some? ==> twice.alert.value.kind == once.alert.value.kind)
            && (once.alert.None? || once.alert.value.delivered ==> twice.loan == once.loan)
  {
  }

  /** A payment re-arms the alerts: the next scan attempts an alert exactly
      when the paid loan is overdue or due soon. */
  lemma PaymentRearmsAlerts(l: Loan, requested: real, today: Day, deliver: Deliver)
    ensures var paid := ApplyPayment(l, requested, today).loan;
            ScanLoan(paid, today, deliver).alert.Some? <==> paid.status in {Overdue, DueSoon}
  {
  }
}
