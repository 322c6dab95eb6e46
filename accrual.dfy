/** The loan arithmetic and the status classifier of the credit tracker.

    Money and interest rates are exact reals, so the 0.01 tolerance that the
    program uses to absorb floating-point residue is kept as a constant but no
    rounding residue is modelled. Calendar dates are integer day numbers. */
module Accrual {

  /** A calendar date as a day number; `d + 1` is the next day. */
  type Day = int

  /** A balance at or below this is treated as fully paid. */
  const Tolerance: real := 0.01

  /** Every new loan carries 20% interest per period. */
  const NewLoanRate: real := 0.2

  /** A new loan is due this many days after its loan date. */
  const TermDays: int := 30

  /** A loan is "due soon" when at most this many days remain. */
  const DueSoonDays: int := 3

  /** Total owed on a fresh loan: the principal plus one period of interest. */
  function InitialDue(amount: real, rate: real): (total: real)
    ensures amount > 0.0 && rate >= 0.0 ==> total >= amount > 0.0
    ensures amount > 0.0 && rate > 0.0 ==> total > amount
  {
    amount * (1.0 + rate)
  }

  /** Balance after a partial payment: the remainder plus a fresh period of
      interest on it. */
  function Reaccrue(remainder: real, rate: real): (balance: real)
    ensures remainder > 0.0 && rate >= 0.0 ==> balance >= remainder > 0.0
    ensures remainder > 0.0 && rate > 0.0 ==> balance > remainder
  {
    remainder * (1.0 + rate)
  }

  datatype LoanStatus = Paid | Overdue | DueSoon | Active

  /** The classifier: an ordered case split on the balance (first) and on the
      due date relative to `today`. */
  function Status(dueDate: Day, balance: real, today: Day): LoanStatus
  {
    if balance <= Tolerance then Paid
    else if today > dueDate then Overdue
    else if dueDate - today <= DueSoonDays && balance > 0.0 then DueSoon
    else Active
  }

  /** The ordered rules as four mutually exclusive conditions: the
      `balance > 0` guard of the due-soon rule is implied by the first rule. */
  lemma StatusCases(dueDate: Day, balance: real, today: Day)
    ensures Status(dueDate, balance, today) == Paid <==> balance <= Tolerance
    ensures Status(dueDate, balance, today) == Overdue <==> balance > Tolerance && today > dueDate
    ensures (Status(dueDate, balance, today) == DueSoon)
            <==> (balance > Tolerance && today <= dueDate && dueDate - today <= DueSoonDays)
    ensures (Status(dueDate, balance, today) == Active)
            <==> (balance > Tolerance && dueDate - today > DueSoonDays)
  {
  }

  /** A (nearly) settled loan is Paid whatever its due date, even long past it. */
  lemma PaidIgnoresDates(balance: real, due1: Day, today1: Day, due2: Day, today2: Day)
    requires balance <= Tolerance
    ensures Status(due1, balance, today1) == Paid == Status(due2, balance, today2)
  {
  }

  /** How pressing a status is; Paid is outside the scale. */
  function Urgency(s: LoanStatus): nat
  {
    match s
    case Paid => 0
    case Active => 0
    case DueSoon => 1
    case Overdue => 2
  }

  /** With balance and due date fixed, the status only escalates as days go by:
      Active, then Due Soon, then Overdue; and whether it is Paid does not
      depend on the day. */
  lemma StatusEscalatesOverTime(dueDate: Day, balance: real, today: Day, later: Day)
    requires today <= later
    ensures (Status(dueDate, balance, today) == Paid) == (Status(dueDate, balance, later) == Paid)
    ensures Urgency(Status(dueDate, balance, today)) <= Urgency(Status(dueDate, balance, later))
  {
  }
}
