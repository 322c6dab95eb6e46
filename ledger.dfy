/** The ledger store: the borrower table, the list of loans and the
    repayment history, and the operations the credit tracker's pages perform
    on them (register or edit a borrower, issue, pay, edit or delete a loan,
    run the notification scan). Each operation is one atomic step. */
module Ledger {
  import opened Accrual
  import opened Loans

  datatype LedgerError =
    | ValidationError   // a required field is missing or an amount is not positive
    | DuplicateKey      // a primary key or a borrower's id number is already taken
    | NotFound          // no loan or borrower has the given id

  datatype Result<T> = Ok(value: T) | Err(error: LedgerError)

  /** Stored as the payslip reference when no payslip is uploaded. */
  const NoPayslip: string := "No payslip uploaded"

  // ---------------------------------------------------------------------------
  // Borrowers

  /** Some borrower other than `self` already holds `idNumber`. */
  predicate IdNumberClash(bs: map<BorrowerId, Borrower>, idNumber: string, self: BorrowerId)
  {
    exists k :: k in bs && k != self && bs[k].idNumber == idNumber
  }

  /** Every borrower is filed under its own id, and id numbers are unique. */
  ghost predicate BorrowersWellFormed(bs: map<BorrowerId, Borrower>)
  {
    && (forall k :: k in bs ==> bs[k].id == k)
    && (forall k1, k2 :: k1 in bs && k2 in bs && k1 != k2 ==> bs[k1].idNumber != bs[k2].idNumber)
  }

  // ---------------------------------------------------------------------------
  // Loans

  predicate HasLoan(ls: seq<Loan>, id: LoanId)
  {
    exists l :: l in ls && l.id == id
  }

  ghost predicate DistinctIds(ls: seq<Loan>)
  {
    forall i, j :: 0 <= i < j < |ls| ==> ls[i].id != ls[j].id
  }

  /** The loans left after deleting every loan with id `id`. */
  function RemoveLoan(ls: seq<Loan>, id: LoanId): (kept: seq<Loan>)
    ensures forall l :: l in kept <==> l in ls && l.id != id
    ensures |kept| <= |ls|
  {
    if ls == [] then []
    else RemoveLoan(ls[..|ls| - 1], id) + (if ls[|ls| - 1].id == id then [] else [ls[|ls| - 1]])
  }

  /** Deleting keeps the remaining ids distinct. */
  lemma {:induction false} RemoveLoanDistinct(ls: seq<Loan>, id: LoanId)
    requires DistinctIds(ls)
    ensures DistinctIds(RemoveLoan(ls, id))
  {
    if ls != [] {
      var init, last := ls[..|ls| - 1], ls[|ls| - 1];
      assert DistinctIds(init);
      RemoveLoanDistinct(init, id);
      var kept := RemoveLoan(init, id);
      forall l | l in kept ensures l.id != last.id {
        assert l in init;
        var i :| 0 <= i < |init| && init[i] == l;
        assert ls[i] == l;
      }
    }
  }

  /** Rewriting loans in place without touching their ids keeps the set of
      ids, and their distinctness. */
  lemma SameIds(ls: seq<Loan>, ls': seq<Loan>)
    requires |ls| == |ls'|
    requires forall k :: 0 <= k < |ls| ==> ls'[k].id == ls[k].id
    ensures forall x :: HasLoan(ls, x) <==> HasLoan(ls', x)
    ensures DistinctIds(ls) ==> DistinctIds(ls')
  {
    forall x ensures HasLoan(ls, x) ==> HasLoan(ls', x) {
      if HasLoan(ls, x) {
        var l :| l in ls && l.id == x;
        var k :| 0 <= k < |ls| && ls[k] == l;
        assert ls'[k] in ls';
      }
    }
    forall x ensures HasLoan(ls', x) ==> HasLoan(ls, x) {
      if HasLoan(ls', x) {
        var l :| l in ls' && l.id == x;
        var k :| 0 <= k < |ls'| && ls'[k] == l;
        assert ls[k] in ls;
      }
    }
  }

  // ---------------------------------------------------------------------------
  // Repayment history

  /** The sum of the repayments recorded against loan `id`. */
  function TotalPaid(rs: seq<Repayment>, id: LoanId): real
  {
    if rs == [] then 0.0
    else TotalPaid(rs[..|rs| - 1], id) + (if rs[|rs| - 1].loanId == id then rs[|rs| - 1].amountPaid else 0.0)
  }

  /** The history left after deleting every repayment of loan `id`. */
  function Purge(rs: seq<Repayment>, id: LoanId): (kept: seq<Repayment>)
    ensures forall r :: r in kept <==> r in rs && r.loanId != id
    ensures |kept| <= |rs|
  {
    if rs == [] then []
    else Purge(rs[..|rs| - 1], id) + (if rs[|rs| - 1].loanId == id then [] else [rs[|rs| - 1]])
  }

  lemma TotalPaidAppend(rs: seq<Repayment>, r: Repayment, id: LoanId)
    ensures TotalPaid(rs + [r], id) == TotalPaid(rs, id) + (if r.loanId == id then r.amountPaid else 0.0)
  {
    assert (rs + [r])[..|rs|] == rs;
  }

  /** A loan with no recorded repayment has been paid nothing. */
  lemma {:induction false} TotalPaidAbsent(rs: seq<Repayment>, id: LoanId)
    requires forall r :: r in rs ==> r.loanId != id
    ensures TotalPaid(rs, id) == 0.0
  {
    if rs != [] {
      TotalPaidAbsent(rs[..|rs| - 1], id);
    }
  }

  /** Deleting one loan's repayments leaves every other loan's total alone. */
  lemma {:induction false} TotalPaidPurge(rs: seq<Repayment>, id: LoanId, other: LoanId)
    requires other != id
    ensures TotalPaid(Purge(rs, id), other) == TotalPaid(rs, other)
  {
    if rs != [] {
      var init, last := rs[..|rs| - 1], rs[|rs| - 1];
      TotalPaidPurge(init, id, other);
      assert TotalPaid(rs, other) == TotalPaid(init, other) + (if last.loanId == other then last.amountPaid else 0.0);
      if last.loanId == id {
        assert Purge(rs, id) == Purge(init, id);
      } else {
        assert Purge(rs, id) == Purge(init, id) + [last];
        TotalPaidAppend(Purge(init, id), last, other);
      }
    }
  }

  // ---------------------------------------------------------------------------
  // The ledger's invariant

  /** What every stored loan satisfies: its borrower exists, its rate and
      balance are not negative, and its payments-made figure is exactly the
      sum of its recorded repayments. */
  ghost predicate LoanInvariant(l: Loan, bs: map<BorrowerId, Borrower>, rs: seq<Repayment>)
  {
    && l.borrowerId in bs
    && l.rate >= 0.0
    && l.balance >= 0.0
    && l.paymentsMade == TotalPaid(rs, l.id)
  }

  /** Every repayment is positive and belongs to a stored loan. */
  ghost predicate RepaymentInvariant(r: Repayment, ls: seq<Loan>)
  {
    r.amountPaid > 0.0 && HasLoan(ls, r.loanId)
  }

  // ---------------------------------------------------------------------------
  // The notification scan over all loans

  /** The loans after one scan. */
  function ScanLoans(ls: seq<Loan>, today: Day, deliver: Deliver): (scanned: seq<Loan>)
    ensures |scanned| == |ls|
    ensures forall k :: 0 <= k < |ls| ==> scanned[k] == ScanLoan(ls[k], today, deliver).loan
    // the scan rewrites alert flags only, and leaves settled loans entirely alone
    ensures forall k :: 0 <= k < |ls| ==>
              scanned[k] == ls[k].(dueSoonSent := scanned[k].dueSoonSent, overdueSent := scanned[k].overdueSent)
    ensures forall k :: 0 <= k < |ls| && ls[k].balance <= Tolerance ==> scanned[k] == ls[k]
  {
    seq(|ls|, k requires 0 <= k < |ls| => ScanLoan(ls[k], today, deliver).loan)
  }

  function AlertList(a: Option<Alert>): seq<Alert>
  {
    if a.Some? then [a.value] else []
  }

  /** The alerts one scan attempts, in the order of the loans. */
  function ScanAlerts(ls: seq<Loan>, today: Day, deliver: Deliver): (alerts: seq<Alert>)
    ensures |alerts| <= |ls|
    ensures forall a :: a in alerts ==> HasLoan(ls, a.loanId) && a.delivered == deliver(a.loanId, a.kind)
    // every alert is the one its loan's scan step attempts
    ensures forall a :: a in alerts ==> exists l :: l in ls && ScanLoan(l, today, deliver).alert == Some(a)
  {
    if ls == [] then []
    else ScanAlerts(ls[..|ls| - 1], today, deliver) + AlertList(ScanLoan(ls[|ls| - 1], today, deliver).alert)
  }

  /** Conversely, every alert a stored loan's scan step attempts is in the
      scan's list. */
  lemma {:induction false} ScanAlertsComplete(ls: seq<Loan>, today: Day, deliver: Deliver)
    ensures forall l :: l in ls && ScanLoan(l, today, deliver).alert.Some? ==>
              ScanLoan(l, today, deliver).alert.value in ScanAlerts(ls, today, deliver)
  {
    if ls != [] {
      var init, last := ls[..|ls| - 1], ls[|ls| - 1];
      ScanAlertsComplete(init, today, deliver);
      var tail := AlertList(ScanLoan(last, today, deliver).alert);
      assert ScanAlerts(ls, today, deliver) == ScanAlerts(init, today, deliver) + tail;
      forall l | l in ls && ScanLoan(l, today, deliver).alert.Some?
        ensures ScanLoan(l, today, deliver).alert.value in ScanAlerts(ls, today, deliver)
      {
        if l == last {
          assert ScanLoan(l, today, deliver).alert.value in tail;
        } else {
          var i :| 0 <= i < |ls| && ls[i] == l;
          assert init[i] == l;
        }
      }
    }
  }

  /** Alerts about pairwise different loans. */
  predicate OnePerLoan(alerts: seq<Alert>)
  {
    forall i, j :: 0 <= i < j < |alerts| ==> alerts[i].loanId != alerts[j].loanId
  }

  lemma AppendOnePerLoan(prefix: seq<Alert>, tail: seq<Alert>, id: LoanId)
    requires OnePerLoan(prefix) && |tail| <= 1
    requires forall a :: a in prefix ==> a.loanId != id
    requires forall a :: a in tail ==> a.loanId == id
    ensures OnePerLoan(prefix + tail)
  {
    var alerts := prefix + tail;
    forall i, j | 0 <= i < j < |alerts| ensures alerts[i].loanId != alerts[j].loanId {
      assert alerts[i] == prefix[i];
      if j < |prefix| {
        assert alerts[j] == prefix[j];
      } else {
        assert alerts[j] in tail;
        assert prefix[i] in prefix;
      }
    }
  }

  /** With loan ids distinct, a scan attempts at most one alert per loan. */
  lemma {:induction false} ScanAlertsOnePerLoan(ls: seq<Loan>, today: Day, deliver: Deliver)
    requires DistinctIds(ls)
    ensures OnePerLoan(ScanAlerts(ls, today, deliver))
  {
    if ls != [] {
      var init, last := ls[..|ls| - 1], ls[|ls| - 1];
      assert DistinctIds(init);
      ScanAlertsOnePerLoan(init, today, deliver);
      var prefix := ScanAlerts(init, today, deliver);
      var tail := AlertList(ScanLoan(last, today, deliver).alert);
      forall a | a in prefix ensures a.loanId != last.id {
        var l :| l in init && l.id == a.loanId;
        var m :| 0 <= m < |init| && init[m] == l;
        assert ls[m] == l;
      }
      AppendOnePerLoan(prefix, tail, last.id);
    }
  }

  /** What a second scan does with the first scan's alerts: the delivered ones
      are not sent again, the failed ones are tried again. */
  function Retry(alerts: seq<Alert>, deliver: Deliver): seq<Alert>
  {
    if alerts == [] then []
    else
      var a := alerts[|alerts| - 1];
      Retry(alerts[..|alerts| - 1], deliver)
        + (if a.delivered then [] else [Alert(a.loanId, a.kind, deliver(a.loanId, a.kind))])
  }

  lemma {:induction false} RetryAppend(xs: seq<Alert>, ys: seq<Alert>, deliver: Deliver)
    ensures Retry(xs + ys, deliver) == Retry(xs, deliver) + Retry(ys, deliver)
  {
    if ys == [] {
      assert xs + ys == xs;
    } else {
      var init, last := ys[..|ys| - 1], ys[|ys| - 1];
      var tail := if last.delivered then [] else [Alert(last.loanId, last.kind, deliver(last.loanId, last.kind))];
      assert (xs + ys)[..|xs + ys| - 1] == xs + init;
      assert (xs + ys)[|xs + ys| - 1] == last;
      RetryAppend(xs, init, deliver);
      calc {
        Retry(xs + ys, deliver);
        Retry(xs + init, deliver) + tail;
        Retry(xs, deliver) + Retry(init, deliver) + tail;
        Retry(xs, deliver) + (Retry(init, deliver) + tail);
        Retry(xs, deliver) + Retry(ys, deliver);
      }
    }
  }

  lemma {:induction false} RetryAllDelivered(alerts: seq<Alert>, deliver: Deliver)
    requires forall a :: a in alerts ==> a.delivered
    ensures Retry(alerts, deliver) == []
  {
    if alerts != [] {
      RetryAllDelivered(alerts[..|alerts| - 1], deliver);
    }
  }

  /** A second scan on the same day, with no change in between, attempts
      exactly the alerts whose delivery failed the first time, in the same
      order, and nothing else. */
  lemma {:induction false} SecondScanRetriesFailures(ls: seq<Loan>, today: Day, first: Deliver, second: Deliver)
    ensures ScanAlerts(ScanLoans(ls, today, first), today, second)
            == Retry(ScanAlerts(ls, today, first), second)
  {
    if ls != [] {
      var init, last := ls[..|ls| - 1], ls[|ls| - 1];
      var scanned := ScanLoans(ls, today, first);
      var once := ScanLoan(last, today, first);
      assert scanned[..|scanned| - 1] == ScanLoans(init, today, first);
      assert scanned[|scanned| - 1] == once.loan;
      assert ScanAlerts(ls, today, first) == ScanAlerts(init, today, first) + AlertList(once.alert);
      assert ScanAlerts(scanned, today, second)
             == ScanAlerts(ScanLoans(init, today, first), today, second)
                + AlertList(ScanLoan(once.loan, today, second).alert);
      SecondScanRetriesFailures(init, today, first, second);
      ScanLoanTwice(last, today, first, second);
      assert AlertList(ScanLoan(once.loan, today, second).alert) == Retry(AlertList(once.alert), second);
      RetryAppend(ScanAlerts(init, today, first), AlertList(once.alert), second);
    }
  }

  /** At most one alert per condition: once a scan's sends all succeed, a
      repeated scan sends nothing, whatever the channel does. */
  lemma AllDeliveredThenQuiet(ls: seq<Loan>, today: Day, first: Deliver, second: Deliver)
    requires forall id, kind :: first(id, kind)
    ensures ScanAlerts(ScanLoans(ls, today, first), today, second) == []
  {
    SecondScanRetriesFailures(ls, today, first, second);
    RetryAllDelivered(ScanAlerts(ls, today, first), second);
  }

  /** A list that agrees with every loan's scan step, position by position,
      is the scanned list. */
  lemma ScanLoansPointwise(ls: seq<Loan>, scanned: seq<Loan>, today: Day, deliver: Deliver)
    requires |scanned| == |ls|
    requires forall k :: 0 <= k < |ls| ==> scanned[k] == ScanLoan(ls[k], today, deliver).loan
    ensures scanned == ScanLoans(ls, today, deliver)
  {
  }

  /** The scan touches only alert flags, so the ledger's invariant survives it. */
  lemma ScanKeepsInvariant(ls: seq<Loan>, today: Day, deliver: Deliver,
                           bs: map<BorrowerId, Borrower>, rs: seq<Repayment>)
    requires DistinctIds(ls)
    requires forall l :: l in ls ==> LoanInvariant(l, bs, rs)
    requires forall r :: r in rs ==> RepaymentInvariant(r, ls)
    ensures DistinctIds(ScanLoans(ls, today, deliver))
    ensures forall l :: l in ScanLoans(ls, today, deliver) ==> LoanInvariant(l, bs, rs)
    ensures forall r :: r in rs ==> RepaymentInvariant(r, ScanLoans(ls, today, deliver))
  {
    var scanned := ScanLoans(ls, today, deliver);
    SameIds(ls, scanned);
    forall l | l in scanned ensures LoanInvariant(l, bs, rs) {
      var k :| 0 <= k < |scanned| && scanned[k] == l;
      assert ls[k] in ls;
    }
  }

  /** Applying a payment to the loan at position `k` and appending its
      repayment record keeps the ledger's invariant. */
  lemma PaymentKeepsInvariant(ls: seq<Loan>, k: int, requested: real, today: Day, rep: Repayment,
                              bs: map<BorrowerId, Borrower>, rs: seq<Repayment>)
    requires 0 <= k < |ls| && DistinctIds(ls)
    requires forall l :: l in ls ==> LoanInvariant(l, bs, rs)
    requires forall r :: r in rs ==> RepaymentInvariant(r, ls)
    requires requested >= Tolerance && ls[k].balance > Tolerance
    requires rep.loanId == ls[k].id && rep.amountPaid == ApplyPayment(ls[k], requested, today).applied
    ensures var updated := ls[k := ApplyPayment(ls[k], requested, today).loan];
            && DistinctIds(updated)
            && (forall l :: l in updated ==> LoanInvariant(l, bs, rs + [rep]))
            && (forall r :: r in rs + [rep] ==> RepaymentInvariant(r, updated))
  {
    var updated := ls[k := ApplyPayment(ls[k], requested, today).loan];
    SameIds(ls, updated);
    assert ls[k] in ls;
    forall l | l in updated ensures LoanInvariant(l, bs, rs + [rep]) {
      var j :| 0 <= j < |updated| && updated[j] == l;
      assert ls[j] in ls;
      TotalPaidAppend(rs, rep, l.id);
      if j < k {
        assert ls[j].id != ls[k].id;
      } else if k < j {
        assert ls[k].id != ls[j].id;
      }
    }
    assert updated[k] in updated;
  }

  /** A payment as the program performs it on a store without a repayments
      table: the schema set-up creates only the borrowers and loans tables, so
      the loan row is updated, the repayment insert fails and is merely
      reported, and the history does not grow. */
  function PaymentWithoutHistory(ls: seq<Loan>, k: int, requested: real, today: Day, rs: seq<Repayment>)
    : (after: (seq<Loan>, seq<Repayment>))
    requires 0 <= k < |ls|
    ensures |after.0| == |ls| && after.1 == rs
    ensures after.0[k].paymentsMade == ls[k].paymentsMade + ApplyPayment(ls[k], requested, today).applied
    ensures forall j :: 0 <= j < |ls| && j != k ==> after.0[j] == ls[j]
  {
    (ls[k := ApplyPayment(ls[k], requested, today).loan], rs)
  }

  /** On a store without a repayments table the first payment already breaks
      the ledger's invariant: $50 paid on a fresh $100 loan shows as paid on
      the loan while the history holds nothing for it. */
  lemma PaymentWithoutHistoryLosesRepayment()
    ensures var bs := map["B1" := Borrower("B1", "Tendai", "Harare", "63-123456", NoPayslip, "", "")];
            var after := PaymentWithoutHistory([NewLoan("L1", "B1", 100.0, 0)], 0, 50.0, 5, []);
            && after.0[0].paymentsMade == 50.0
            && TotalPaid(after.1, "L1") == 0.0
            && !LoanInvariant(after.0[0], bs, after.1)
  {
    var l := NewLoan("L1", "B1", 100.0, 0);
    assert ApplyPayment(l, 50.0, 5).applied == 50.0;
  }

  /** A deletion as the program performs it on a store without a repayments
      table: the repayment delete fails first, the failure is merely reported,
      and the loan delete never runs, so nothing changes. */
  function DeleteWithoutHistory(ls: seq<Loan>, rs: seq<Repayment>, id: LoanId)
    : (after: (seq<Loan>, seq<Repayment>))
    ensures forall x :: HasLoan(after.0, x) <==> HasLoan(ls, x)
    ensures after.1 == rs
  {
    (ls, rs)
  }

  /** On such a store the deleted loan is still there afterwards, where the
      intended cascade removes it. */
  lemma DeleteWithoutHistoryKeepsLoan()
    ensures var l := NewLoan("L1", "B1", 100.0, 0);
            && HasLoan(DeleteWithoutHistory([l], [], "L1").0, "L1")
            && !HasLoan(RemoveLoan([l], "L1"), "L1")
  {
    var l := NewLoan("L1", "B1", 100.0, 0);
    assert l in [l];
  }

  /** Deleting a loan together with its repayments keeps the ledger's
      invariant: no repayment is left pointing at a missing loan, and every
      other loan's payments still add up. */
  lemma DeleteKeepsInvariant(ls: seq<Loan>, id: LoanId, bs: map<BorrowerId, Borrower>, rs: seq<Repayment>)
    requires DistinctIds(ls)
    requires forall l :: l in ls ==> LoanInvariant(l, bs, rs)
    requires forall r :: r in rs ==> RepaymentInvariant(r, ls)
    ensures DistinctIds(RemoveLoan(ls, id))
    ensures forall l :: l in RemoveLoan(ls, id) ==> LoanInvariant(l, bs, Purge(rs, id))
    ensures forall r :: r in Purge(rs, id) ==> RepaymentInvariant(r, RemoveLoan(ls, id))
  {
    RemoveLoanDistinct(ls, id);
    forall l | l in RemoveLoan(ls, id) ensures LoanInvariant(l, bs, Purge(rs, id)) {
      TotalPaidPurge(rs, id, l.id);
    }
    forall r | r in Purge(rs, id) ensures RepaymentInvariant(r, RemoveLoan(ls, id)) {
      var l :| l in ls && l.id == r.loanId;
      assert l in RemoveLoan(ls, id);
    }
  }

  /** One pass over the repayment history that drops the rows of loan `id`. */
  method DeleteRepaymentsOf(rs: seq<Repayment>, id: LoanId) returns (kept: seq<Repayment>)
    ensures kept == Purge(rs, id)
  {
    kept := [];
    var i := 0;
    while i < |rs|
      invariant 0 <= i <= |rs|
      invariant kept == Purge(rs[..i], id)
    {
      assert rs[..i + 1][..i] == rs[..i];
      assert Purge(rs[..i + 1], id) == kept + (if rs[i].loanId == id then [] else [rs[i]]);
      if rs[i].loanId != id {
        kept := kept + [rs[i]];
      }
      i := i + 1;
    }
    assert rs[..|rs|] == rs;
  }

  /** One pass over the loans that drops the row of loan `id`. */
  method DeleteLoanRows(ls: seq<Loan>, id: LoanId) returns (kept: seq<Loan>)
    ensures kept == RemoveLoan(ls, id)
  {
    kept := [];
    var i := 0;
    while i < |ls|
      invariant 0 <= i <= |ls|
      invariant kept == RemoveLoan(ls[..i], id)
    {
      assert ls[..i + 1][..i] == ls[..i];
      assert RemoveLoan(ls[..i + 1], id) == kept + (if ls[i].id == id then [] else [ls[i]]);
      if ls[i].id != id {
        kept := kept + [ls[i]];
      }
      i := i + 1;
    }
    assert ls[..|ls|] == ls;
  }

  // ---------------------------------------------------------------------------
  // The store

  class LoanLedger {
    var borrowers: map<BorrowerId, Borrower>
    var loans: seq<Loan>
    var repayments: seq<Repayment>

    ghost predicate Valid()
      reads this
    {
      && BorrowersWellFormed(borrowers)
      && DistinctIds(loans)
      && (forall l :: l in loans ==> LoanInvariant(l, borrowers, repayments))
      && (forall r :: r in repayments ==> RepaymentInvariant(r, loans))
    }

    constructor ()
      ensures Valid()
      ensures borrowers == map[] && loans == [] && repayments == []
    {
      borrowers := map[];
      loans := [];
      repayments := [];
    }

    /** Registers a borrower under the fresh id `id`. Name, address and id
        number are required; the id and the id number must not be taken. */
    method AddBorrower(id: BorrowerId, name: string, address: string, idNumber: string,
                       payslip: Option<string>, cooperateNumber: string, phoneNumber: string)
      returns (r: Result<Borrower>)
      requires Valid()
      modifies this
      ensures Valid()
      ensures loans == old(loans) && repayments == old(repayments)
      ensures r.Err? ==> borrowers == old(borrowers)
      ensures r == Err(ValidationError) <==> name == "" || address == "" || idNumber == ""
      ensures r == Err(DuplicateKey)
              <==> name != "" && address != "" && idNumber != ""
                   && (id in old(borrowers) || IdNumberClash(old(borrowers), idNumber, id))
      ensures r.Ok? <==> name != "" && address != "" && idNumber != ""
                         && id !in old(borrowers) && !IdNumberClash(old(borrowers), idNumber, id)
      ensures r.Ok? ==>
                && r.value == Borrower(id, name, address, idNumber,
                                       if payslip.Some? then payslip.value else NoPayslip,
                                       cooperateNumber, phoneNumber)
                && borrowers == old(borrowers)[id := r.value]
    {
      if name == "" || address == "" || idNumber == "" {
        return Err(ValidationError);
      }
      if id in borrowers || IdNumberClash(borrowers, idNumber, id) {
        return Err(DuplicateKey);
      }
      var b := Borrower(id, name, address, idNumber,
                        if payslip.Some? then payslip.value else NoPayslip,
                        cooperateNumber, phoneNumber);
      borrowers := borrowers[id := b];
      r := Ok(b);
    }

    /** Rewrites a borrower's identity fields; the payslip reference and all
        loans are left alone. The new id number must not belong to another
        borrower. */
    method UpdateBorrower(id: BorrowerId, name: string, address: string, idNumber: string,
                          cooperateNumber: string, phoneNumber: string)
      returns (r: Result<Borrower>)
      requires Valid()
      modifies this
      ensures Valid()
      ensures loans == old(loans) && repayments == old(repayments)
      ensures r.Err? ==> borrowers == old(borrowers)
      ensures r == Err(NotFound) <==> id !in old(borrowers)
      ensures r == Err(DuplicateKey) <==> id in old(borrowers) && IdNumberClash(old(borrowers), idNumber, id)
      ensures r.Ok? <==> id in old(borrowers) && !IdNumberClash(old(borrowers), idNumber, id)
      ensures r.Ok? ==>
                && r.value == old(borrowers)[id].(name := name, address := address, idNumber := idNumber,
                                                  cooperateNumber := cooperateNumber, phoneNumber := phoneNumber)
                && borrowers == old(borrowers)[id := r.value]
    {
      if id !in borrowers {
        return Err(NotFound);
      }
      if IdNumberClash(borrowers, idNumber, id) {
        return Err(DuplicateKey);
      }
      var b := borrowers[id].(name := name, address := address, idNumber := idNumber,
                              cooperateNumber := cooperateNumber, phoneNumber := phoneNumber);
      borrowers := borrowers[id := b];
      r := Ok(b);
    }

    /** Issues a loan with the fresh id `id` to an existing borrower. */
    method CreateLoan(id: LoanId, borrowerId: BorrowerId, amount: real, loanDate: Day)
      returns (r: Result<Loan>)
      requires Valid()
      modifies this
      ensures Valid()
      ensures borrowers == old(borrowers) && repayments == old(repayments)
      ensures r.Err? ==> loans == old(loans)
      ensures r == Err(NotFound) <==> borrowerId !in old(borrowers)
      ensures r == Err(ValidationError) <==> borrowerId in old(borrowers) && amount <= 0.0
      ensures r == Err(DuplicateKey) <==> borrowerId in old(borrowers) && amount > 0.0 && HasLoan(old(loans), id)
      ensures r.Ok? <==> borrowerId in old(borrowers) && amount > 0.0 && !HasLoan(old(loans), id)
      ensures r.Ok? ==> amount > 0.0 && r.value == NewLoan(id, borrowerId, amount, loanDate)
                        && loans == old(loans) + [r.value]
    {
      if borrowerId !in borrowers {
        return Err(NotFound);
      }
      if amount <= 0.0 {
        return Err(ValidationError);
      }
      if HasLoan(loans, id) {
        return Err(DuplicateKey);
      }
      var loan := NewLoan(id, borrowerId, amount, loanDate);
      TotalPaidAbsent(repayments, id);
      assert LoanInvariant(loan, borrowers, repayments);
      forall l | l in loans + [loan] ensures LoanInvariant(l, borrowers, repayments) {
        if l != loan {
          assert l in loans;
        }
      }
      loans := loans + [loan];
      r := Ok(loan);
    }

    /** The position of the first loan with id `id`, or -1 if there is none. */
    method FindLoan(id: LoanId) returns (k: int)
      ensures -1 <= k < |loans|
      ensures k < 0 <==> !HasLoan(loans, id)
      ensures 0 <= k ==> loans[k].id == id && forall j :: 0 <= j < k ==> loans[j].id != id
    {
      var i := 0;
      while i < |loans|
        invariant 0 <= i <= |loans|
        invariant forall j :: 0 <= j < i ==> loans[j].id != id
      {
        if loans[i].id == id {
          return i;
        }
        i := i + 1;
      }
      return -1;
    }

    /** Records a payment of `requested` made on `paymentDate` against loan
        `id`, classifying the loan as of `today`: the amount is clamped to
        the outstanding balance, added to the payments made and taken off the
        balance, both alert flags are reset, the remainder is re-accrued (or
        zeroed when at most the tolerance is left), the status is
        reclassified, and the effective amount is appended to the history. */
    method RecordPayment(id: LoanId, requested: real, paymentDate: Day, today: Day, repaymentId: RepaymentId)
      returns (r: Result<real>)
      requires Valid()
      requires requested >= Tolerance
      requires forall l :: l in loans && l.id == id ==> l.balance > Tolerance
      modifies this
      ensures Valid()
      ensures borrowers == old(borrowers)
      ensures r.Err? <==> !HasLoan(old(loans), id)
      ensures r.Err? ==> r.error == NotFound && loans == old(loans) && repayments == old(repayments)
      ensures forall k :: 0 <= k < |old(loans)| && old(loans)[k].id == id ==>
                var s := ApplyPayment(old(loans)[k], requested, today);
                && r == Ok(s.applied)
                && loans == old(loans)[k := s.loan]
                && repayments == old(repayments) + [Repayment(repaymentId, id, s.applied, paymentDate)]
    {
      var k := FindLoan(id);
      if k < 0 {
        return Err(NotFound);
      }
      var loan := loans[k];
      var amount := requested;
      if amount > loan.balance {
        amount := loan.balance;
      }
      loan := loan.(paymentsMade := loan.paymentsMade + amount, balance := loan.balance - amount);
      loan := loan.(dueSoonSent := false, overdueSent := false);
      if loan.balance > Tolerance {
        loan := loan.(balance := Reaccrue(loan.balance, loan.rate));
      } else {
        loan := loan.(balance := 0.0);
      }
      loan := loan.(status := Status(loan.dueDate, loan.balance, today));
      ghost var settled := ApplyPayment(loans[k], requested, today);
      assert amount == settled.applied && loan == settled.loan;

      var rep := Repayment(repaymentId, id, amount, paymentDate);
      PaymentKeepsInvariant(loans, k, requested, today, rep, borrowers, repayments);
      loans := loans[k := loan];
      repayments := repayments + [rep];
      r := Ok(amount);
    }

    /** Edits the principal, loan date and due date of loan `id`. */
    method EditLoan(id: LoanId, newAmount: real, newLoanDate: Day, newDueDate: Day, today: Day)
      returns (r: Result<Loan>)
      requires Valid()
      modifies this
      ensures Valid()
      ensures borrowers == old(borrowers) && repayments == old(repayments)
      ensures r.Err? <==> !HasLoan(old(loans), id)
      ensures r.Err? ==> r.error == NotFound && loans == old(loans)
      ensures forall k :: 0 <= k < |old(loans)| && old(loans)[k].id == id ==>
                var e := EditTerms(old(loans)[k], newAmount, newLoanDate, newDueDate, today);
                r == Ok(e) && loans == old(loans)[k := e]
    {
      var k := FindLoan(id);
      if k < 0 {
        return Err(NotFound);
      }
      var edited := EditTerms(loans[k], newAmount, newLoanDate, newDueDate, today);
      SameIds(loans, loans[k := edited]);
      loans := loans[k := edited];
      r := Ok(edited);
    }

    /** Deletes loan `id` together with its repayments: first the repayments,
        then the loan. An unknown id changes nothing. */
    method DeleteLoan(id: LoanId)
      requires Valid()
      modifies this
      ensures Valid()
      ensures borrowers == old(borrowers)
      ensures repayments == Purge(old(repayments), id)
      ensures loans == RemoveLoan(old(loans), id)
    {
      var rs, ls := repayments, loans;
      var keptRepayments := DeleteRepaymentsOf(rs, id);
      var keptLoans := DeleteLoanRows(ls, id);
      DeleteKeepsInvariant(ls, id, borrowers, rs);
      repayments := keptRepayments;
      loans := keptLoans;
    }

    /** The notification scan as of `today`: for every loan with more than
        the tolerance outstanding, an overdue alert (or, failing that, a
        due-soon alert) is attempted when its flag is unset, the flag is set
        only when `deliver` reports success, and a loan outside both windows
        has both flags cleared. Returns the attempted alerts. */
    method NotificationScan(today: Day, deliver: Deliver) returns (alerts: seq<Alert>)
      requires Valid()
      modifies this
      ensures Valid()
      ensures borrowers == old(borrowers) && repayments == old(repayments)
      ensures loans == ScanLoans(old(loans), today, deliver)
      ensures alerts == ScanAlerts(old(loans), today, deliver)
    {
      var ls := loans;
      var scanned := ls;
      alerts := [];
      var i := 0;
      while i < |ls|
        invariant 0 <= i <= |ls|
        invariant |scanned| == |ls|
        invariant forall k :: 0 <= k < i ==> scanned[k] == ScanLoan(ls[k], today, deliver).loan
        invariant forall k :: i <= k < |ls| ==> scanned[k] == ls[k]
        invariant alerts == ScanAlerts(ls[..i], today, deliver)
      {
        assert ls[..i + 1][..i] == ls[..i];
        var step := ScanLoan(scanned[i], today, deliver);
        scanned := scanned[i := step.loan];
        alerts := alerts + AlertList(step.alert);
        i := i + 1;
      }
      assert ls[..|ls|] == ls;
      ScanLoansPointwise(ls, scanned, today, deliver);
      loans := scanned;
      ScanKeepsInvariant(ls, today, deliver, borrowers, repayments);
    }
  }
}

/** Worked examples of a loan's life, as concrete instances of the contracts. */
module Walkthrough {
  import opened Accrual
  import opened Loans
  import opened Ledger

  /** A $100 loan issued on day 0 is due on day 30 with $120 owed; $50 paid
      on day 5 leaves $70, re-accrued to $84; $84 paid on day 10 settles it
      with $134 paid in all. */
  method PaymentWalkthrough() returns (issued: Loan, afterFirst: Loan, afterSecond: Loan, history: seq<Repayment>)
    ensures issued.initialTotalDue == 120.0 && issued.dueDate == 30 && Status(issued.dueDate, issued.balance, 0) == Active
    ensures afterFirst.paymentsMade == 50.0 && afterFirst.balance == 84.0 && afterFirst.status == Active
    ensures !afterFirst.dueSoonSent && !afterFirst.overdueSent
    ensures afterSecond.balance == 0.0 && afterSecond.status == Paid && afterSecond.paymentsMade == 134.0
    ensures history == [Repayment("r1", "L1", 50.0, 5), Repayment("r2", "L1", 84.0, 10)]
  {
    var ledger := new LoanLedger();
    var b := ledger.AddBorrower("B1", "Tendai", "Harare", "63-123456", None, "", "");
    assert b.Ok?;
    var created := ledger.CreateLoan("L1", "B1", 100.0, 0);
    assert created.Ok?;
    issued := created.value;

    var paid := ledger.RecordPayment("L1", 50.0, 5, 5, "r1");
    assert ledger.loans[0] == ApplyPayment(issued, 50.0, 5).loan;
    afterFirst := ledger.loans[0];

    paid := ledger.RecordPayment("L1", 84.0, 10, 10, "r2");
    assert ledger.loans[0] == ApplyPayment(afterFirst, 84.0, 10).loan;
    afterSecond := ledger.loans[0];
    history := ledger.repayments;
  }

  /** A $100 loan issued on day 0 owes $120 by day 30. Scanned on day 28 it
      is Due Soon and one due-soon alert goes out; a second scan that day sends
      nothing; scanned again on day 35 it is Overdue and one overdue alert goes
      out. */
  method NotificationWalkthrough() returns (first: seq<Alert>, second: seq<Alert>, late: seq<Alert>)
    ensures first == [Alert("L1", DueSoonAlert, true)]
    ensures second == []
    ensures late == [Alert("L1", OverdueAlert, true)]
  {
    var always: Deliver := (id, kind) => true;
    var l0 := NewLoan("L1", "B1", 100.0, 0);
    assert l0.balance == 120.0 && l0.dueDate == 30;
    assert Status(30, 120.0, 28) == DueSoon && Status(30, 120.0, 35) == Overdue;

    var l1 := l0.(dueSoonSent := true);
    assert ScanLoan(l0, 28, always) == ScanStep(l1, Some(Alert("L1", DueSoonAlert, true)));
    assert [l0][..0] == [];
    first := ScanAlerts([l0], 28, always);
    var ls1 := ScanLoans([l0], 28, always);
    assert ls1 == [l1];

    assert ScanLoan(l1, 28, always) == ScanStep(l1, None);
    assert [l1][..0] == [];
    second := ScanAlerts(ls1, 28, always);
    var ls2 := ScanLoans(ls1, 28, always);
    assert ls2 == [l1];

    var l2 := l1.(overdueSent := true);
    assert ScanLoan(l1, 35, always) == ScanStep(l2, Some(Alert("L1", OverdueAlert, true)));
    late := ScanAlerts(ls2, 35, always);
  }
}
