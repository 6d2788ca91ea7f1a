/** The backend's bill workflow (backend/src/controllers/bill.controller.ts): the amount
    is checked before the customer, a range that overlaps an existing batch of the same
    customer and year is refused, the balance is carried from the same year only, and
    a batch is deleted in two ordered steps inside one transaction. */
module BackendBill {
  import opened Ledger
  import opened Helpers
  import opened BillCommon
  import Utils

  /** `findUnique({ where: { id } })`: the backend has no soft delete. */
  predicate CustomerExists(customers: seq<Customer>, id: string)
  {
    exists i :: 0 <= i < |customers| && customers[i].id == id
  }

  function Max(a: int, b: int): int
  {
    if a >= b then a else b
  }

  /** The least acceptable amount for `n` months: 65% of the total for the default
      rate, with a floor of 200 per month, and 95% for any other rate; both rounded
      down. */
  function MinimumBackend(rate: int, n: int): (m: int)
    ensures rate != DefaultRate ==> 20 * m <= 19 * rate * n < 20 * m + 20
    ensures rate == DefaultRate ==> m >= 200 * n && 20 * m + 20 > 13 * rate * n
  {
    var total := rate * n;
    if rate == DefaultRate then Max(200 * n, 13 * total / 20) else 19 * total / 20
  }

  /** 65% of 310 is 201.5 per month, so for a non-negative month count the 200-per-month
      floor never decides; for a backwards range (a negative count) it always does. */
  lemma MinimumAtDefaultRate(n: int)
    ensures n >= 0 ==> MinimumBackend(DefaultRate, n) == 13 * (DefaultRate * n) / 20
    ensures n >= 0 ==> MinimumBackend(DefaultRate, n) == 403 * n / 2
    ensures n >= 0 ==> MinimumBackend(DefaultRate, n) >= 200 * n
    ensures n < 0 ==> MinimumBackend(DefaultRate, n) == 200 * n
  {
    assert 13 * (DefaultRate * n) == 10 * (403 * n);
  }

  /** A positive rate and at least one month make the minimum non-negative. */
  lemma MinimumNonNegative(rate: int, n: int)
    requires rate > 0 && n >= 1
    ensures MinimumBackend(rate, n) >= 0
  {
    assert rate * n >= 1;
  }

  /** The HTTP status each outcome is answered with. */
  function HttpStatus(r: Result<Payment, BillError>): (code: int)
    ensures r.Ok? <==> code == 201
    ensures r.Err? && r.error == CustomerNotFound ==> code == 404
    ensures r.Err? && r.error == TransactionNotFound ==> code == 404
    ensures r.Err? && (r.error.InvalidAmount? || r.error == PaymentAlreadyExists) ==> code == 400
  {
    match r {
      case Ok(_) => 201
      case Err(e) =>
        match e {
          case CustomerNotFound => 404
          case TransactionNotFound => 404
          case _ => 400
        }
    }
  }

  // ---------------------------------------------------------------------------
  // Queries

  /** Some batch of this customer and year has a month row inside `startMonth..endMonth`. */
  predicate AlreadyBilled(ps: seq<Payment>, cid: string, year: int, startMonth: int, endMonth: int)
  {
    exists i, j :: 0 <= i < |ps| && ps[i].customerId == cid && ps[i].year == year &&
                   0 <= j < |ps[i].months| && startMonth <= ps[i].months[j].month <= endMonth
  }

  /** The balance carried from the same year: the highest-month row of the last batch of
      the customer's year; 0 and 0 when there is no batch, or when the last one has no
      rows (an earlier batch is not consulted then). */
  function SameYearBalance(customerPayments: seq<Payment>): (b: Balance)
    ensures customerPayments == [] || customerPayments[|customerPayments| - 1].months == [] ==> b == Balance(0, 0)
    ensures customerPayments != [] && customerPayments[|customerPayments| - 1].months != [] ==>
      var top := HighestMonth(customerPayments[|customerPayments| - 1].months);
      b == Balance(top.advance, top.debt)
  {
    if customerPayments == [] then Balance(0, 0)
    else
      var lastPayment := customerPayments[|customerPayments| - 1];
      if lastPayment.months == [] then Balance(0, 0)
      else
        var lastMonth := HighestMonth(lastPayment.months);
        Balance(lastMonth.advance, lastMonth.debt)
  }

  // ---------------------------------------------------------------------------
  // createBill

  function BackendStamp(req: BillRequest, clock: Clock): Stamp
  {
    Stamp(Some(PaidViaOf(req)), if req.paymentDate.Some? then req.paymentDate.value else clock.seconds,
          req.note, None)
  }

  /** What createBill decides against the stored customers and batches. */
  function BackendDecide(customers: seq<Customer>, payments: seq<Payment>, req: BillRequest, clock: Clock, newId: string): Result<Payment, BillError>
  {
    var rate := RateOf(req);
    var year := ResolveYear(req.year, req.startMonth, clock);
    var endMonth := OrFallback(req.endMonth, req.startMonth);
    var n := MonthCount(req.startMonth, endMonth);
    if !req.wasOff && req.amount < MinimumBackend(rate, n) then Err(InvalidAmount(n, MinimumBackend(rate, n)))
    else if !CustomerExists(customers, req.customerId) then Err(CustomerNotFound)
    else if AlreadyBilled(payments, req.customerId, year, req.startMonth, endMonth) then Err(PaymentAlreadyExists)
    else
      var b := SameYearBalance(OfCustomerYear(payments, req.customerId, year));
      Ok(Header(newId, req.customerId, year, clock.seconds,
                BatchMonths(req.wasOff, req.startMonth, endMonth, rate, req.amount, b, BackendStamp(req, clock))))
  }

  /** createBill: check the amount, look the customer up, refuse an overlap, carry the
      same-year balance, build the rows and create the batch with its rows in one
      statement. */
  method CreateBill(db: Store, req: BillRequest, clock: Clock, newId: string) returns (r: Result<Payment, BillError>)
    requires db.Valid() && !HasPayment(db.payments, newId)
    modifies db
    ensures r == BackendDecide(old(db.customers), old(db.payments), req, clock, newId)
    ensures r.Ok? ==> db.payments == old(db.payments) + [r.value]
    ensures r.Err? ==> db.payments == old(db.payments)
    ensures db.customers == old(db.customers) && db.plans == old(db.plans)
    ensures db.Valid()
  {
    var monthlyAmount := RateOf(req);
    var year := ResolveYear(req.year, req.startMonth, clock);
    var finalEndMonth := OrFallback(req.endMonth, req.startMonth);
    var numberOfMonths := MonthCount(req.startMonth, finalEndMonth);
    var minimumRequiredAmount := MinimumBackend(monthlyAmount, numberOfMonths);
    if !req.wasOff && req.amount < minimumRequiredAmount {
      return Err(InvalidAmount(numberOfMonths, minimumRequiredAmount));
    }
    if !CustomerExists(db.customers, req.customerId) {
      return Err(CustomerNotFound);
    }
    if AlreadyBilled(db.payments, req.customerId, year, req.startMonth, finalEndMonth) {
      return Err(PaymentAlreadyExists);
    }
    var customerPayments := OfCustomerYear(db.payments, req.customerId, year);
    var availableAdvance := 0;
    var existingDebt := 0;
    if |customerPayments| > 0 {
      var lastPayment := customerPayments[|customerPayments| - 1];
      if |lastPayment.months| > 0 {
        var lastMonth := HighestMonth(lastPayment.months);
        availableAdvance := lastMonth.advance;
        existingDebt := lastMonth.debt;
      }
    }
    var paidVia := PaidViaOf(req);
    var paymentDate := if req.paymentDate.Some? then req.paymentDate.value else clock.seconds;
    var processedPaidMonths;
    if req.wasOff {
      processedPaidMonths := OffMonths(req.startMonth, numberOfMonths, Balance(availableAdvance, existingDebt),
                                       Stamp(Some(paidVia), paymentDate, req.note, None));
    } else {
      processedPaidMonths := Utils.GenerateMonthlyPayments(req.startMonth, finalEndMonth, monthlyAmount, req.amount,
                                                           Some(paidVia), paymentDate, req.note,
                                                           existingDebt, availableAdvance);
    }
    var payment := Payment(newId, req.customerId, year, SumDebt(processedPaidMonths),
                           SumAdvance(processedPaidMonths), clock.seconds, processedPaidMonths);
    assert payment == BackendDecide(db.customers, db.payments, req, clock, newId).value;
    DistinctAppend(db.payments, payment);
    db.payments := db.payments + [payment];
    r := Ok(payment);
  }

  // ---------------------------------------------------------------------------
  // Properties of createBill

  /** The order of the checks: an insufficient amount is refused (400) before the
      customer is looked up, so even for an unknown customer; a missing customer is
      404; an overlapping range is refused last. A paused bill is never refused for
      its amount. */
  lemma BackendCheckOrder(customers: seq<Customer>, payments: seq<Payment>, req: BillRequest, clock: Clock, newId: string)
    ensures var r := BackendDecide(customers, payments, req, clock, newId);
      var year := ResolveYear(req.year, req.startMonth, clock);
      var endMonth := OrFallback(req.endMonth, req.startMonth);
      var n := MonthCount(req.startMonth, endMonth);
      var lowAmount := !req.wasOff && req.amount < MinimumBackend(RateOf(req), n);
      ((r.Err? && r.error.InvalidAmount?) <==> lowAmount) &&
      (lowAmount ==> HttpStatus(r) == 400) &&
      (r == Err(CustomerNotFound) <==> !lowAmount && !CustomerExists(customers, req.customerId)) &&
      (r == Err(CustomerNotFound) ==> HttpStatus(r) == 404) &&
      (r == Err(PaymentAlreadyExists) <==>
         !lowAmount && CustomerExists(customers, req.customerId) &&
         AlreadyBilled(payments, req.customerId, year, req.startMonth, endMonth)) &&
      (r.Ok? <==> !lowAmount && CustomerExists(customers, req.customerId) &&
                  !AlreadyBilled(payments, req.customerId, year, req.startMonth, endMonth))
  {
  }

  /** A stored batch holds one row per month of the range in order, carries the sums
      of its rows as totals, and continues from the same-year balance. */
  lemma BackendBatchShape(customers: seq<Customer>, payments: seq<Payment>, req: BillRequest, clock: Clock, newId: string)
    requires BackendDecide(customers, payments, req, clock, newId).Ok?
    ensures var p := BackendDecide(customers, payments, req, clock, newId).value;
      var endMonth := OrFallback(req.endMonth, req.startMonth);
      var b := SameYearBalance(OfCustomerYear(payments, req.customerId, p.year));
      p.id == newId && p.customerId == req.customerId && p.year == ResolveYear(req.year, req.startMonth, clock) &&
      p.totalDebt == SumDebt(p.months) && p.totalAdvance == SumAdvance(p.months) &&
      |p.months| == (if req.startMonth <= endMonth then endMonth - req.startMonth + 1 else 0) &&
      Increasing(p.months) &&
      (forall i :: 0 <= i < |p.months| ==> p.months[i].month == req.startMonth + i && p.months[i].createdAt.None?) &&
      (req.wasOff ==> SumAmount(p.months) == 0 && p.totalDebt == |p.months| * b.debt &&
                      p.totalAdvance == |p.months| * b.advance &&
                      forall i :: 0 <= i < |p.months| ==> p.months[i].status == Off) &&
      (!req.wasOff ==> p.months == Allocate(req.startMonth, endMonth, RateOf(req), req.amount, b.advance, BackendStamp(req, clock)))
  {
    var endMonth := OrFallback(req.endMonth, req.startMonth);
    var year := ResolveYear(req.year, req.startMonth, clock);
    var b := SameYearBalance(OfCustomerYear(payments, req.customerId, year));
    BatchMonthsShape(req.wasOff, req.startMonth, endMonth, RateOf(req), req.amount, b, BackendStamp(req, clock));
    OffMonthsTotals(req.startMonth, MonthCount(req.startMonth, endMonth), b, BackendStamp(req, clock));
  }

  /** A billed (not paused) batch over a non-empty range records exactly the amount paid. */
  lemma BackendBatchConserves(customers: seq<Customer>, payments: seq<Payment>, req: BillRequest, clock: Clock, newId: string)
    requires BackendDecide(customers, payments, req, clock, newId).Ok?
    requires !req.wasOff && req.startMonth <= OrFallback(req.endMonth, req.startMonth)
    ensures SumAmount(BackendDecide(customers, payments, req, clock, newId).value.months) == req.amount
  {
    var endMonth := OrFallback(req.endMonth, req.startMonth);
    var year := ResolveYear(req.year, req.startMonth, clock);
    var b := SameYearBalance(OfCustomerYear(payments, req.customerId, year));
    AllocateConserves(req.startMonth, endMonth, RateOf(req), req.amount, b.advance, BackendStamp(req, clock));
  }

  /** The months a batch bills. */
  function MonthsOf(p: Payment): set<int>
  {
    set e | e in p.months :: e.month
  }

  /** No month of a customer's year is billed twice: months within a batch strictly
      increase, and two batches of the same customer and year share no month. */
  ghost predicate NoDoubleBilling(ps: seq<Payment>)
  {
    MonthsOrdered(ps) &&
    forall i, j :: 0 <= i < j < |ps| && ps[i].customerId == ps[j].customerId && ps[i].year == ps[j].year ==>
      MonthsOf(ps[i]) !! MonthsOf(ps[j])
  }

  /** The new batch is the requested customer's, in the resolved year, and bills
      only months of the requested range, in increasing order. */
  lemma BackendBatchRange(customers: seq<Customer>, payments: seq<Payment>, req: BillRequest, clock: Clock, newId: string)
    requires BackendDecide(customers, payments, req, clock, newId).Ok?
    ensures var p := BackendDecide(customers, payments, req, clock, newId).value;
      p.customerId == req.customerId && p.year == ResolveYear(req.year, req.startMonth, clock) &&
      Increasing(p.months) &&
      forall m :: m in MonthsOf(p) ==> req.startMonth <= m <= OrFallback(req.endMonth, req.startMonth)
  {
    var p := BackendDecide(customers, payments, req, clock, newId).value;
    BackendBatchShape(customers, payments, req, clock, newId);
    forall m | m in MonthsOf(p) ensures req.startMonth <= m <= OrFallback(req.endMonth, req.startMonth) {
      var e :| e in p.months && e.month == m;
      var k :| 0 <= k < |p.months| && p.months[k] == e;
    }
  }

  /** The overlap check keeps storage free of double billing. */
  lemma BackendNoDoubleBilling(customers: seq<Customer>, payments: seq<Payment>, req: BillRequest, clock: Clock, newId: string)
    requires NoDoubleBilling(payments)
    requires BackendDecide(customers, payments, req, clock, newId).Ok?
    ensures NoDoubleBilling(payments + [BackendDecide(customers, payments, req, clock, newId).value])
  {
    var p := BackendDecide(customers, payments, req, clock, newId).value;
    var endMonth := OrFallback(req.endMonth, req.startMonth);
    BackendBatchRange(customers, payments, req, clock, newId);
    var ps := payments + [p];
    assert !AlreadyBilled(payments, req.customerId, p.year, req.startMonth, endMonth);
    forall i | 0 <= i < |payments| && payments[i].customerId == p.customerId && payments[i].year == p.year
      ensures MonthsOf(payments[i]) !! MonthsOf(p)
    {
      forall m | m in MonthsOf(payments[i]) ensures m !in MonthsOf(p) {
        var e :| e in payments[i].months && e.month == m;
        var j :| 0 <= j < |payments[i].months| && payments[i].months[j] == e;
        assert !(req.startMonth <= payments[i].months[j].month <= endMonth);
      }
    }
    forall i, j | 0 <= i < j < |ps| && ps[i].customerId == ps[j].customerId && ps[i].year == ps[j].year
      ensures MonthsOf(ps[i]) !! MonthsOf(ps[j])
    {
      assert ps[i] == payments[i];
      if j < |payments| {
        assert ps[j] == payments[j];
      }
    }
    forall i | 0 <= i < |ps| ensures Increasing(ps[i].months) {
      if i < |payments| {
        assert ps[i] == payments[i];
      }
    }
  }

  // ---------------------------------------------------------------------------
  // deleteTransaction

  /** `monthPayment.deleteMany({ where: { paymentId } })`: the batch stays, without rows. */
  function ClearMonths(ps: seq<Payment>, id: string): (r: seq<Payment>)
    ensures |r| == |ps|
    ensures forall i :: 0 <= i < |ps| ==>
      r[i] == if ps[i].id == id then ps[i].(months := []) else ps[i]
  {
    seq(|ps|, i requires 0 <= i < |ps| => if ps[i].id == id then ps[i].(months := []) else ps[i])
  }

  /** Clearing the rows and then deleting the batch leaves what deleting the batch
      alone leaves: every other batch, with its rows, in order. */
  lemma {:induction false} ClearThenDelete(ps: seq<Payment>, id: string)
    ensures Without(ClearMonths(ps, id), id) == Without(ps, id)
    decreases |ps|
  {
    if ps != [] {
      var c := ClearMonths(ps, id);
      assert c[1..] == ClearMonths(ps[1..], id);
      ClearThenDelete(ps[1..], id);
    }
  }

  /** deleteTransaction: an unknown id is 404; otherwise, in one transaction, the
      batch's month rows are deleted first and then the batch. */
  method DeleteTransaction(db: Store, paymentId: string) returns (r: Result<(), BillError>)
    requires db.Valid()
    modifies db
    ensures r.Ok? <==> HasPayment(old(db.payments), paymentId)
    ensures r.Err? ==> r.error == TransactionNotFound && db.payments == old(db.payments)
    ensures db.payments == Without(old(db.payments), paymentId)
    ensures db.customers == old(db.customers) && db.plans == old(db.plans)
    ensures db.Valid()
  {
    if !HasPayment(db.payments, paymentId) {
      WithoutAbsent(db.payments, paymentId);
      return Err(TransactionNotFound);
    }
    ghost var before := db.payments;
    db.payments := ClearMonths(db.payments, paymentId);
    assert DistinctIds(db.payments) by {
      forall a, c | 0 <= a < c < |db.payments| ensures db.payments[a].id != db.payments[c].id {
        assert db.payments[a].id == before[a].id && db.payments[c].id == before[c].id;
      }
    }
    WithoutDistinct(db.payments, paymentId);
    ClearThenDelete(before, paymentId);
    db.payments := Without(db.payments, paymentId);
    r := Ok(());
  }
}
