/** The server's bill workflow (server/src/controllers/billController.ts): creating a
    bill for a live customer with a 30% minimum, carrying the balance of the
    customer's most recent billed batch of any year, and deleting a batch. */
module ServerBill {
  import opened Ledger
  import opened Helpers
  import opened BillCommon

  /** The request schema: the start month, and the end month when given, lie in 1..12. */
  predicate ValidRequest(req: BillRequest)
  {
    1 <= req.startMonth <= 12 && (req.endMonth.None? || 1 <= req.endMonth.value <= 12)
  }

  /** A customer with this id that has not been soft-deleted. */
  predicate ActiveCustomer(customers: seq<Customer>, id: string)
  {
    exists i :: 0 <= i < |customers| && customers[i].id == id && customers[i].deletedAt.None?
  }

  function Max(a: int, b: int): int
  {
    if a >= b then a else b
  }

  /** The least acceptable amount for `n` months: 30% of the total (rounded down), and
      for the default rate never less than 100 per month. */
  function MinimumServer(rate: int, n: int): (m: int)
    ensures rate != DefaultRate ==> 10 * m <= 3 * rate * n < 10 * m + 10
    ensures rate == DefaultRate ==> m >= 100 * n && 10 * m >= 3 * rate * n
  {
    var total := rate * n;
    if rate == DefaultRate then Max(100 * n, 3 * total / 10) else 3 * total / 10
  }

  /** For the default rate of 310 the 100-per-month floor is what decides whenever the
      month count is non-negative; 30% of 310 is 93. For the negative counts of a range
      that runs backwards the 93-per-month figure is the larger. */
  lemma MinimumAtDefaultRate(n: int)
    ensures n >= 0 ==> MinimumServer(DefaultRate, n) == 100 * n
    ensures n < 0 ==> MinimumServer(DefaultRate, n) == 93 * n
  {
    assert 3 * (DefaultRate * n) == 10 * (93 * n);
  }

  /** A positive rate and at least one month make the minimum non-negative, so an
      accepted amount for a real range is never negative. */
  lemma MinimumNonNegative(rate: int, n: int)
    requires rate > 0 && n >= 1
    ensures MinimumServer(rate, n) >= 0
  {
    assert rate * n >= 1;
  }

  // ---------------------------------------------------------------------------
  // The carried balance

  /** The position of the first batch that has any month rows. */
  function FirstBilled(ps: seq<Payment>): (r: Option<nat>)
    ensures r.Some? ==> r.value < |ps| && ps[r.value].months != [] &&
                        forall j :: 0 <= j < r.value ==> ps[j].months == []
    ensures r.None? ==> forall j :: 0 <= j < |ps| ==> ps[j].months == []
  {
    if ps == [] then None
    else if ps[0].months != [] then Some(0)
    else match FirstBilled(ps[1..]) {
      case None => None
      case Some(k) => Some(k + 1)
    }
  }

  /** The balance carried into a new batch: the advance and debt of the highest-month
      row of the first batch, in the given order, that has rows; none carries 0 and 0. */
  function LatestBalance(ps: seq<Payment>): Balance
  {
    match FirstBilled(ps) {
      case None => Balance(0, 0)
      case Some(k) =>
        var top := HighestMonth(ps[k].months);
        Balance(top.advance, top.debt)
    }
  }

  /** The loop over the customer's batches, latest year first, that stops at the
      first one with month rows. */
  method CarriedBalance(customerPayments: seq<Payment>) returns (b: Balance)
    ensures b == LatestBalance(customerPayments)
  {
    var availableAdvance := 0;
    var existingDebt := 0;
    if |customerPayments| > 0 {
      var i := 0;
      while i < |customerPayments|
        invariant 0 <= i <= |customerPayments|
        invariant forall j :: 0 <= j < i ==> customerPayments[j].months == []
        invariant availableAdvance == 0 && existingDebt == 0
      {
        var months := customerPayments[i].months;
        if |months| > 0 {
          var top := HighestMonth(months);
          availableAdvance := top.advance;
          existingDebt := top.debt;
          break;
        }
        i := i + 1;
      }
    }
    b := Balance(availableAdvance, existingDebt);
  }

  /** In a year-descending list, the first batch with rows has the latest year of all
      batches with rows. */
  lemma FirstBilledIsNewest(ps: seq<Payment>)
    requires YearDescending(ps)
    ensures FirstBilled(ps).Some? ==>
      forall j :: 0 <= j < |ps| && ps[j].months != [] ==> ps[j].year <= ps[FirstBilled(ps).value].year
  {
  }

  /** The batch the balance comes from is one of this customer's batches with rows,
      and no batch of this customer with rows has a later year; when the customer has
      no batch with rows, nothing is carried. */
  lemma LatestBalanceIsNewest(payments: seq<Payment>, cid: string)
    ensures var ps := ByYearDesc(OfCustomer(payments, cid));
      match FirstBilled(ps) {
        case Some(k) =>
          ps[k] in payments && ps[k].customerId == cid && ps[k].months != [] &&
          LatestBalance(ps) == Balance(HighestMonth(ps[k].months).advance, HighestMonth(ps[k].months).debt) &&
          forall q :: q in payments && q.customerId == cid && q.months != [] ==> q.year <= ps[k].year
        case None =>
          LatestBalance(ps) == Balance(0, 0) &&
          forall q :: q in payments && q.customerId == cid ==> q.months == []
      }
  {
    var cs := OfCustomer(payments, cid);
    var ps := ByYearDesc(cs);
    ByYearDescSorted(cs);
    assert forall q :: q in ps <==> q in cs by {
      forall q ensures q in ps <==> q in cs {
        assert q in ps <==> q in multiset(ps);
        assert q in cs <==> q in multiset(cs);
      }
    }
    FirstBilledIsNewest(ps);
    forall q | q in cs
      ensures exists j :: 0 <= j < |ps| && ps[j] == q
    {
      assert q in ps;
    }
  }

  /** Balances carried out of non-negative storage are non-negative. */
  lemma LatestBalanceNonNegative(payments: seq<Payment>, cid: string)
    requires NonNegativeBalances(payments)
    ensures var b := LatestBalance(ByYearDesc(OfCustomer(payments, cid)));
      b.advance >= 0 && b.debt >= 0
  {
    LatestBalanceIsNewest(payments, cid);
  }

  // ---------------------------------------------------------------------------
  // createBill

  /** The columns every row of the new batch shares: the payment method (default
      'Cash'), the payment time (default now), the note and the creation time. */
  function ServerStamp(req: BillRequest, clock: Clock): Stamp
  {
    Stamp(Some(PaidViaOf(req)), if req.paymentDate.Some? then req.paymentDate.value else clock.seconds,
          req.note, Some(clock.seconds))
  }

  /** What createBill decides against the stored customers and batches: the error it
      reports, or the batch it stores. */
  function ServerDecide(customers: seq<Customer>, payments: seq<Payment>, req: BillRequest, clock: Clock, newId: string): Result<Payment, BillError>
  {
    if !ValidRequest(req) then Err(ValidationFailed)
    else
      var rate := RateOf(req);
      var year := ResolveYear(req.year, req.startMonth, clock);
      var endMonth := OrFallback(req.endMonth, req.startMonth);
      var n := MonthCount(req.startMonth, endMonth);
      if !ActiveCustomer(customers, req.customerId) then Err(CustomerNotFound)
      else if !req.wasOff && req.amount < MinimumServer(rate, n) then Err(InvalidAmount(n, MinimumServer(rate, n)))
      else
        var b := LatestBalance(ByYearDesc(OfCustomer(payments, req.customerId)));
        Ok(Header(newId, req.customerId, year, clock.seconds,
                  BatchMonths(req.wasOff, req.startMonth, endMonth, rate, req.amount, b, ServerStamp(req, clock))))
  }

  /** createBill: validate, look the customer up, check the amount, find the carried
      balance, build the rows, insert the batch header and then its rows one by one,
      and read the batch back. */
  method CreateBill(db: Store, req: BillRequest, clock: Clock, newId: string) returns (r: Result<Payment, BillError>)
    requires db.Valid() && !HasPayment(db.payments, newId)
    modifies db
    ensures r == ServerDecide(old(db.customers), old(db.payments), req, clock, newId)
    ensures r.Ok? ==> db.payments == old(db.payments) + [r.value]
    ensures r.Err? ==> db.payments == old(db.payments)
    ensures db.customers == old(db.customers) && db.plans == old(db.plans)
    ensures db.Valid()
  {
    if !(1 <= req.startMonth <= 12) || (req.endMonth.Some? && !(1 <= req.endMonth.value <= 12)) {
      return Err(ValidationFailed);
    }
    var monthlyAmount := RateOf(req);
    var year := ResolveYear(req.year, req.startMonth, clock);
    var endMonth := OrFallback(req.endMonth, req.startMonth);
    var numberOfMonths := MonthCount(req.startMonth, endMonth);
    if !ActiveCustomer(db.customers, req.customerId) {
      return Err(CustomerNotFound);
    }
    var minimumRequiredAmount := MinimumServer(monthlyAmount, numberOfMonths);
    if !req.wasOff && req.amount < minimumRequiredAmount {
      return Err(InvalidAmount(numberOfMonths, minimumRequiredAmount));
    }
    var customerPayments := ByYearDesc(OfCustomer(db.payments, req.customerId));
    var balance := CarriedBalance(customerPayments);
    var paidVia := PaidViaOf(req);
    var paymentTimestamp := if req.paymentDate.Some? then req.paymentDate.value else clock.seconds;
    var processedMonths;
    if req.wasOff {
      processedMonths := OffMonths(req.startMonth, numberOfMonths, balance,
                                   Stamp(Some(paidVia), paymentTimestamp, req.note, Some(clock.seconds)));
    } else {
      processedMonths := GenerateMonthlyPayments(req.startMonth, endMonth, monthlyAmount, req.amount,
                                                 Some(paidVia), paymentTimestamp, req.note,
                                                 balance.debt, balance.advance, clock.seconds);
    }
    var header := Payment(newId, req.customerId, year, SumDebt(processedMonths), SumAdvance(processedMonths),
                          clock.seconds, []);
    ghost var b := LatestBalance(ByYearDesc(OfCustomer(db.payments, req.customerId)));
    assert processedMonths == BatchMonths(req.wasOff, req.startMonth, endMonth, monthlyAmount, req.amount, b,
                                          ServerStamp(req, clock));
    var stored := StoreBatch(db, header, processedMonths);
    r := Ok(stored);
  }

  /** Insert the batch header, then each of its rows in turn (no transaction), and read
      the batch back. */
  method StoreBatch(db: Store, header: Payment, rows: seq<MonthEntry>) returns (stored: Payment)
    requires db.Valid() && !HasPayment(db.payments, header.id)
    modifies db
    ensures stored == header.(months := rows)
    ensures db.payments == old(db.payments) + [stored]
    ensures db.customers == old(db.customers) && db.plans == old(db.plans)
    ensures db.Valid()
  {
    db.payments := db.payments + [header.(months := [])];
    var i := 0;
    while i < |rows|
      invariant 0 <= i <= |rows|
      invariant db.payments == old(db.payments) + [header.(months := rows[..i])]
      invariant db.customers == old(db.customers) && db.plans == old(db.plans)
    {
      var last := db.payments[|db.payments| - 1];
      db.payments := db.payments[..|db.payments| - 1] + [last.(months := last.months + [rows[i]])];
      assert rows[..i + 1] == rows[..i] + [rows[i]];
      i := i + 1;
    }
    assert rows[..i] == rows;
    stored := db.payments[|db.payments| - 1];
    DistinctAppend(old(db.payments), stored);
  }

  // ---------------------------------------------------------------------------
  // Properties of createBill

  /** The order of the checks: a malformed request fails validation first; then an
      absent or deleted customer is reported whatever the amount; only then is the
      amount checked, and never for a paused bill. */
  lemma ServerCheckOrder(customers: seq<Customer>, payments: seq<Payment>, req: BillRequest, clock: Clock, newId: string)
    ensures var r := ServerDecide(customers, payments, req, clock, newId);
      var n := MonthCount(req.startMonth, OrFallback(req.endMonth, req.startMonth));
      (r == Err(ValidationFailed) <==> !ValidRequest(req)) &&
      (r == Err(CustomerNotFound) <==> ValidRequest(req) && !ActiveCustomer(customers, req.customerId)) &&
      ((r.Err? && r.error.InvalidAmount?) <==>
         ValidRequest(req) && ActiveCustomer(customers, req.customerId) && !req.wasOff &&
         req.amount < MinimumServer(RateOf(req), n)) &&
      (r.Ok? <==> ValidRequest(req) && ActiveCustomer(customers, req.customerId) &&
                  (req.wasOff || req.amount >= MinimumServer(RateOf(req), n)))
  {
  }

  /** A stored batch belongs to the requested customer and resolved year, holds one
      row per month of the range in order, carries the sums of its rows as totals, and
      continues from the balance of the customer's newest billed batch. */
  lemma ServerBatchShape(customers: seq<Customer>, payments: seq<Payment>, req: BillRequest, clock: Clock, newId: string)
    requires ServerDecide(customers, payments, req, clock, newId).Ok?
    ensures var p := ServerDecide(customers, payments, req, clock, newId).value;
      var endMonth := OrFallback(req.endMonth, req.startMonth);
      var b := LatestBalance(ByYearDesc(OfCustomer(payments, req.customerId)));
      p.id == newId && p.customerId == req.customerId && p.year == ResolveYear(req.year, req.startMonth, clock) &&
      p.totalDebt == SumDebt(p.months) && p.totalAdvance == SumAdvance(p.months) &&
      |p.months| == (if req.startMonth <= endMonth then endMonth - req.startMonth + 1 else 0) &&
      Increasing(p.months) &&
      (forall i :: 0 <= i < |p.months| ==> p.months[i].month == req.startMonth + i) &&
      (req.wasOff ==> SumAmount(p.months) == 0 && p.totalDebt == |p.months| * b.debt &&
                      p.totalAdvance == |p.months| * b.advance &&
                      forall i :: 0 <= i < |p.months| ==> p.months[i].status == Off) &&
      (!req.wasOff ==> p.months == Allocate(req.startMonth, endMonth, RateOf(req), req.amount, b.advance, ServerStamp(req, clock)))
  {
    var endMonth := OrFallback(req.endMonth, req.startMonth);
    var b := LatestBalance(ByYearDesc(OfCustomer(payments, req.customerId)));
    BatchMonthsShape(req.wasOff, req.startMonth, endMonth, RateOf(req), req.amount, b, ServerStamp(req, clock));
    OffMonthsTotals(req.startMonth, MonthCount(req.startMonth, endMonth), b, ServerStamp(req, clock));
  }

  /** A billed (not paused) batch over a valid range records exactly the amount paid. */
  lemma ServerBatchConserves(customers: seq<Customer>, payments: seq<Payment>, req: BillRequest, clock: Clock, newId: string)
    requires ServerDecide(customers, payments, req, clock, newId).Ok?
    requires !req.wasOff && req.startMonth <= OrFallback(req.endMonth, req.startMonth)
    ensures SumAmount(ServerDecide(customers, payments, req, clock, newId).value.months) == req.amount
  {
    var endMonth := OrFallback(req.endMonth, req.startMonth);
    var b := LatestBalance(ByYearDesc(OfCustomer(payments, req.customerId)));
    AllocateConserves(req.startMonth, endMonth, RateOf(req), req.amount, b.advance, ServerStamp(req, clock));
  }

  /** With a positive rate, storing a batch keeps every stored balance non-negative:
      the minimum check admits no negative amount for a real range, and the carried
      balance comes from storage. */
  lemma ServerKeepsBalancesNonNegative(customers: seq<Customer>, payments: seq<Payment>, req: BillRequest, clock: Clock, newId: string)
    requires NonNegativeBalances(payments)
    requires RateOf(req) > 0
    requires ServerDecide(customers, payments, req, clock, newId).Ok?
    ensures var p := ServerDecide(customers, payments, req, clock, newId).value;
      NonNegativeBalances(payments + [p]) && p.totalDebt >= 0 && p.totalAdvance >= 0
  {
    var endMonth := OrFallback(req.endMonth, req.startMonth);
    var n := MonthCount(req.startMonth, endMonth);
    var b := LatestBalance(ByYearDesc(OfCustomer(payments, req.customerId)));
    LatestBalanceNonNegative(payments, req.customerId);
    if req.startMonth <= endMonth {
      MinimumNonNegative(RateOf(req), n);
    }
    BatchMonthsNonNegative(req.wasOff, req.startMonth, endMonth, RateOf(req), req.amount, b, ServerStamp(req, clock));
    NonNegativeAppend(payments, ServerDecide(customers, payments, req, clock, newId).value);
  }

  // ---------------------------------------------------------------------------
  // deleteTransaction

  /** deleteTransaction: an unknown id is reported; otherwise the batch is deleted,
      and its month rows with it (they are nested in the batch). */
  method DeleteTransaction(db: Store, paymentId: string) returns (r: Result<(), BillError>)
    requires db.Valid()
    modifies db
    ensures r.Ok? <==> HasPayment(old(db.payments), paymentId)
    ensures r.Err? ==> r.error == TransactionNotFound && db.payments == old(db.payments)
    ensures db.payments == Without(old(db.payments), paymentId)
    ensures db.customers == old(db.customers) && db.plans == old(db.plans)
    ensures db.Valid()
  {
    if !HasPayment(db.payments, paymentId) {
      WithoutAbsent(db.payments, paymentId);
      return Err(TransactionNotFound);
    }
    WithoutDistinct(db.payments, paymentId);
    db.payments := Without(db.payments, paymentId);
    r := Ok(());
  }
}
