/** The server's customer controller (server/src/controllers/customerController.ts):
    creation with a schema check and a duplicate check, the listing of all active
    customers computed in batches of fifty, one customer's details with a history
    grouped by year, the generic `processBatches`, and soft deletion. */
module ServerCustomer {
  import opened Ledger
  import opened CustomerCommon
  import ServerBill
  import BillCommon

  // ---------------------------------------------------------------------------
  // createCustomer

  /** The outcome of createCustomer on the current customers table: the schema
      check first, then the duplicate check against every stored customer (also the
      soft-deleted ones), then the new row, registered today and not deleted. The
      notes field is validated but not stored. */
  function NewCustomer(customers: seq<Customer>, req: CustomerRequest, today: string, newId: string)
    : (r: Result<Customer, CustomerError>)
    ensures r == Err(ValidationFailed) <==> !Complete(req)
    ensures r == Err(DuplicateCustomerId) <==> Complete(req) && CustomerIdTaken(customers, req.customerId.value)
    ensures r.Ok? ==> r.value.customerId == req.customerId.value && r.value.id == newId &&
                      r.value.name == req.name.value && r.value.address == req.address.value &&
                      r.value.phone == req.phone.value && r.value.stdId == req.stdId &&
                      r.value.registerAt == Some(today) && r.value.deletedAt.None?
  {
    if !Complete(req) then Err(ValidationFailed)
    else if CustomerIdTaken(customers, req.customerId.value) then Err(DuplicateCustomerId)
    else Ok(Customer(newId, req.name.value, req.address.value, req.phone.value, req.stdId,
                     req.customerId.value, Some(today), None))
  }

  /** Creating customers keeps the customer-id column unique. */
  lemma NewCustomerKeepsIdsUnique(customers: seq<Customer>, req: CustomerRequest, today: string, newId: string)
    requires UniqueCustomerIds(customers)
    ensures var r := NewCustomer(customers, req, today, newId);
      r.Ok? ==> UniqueCustomerIds(customers + [r.value])
  {
    var r := NewCustomer(customers, req, today, newId);
    if r.Ok? {
      UniqueAppend(customers, r.value);
    }
  }

  method CreateCustomer(db: Store, req: CustomerRequest, clock: Clock, newId: string)
    returns (r: Result<Customer, CustomerError>)
    modifies db
    ensures r == NewCustomer(old(db.customers), req, clock.today, newId)
    ensures r.Ok? ==> db.customers == old(db.customers) + [r.value]
    ensures r.Err? ==> db.customers == old(db.customers)
    ensures db.payments == old(db.payments) && db.plans == old(db.plans)
  {
    if !Complete(req) {
      return Err(ValidationFailed);
    }
    var cid := req.customerId.value;
    if CustomerIdTaken(db.customers, cid) {
      return Err(DuplicateCustomerId);
    }
    var formattedRegisterAt := clock.today;
    var c := Customer(newId, req.name.value, req.address.value, req.phone.value, req.stdId, cid,
                      Some(formattedRegisterAt), None);
    db.customers := db.customers + [c];
    r := Ok(c);
  }

  // ---------------------------------------------------------------------------
  // processBatches

  function Min(a: int, b: int): int
  {
    if a <= b then a else b
  }

  /** Consecutive slices of `size` items, the last one possibly shorter. */
  function Slices<T>(items: seq<T>, size: int): seq<seq<T>>
    requires size > 0
    decreases |items|
  {
    if items == [] then []
    else
      var k := Min(size, |items|);
      [items[..k]] + Slices(items[k..], size)
  }

  function Concat<T>(ss: seq<seq<T>>): seq<T>
  {
    if ss == [] then [] else ss[0] + Concat(ss[1..])
  }

  /** `f` applied to each slice, the results concatenated. */
  function ConcatMap<T, R>(f: seq<T> -> seq<R>, ss: seq<seq<T>>): seq<R>
  {
    if ss == [] then [] else f(ss[0]) + ConcatMap(f, ss[1..])
  }

  /** The slices are non-empty, at most `size` long, all but the last exactly
      `size` long, and they concatenate to the whole list. */
  lemma {:induction false} SlicesPartition<T>(items: seq<T>, size: int)
    requires size > 0
    ensures var s := Slices(items, size);
      Concat(s) == items &&
      (forall k :: 0 <= k < |s| ==> 0 < |s[k]| <= size) &&
      (forall k :: 0 <= k < |s| - 1 ==> |s[k]| == size)
    decreases |items|
  {
    if items != [] {
      var k := Min(size, |items|);
      SlicesPartition(items[k..], size);
      var s := Slices(items, size);
      assert s[1..] == Slices(items[k..], size);
      assert items == items[..k] + items[k..];
    }
  }

  /** When the batch function works item by item (through `g`), processing in
      batches gives what processing the whole list at once would. */
  lemma {:induction false} ProcessBatchesPointwise<T, R>(items: seq<T>, size: int, f: seq<T> -> seq<R>, g: T -> R)
    requires size > 0
    requires forall b :: |f(b)| == |b|
    requires forall b, i :: 0 <= i < |b| ==> f(b)[i] == g(b[i])
    ensures var out := ConcatMap(f, Slices(items, size));
      |out| == |items| && forall i :: 0 <= i < |items| ==> out[i] == g(items[i])
    decreases |items|
  {
    if items != [] {
      var k := Min(size, |items|);
      var rest := items[k..];
      ProcessBatchesPointwise(rest, size, f, g);
      var s := Slices(items, size);
      assert s[0] == items[..k] && s[1..] == Slices(rest, size);
      var out := ConcatMap(f, s);
      var head := f(items[..k]);
      var tail := ConcatMap(f, Slices(rest, size));
      assert out == head + tail;
      forall i | 0 <= i < |items| ensures out[i] == g(items[i]) {
        if i < k {
          assert head[i] == g(items[..k][i]);
        } else {
          assert tail[i - k] == g(rest[i - k]);
        }
      }
    }
  }

  /** One more slice taken off the front of what is left. */
  lemma SliceStep<T, R>(f: seq<T> -> seq<R>, items: seq<T>, i: int, size: int)
    requires size > 0 && 0 <= i < |items|
    ensures var hi := Min(i + size, |items|);
      ConcatMap(f, Slices(items[i..], size)) == f(items[i..hi]) + ConcatMap(f, Slices(items[hi..], size))
  {
    var rest := items[i..];
    var hi := Min(i + size, |items|);
    assert rest[..Min(size, |rest|)] == items[i..hi];
    assert rest[Min(size, |rest|)..] == items[hi..];
    assert Slices(rest, size)[1..] == Slices(items[hi..], size);
  }

  /** processBatches: slices of `batchSize` in order, each handed to the batch
      function and its results appended. A size that is not positive never advances
      the loop, so callers must pass a positive one. */
  method ProcessBatches<T, R>(items: seq<T>, batchSize: int, processBatch: seq<T> -> seq<R>)
    returns (results: seq<R>)
    requires batchSize > 0
    ensures results == ConcatMap(processBatch, Slices(items, batchSize))
  {
    results := [];
    var i := 0;
    assert items[0..] == items;
    while i < |items|
      invariant 0 <= i <= |items|
      invariant results + ConcatMap(processBatch, Slices(items[i..], batchSize))
             == ConcatMap(processBatch, Slices(items, batchSize))
      decreases |items| - i
    {
      var hi := Min(i + batchSize, |items|);
      var batch := items[i..hi];
      SliceStep(processBatch, items, i, batchSize);
      var batchResults := processBatch(batch);
      ghost var later := ConcatMap(processBatch, Slices(items[hi..], batchSize));
      assert (results + batchResults) + later == results + (batchResults + later);
      results := results + batchResults;
      i := hi;
    }
    assert results + [] == results;
  }

  // ---------------------------------------------------------------------------
  // getAllCustomers

  const BatchSize: int := 50

  /** `where deletedAt is null`, storage order kept. */
  function ActiveCustomers(cs: seq<Customer>): (r: seq<Customer>)
    ensures forall c :: c in r <==> c in cs && c.deletedAt.None?
  {
    if cs == [] then []
    else if cs[0].deletedAt.None? then [cs[0]] + ActiveCustomers(cs[1..])
    else ActiveCustomers(cs[1..])
  }

  /** What getAllCustomers lists: every active customer, by name, with its own
      batches latest year first and their summary. */
  function Listing(customers: seq<Customer>, payments: seq<Payment>): seq<CustomerWithData>
  {
    Views(ByName(ActiveCustomers(customers)), payments)
  }

  /** The listing names every active customer once, none of the soft-deleted ones,
      in name order; each entry carries that customer's own batches and their
      totals. */
  lemma ListingSpec(customers: seq<Customer>, payments: seq<Payment>)
    ensures var r := Listing(customers, payments);
      var listed := ByName(ActiveCustomers(customers));
      |r| == |listed| &&
      multiset(listed) == multiset(ActiveCustomers(customers)) &&
      ByNameSorted(listed) &&
      (forall c :: c in listed <==> c in customers && c.deletedAt.None?) &&
      (forall k :: 0 <= k < |r| ==>
         r[k].customer == listed[k] &&
         (forall p :: p in r[k].payments <==> p in payments && p.customerId == listed[k].id) &&
         r[k].summary == Totals(r[k].payments))
  {
    var listed := ByName(ActiveCustomers(customers));
    ByNameSortedPerm(ActiveCustomers(customers));
    forall c ensures c in listed <==> c in ActiveCustomers(customers) {
      assert c in listed <==> c in multiset(listed);
    }
    forall k | 0 <= k < |listed| ensures
      forall p :: p in View(listed[k], payments).payments <==> p in payments && p.customerId == listed[k].id
    {
      ViewCoversOwnBatches(listed[k], payments);
    }
  }

  /** `inArray(customerId, ids)`, storage order kept. */
  function InIds(ps: seq<Payment>, ids: seq<string>): seq<Payment>
  {
    if ps == [] then []
    else if ps[0].customerId in ids then [ps[0]] + InIds(ps[1..], ids)
    else InIds(ps[1..], ids)
  }

  function IdsOf(cs: seq<Customer>): (ids: seq<string>)
    ensures |ids| == |cs| && forall k :: 0 <= k < |cs| ==> ids[k] == cs[k].id
  {
    seq(|cs|, k requires 0 <= k < |cs| => cs[k].id)
  }

  /** For a customer of the batch, its rows among the batch's rows are all its rows. */
  lemma {:induction false} OfCustomerInIds(ps: seq<Payment>, ids: seq<string>, cid: string)
    requires cid in ids
    ensures OfCustomer(InIds(ps, ids), cid) == OfCustomer(ps, cid)
    decreases |ps|
  {
    if ps != [] {
      OfCustomerInIds(ps[1..], ids, cid);
    }
  }

  /** The batch's bucket of a customer is what a query of that customer alone returns. */
  lemma BucketIsOwnQuery(ps: seq<Payment>, ids: seq<string>, cid: string)
    requires cid in ids
    ensures OfCustomer(ByYearDesc(InIds(ps, ids)), cid) == ByYearDesc(OfCustomer(ps, cid))
  {
    OfCustomerByYearDesc(InIds(ps, ids), cid);
    OfCustomerInIds(ps, ids, cid);
  }

  /** The buckets of `m` are the rows of each customer among `ps`. */
  ghost predicate Buckets(m: map<string, seq<Payment>>, ps: seq<Payment>)
  {
    forall cid :: (if cid in m then m[cid] else []) == OfCustomer(ps, cid)
  }

  /** Pushing a row onto its customer's bucket keeps the buckets right. */
  lemma BucketsPush(m: map<string, seq<Payment>>, ps: seq<Payment>, p: Payment)
    requires Buckets(m, ps)
    ensures Buckets(m[p.customerId := (if p.customerId in m then m[p.customerId] else []) + [p]], ps + [p])
  {
    var m' := m[p.customerId := (if p.customerId in m then m[p.customerId] else []) + [p]];
    forall cid ensures (if cid in m' then m'[cid] else []) == OfCustomer(ps + [p], cid) {
      OfCustomerAppend(ps, [p], cid);
      assert [p][1..] == [];
    }
  }

  /** The `paymentsByCustomerId` map: each customer id seen maps to its rows, in the
      order they come. */
  method GroupByCustomer(allPayments: seq<Payment>) returns (m: map<string, seq<Payment>>)
    ensures Buckets(m, allPayments)
  {
    m := map[];
    var k := 0;
    while k < |allPayments|
      invariant 0 <= k <= |allPayments|
      invariant Buckets(m, allPayments[..k])
      decreases |allPayments| - k
    {
      var payment := allPayments[k];
      BucketsPush(m, allPayments[..k], payment);
      ghost var pushed := m[payment.customerId := (if payment.customerId in m then m[payment.customerId] else []) + [payment]];
      if payment.customerId !in m {
        m := m[payment.customerId := []];
      }
      m := m[payment.customerId := m[payment.customerId] + [payment]];
      assert m == pushed;
      assert allPayments[..k + 1] == allPayments[..k] + [payment];
      k := k + 1;
    }
    assert allPayments[..k] == allPayments;
  }

  /** The accumulators over one customer's batches: the batches with their months,
      and the three running totals. */
  method Summarize(customerPayments: seq<Payment>) returns (paymentsWithMonths: seq<Payment>, summary: BillSummary)
    ensures paymentsWithMonths == customerPayments
    ensures summary == Totals(customerPayments)
  {
    paymentsWithMonths := [];
    var totalPaid := 0;
    var totalDebt := 0;
    var totalAdvance := 0;
    var i := 0;
    while i < |customerPayments|
      invariant 0 <= i <= |customerPayments|
      invariant paymentsWithMonths == customerPayments[..i]
      invariant totalPaid == SumPaid(customerPayments[..i])
      invariant totalDebt == SumTotalDebt(customerPayments[..i])
      invariant totalAdvance == SumTotalAdvance(customerPayments[..i])
      decreases |customerPayments| - i
    {
      var payment := customerPayments[i];
      var months := payment.months;
      assert customerPayments[..i + 1][..i] == customerPayments[..i];
      totalDebt := totalDebt + payment.totalDebt;
      totalAdvance := totalAdvance + payment.totalAdvance;
      totalPaid := AddAmounts(totalPaid, months);
      paymentsWithMonths := paymentsWithMonths + [payment.(months := months)];
      i := i + 1;
    }
    assert customerPayments[..i] == customerPayments;
    summary := BillSummary(totalPaid, totalDebt, totalAdvance);
  }

  lemma ViewsAppend(a: seq<Customer>, b: seq<Customer>, payments: seq<Payment>)
    ensures Views(a + b, payments) == Views(a, payments) + Views(b, payments)
  {
    var l := Views(a + b, payments);
    var r := Views(a, payments) + Views(b, payments);
    forall k | 0 <= k < |l| ensures l[k] == r[k] {
      if k >= |a| {
        assert (a + b)[k] == b[k - |a|];
      }
    }
  }

  /** One customer's entry: its bucket, the accumulators over it, and the record. */
  method ListCustomer(payments: seq<Payment>, customerIds: seq<string>,
                      paymentsByCustomerId: map<string, seq<Payment>>, customer: Customer)
    returns (entry: CustomerWithData)
    requires customer.id in customerIds
    requires Buckets(paymentsByCustomerId, ByYearDesc(InIds(payments, customerIds)))
    ensures entry == View(customer, payments)
  {
    var customerPayments := if customer.id in paymentsByCustomerId then paymentsByCustomerId[customer.id] else [];
    assert customerPayments == OfCustomer(ByYearDesc(InIds(payments, customerIds)), customer.id);
    BucketIsOwnQuery(payments, customerIds, customer.id);
    var paymentsWithMonths, billSummary := Summarize(customerPayments);
    entry := CustomerWithData(customer, paymentsWithMonths, billSummary);
  }

  /** The work on one batch of customers: one query for all their batches, grouped
      by customer, then each customer's entry in turn. */
  method ListBatch(payments: seq<Payment>, customerBatch: seq<Customer>) returns (out: seq<CustomerWithData>)
    ensures out == Views(customerBatch, payments)
  {
    var customerIds := IdsOf(customerBatch);
    var allPayments := ByYearDesc(InIds(payments, customerIds));
    var paymentsByCustomerId := GroupByCustomer(allPayments);
    out := [];
    var j := 0;
    while j < |customerBatch|
      invariant 0 <= j <= |customerBatch|
      invariant out == Views(customerBatch[..j], payments)
      decreases |customerBatch| - j
    {
      var customer := customerBatch[j];
      assert customer.id == customerIds[j];
      var entry := ListCustomer(payments, customerIds, paymentsByCustomerId, customer);
      assert customerBatch[..j + 1][..j] == customerBatch[..j];
      out := out + [entry];
      j := j + 1;
    }
    assert customerBatch[..j] == customerBatch;
  }

  method GetAllCustomers(db: Store) returns (r: seq<CustomerWithData>)
    ensures r == Listing(db.customers, db.payments)
  {
    var customersList := ByName(ActiveCustomers(db.customers));
    if |customersList| == 0 {
      return [];
    }
    r := [];
    var i := 0;
    while i < |customersList|
      invariant 0 <= i
      invariant r == Views(customersList[..Min(i, |customersList|)], db.payments)
      decreases |customersList| - i
    {
      var hi := Min(i + BatchSize, |customersList|);
      var customerBatch := customersList[i..hi];
      var batchResults := ListBatch(db.payments, customerBatch);
      assert customersList[..hi] == customersList[..i] + customerBatch;
      ViewsAppend(customersList[..i], customerBatch, db.payments);
      r := r + batchResults;
      i := i + BatchSize;
    }
    assert customersList[..|customersList|] == customersList;
  }

  // ---------------------------------------------------------------------------
  // getCustomerById

  datatype CustomerDetails = CustomerDetails(
    customer: Customer,
    payments: seq<Payment>,
    summary: BillSummary,
    paymentHistory: seq<Group<MonthEntry>>)

  /** The first customer with this id that is not soft-deleted. */
  function FindActive(cs: seq<Customer>, id: string): (r: Option<Customer>)
    ensures r.Some? <==> ServerBill.ActiveCustomer(cs, id)
    ensures r.Some? ==> r.value in cs && r.value.id == id && r.value.deletedAt.None?
  {
    if cs == [] then None
    else if cs[0].id == id && cs[0].deletedAt.None? then Some(cs[0])
    else
      var r := FindActive(cs[1..], id);
      assert ServerBill.ActiveCustomer(cs[1..], id) ==> ServerBill.ActiveCustomer(cs, id) by {
        if ServerBill.ActiveCustomer(cs[1..], id) {
          var i :| 0 <= i < |cs[1..]| && cs[1..][i].id == id && cs[1..][i].deletedAt.None?;
          assert cs[i + 1] == cs[1..][i];
        }
      }
      r
  }

  /** The year filter: a request with a year other than 0 narrows the batches to that
      year; no year, or 0, lists them all. */
  function YearFiltered(ps: seq<Payment>, id: string, year: Option<int>): seq<Payment>
  {
    if year.Some? && year.value != 0 then OfCustomerYear(ps, id, year.value) else OfCustomer(ps, id)
  }

  /** The rows a batch contributes to its year's history: its months as they are. */
  function SameRows(ms: seq<MonthEntry>): seq<MonthEntry>
  {
    ms
  }

  /** What getCustomerById returns: not found for an absent or soft-deleted customer;
      otherwise the customer's (year-filtered) batches latest year first, their
      totals, and the history by year. */
  function Details(customers: seq<Customer>, payments: seq<Payment>, id: string, year: Option<int>)
    : Result<CustomerDetails, CustomerError>
  {
    match FindActive(customers, id)
    case None => Err(CustomerNotFound)
    case Some(c) =>
      var ps := ByYearDesc(YearFiltered(payments, id, year));
      Ok(CustomerDetails(c, ps, Totals(ps), GroupBy(ps, SameRows, SameRows)))
  }

  /** The history has one entry per distinct year, in the order the years first
      occur in the listed batches, and each entry's breakdown is all the month rows
      of that year's batches, in order. */
  lemma HistoryByYear(ps: seq<Payment>)
    ensures var h := GroupBy(ps, SameRows, SameRows);
      |h| == |Years(ps)| &&
      forall k :: 0 <= k < |h| ==> h[k].year == Years(ps)[k] && h[k].rows == AllMonths(OfYear(ps, h[k].year))
  {
    var h := GroupBy(ps, SameRows, SameRows);
    GroupByYears(ps, SameRows, SameRows);
    forall k | 0 <= k < |h| ensures h[k].rows == AllMonths(OfYear(ps, h[k].year)) {
      GroupByRowsAt(ps, SameRows, SameRows, k);
      LaterRowsAll(OfYear(ps, h[k].year), SameRows);
    }
  }

  /** Details of an absent or soft-deleted customer are not found; otherwise they
      describe that customer, list exactly its batches (of the year asked for), and
      sum them. */
  lemma DetailsSpec(customers: seq<Customer>, payments: seq<Payment>, id: string, year: Option<int>)
    ensures var r := Details(customers, payments, id, year);
      (r == Err(CustomerNotFound) <==> !ServerBill.ActiveCustomer(customers, id)) &&
      (r.Ok? ==>
         r.value.customer.id == id && r.value.customer in customers &&
         YearDescending(r.value.payments) &&
         (forall p :: p in r.value.payments <==>
            p in payments && p.customerId == id && (year.Some? && year.value != 0 ==> p.year == year.value)) &&
         r.value.summary == Totals(r.value.payments))
  {
    var r := Details(customers, payments, id, year);
    if r.Ok? {
      var q := YearFiltered(payments, id, year);
      ByYearDescSorted(q);
      forall p ensures p in r.value.payments <==> p in q {
        assert p in r.value.payments <==> p in multiset(r.value.payments);
      }
    }
  }

  /** One step of the history: the batch's months open its year's entry, or are
      appended to the entry already there. */
  method AddToHistory(paymentsByYear: seq<Group<MonthEntry>>, payment: Payment, months: seq<MonthEntry>)
    returns (updated: seq<Group<MonthEntry>>)
    requires months == payment.months
    ensures updated == AddBatch(paymentsByYear, payment, SameRows, SameRows)
  {
    var k := FindYear(paymentsByYear, payment.year);
    if k != -1 {
      updated := paymentsByYear[k := Group(payment.year, paymentsByYear[k].rows + months)];
    } else {
      updated := paymentsByYear + [Group(payment.year, months)];
    }
  }

  /** The inner loop of getCustomerById: the batch's month amounts added on. */
  method AddAmounts(total: int, months: seq<MonthEntry>) returns (totalPaid: int)
    ensures totalPaid == total + SumAmount(months)
  {
    totalPaid := total;
    var j := 0;
    while j < |months|
      invariant 0 <= j <= |months|
      invariant totalPaid == total + SumAmount(months[..j])
      decreases |months| - j
    {
      SumsSnoc(months, j);
      totalPaid := totalPaid + months[j].amount;
      j := j + 1;
    }
    assert months[..j] == months;
  }

  /** The loop of getCustomerById over the customer's listed batches: each batch
      listed with its months, the three totals, and the history by year. */
  method CollectPayments(customerPayments: seq<Payment>)
    returns (paymentsWithMonths: seq<Payment>, billSummary: BillSummary, paymentsByYear: seq<Group<MonthEntry>>)
    ensures paymentsWithMonths == customerPayments
    ensures billSummary == Totals(customerPayments)
    ensures paymentsByYear == GroupBy(customerPayments, SameRows, SameRows)
  {
    paymentsWithMonths := [];
    var totalPaid := 0;
    var totalDebt := 0;
    var totalAdvance := 0;
    paymentsByYear := [];
    var i := 0;
    while i < |customerPayments|
      invariant 0 <= i <= |customerPayments|
      invariant paymentsWithMonths == customerPayments[..i]
      invariant totalPaid == SumPaid(customerPayments[..i])
      invariant totalDebt == SumTotalDebt(customerPayments[..i])
      invariant totalAdvance == SumTotalAdvance(customerPayments[..i])
      invariant paymentsByYear == GroupBy(customerPayments[..i], SameRows, SameRows)
      decreases |customerPayments| - i
    {
      var payment := customerPayments[i];
      var months := payment.months;
      assert customerPayments[..i + 1][..i] == customerPayments[..i];
      totalDebt := totalDebt + payment.totalDebt;
      totalAdvance := totalAdvance + payment.totalAdvance;
      totalPaid := AddAmounts(totalPaid, months);
      paymentsWithMonths := paymentsWithMonths + [payment.(months := months)];
      paymentsByYear := AddToHistory(paymentsByYear, payment, months);
      i := i + 1;
    }
    assert customerPayments[..i] == customerPayments;
    billSummary := BillSummary(totalPaid, totalDebt, totalAdvance);
  }

  /** getCustomerById, with each listed batch keeping its own month rows (see
      `ListedPaymentsAsWritten` for what the code as written lists). */
  method GetCustomerById(db: Store, id: string, year: Option<int>) returns (r: Result<CustomerDetails, CustomerError>)
    ensures r == Details(db.customers, db.payments, id, year)
  {
    var customer := FindActive(db.customers, id);
    if customer.None? {
      return Err(CustomerNotFound);
    }
    var customerPayments := ByYearDesc(YearFiltered(db.payments, id, year));
    var paymentsWithMonths, billSummary, paymentsByYear := CollectPayments(customerPayments);
    r := Ok(CustomerDetails(customer.value, paymentsWithMonths, billSummary, paymentsByYear));
  }

  // ---------------------------------------------------------------------------
  // The listed batches as the code is written

  /** A month array read for one batch (`months`). The listed batch holds it by
      reference, and so does its year's history entry when the batch is the first of
      its year; a later batch of that year pushes its months onto that same array. */
  class MonthArray {
    var rows: seq<MonthEntry>

    constructor (ms: seq<MonthEntry>)
      ensures rows == ms
    {
      rows := ms;
    }
  }

  /** This batch's year is not among the years of the batches before it. */
  predicate FirstOfYear(ps: seq<Payment>, j: int)
    requires 0 <= j < |ps|
  {
    ps[j].year !in Years(ps[..j])
  }

  /** The position of `y` in `ys`, or -1. */
  function IndexOf(ys: seq<int>, y: int): (k: int)
    ensures -1 <= k < |ys|
    ensures k >= 0 ==> ys[k] == y
    ensures k == -1 <==> y !in ys
  {
    if ys == [] then -1
    else if ys[0] == y then 0
    else
      var k := IndexOf(ys[1..], y);
      if k == -1 then -1 else k + 1
  }

  /** The `payments` list of getCustomerById's response as written: the first batch
      of each year is listed with every month row of that year, its own and those of
      the later batches of the year; the other batches are listed as stored. */
  function ListedPaymentsAsWritten(ps: seq<Payment>): (r: seq<Payment>)
    ensures |r| == |ps|
  {
    seq(|ps|, j requires 0 <= j < |ps| =>
      if FirstOfYear(ps, j) then ps[j].(months := AllMonths(OfYear(ps, ps[j].year))) else ps[j])
  }

  /** The values the loop over the first `i` batches has built: `groupYears` are
      the years seen, `contents[k]` what the `k`-th year's array holds, and
      `owner[j]` the year entry whose array batch `j` shares, or -1. */
  ghost predicate LoopValues(ps: seq<Payment>, i: int, owner: seq<int>, groupYears: seq<int>,
                             contents: seq<seq<MonthEntry>>)
    requires 0 <= i <= |ps|
  {
    groupYears == Years(ps[..i]) && |contents| == |groupYears| && |owner| == i &&
    (forall k {:trigger contents[k]} :: 0 <= k < |contents| ==> contents[k] == AllMonths(OfYear(ps[..i], groupYears[k]))) &&
    (forall j {:trigger owner[j]} :: 0 <= j < i ==>
       (owner[j] >= 0 <==> FirstOfYear(ps, j)) &&
       (owner[j] >= 0 ==> owner[j] < |groupYears| && groupYears[owner[j]] == ps[j].year))
  }

  /** A batch is the first of its year exactly when no earlier batch has its year;
      then no earlier batch is of that year. */
  lemma {:induction false} FirstOfYearNew(ps: seq<Payment>, i: int)
    requires 0 <= i < |ps|
    ensures FirstOfYear(ps, i) <==> forall t :: 0 <= t < i ==> ps[t].year != ps[i].year
    ensures FirstOfYear(ps, i) ==> OfYear(ps[..i], ps[i].year) == []
  {
    var pre := ps[..i];
    YearsMembers(pre, ps[i].year);
    if !FirstOfYear(ps, i) {
      var t :| 0 <= t < i && ps[t].year == ps[i].year;
      assert pre[t] == ps[t];
    } else {
      forall t | 0 <= t < i ensures pre[t].year != ps[i].year {
        assert pre[t] == ps[t];
      }
    }
  }

  /** The arrays' contents after a batch of a year already seen. */
  lemma ContentsSeen(ps: seq<Payment>, i: int, groupYears: seq<int>, contents: seq<seq<MonthEntry>>, k: int)
    requires 0 <= i < |ps|
    requires |contents| == |groupYears| && 0 <= k < |groupYears| && groupYears[k] == ps[i].year
    requires forall c, d :: 0 <= c < d < |groupYears| ==> groupYears[c] != groupYears[d]
    requires forall c {:trigger contents[c]} :: 0 <= c < |contents| ==> contents[c] == AllMonths(OfYear(ps[..i], groupYears[c]))
    ensures var contents' := contents[k := contents[k] + ps[i].months];
      forall c {:trigger contents'[c]} :: 0 <= c < |contents'| ==> contents'[c] == AllMonths(OfYear(ps[..i + 1], groupYears[c]))
  {
    var pre, p, post := ps[..i], ps[i], ps[..i + 1];
    PrefixSnoc(ps, i);
    var contents' := contents[k := contents[k] + p.months];
    forall c | 0 <= c < |contents'| ensures contents'[c] == AllMonths(OfYear(post, groupYears[c])) {
      var q := OfYear(pre, groupYears[c]);
      if c == k {
        assert OfYear(post, p.year) == q + [p];
        assert (q + [p])[..|q|] == q;
      } else {
        assert OfYear(post, groupYears[c]) == q;
      }
    }
  }

  /** The arrays' contents after the first batch of a year. */
  lemma ContentsNew(ps: seq<Payment>, i: int, groupYears: seq<int>, contents: seq<seq<MonthEntry>>)
    requires 0 <= i < |ps|
    requires |contents| == |groupYears| && ps[i].year !in groupYears && OfYear(ps[..i], ps[i].year) == []
    requires forall c {:trigger contents[c]} :: 0 <= c < |contents| ==> contents[c] == AllMonths(OfYear(ps[..i], groupYears[c]))
    ensures var contents' := contents + [ps[i].months];
      var years' := groupYears + [ps[i].year];
      forall c {:trigger contents'[c]} :: 0 <= c < |contents'| ==> contents'[c] == AllMonths(OfYear(ps[..i + 1], years'[c]))
  {
    var pre, p, post := ps[..i], ps[i], ps[..i + 1];
    PrefixSnoc(ps, i);
    assert OfYear(post, p.year) == [p];
    assert [p][..0] == [];
    forall c | 0 <= c < |contents| ensures contents[c] == AllMonths(OfYear(post, groupYears[c])) {
      assert groupYears[c] != p.year;
      assert OfYear(post, groupYears[c]) == OfYear(pre, groupYears[c]);
    }
  }

  /** A batch of a year already seen adds its months to that year's array. */
  lemma {:induction false} LoopValuesSeen(ps: seq<Payment>, i: int, owner: seq<int>, groupYears: seq<int>,
                       contents: seq<seq<MonthEntry>>, k: int)
    requires 0 <= i < |ps| && LoopValues(ps, i, owner, groupYears, contents)
    requires 0 <= k < |groupYears| && groupYears[k] == ps[i].year
    ensures LoopValues(ps, i + 1, owner + [-1], groupYears, contents[k := contents[k] + ps[i].months])
  {
    assert ps[i].year in groupYears;
    PrefixSnoc(ps, i);
    YearsSnoc(ps[..i], ps[i]);
    assert Years(ps[..i + 1]) == groupYears;
    ContentsSeen(ps, i, groupYears, contents, k);
    OwnerSeen(ps, i, owner, groupYears);
  }

  /** The ownership facts after a batch that shares no array. */
  lemma OwnerSeen(ps: seq<Payment>, i: int, owner: seq<int>, groupYears: seq<int>)
    requires 0 <= i < |ps| && |owner| == i && !FirstOfYear(ps, i)
    requires forall j {:trigger owner[j]} :: 0 <= j < i ==>
       (owner[j] >= 0 <==> FirstOfYear(ps, j)) &&
       (owner[j] >= 0 ==> owner[j] < |groupYears| && groupYears[owner[j]] == ps[j].year)
    ensures var owner' := owner + [-1];
      forall j {:trigger owner'[j]} :: 0 <= j < i + 1 ==>
       (owner'[j] >= 0 <==> FirstOfYear(ps, j)) &&
       (owner'[j] >= 0 ==> owner'[j] < |groupYears| && groupYears[owner'[j]] == ps[j].year)
  {
    var owner' := owner + [-1];
    forall j | 0 <= j < i + 1
      ensures (owner'[j] >= 0 <==> FirstOfYear(ps, j)) &&
              (owner'[j] >= 0 ==> owner'[j] < |groupYears| && groupYears[owner'[j]] == ps[j].year)
    {
      if j < i {
        assert owner'[j] == owner[j];
      }
    }
  }

  /** The first batch of a year opens a new year entry with its own array. */
  lemma {:induction false} LoopValuesNew(ps: seq<Payment>, i: int, owner: seq<int>, groupYears: seq<int>,
                      contents: seq<seq<MonthEntry>>)
    requires 0 <= i < |ps| && LoopValues(ps, i, owner, groupYears, contents)
    requires IndexOf(groupYears, ps[i].year) == -1
    ensures LoopValues(ps, i + 1, owner + [|contents|], groupYears + [ps[i].year], contents + [ps[i].months])
  {
    PrefixSnoc(ps, i);
    YearsSnoc(ps[..i], ps[i]);
    assert Years(ps[..i + 1]) == groupYears + [ps[i].year];
    FirstOfYearNew(ps, i);
    ContentsNew(ps, i, groupYears, contents);
    OwnerNew(ps, i, owner, groupYears);
  }

  /** The ownership facts after a batch that opens a year entry. */
  lemma OwnerNew(ps: seq<Payment>, i: int, owner: seq<int>, groupYears: seq<int>)
    requires 0 <= i < |ps| && |owner| == i && FirstOfYear(ps, i)
    requires forall j {:trigger owner[j]} :: 0 <= j < i ==>
       (owner[j] >= 0 <==> FirstOfYear(ps, j)) &&
       (owner[j] >= 0 ==> owner[j] < |groupYears| && groupYears[owner[j]] == ps[j].year)
    ensures var owner' := owner + [|groupYears|];
      var years' := groupYears + [ps[i].year];
      forall j {:trigger owner'[j]} :: 0 <= j < i + 1 ==>
       (owner'[j] >= 0 <==> FirstOfYear(ps, j)) &&
       (owner'[j] >= 0 ==> owner'[j] < |years'| && years'[owner'[j]] == ps[j].year)
  {
    var years' := groupYears + [ps[i].year];
    var owner' := owner + [|groupYears|];
    forall j | 0 <= j < i + 1
      ensures (owner'[j] >= 0 <==> FirstOfYear(ps, j)) &&
              (owner'[j] >= 0 ==> owner'[j] < |years'| && years'[owner'[j]] == ps[j].year)
    {
      if j < i {
        assert owner'[j] == owner[j];
      }
    }
  }

  /** The heap matches the values: the year arrays are distinct and hold
      `contents`; a batch that owns a year entry lists that entry's array, any other
      batch lists an array of its own holding its months. */
  ghost predicate LoopHeap(ps: seq<Payment>, arrays: seq<MonthArray>, groupArrays: seq<MonthArray>,
                           owner: seq<int>, contents: seq<seq<MonthEntry>>)
    requires |arrays| == |owner| <= |ps|
    reads arrays, groupArrays
  {
    |groupArrays| == |contents| &&
    (forall a, b :: 0 <= a < b < |groupArrays| ==> groupArrays[a] != groupArrays[b]) &&
    (forall k :: 0 <= k < |groupArrays| ==> groupArrays[k].rows == contents[k]) &&
    (forall j :: 0 <= j < |arrays| ==>
       if owner[j] >= 0 then owner[j] < |groupArrays| && arrays[j] == groupArrays[owner[j]]
       else arrays[j] !in groupArrays && arrays[j].rows == ps[j].months)
  }

  /** A batch of a year already listed: its rows are pushed onto the array the
      year's entry shares with the first batch of that year. */
  method JoinYear(ps: seq<Payment>, i: int, arrays: seq<MonthArray>, groupYears: seq<int>,
                  groupArrays: seq<MonthArray>, ghost owner: seq<int>, ghost contents: seq<seq<MonthEntry>>,
                  k: int)
    returns (months: MonthArray)
    requires 0 <= i < |ps| && |arrays| == i
    requires LoopValues(ps, i, owner, groupYears, contents)
    requires LoopHeap(ps, arrays, groupArrays, owner, contents)
    requires k == IndexOf(groupYears, ps[i].year) && k != -1
    modifies groupArrays[k]
    ensures fresh(months)
    ensures LoopValues(ps, i + 1, owner + [-1], groupYears, contents[k := contents[k] + ps[i].months])
    ensures LoopHeap(ps, arrays + [months], groupArrays, owner + [-1], contents[k := contents[k] + ps[i].months])
  {
    LoopValuesSeen(ps, i, owner, groupYears, contents, k);
    months := new MonthArray(ps[i].months);
    var arrays' := arrays + [months];
    ghost var owner' := owner + [-1];
    ghost var contents' := contents[k := contents[k] + ps[i].months];
    label extend:
    groupArrays[k].rows := groupArrays[k].rows + months.rows;
    forall a | 0 <= a < |groupArrays| ensures groupArrays[a].rows == contents'[a] {
      if a != k {
        assert groupArrays[a] != groupArrays[k];
        assert groupArrays[a].rows == old@extend(groupArrays[a].rows);
      }
    }
    forall j | 0 <= j < |arrays'|
      ensures if owner'[j] >= 0 then owner'[j] < |groupArrays| && arrays'[j] == groupArrays[owner'[j]]
              else arrays'[j] !in groupArrays && arrays'[j].rows == ps[j].months
    {
      if j == i {
        assert months != groupArrays[k];
        assert months.rows == old@extend(months.rows);
      } else {
        assert arrays'[j] == arrays[j];
        if owner[j] < 0 {
          assert arrays[j] != groupArrays[k];
          assert arrays[j].rows == old@extend(arrays[j].rows);
        }
      }
    }
  }

  /** The first batch of a year: the year's entry is opened on that batch's own array. */
  method OpenYear(ps: seq<Payment>, i: int, arrays: seq<MonthArray>, groupYears: seq<int>,
                  groupArrays: seq<MonthArray>, ghost owner: seq<int>, ghost contents: seq<seq<MonthEntry>>)
    returns (months: MonthArray, groupYears': seq<int>, groupArrays': seq<MonthArray>)
    requires 0 <= i < |ps| && |arrays| == i
    requires LoopValues(ps, i, owner, groupYears, contents)
    requires LoopHeap(ps, arrays, groupArrays, owner, contents)
    requires IndexOf(groupYears, ps[i].year) == -1
    ensures fresh(months)
    ensures groupYears' == groupYears + [ps[i].year] && groupArrays' == groupArrays + [months]
    ensures LoopValues(ps, i + 1, owner + [|contents|], groupYears', contents + [ps[i].months])
    ensures LoopHeap(ps, arrays + [months], groupArrays', owner + [|contents|], contents + [ps[i].months])
  {
    LoopValuesNew(ps, i, owner, groupYears, contents);
    months := new MonthArray(ps[i].months);
    ghost var owner' := owner + [|contents|];
    var arrays' := arrays + [months];
    groupYears' := groupYears + [ps[i].year];
    groupArrays' := groupArrays + [months];
    forall j | 0 <= j < |arrays'|
      ensures if owner'[j] >= 0 then owner'[j] < |groupArrays'| && arrays'[j] == groupArrays'[owner'[j]]
              else arrays'[j] !in groupArrays' && arrays'[j].rows == ps[j].months
    {
      if j < i {
        assert arrays'[j] == arrays[j];
      }
    }
  }

  /** After the loop a batch's array holds what the as-written listing shows. */
  lemma ListedRow(ps: seq<Payment>, owner: seq<int>, groupYears: seq<int>, contents: seq<seq<MonthEntry>>,
                  j: int, rows: seq<MonthEntry>)
    requires LoopValues(ps, |ps|, owner, groupYears, contents) && 0 <= j < |ps|
    requires rows == if owner[j] >= 0 && owner[j] < |contents| then contents[owner[j]] else ps[j].months
    ensures rows == ListedPaymentsAsWritten(ps)[j].months
  {
    assert ps[..|ps|] == ps;
  }

  /** The first loop of getCustomerById as written: every batch gets a fresh copy
      of its month rows, and the first batch of each year shares that copy with the
      year's entry, which the later batches of the year extend. */
  method ShareMonths(customerPayments: seq<Payment>) returns (arrays: seq<MonthArray>)
    ensures |arrays| == |customerPayments|
    ensures forall j {:trigger ListedPaymentsAsWritten(customerPayments)[j]} :: 0 <= j < |arrays| ==>
      arrays[j].rows == ListedPaymentsAsWritten(customerPayments)[j].months
  {
    arrays := [];
    var groupYears: seq<int> := [];
    var groupArrays: seq<MonthArray> := [];
    ghost var owner: seq<int> := [];
    ghost var contents: seq<seq<MonthEntry>> := [];
    var i := 0;
    while i < |customerPayments|
      invariant 0 <= i <= |customerPayments| && |arrays| == i
      invariant LoopValues(customerPayments, i, owner, groupYears, contents)
      invariant LoopHeap(customerPayments, arrays, groupArrays, owner, contents)
      invariant forall a :: 0 <= a < |groupArrays| ==> fresh(groupArrays[a])
      decreases |customerPayments| - i
    {
      ghost var before := groupArrays;
      var months;
      var k := IndexOf(groupYears, customerPayments[i].year);
      if k != -1 {
        months := JoinYear(customerPayments, i, arrays, groupYears, groupArrays, owner, contents, k);
        owner := owner + [-1];
        contents := contents[k := contents[k] + customerPayments[i].months];
      } else {
        months, groupYears, groupArrays := OpenYear(customerPayments, i, arrays, groupYears, groupArrays, owner, contents);
        owner := owner + [|contents|];
        contents := contents + [customerPayments[i].months];
      }
      arrays := arrays + [months];
      forall a | 0 <= a < |groupArrays| ensures fresh(groupArrays[a]) {
        if a < |before| {
          assert groupArrays[a] == before[a];
        }
      }
      i := i + 1;
    }
    forall j | 0 <= j < |arrays|
      ensures arrays[j].rows == ListedPaymentsAsWritten(customerPayments)[j].months
    {
      ListedRow(customerPayments, owner, groupYears, contents, j, arrays[j].rows);
    }
  }

  /** The `payments` list of getCustomerById's response as written: each batch is
      listed with the rows its array holds once the loop is over. */
  method ListPaymentsAsWritten(customerPayments: seq<Payment>) returns (listed: seq<Payment>)
    ensures listed == ListedPaymentsAsWritten(customerPayments)
  {
    var arrays := ShareMonths(customerPayments);
    listed := [];
    var j := 0;
    while j < |customerPayments|
      invariant 0 <= j <= |customerPayments| && |listed| == j
      invariant forall t :: 0 <= t < j ==> listed[t] == customerPayments[t].(months := arrays[t].rows)
      decreases |customerPayments| - j
    {
      listed := listed + [customerPayments[j].(months := arrays[j].rows)];
      j := j + 1;
    }
    forall t | 0 <= t < |customerPayments|
      ensures listed[t] == ListedPaymentsAsWritten(customerPayments)[t]
    {
      ListedEntry(customerPayments, t, arrays[t].rows);
    }
  }

  /** A listed batch is the stored batch with the rows its array holds. */
  lemma ListedEntry(ps: seq<Payment>, t: int, rows: seq<MonthEntry>)
    requires 0 <= t < |ps| && rows == ListedPaymentsAsWritten(ps)[t].months
    ensures ps[t].(months := rows) == ListedPaymentsAsWritten(ps)[t]
  {
  }

  /** Two batches of one year: the first is listed with both batches' months. */
  lemma ListedPaymentsAliasing()
    ensures var e1 := MonthEntry(1, 310, Some("Cash"), 0, 0, 0, Paid, None, None);
      var e2 := MonthEntry(2, 310, Some("Cash"), 0, 0, 0, Paid, None, None);
      var ps := [Payment("a", "c1", 2024, 0, 0, 0, [e1]), Payment("b", "c1", 2024, 0, 0, 0, [e2])];
      ps[0].months == [e1] && ListedPaymentsAsWritten(ps)[0].months == [e1, e2]
  {
    var e1 := MonthEntry(1, 310, Some("Cash"), 0, 0, 0, Paid, None, None);
    var e2 := MonthEntry(2, 310, Some("Cash"), 0, 0, 0, Paid, None, None);
    var p1 := Payment("a", "c1", 2024, 0, 0, 0, [e1]);
    var p2 := Payment("b", "c1", 2024, 0, 0, 0, [e2]);
    var ps := [p1, p2];
    assert ps[..1] == [p1];
    assert [p1][..0] == [];
    assert OfYear([p1], 2024) == [p1];
    assert OfYear(ps, 2024) == [p1, p2];
    assert [p1, p2][..1] == [p1];
    assert AllMonths([p1]) == [e1];
    assert AllMonths([p1, p2]) == [e1, e2];
    assert FirstOfYear(ps, 0);
  }

  // ---------------------------------------------------------------------------
  // deleteCustomer

  method DeleteCustomer(db: Store, id: string, clock: Clock) returns (r: Result<Customer, CustomerError>)
    modifies db
    ensures r.Err? <==> forall i :: 0 <= i < |old(db.customers)| ==> old(db.customers)[i].id != id
    ensures r.Err? ==> r.error == CustomerNotFound && db.customers == old(db.customers)
    ensures r.Ok? ==> db.customers == SoftDeleted(old(db.customers), id, clock.today) &&
                      r.value == old(db.customers)[FindById(old(db.customers), id)].(deletedAt := Some(clock.today))
    ensures db.payments == old(db.payments) && db.plans == old(db.plans)
  {
    var k := FindById(db.customers, id);
    if k == -1 {
      return Err(CustomerNotFound);
    }
    var formattedDeleteDate := clock.today;
    db.customers := SoftDeleted(db.customers, id, formattedDeleteDate);
    r := Ok(db.customers[k]);
  }

  /** A soft delete changes only the deletion date of that customer's rows: the
      customer is no longer listed, its details are not found and it can no longer be
      billed, while every other customer's listing entry and details stay as they
      were (its batches are kept, too). */
  lemma {:induction false} SoftDeleteHides(cs: seq<Customer>, id: string, today: string)
    ensures var d := SoftDeleted(cs, id, today);
      !ServerBill.ActiveCustomer(d, id) &&
      (forall c :: c in ActiveCustomers(d) <==> c in ActiveCustomers(cs) && c.id != id) &&
      (forall other :: other != id ==> FindActive(d, other) == FindActive(cs, other))
    decreases |cs|
  {
    var d := SoftDeleted(cs, id, today);
    if cs != [] {
      SoftDeleteHides(cs[1..], id, today);
      assert d[1..] == SoftDeleted(cs[1..], id, today);
      assert d == [d[0]] + d[1..];
    }
  }

  /** After a soft delete, the customer's details are not found and a bill for it is
      refused whatever the request; other customers' details are unchanged. */
  lemma SoftDeleteEffects(cs: seq<Customer>, payments: seq<Payment>, id: string, today: string,
                          year: Option<int>, req: BillCommon.BillRequest, clock: Clock, newId: string)
    requires req.customerId == id
    ensures var d := SoftDeleted(cs, id, today);
      Details(d, payments, id, year) == Err(CustomerNotFound) &&
      ServerBill.ServerDecide(d, payments, req, clock, newId).Err? &&
      forall other, y :: other != id ==> Details(d, payments, other, y) == Details(cs, payments, other, y)
  {
    SoftDeleteHides(cs, id, today);
  }
}
