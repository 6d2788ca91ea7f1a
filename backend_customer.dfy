/** The backend's customer controller (backend/src/controllers/customer.controller.ts):
    creation with a required-field check and a duplicate check, hard deletion of a
    customer with its batches, the listing of every customer with a bill summary,
    and one customer's details with a history grouped by year. */
module BackendCustomer {
  import opened Ledger
  import opened CustomerCommon
  import ServerCustomer

  // ---------------------------------------------------------------------------
  // createCustomer

  /** The outcome of createCustomer: the required-field check, then the duplicate
      check on the customer id, then the new row. A registration date that is
      missing or empty is replaced by today's; the standard id is stored as given
      and the row is not deleted. */
  function NewCustomer(customers: seq<Customer>, req: CustomerRequest, today: string, newId: string)
    : (r: Result<Customer, CustomerError>)
    ensures r == Err(MissingFields) <==> !Complete(req)
    ensures r == Err(DuplicateCustomerId) <==> Complete(req) && CustomerIdTaken(customers, req.customerId.value)
    ensures r.Ok? ==>
      r.value.id == newId && r.value.name == req.name.value && r.value.address == req.address.value &&
      r.value.phone == req.phone.value && r.value.customerId == req.customerId.value &&
      r.value.stdId == req.stdId && r.value.deletedAt.None? &&
      (Present(req.registerAt) ==> r.value.registerAt == req.registerAt) &&
      (!Present(req.registerAt) ==> r.value.registerAt == Some(today))
  {
    if !Complete(req) then Err(MissingFields)
    else if CustomerIdTaken(customers, req.customerId.value) then Err(DuplicateCustomerId)
    else
      var registerAt := if Present(req.registerAt) then req.registerAt else Some(today);
      Ok(Customer(newId, req.name.value, req.address.value, req.phone.value, req.stdId,
                  req.customerId.value, registerAt, None))
  }

  /** Creating customers keeps the customer-id column unique. */
  lemma NewCustomerKeepsIdsUnique(customers: seq<Customer>, req: CustomerRequest, today: string, newId: string)
    requires UniqueCustomerIds(customers)
    ensures var r := NewCustomer(customers, req, today, newId);
      r.Ok? ==> UniqueCustomerIds(customers + [r.value])
  {
    var r := NewCustomer(customers, req, today, newId);
    if r.Ok? {
      UniqueAppend(customers, r.value);
    }
  }

  method CreateCustomer(db: Store, req: CustomerRequest, clock: Clock, newId: string)
    returns (r: Result<Customer, CustomerError>)
    modifies db
    ensures r == NewCustomer(old(db.customers), req, clock.today, newId)
    ensures r.Ok? ==> db.customers == old(db.customers) + [r.value]
    ensures r.Err? ==> db.customers == old(db.customers)
    ensures db.payments == old(db.payments) && db.plans == old(db.plans)
  {
    if !Complete(req) {
      return Err(MissingFields);
    }
    var customerId := req.customerId.value;
    if CustomerIdTaken(db.customers, customerId) {
      return Err(DuplicateCustomerId);
    }
    var formattedRegisterAt := if Present(req.registerAt) then req.registerAt else Some(clock.today);
    var customer := Customer(newId, req.name.value, req.address.value, req.phone.value, req.stdId,
                             customerId, formattedRegisterAt, None);
    db.customers := db.customers + [customer];
    r := Ok(customer);
  }

  // ---------------------------------------------------------------------------
  // deleteCustomer

  predicate HexDigit(c: char)
  {
    ('0' <= c <= '9') || ('a' <= c <= 'f') || ('A' <= c <= 'F')
  }

  /** The id format the route accepts: exactly 24 hexadecimal digits. */
  predicate HexId(id: string)
  {
    |id| == 24 && forall i :: 0 <= i < |id| ==> HexDigit(id[i])
  }

  /** `delete where id`: every row with this id is gone. */
  function WithoutCustomer(cs: seq<Customer>, id: string): (r: seq<Customer>)
    ensures forall c :: c in r <==> c in cs && c.id != id
  {
    if cs == [] then []
    else if cs[0].id == id then WithoutCustomer(cs[1..], id)
    else [cs[0]] + WithoutCustomer(cs[1..], id)
  }

  /** `deleteMany where customerId`: that customer's batches, and with them their
      month rows, are gone; every other batch stays, in order. */
  function NotOfCustomer(ps: seq<Payment>, cid: string): (r: seq<Payment>)
    ensures forall p :: p in r <==> p in ps && p.customerId != cid
  {
    if ps == [] then []
    else if ps[0].customerId == cid then NotOfCustomer(ps[1..], cid)
    else [ps[0]] + NotOfCustomer(ps[1..], cid)
  }

  /** The deletion date written first is lost when the row is removed: removing the
      soft-deleted rows leaves what removing the original rows leaves. */
  lemma {:induction false} RemoveSoftDeleted(cs: seq<Customer>, id: string, today: string)
    ensures WithoutCustomer(SoftDeleted(cs, id, today), id) == WithoutCustomer(cs, id)
    decreases |cs|
  {
    if cs != [] {
      var d := SoftDeleted(cs, id, today);
      assert d[1..] == SoftDeleted(cs[1..], id, today);
      RemoveSoftDeleted(cs[1..], id, today);
    }
  }

  /** An id that is not 24 hex digits is refused; an id of no customer makes the
      update throw; otherwise the customer gets a deletion date, and then its month
      rows, its batches and the customer itself are deleted. */
  method DeleteCustomer(db: Store, id: string, clock: Clock) returns (r: Result<(), CustomerError>)
    modifies db
    ensures r == Err(InvalidIdFormat) <==> !HexId(id)
    ensures r == Err(DeleteFailed) <==> HexId(id) && FindById(old(db.customers), id) == -1
    ensures r.Err? ==> db.customers == old(db.customers) && db.payments == old(db.payments)
    ensures r.Ok? ==> db.customers == WithoutCustomer(old(db.customers), id) &&
                      db.payments == NotOfCustomer(old(db.payments), id)
    ensures db.plans == old(db.plans)
  {
    if !HexId(id) {
      return Err(InvalidIdFormat);
    }
    if FindById(db.customers, id) == -1 {
      return Err(DeleteFailed);
    }
    var formattedDeleteDate := clock.today;
    ghost var before := db.customers;
    db.customers := SoftDeleted(db.customers, id, formattedDeleteDate);
    db.payments := NotOfCustomer(db.payments, id);
    db.customers := WithoutCustomer(db.customers, id);
    RemoveSoftDeleted(before, id, formattedDeleteDate);
    r := Ok(());
  }

  /** Another customer's batches are untouched by the deletion, in order. */
  lemma {:induction false} OthersKeepBatches(ps: seq<Payment>, id: string, other: string)
    requires other != id
    ensures OfCustomer(NotOfCustomer(ps, id), other) == OfCustomer(ps, other)
    decreases |ps|
  {
    if ps != [] {
      OthersKeepBatches(ps[1..], id, other);
      if ps[0].customerId != id {
        assert NotOfCustomer(ps, id) == [ps[0]] + NotOfCustomer(ps[1..], id);
        assert ([ps[0]] + NotOfCustomer(ps[1..], id))[1..] == NotOfCustomer(ps[1..], id);
      }
    }
  }

  /** Another customer is found at the same row, whatever became of this one. */
  lemma {:induction false} OthersKeepRow(cs: seq<Customer>, id: string, other: string)
    requires other != id
    ensures var k := FindById(WithoutCustomer(cs, id), other);
      var k0 := FindById(cs, other);
      (k == -1 <==> k0 == -1) && (k != -1 ==> WithoutCustomer(cs, id)[k] == cs[k0])
    decreases |cs|
  {
    if cs != [] {
      var w1 := WithoutCustomer(cs[1..], id);
      var k1 := FindById(cs[1..], other);
      OthersKeepRow(cs[1..], id, other);
      if cs[0].id == id {
        assert WithoutCustomer(cs, id) == w1;
        assert FindById(cs, other) == if k1 == -1 then -1 else k1 + 1;
        assert k1 != -1 ==> cs[k1 + 1] == cs[1..][k1];
      } else if cs[0].id != other {
        var w := [cs[0]] + w1;
        assert WithoutCustomer(cs, id) == w;
        assert w[1..] == w1;
        var k := FindById(w1, other);
        assert FindById(w, other) == if k == -1 then -1 else k + 1;
        assert k != -1 ==> w[k + 1] == w1[k];
        assert k1 != -1 ==> cs[k1 + 1] == cs[1..][k1];
      } else {
        assert WithoutCustomer(cs, id) == [cs[0]] + w1;
      }
    }
  }

  // ---------------------------------------------------------------------------
  // getCustomers

  /** What getCustomers lists: every stored customer, soft-deleted or not, by name,
      with its own batches latest year first and their summary. */
  function Listing(customers: seq<Customer>, payments: seq<Payment>): seq<CustomerWithData>
  {
    Views(ByName(customers), payments)
  }

  /** The listing names every customer once, in name order; each entry carries that
      customer's own batches, latest year first, and their totals: the month amounts
      for the total paid and the batch headers for debt and advance. */
  lemma ListingSpec(customers: seq<Customer>, payments: seq<Payment>)
    ensures var r := Listing(customers, payments);
      var listed := ByName(customers);
      |r| == |customers| &&
      multiset(listed) == multiset(customers) &&
      ByNameSorted(listed) &&
      forall k :: 0 <= k < |r| ==>
        r[k].customer == listed[k] &&
        (forall p :: p in r[k].payments <==> p in payments && p.customerId == listed[k].id) &&
        YearDescending(r[k].payments) &&
        r[k].summary.totalPaid == SumAmount(AllMonths(r[k].payments)) &&
        r[k].summary.totalDebt == SumTotalDebt(r[k].payments) &&
        r[k].summary.totalAdvance == SumTotalAdvance(r[k].payments)
  {
    var r := Listing(customers, payments);
    var listed := ByName(customers);
    ByNameSortedPerm(customers);
    assert |listed| == |customers| by {
      assert |multiset(listed)| == |multiset(customers)|;
    }
    forall k | 0 <= k < |r| ensures
      (forall p :: p in r[k].payments <==> p in payments && p.customerId == listed[k].id) &&
      YearDescending(r[k].payments)
    {
      ViewCoversOwnBatches(listed[k], payments);
    }
  }

  /** Both controllers list the same entries as long as no customer has been
      soft-deleted. */
  lemma {:induction false} ListingsAgree(customers: seq<Customer>, payments: seq<Payment>)
    requires forall i :: 0 <= i < |customers| ==> customers[i].deletedAt.None?
    ensures Listing(customers, payments) == ServerCustomer.Listing(customers, payments)
  {
    AllActive(customers);
  }

  lemma {:induction false} AllActive(cs: seq<Customer>)
    requires forall i :: 0 <= i < |cs| ==> cs[i].deletedAt.None?
    ensures ServerCustomer.ActiveCustomers(cs) == cs
    decreases |cs|
  {
    if cs != [] {
      assert forall i :: 0 <= i < |cs[1..]| ==> cs[1..][i] == cs[i + 1];
      AllActive(cs[1..]);
      assert cs == [cs[0]] + cs[1..];
    }
  }

  // ---------------------------------------------------------------------------
  // getCustomerDetails

  /** A row of a year's history: the first batch of the year contributes each month
      projected to seven fields, a later batch its month rows whole. */
  datatype YearRow =
    | Brief(month: int, amount: int, paidVia: Option<string>, status: Status,
            debt: int, advance: int, paymentDate: int)
    | Full(entry: MonthEntry)

  function BriefOf(m: MonthEntry): YearRow
  {
    Brief(m.month, m.amount, m.paidVia, m.status, m.debt, m.advance, m.paymentDate)
  }

  /** `[...payment.months].map(...)`: the projected copies. */
  function Briefs(ms: seq<MonthEntry>): (r: seq<YearRow>)
    ensures |r| == |ms| && forall i :: 0 <= i < |ms| ==> r[i] == BriefOf(ms[i])
  {
    seq(|ms|, i requires 0 <= i < |ms| => BriefOf(ms[i]))
  }

  /** `push(...payment.months)`: the month rows themselves. */
  function Fulls(ms: seq<MonthEntry>): (r: seq<YearRow>)
    ensures |r| == |ms| && forall i :: 0 <= i < |ms| ==> r[i] == Full(ms[i])
  {
    seq(|ms|, i requires 0 <= i < |ms| => Full(ms[i]))
  }

  /** A row reduced to the seven projected fields. */
  function Erase(row: YearRow): (b: YearRow)
    ensures b.Brief?
  {
    match row
    case Brief(_, _, _, _, _, _, _) => row
    case Full(m) => BriefOf(m)
  }

  function Erased(rows: seq<YearRow>): (r: seq<YearRow>)
    ensures |r| == |rows| && forall i :: 0 <= i < |rows| ==> r[i] == Erase(rows[i])
  {
    seq(|rows|, i requires 0 <= i < |rows| => Erase(rows[i]))
  }

  lemma ErasedAppend(a: seq<YearRow>, b: seq<YearRow>)
    ensures Erased(a + b) == Erased(a) + Erased(b)
  {
    var l, r := Erased(a + b), Erased(a) + Erased(b);
    forall i | 0 <= i < |l| ensures l[i] == r[i] {
      if i < |a| {
        assert (a + b)[i] == a[i];
      } else {
        assert (a + b)[i] == b[i - |a|];
      }
    }
  }

  lemma BriefsAppend(a: seq<MonthEntry>, b: seq<MonthEntry>)
    ensures Briefs(a + b) == Briefs(a) + Briefs(b)
  {
    var l, r := Briefs(a + b), Briefs(a) + Briefs(b);
    forall i | 0 <= i < |l| ensures l[i] == r[i] {
      if i < |a| {
        assert (a + b)[i] == a[i];
      } else {
        assert (a + b)[i] == b[i - |a|];
      }
    }
  }

  /** Reduced to the projected fields, a year's rows are the projection of every
      month row of that year's batches, in order. */
  lemma {:induction false} LaterRowsErased(q: seq<Payment>)
    requires q != []
    ensures Erased(Briefs(q[0].months) + LaterRows(q, Fulls)) == Briefs(AllMonths(q))
    decreases |q|
  {
    if |q| == 1 {
      assert q[..0] == [];
      assert AllMonths(q) == q[0].months;
      assert Erased(Briefs(q[0].months)) == Briefs(q[0].months);
      assert Briefs(q[0].months) + LaterRows(q, Fulls) == Briefs(q[0].months);
    } else {
      var pre := q[..|q| - 1];
      var last := q[|q| - 1];
      LaterRowsErased(pre);
      assert pre[0] == q[0];
      var head := Briefs(q[0].months) + LaterRows(pre, Fulls);
      assert LaterRows(q, Fulls) == LaterRows(pre, Fulls) + Fulls(last.months);
      assert Briefs(q[0].months) + LaterRows(q, Fulls) == head + Fulls(last.months);
      ErasedAppend(head, Fulls(last.months));
      assert Erased(Fulls(last.months)) == Briefs(last.months);
      assert AllMonths(q) == AllMonths(pre) + last.months;
      BriefsAppend(AllMonths(pre), last.months);
    }
  }

  datatype CustomerDetails = CustomerDetails(
    customer: Customer,
    payments: seq<Payment>,
    summary: BillSummary,
    paymentHistory: seq<Group<YearRow>>)

  /** The year filter: any year given in the query narrows the batches to it. */
  function YearFiltered(ps: seq<Payment>, id: string, year: Option<int>): seq<Payment>
  {
    if year.Some? then OfCustomerYear(ps, id, year.value) else OfCustomer(ps, id)
  }

  /** What getCustomerDetails returns: not found for an id of no customer (a
      soft-deleted one is still found); otherwise the customer's (year-filtered)
      batches latest year first, their totals, and the history by year. */
  function Details(customers: seq<Customer>, payments: seq<Payment>, id: string, year: Option<int>)
    : Result<CustomerDetails, CustomerError>
  {
    var k := FindById(customers, id);
    if k == -1 then Err(CustomerNotFound)
    else
      var ps := ByYearDesc(YearFiltered(payments, id, year));
      Ok(CustomerDetails(customers[k], ps, Totals(ps), GroupBy(ps, Briefs, Fulls)))
  }

  /** The history has one entry per distinct year, in the order the years first
      occur in the listed batches. An entry starts with the projected months of its
      year's first batch and goes on with the whole month rows of its later batches;
      reduced to the projected fields, it is every month of that year, in order. */
  lemma HistoryByYear(ps: seq<Payment>)
    ensures var h := GroupBy(ps, Briefs, Fulls);
      |h| == |Years(ps)| &&
      forall k :: 0 <= k < |h| ==>
        var q := OfYear(ps, h[k].year);
        h[k].year == Years(ps)[k] && q != [] &&
        h[k].rows == Briefs(q[0].months) + LaterRows(q, Fulls) &&
        Erased(h[k].rows) == Briefs(AllMonths(q))
  {
    var h := GroupBy(ps, Briefs, Fulls);
    GroupByYears(ps, Briefs, Fulls);
    forall k | 0 <= k < |h| ensures
      var q := OfYear(ps, h[k].year);
      q != [] && h[k].rows == Briefs(q[0].months) + LaterRows(q, Fulls) &&
      Erased(h[k].rows) == Briefs(AllMonths(q))
    {
      GroupByRowsAt(ps, Briefs, Fulls, k);
      LaterRowsErased(OfYear(ps, h[k].year));
    }
  }

  /** Details of an id of no customer are not found; otherwise they describe that
      customer, list exactly its batches (of the year asked for) latest year first,
      and sum them. */
  lemma DetailsSpec(customers: seq<Customer>, payments: seq<Payment>, id: string, year: Option<int>)
    ensures var r := Details(customers, payments, id, year);
      (r == Err(CustomerNotFound) <==> forall i :: 0 <= i < |customers| ==> customers[i].id != id) &&
      (r.Ok? ==>
         r.value.customer.id == id && r.value.customer in customers &&
         YearDescending(r.value.payments) &&
         (forall p :: p in r.value.payments <==>
            p in payments && p.customerId == id && (year.Some? ==> p.year == year.value)) &&
         r.value.summary.totalPaid == SumAmount(AllMonths(r.value.payments)) &&
         r.value.summary.totalDebt == SumTotalDebt(r.value.payments) &&
         r.value.summary.totalAdvance == SumTotalAdvance(r.value.payments))
  {
    var r := Details(customers, payments, id, year);
    if r.Ok? {
      var q := YearFiltered(payments, id, year);
      ByYearDescSorted(q);
      forall p ensures p in r.value.payments <==> p in q {
        assert p in r.value.payments <==> p in multiset(r.value.payments);
      }
    }
  }

  /** After a hard delete the customer's details are not found, and every other
      customer's details are what they were. */
  lemma DeleteEffects(customers: seq<Customer>, payments: seq<Payment>, id: string, year: Option<int>)
    ensures Details(WithoutCustomer(customers, id), NotOfCustomer(payments, id), id, year) == Err(CustomerNotFound)
    ensures forall other, y :: other != id ==>
      Details(WithoutCustomer(customers, id), NotOfCustomer(payments, id), other, y) == Details(customers, payments, other, y)
  {
    forall other, y | other != id ensures
      Details(WithoutCustomer(customers, id), NotOfCustomer(payments, id), other, y) == Details(customers, payments, other, y)
    {
      OthersKeepRow(customers, id, other);
      OthersKeepBatches(payments, id, other);
      if y.Some? {
        OthersKeepYearBatches(payments, id, other, y.value);
      }
    }
  }

  lemma {:induction false} OthersKeepYearBatches(ps: seq<Payment>, id: string, other: string, year: int)
    requires other != id
    ensures OfCustomerYear(NotOfCustomer(ps, id), other, year) == OfCustomerYear(ps, other, year)
    decreases |ps|
  {
    if ps != [] {
      OthersKeepYearBatches(ps[1..], id, other, year);
      if ps[0].customerId != id {
        assert NotOfCustomer(ps, id) == [ps[0]] + NotOfCustomer(ps[1..], id);
        assert ([ps[0]] + NotOfCustomer(ps[1..], id))[1..] == NotOfCustomer(ps[1..], id);
      }
    }
  }

  /** The `paymentsByYear` reduce: for each batch in order, the entry of its year
      gets its whole month rows pushed, or a new entry is pushed with its projected
      months. */
  method PaymentsByYear(payments: seq<Payment>) returns (acc: seq<Group<YearRow>>)
    ensures acc == GroupBy(payments, Briefs, Fulls)
  {
    acc := [];
    var i := 0;
    while i < |payments|
      invariant 0 <= i <= |payments|
      invariant acc == GroupBy(payments[..i], Briefs, Fulls)
      decreases |payments| - i
    {
      var payment := payments[i];
      assert payments[..i + 1][..i] == payments[..i];
      var existingYear := FindYear(acc, payment.year);
      if existingYear != -1 {
        acc := acc[existingYear := Group(payment.year, acc[existingYear].rows + Fulls(payment.months))];
      } else {
        acc := acc + [Group(payment.year, Briefs(payment.months))];
      }
      i := i + 1;
    }
    assert payments[..i] == payments;
  }

  method GetCustomerDetails(db: Store, id: string, year: Option<int>) returns (r: Result<CustomerDetails, CustomerError>)
    ensures r == Details(db.customers, db.payments, id, year)
  {
    var k := FindById(db.customers, id);
    if k == -1 {
      return Err(CustomerNotFound);
    }
    var customerPayments := ByYearDesc(YearFiltered(db.payments, id, year));
    var paymentsByYear := PaymentsByYear(customerPayments);
    var summary := Totals(customerPayments);
    r := Ok(CustomerDetails(db.customers[k], customerPayments, summary, paymentsByYear));
  }
}
