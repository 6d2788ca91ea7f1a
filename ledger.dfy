/** Shared data model of the billing tracker: ledger entries (month rows), payment
    batches, customers and plans, the storage both servers read and write, and the
    sums and orderings that several controllers rely on. Money is an unbounded `int`;
    timestamps and dates are opaque values supplied by the caller. */
module Ledger {

  datatype Option<T> = None | Some(value: T)

  datatype Result<T, E> = Ok(value: T) | Err(error: E)

  /** JavaScript's `n || fallback` on an optional number: a missing value (`None`,
      which also stands for an unparsable one) and 0 give the fallback. */
  function OrFallback(n: Option<int>, fallback: int): (r: int)
    ensures n.Some? && n.value != 0 ==> r == n.value
    ensures n.None? || n.value == 0 ==> r == fallback
  {
    if n.Some? && n.value != 0 then n.value else fallback
  }

  /** The status strings of a month row: 'Paid', 'Partially Paid', 'Advance Paid',
      'Unpaid' and 'Off'. */
  datatype Status = Paid | PartiallyPaid | AdvancePaid | Unpaid | Off

  /** One month row of a payment batch. An absent optional column is `None`;
      `createdAt` is `None` where the producing code sets no such field. */
  datatype MonthEntry = MonthEntry(
    month: int,
    amount: int,
    paidVia: Option<string>,
    paymentDate: int,
    debt: int,
    advance: int,
    status: Status,
    note: Option<string>,
    createdAt: Option<int>)

  /** A payment batch (the `payments` table) with its month rows nested, as the
      relational layer returns them; deleting the batch removes its rows with it. */
  datatype Payment = Payment(
    id: string,
    customerId: string,
    year: int,
    totalDebt: int,
    totalAdvance: int,
    updatedAt: int,
    months: seq<MonthEntry>)

  datatype Customer = Customer(
    id: string,
    name: string,
    address: string,
    phone: string,
    stdId: Option<string>,
    customerId: string,
    registerAt: Option<string>,
    deletedAt: Option<string>)

  datatype Plan = Plan(id: string, amount: int, profit: int)

  /** The wall clock, injected: calendar year, month (1-12), seconds since the epoch,
      and today's date already formatted as 'dd-mm-yyyy'. */
  datatype Clock = Clock(year: int, month: int, seconds: int, today: string)

  /** The tables the controllers read and write. */
  class Store {
    var customers: seq<Customer>
    var payments: seq<Payment>
    var plans: seq<Plan>

    /** Payment ids are primary keys: no two batches share one. */
    ghost predicate Valid()
      reads this
    {
      DistinctIds(payments)
    }
  }

  ghost predicate DistinctIds(ps: seq<Payment>)
  {
    forall i, j :: 0 <= i < j < |ps| ==> ps[i].id != ps[j].id
  }

  /** Appending a row whose id is new keeps the ids distinct. */
  lemma DistinctAppend(ps: seq<Payment>, p: Payment)
    requires DistinctIds(ps)
    requires forall i :: 0 <= i < |ps| ==> ps[i].id != p.id
    ensures DistinctIds(ps + [p])
  {
    var r := ps + [p];
    forall a, c | 0 <= a < c < |r| ensures r[a].id != r[c].id {
      assert r[a] == ps[a];
      if c < |ps| {
        assert r[c] == ps[c];
      }
    }
  }

  /** A prefix one longer is the prefix with the next element appended. */
  lemma PrefixSnoc<T>(s: seq<T>, i: int)
    requires 0 <= i < |s|
    ensures s[..i + 1] == s[..i] + [s[i]]
    ensures s[..i + 1][..i] == s[..i]
  {
  }

  // ---------------------------------------------------------------------------
  // Sums over month rows and over batches

  function SumAmount(ms: seq<MonthEntry>): int
  {
    if ms == [] then 0 else ms[0].amount + SumAmount(ms[1..])
  }

  function SumDebt(ms: seq<MonthEntry>): int
  {
    if ms == [] then 0 else ms[0].debt + SumDebt(ms[1..])
  }

  function SumAdvance(ms: seq<MonthEntry>): int
  {
    if ms == [] then 0 else ms[0].advance + SumAdvance(ms[1..])
  }

  lemma {:induction false} SumsAppend(a: seq<MonthEntry>, b: seq<MonthEntry>)
    ensures SumAmount(a + b) == SumAmount(a) + SumAmount(b)
    ensures SumDebt(a + b) == SumDebt(a) + SumDebt(b)
    ensures SumAdvance(a + b) == SumAdvance(a) + SumAdvance(b)
    decreases |a|
  {
    if a == [] {
      assert a + b == b;
    } else {
      assert (a + b)[1..] == a[1..] + b;
      SumsAppend(a[1..], b);
    }
  }

  lemma SumsCons(e: MonthEntry, ms: seq<MonthEntry>)
    ensures SumAmount([e] + ms) == e.amount + SumAmount(ms)
    ensures SumDebt([e] + ms) == e.debt + SumDebt(ms)
    ensures SumAdvance([e] + ms) == e.advance + SumAdvance(ms)
  {
    assert ([e] + ms)[1..] == ms;
  }

  /** Extending a prefix by one row adds that row to each sum. */
  lemma SumsSnoc(ms: seq<MonthEntry>, i: int)
    requires 0 <= i < |ms|
    ensures SumAmount(ms[..i + 1]) == SumAmount(ms[..i]) + ms[i].amount
    ensures SumDebt(ms[..i + 1]) == SumDebt(ms[..i]) + ms[i].debt
    ensures SumAdvance(ms[..i + 1]) == SumAdvance(ms[..i]) + ms[i].advance
  {
    assert ms[..i + 1] == ms[..i] + [ms[i]];
    SumsAppend(ms[..i], [ms[i]]);
    assert [ms[i]][1..] == [];
  }

  /** All month rows of a list of batches, in order. */
  function AllMonths(ps: seq<Payment>): seq<MonthEntry>
  {
    if ps == [] then [] else AllMonths(ps[..|ps| - 1]) + ps[|ps| - 1].months
  }

  /** The sum of every month amount of every batch (the 'totalPaid' fold). */
  function SumPaid(ps: seq<Payment>): int
  {
    if ps == [] then 0 else SumPaid(ps[..|ps| - 1]) + SumAmount(ps[|ps| - 1].months)
  }

  /** The sum of the batch-level `totalDebt` columns. */
  function SumTotalDebt(ps: seq<Payment>): int
  {
    if ps == [] then 0 else SumTotalDebt(ps[..|ps| - 1]) + ps[|ps| - 1].totalDebt
  }

  /** The sum of the batch-level `totalAdvance` columns. */
  function SumTotalAdvance(ps: seq<Payment>): int
  {
    if ps == [] then 0 else SumTotalAdvance(ps[..|ps| - 1]) + ps[|ps| - 1].totalAdvance
  }

  /** The nested fold 'sum over batches of (sum over months of amount)' is the sum of
      the amounts of all month rows taken together. */
  lemma {:induction false} SumPaidIsSumOfAllMonths(ps: seq<Payment>)
    ensures SumPaid(ps) == SumAmount(AllMonths(ps))
    decreases |ps|
  {
    if ps != [] {
      SumPaidIsSumOfAllMonths(ps[..|ps| - 1]);
      SumsAppend(AllMonths(ps[..|ps| - 1]), ps[|ps| - 1].months);
    }
  }

  lemma {:induction false} BatchSumsAppend(a: seq<Payment>, b: seq<Payment>)
    ensures SumPaid(a + b) == SumPaid(a) + SumPaid(b)
    ensures SumTotalDebt(a + b) == SumTotalDebt(a) + SumTotalDebt(b)
    ensures SumTotalAdvance(a + b) == SumTotalAdvance(a) + SumTotalAdvance(b)
    ensures AllMonths(a + b) == AllMonths(a) + AllMonths(b)
    decreases |b|
  {
    if b == [] {
      assert a + b == a;
    } else {
      var ab := a + b;
      var b' := b[..|b| - 1];
      var last := b[|b| - 1];
      assert ab[..|ab| - 1] == a + b';
      assert ab[|ab| - 1] == last;
      BatchSumsAppend(a, b');
      assert SumPaid(ab) == SumPaid(a + b') + SumAmount(last.months);
      assert SumTotalDebt(ab) == SumTotalDebt(a + b') + last.totalDebt;
      assert SumTotalAdvance(ab) == SumTotalAdvance(a + b') + last.totalAdvance;
      assert AllMonths(ab) == AllMonths(a + b') + last.months;
    }
  }

  // ---------------------------------------------------------------------------
  // Queries over the payments table

  /** `where customerId = cid`, storage order kept. */
  function OfCustomer(ps: seq<Payment>, cid: string): (r: seq<Payment>)
    ensures forall p :: p in r <==> p in ps && p.customerId == cid
  {
    if ps == [] then []
    else if ps[0].customerId == cid then [ps[0]] + OfCustomer(ps[1..], cid)
    else OfCustomer(ps[1..], cid)
  }

  lemma {:induction false} OfCustomerAppend(a: seq<Payment>, b: seq<Payment>, cid: string)
    ensures OfCustomer(a + b, cid) == OfCustomer(a, cid) + OfCustomer(b, cid)
    decreases |a|
  {
    if a == [] {
      assert a + b == b;
    } else {
      assert (a + b)[1..] == a[1..] + b;
      OfCustomerAppend(a[1..], b, cid);
    }
  }

  /** `where { customerId, year }`, storage order kept. */
  function OfCustomerYear(ps: seq<Payment>, cid: string, year: int): (r: seq<Payment>)
    ensures forall p :: p in r <==> p in ps && p.customerId == cid && p.year == year
    ensures |r| <= |ps|
  {
    if ps == [] then []
    else if ps[0].customerId == cid && ps[0].year == year then [ps[0]] + OfCustomerYear(ps[1..], cid, year)
    else OfCustomerYear(ps[1..], cid, year)
  }

  /** Rows sorted by year, latest first (`orderBy desc(year)`). */
  ghost predicate YearDescending(ps: seq<Payment>)
  {
    forall i, j :: 0 <= i < j < |ps| ==> ps[i].year >= ps[j].year
  }

  /** Insert `p` before the first row whose year is not later than its own. */
  function InsertByYear(p: Payment, s: seq<Payment>): seq<Payment>
  {
    if s == [] || p.year >= s[0].year then [p] + s
    else [s[0]] + InsertByYear(p, s[1..])
  }

  /** `orderBy desc(year)`: SQL leaves the order of rows with equal years open; the
      model breaks ties by storage order (a stable sort). */
  function ByYearDesc(ps: seq<Payment>): seq<Payment>
  {
    if ps == [] then [] else InsertByYear(ps[0], ByYearDesc(ps[1..]))
  }

  lemma {:induction false} InsertByYearPerm(p: Payment, s: seq<Payment>)
    ensures multiset(InsertByYear(p, s)) == multiset(s) + multiset{p}
    decreases |s|
  {
    if !(s == [] || p.year >= s[0].year) {
      InsertByYearPerm(p, s[1..]);
      assert s == [s[0]] + s[1..];
    }
  }

  /** A row no earlier than every row of a sorted list may go in front of it. */
  lemma ConsSorted(x: Payment, t: seq<Payment>)
    requires YearDescending(t)
    requires forall i :: 0 <= i < |t| ==> t[i].year <= x.year
    ensures YearDescending([x] + t)
  {
    var r := [x] + t;
    forall a, c | 0 <= a < c < |r| ensures r[a].year >= r[c].year {
      assert r[c] == t[c - 1];
      if a > 0 {
        assert r[a] == t[a - 1];
      }
    }
  }

  lemma {:induction false} InsertByYearSorted(p: Payment, s: seq<Payment>)
    requires YearDescending(s)
    ensures YearDescending(InsertByYear(p, s))
    ensures multiset(InsertByYear(p, s)) == multiset(s) + multiset{p}
    decreases |s|
  {
    InsertByYearPerm(p, s);
    if s == [] || p.year >= s[0].year {
      ConsSorted(p, s);
    } else {
      var t := InsertByYear(p, s[1..]);
      assert YearDescending(s[1..]) by {
        forall a, c | 0 <= a < c < |s[1..]| ensures s[1..][a].year >= s[1..][c].year {
          assert s[1..][a] == s[a + 1] && s[1..][c] == s[c + 1];
        }
      }
      InsertByYearSorted(p, s[1..]);
      forall i | 0 <= i < |t| ensures t[i].year <= s[0].year {
        var x := t[i];
        assert x in multiset(t);
        if x != p {
          assert x in multiset(s[1..]);
          var k :| 0 <= k < |s[1..]| && s[1..][k] == x;
          assert s[k + 1] == x;
        }
      }
      ConsSorted(s[0], t);
    }
  }

  /** The year-descending query returns the same rows, sorted. */
  lemma {:induction false} ByYearDescSorted(ps: seq<Payment>)
    ensures YearDescending(ByYearDesc(ps))
    ensures multiset(ByYearDesc(ps)) == multiset(ps)
    decreases |ps|
  {
    if ps != [] {
      ByYearDescSorted(ps[1..]);
      InsertByYearSorted(ps[0], ByYearDesc(ps[1..]));
      assert ps == [ps[0]] + ps[1..];
    }
  }

  lemma {:induction false} OfCustomerInsert(p: Payment, s: seq<Payment>, cid: string)
    requires YearDescending(s)
    ensures OfCustomer(InsertByYear(p, s), cid) ==
            if p.customerId == cid then InsertByYear(p, OfCustomer(s, cid)) else OfCustomer(s, cid)
    decreases |s|
  {
    if s == [] || p.year >= s[0].year {
      assert ([p] + s)[1..] == s;
      var t := OfCustomer(s, cid);
      if t != [] {
        assert t[0] in s;
        var k :| 0 <= k < |s| && s[k] == t[0];
        assert s[0].year >= s[k].year;
      }
    } else {
      assert ([s[0]] + InsertByYear(p, s[1..]))[1..] == InsertByYear(p, s[1..]);
      OfCustomerInsert(p, s[1..], cid);
    }
  }

  /** Filtering by customer commutes with the year-descending sort: sorting a batch
      of many customers' rows and then bucketing them gives each customer the rows a
      query of that customer alone would return. */
  lemma {:induction false} OfCustomerByYearDesc(ps: seq<Payment>, cid: string)
    ensures OfCustomer(ByYearDesc(ps), cid) == ByYearDesc(OfCustomer(ps, cid))
    decreases |ps|
  {
    if ps != [] {
      ByYearDescSorted(ps[1..]);
      OfCustomerInsert(ps[0], ByYearDesc(ps[1..]), cid);
      OfCustomerByYearDesc(ps[1..], cid);
    }
  }

  /** The month row with the highest month (the first such row in storage order);
      `orderBy desc(month)` then taking row 0. */
  function HighestMonth(ms: seq<MonthEntry>): (e: MonthEntry)
    requires ms != []
    ensures e in ms
    ensures forall m :: m in ms ==> m.month <= e.month
  {
    if |ms| == 1 then ms[0]
    else if ms[0].month >= HighestMonth(ms[1..]).month then ms[0]
    else HighestMonth(ms[1..])
  }

  /** Months strictly increasing, as every batch the bill workflows produce. */
  ghost predicate Increasing(ms: seq<MonthEntry>)
  {
    forall i, j :: 0 <= i < j < |ms| ==> ms[i].month < ms[j].month
  }

  /** In a batch with strictly increasing months the highest-month row is the last. */
  lemma {:induction false} HighestMonthOfIncreasing(ms: seq<MonthEntry>)
    requires ms != [] && Increasing(ms)
    ensures HighestMonth(ms) == ms[|ms| - 1]
  {
    var e := HighestMonth(ms);
    var k :| 0 <= k < |ms| && ms[k] == e;
    assert ms[|ms| - 1] in ms;
    assert ms[k].month >= ms[|ms| - 1].month;
  }
}
