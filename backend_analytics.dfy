/** The backend's getAnalytics: like the server's report, but the period filter is a
    suffix test on the stored dates, every stored customer is counted, the batches
    are not joined to their customers, and with no plans the nearest-amount search
    reduces an empty array, which fails the whole request. */
module BackendAnalytics {
  import opened Ledger
  import opened AnalyticsCommon
  import CustomerCommon
  import ServerAnalytics
  import ServerBill

  /** The `viewType` query, 'Monthly' when absent; every other value gives the
      Yearly view. */
  function BackendView(q: Option<string>): (v: ViewType)
    ensures v == Monthly <==> q.None? || q.value == "Monthly"
  {
    if q.None? || q.value == "Monthly" then Monthly else Yearly
  }

  // ---------------------------------------------------------------------------
  // The period filter

  /** The suffix the stored dates are matched against: 'mm-yyyy' in the Monthly view,
      '-yyyy' in the Yearly view. */
  function DateSuffix(view: ViewType, month: int, year: int): string
  {
    if view == Monthly then MonthYear(month, year) else "-" + NumberString(year)
  }

  /** On a date written 'dd-mm-yyyy' with a four-digit year, the suffix test selects
      exactly the dates of the period. */
  lemma SuffixMatches(d: int, m: int, y: int, view: ViewType, month: int, year: int)
    requires 0 <= d <= 99 && 0 <= m <= 99 && 1000 <= y <= 9999 && 0 <= month <= 99 && 1000 <= year <= 9999
    ensures EndsWith(DateString(d, m, y), DateSuffix(view, month, year)) <==>
            y == year && (view == Monthly ==> m == month)
  {
    if view == Monthly {
      MonthTail(d, m, y, month, year);
    } else {
      YearTail(d, m, y, year);
    }
  }

  /** On such dates the backend's suffix test and the server's LIKE pattern agree. */
  lemma FiltersAgree(d: int, m: int, y: int, view: ViewType, month: int, year: int)
    requires 0 <= d <= 99 && 0 <= m <= 99 && 1000 <= y <= 9999 && 0 <= month <= 99 && 1000 <= year <= 9999
    ensures EndsWith(DateString(d, m, y), DateSuffix(view, month, year)) <==>
            ServerAnalytics.Like(DateString(d, m, y), ServerAnalytics.DateFilter(view, month, year))
  {
    SuffixMatches(d, m, y, view, month, year);
    ServerAnalytics.FilterMatches(d, m, y, view, month, year);
  }

  // ---------------------------------------------------------------------------
  // The queries

  /** `count()` of the customers whose registration date ends with the suffix. */
  function RegisteredWith(cs: seq<Customer>, suffix: string): (n: nat)
    ensures n <= |cs|
  {
    if cs == [] then 0
    else (if cs[0].registerAt.Some? && EndsWith(cs[0].registerAt.value, suffix) then 1 else 0) +
         RegisteredWith(cs[1..], suffix)
  }

  /** `count()` of the customers whose deletion date ends with the suffix. */
  function DeletedWith(cs: seq<Customer>, suffix: string): (n: nat)
    ensures n <= |cs|
  {
    if cs == [] then 0
    else (if cs[0].deletedAt.Some? && EndsWith(cs[0].deletedAt.value, suffix) then 1 else 0) +
         DeletedWith(cs[1..], suffix)
  }

  /** The backend removes the customers it deletes, so a table of customers it created
      never holds a deletion date and the deleted count stays 0. */
  lemma {:induction false} NoneDeleted(cs: seq<Customer>, suffix: string)
    requires forall i :: 0 <= i < |cs| ==> cs[i].deletedAt.None?
    ensures DeletedWith(cs, suffix) == 0
    decreases |cs|
  {
    if cs != [] {
      assert cs[0].deletedAt.None?;
      NoneDeleted(cs[1..], suffix);
    }
  }

  predicate HasMonth(p: Payment, month: int)
  {
    exists i :: 0 <= i < |p.months| && p.months[i].month == month
  }

  /** The batches of the year and, in the Monthly view, with some row of the month. */
  function QueriedPayments(ps: seq<Payment>, view: ViewType, year: int, month: int): (r: seq<Payment>)
    ensures forall p :: p in r <==> p in ps && p.year == year && (view == Monthly ==> HasMonth(p, month))
  {
    if ps == [] then []
    else
      var last := ps[|ps| - 1];
      QueriedPayments(ps[..|ps| - 1], view, year, month) +
        if last.year == year && (view == Monthly ==> HasMonth(last, month)) then [last] else []
  }

  /** Dropping the batches with no row of the month loses no row in view: the rows
      the backend tallies are those of all the year's batches, which are also the
      rows its two counts for the rate range over. */
  lemma {:induction false} QueriedSameRows(ps: seq<Payment>, view: ViewType, year: int, month: int)
    ensures ViewedMonths(QueriedPayments(ps, view, year, month), view, month) ==
            ViewedMonths(CustomerCommon.OfYear(ps, year), view, month)
    decreases |ps|
  {
    if ps != [] {
      var pre := ps[..|ps| - 1];
      var last := ps[|ps| - 1];
      QueriedSameRows(pre, view, year, month);
      var q := QueriedPayments(pre, view, year, month);
      var o := CustomerCommon.OfYear(pre, year);
      if last.year == year {
        assert (o + [last])[..|o|] == o;
        if view == Monthly && !HasMonth(last, month) {
          InViewEmpty(last.months, month);
          assert ViewedMonths(o, view, month) + [] == ViewedMonths(o, view, month);
        } else {
          assert (q + [last])[..|q|] == q;
        }
      } else {
        assert o + [] == o;
        assert q + [] == q;
      }
    }
  }

  // ---------------------------------------------------------------------------
  // getAnalytics

  datatype AnalyticsError = ReduceOfEmptyArray

  /** `planProfit` as the backend computes it: the profit of an exact amount match;
      failing that, the profit stored under the nearest amount, which `reduce` finds
      and which fails when there are no plan amounts at all. */
  function BackendPlanProfit(pm: seq<Entry<int, int>>, amount: int): (r: Result<int, AnalyticsError>)
    ensures r.Err? <==> pm == []
  {
    var k := KeyIndex(pm, amount);
    if k != -1 then Ok(pm[k].value)
    else if |pm| == 0 then Err(ReduceOfEmptyArray)
    else
      var closestAmount := Keys(pm)[NearestIndex(Keys(pm), amount)];
      var c := KeyIndex(pm, closestAmount);
      Ok(if c == -1 then 0 else pm[c].value)
  }

  /** With no key repeated, looking a stored key up finds its own entry. */
  lemma {:induction false} KeyIndexOfKey(pm: seq<Entry<int, int>>, n: int)
    requires DistinctKeys(pm) && 0 <= n < |pm|
    ensures KeyIndex(pm, pm[n].key) == n
    decreases n
  {
    if n > 0 {
      assert pm[0].key != pm[n].key;
      assert pm[1..][n - 1] == pm[n];
      KeyIndexOfKey(pm[1..], n - 1);
    }
  }

  /** With plans, the backend's lookup gives the server's profit (the nearest plan's,
      ties to the earliest); with none, it fails. */
  lemma BackendProfitAgrees(pm: seq<Entry<int, int>>, amount: int)
    requires DistinctKeys(pm)
    ensures |pm| > 0 ==> BackendPlanProfit(pm, amount) == Ok(PlanProfit(pm, amount))
    ensures |pm| == 0 ==> BackendPlanProfit(pm, amount) == Err(ReduceOfEmptyArray)
  {
    if |pm| > 0 && KeyIndex(pm, amount) == -1 {
      var n := NearestIndex(Keys(pm), amount);
      KeyIndexOfKey(pm, n);
    }
  }

  /** The totals over the rows in view, or the failure of the first counting row's
      lookup when there are no plans. */
  function Totals(pm: seq<Entry<int, int>>, ms: seq<MonthEntry>): Result<Tally, AnalyticsError>
  {
    if pm == [] && Contributing(ms) != [] then Err(ReduceOfEmptyArray) else Ok(TallyOf(pm, ms))
  }

  /** What the backend's getAnalytics reports for a year and month (absent or 0: the
      clock's) and a view: every stored customer; the customers registered and
      deleted in the period; the totals over the rows in view of the year's batches;
      and the rate of paid rows among the year's rows in view that are not 'Off'. */
  function Report(customers: seq<Customer>, payments: seq<Payment>, plans: seq<Plan>,
                  year: Option<int>, month: Option<int>, viewType: Option<string>, clock: Clock)
    : Result<Analytics, AnalyticsError>
  {
    var view := BackendView(viewType);
    var y := OrFallback(year, clock.year);
    var m := OrFallback(month, clock.month);
    var suffix := DateSuffix(view, m, y);
    var ms := ViewedMonths(QueriedPayments(payments, view, y, m), view, m);
    var rows := ViewedMonths(CustomerCommon.OfYear(payments, y), view, m);
    match Totals(ProfitMap(plans), ms)
    case Err(e) => Err(e)
    case Ok(t) =>
      Ok(Analytics(|customers|, RegisteredWith(customers, suffix), DeletedWith(customers, suffix),
                   t.revenue, t.profit, t.methods, t.debt, t.advance,
                   Rate(PaidRows(rows), ActiveRows(rows))))
  }

  /** The body of the inner `forEach`: one row in view, failing when a counting row
      finds no plan amounts. */
  method CountRow(profitMap: seq<Entry<int, int>>, month: MonthEntry, totals: Tally)
    returns (r: Result<Tally, AnalyticsError>)
    requires DistinctKeys(profitMap)
    ensures r.Err? <==> profitMap == [] && Contributes(month)
    ensures r.Err? ==> r == Err(ReduceOfEmptyArray)
    ensures r.Ok? ==> r.value == Step(profitMap, totals, month)
  {
    var totalRevenue, totalProfit, totalDebt, totalAdvance, paymentMethods :=
      totals.revenue, totals.profit, totals.debt, totals.advance, totals.methods;
    if month.status != Off && month.amount > 0 {
      totalRevenue := totalRevenue + month.amount;
      var planProfit := BackendPlanProfit(profitMap, month.amount);
      if planProfit.Err? {
        return Err(planProfit.error);
      }
      BackendProfitAgrees(profitMap, month.amount);
      assert planProfit.value == PlanProfit(profitMap, month.amount);
      totalProfit := totalProfit + planProfit.value;
      if HasMethod(month) {
        var via := month.paidVia.value;
        var existing := KeyIndex(paymentMethods, via);
        paymentMethods := Put(paymentMethods, via, (if existing == -1 then 0 else paymentMethods[existing].value) + month.amount);
      }
      totalDebt := totalDebt + month.debt;
      totalAdvance := totalAdvance + month.advance;
    }
    r := Ok(Tally(totalRevenue, totalProfit, totalDebt, totalAdvance, paymentMethods));
  }

  /** One more row: with no plans a counting row fails the request; any other row
      takes one step of the totals. */
  lemma TotalsSnoc(pm: seq<Entry<int, int>>, pre: seq<MonthEntry>, m: MonthEntry)
    requires Totals(pm, pre).Ok?
    ensures pm == [] && Contributes(m) ==> Totals(pm, pre + [m]) == Err(ReduceOfEmptyArray)
    ensures !(pm == [] && Contributes(m)) ==> Totals(pm, pre + [m]) == Ok(Step(pm, Totals(pm, pre).value, m))
  {
    TallyOfSnoc(pm, pre, m);
    ContributingSnoc(pre, m);
  }

  /** Once a counting row finds no plan amounts, the request fails whatever rows
      follow. */
  lemma FailureStays(pm: seq<Entry<int, int>>, pre: seq<MonthEntry>, m: MonthEntry, rest: seq<MonthEntry>)
    requires pm == [] && Contributes(m)
    ensures Totals(pm, pre + [m] + rest) == Err(ReduceOfEmptyArray)
  {
    ContributingSnoc(pre, m);
    ContributingAppend(pre + [m], rest);
  }

  /** A failure among earlier batches' rows stays a failure. */
  lemma FailureFollows(pm: seq<Entry<int, int>>, a: seq<MonthEntry>, b: seq<MonthEntry>)
    requires Totals(pm, a).Err?
    ensures Totals(pm, a + b) == Err(ReduceOfEmptyArray)
  {
    ContributingAppend(a, b);
  }

  /** The inner `forEach` over one batch's rows in view. */
  method TallyBatch(profitMap: seq<Entry<int, int>>, months: seq<MonthEntry>, ghost seen: seq<MonthEntry>,
                    totals: Tally)
    returns (r: Result<Tally, AnalyticsError>)
    requires DistinctKeys(profitMap)
    requires Totals(profitMap, seen) == Ok(totals)
    ensures r == Totals(profitMap, seen + months)
  {
    var acc := totals;
    var j := 0;
    assert seen + months[..0] == seen;
    while j < |months|
      invariant 0 <= j <= |months|
      invariant Totals(profitMap, seen + months[..j]) == Ok(acc)
      decreases |months| - j
    {
      var pre := seen + months[..j];
      assert pre + [months[j]] == seen + months[..j + 1];
      TotalsSnoc(profitMap, pre, months[j]);
      var next := CountRow(profitMap, months[j], acc);
      if next.Err? {
        FailureStays(profitMap, pre, months[j], months[j + 1..]);
        assert pre + [months[j]] + months[j + 1..] == seen + months;
        return next;
      }
      acc := next.value;
      j := j + 1;
    }
    assert months[..j] == months;
    r := Ok(acc);
  }

  /** The outer `forEach` over the queried batches. */
  method TallyPayments(profitMap: seq<Entry<int, int>>, payments: seq<Payment>, view: ViewType, currentMonth: int)
    returns (r: Result<Tally, AnalyticsError>)
    requires DistinctKeys(profitMap)
    ensures r == Totals(profitMap, ViewedMonths(payments, view, currentMonth))
  {
    var acc := Tally(0, 0, 0, 0, []);
    var i := 0;
    while i < |payments|
      invariant 0 <= i <= |payments|
      invariant Totals(profitMap, ViewedMonths(payments[..i], view, currentMonth)) == Ok(acc)
      decreases |payments| - i
    {
      var relevantMonths := InView(payments[i].months, view, currentMonth);
      ghost var seen := ViewedMonths(payments[..i], view, currentMonth);
      ViewedMonthsSnoc(payments, i, view, currentMonth);
      var next := TallyBatch(profitMap, relevantMonths, seen, acc);
      if next.Err? {
        assert payments == payments[..i + 1] + payments[i + 1..];
        ViewedMonthsAppend(payments[..i + 1], payments[i + 1..], view, currentMonth);
        FailureFollows(profitMap, ViewedMonths(payments[..i + 1], view, currentMonth),
                       ViewedMonths(payments[i + 1..], view, currentMonth));
        return next;
      }
      acc := next.value;
      i := i + 1;
    }
    assert payments[..i] == payments;
    r := Ok(acc);
  }

  method GetAnalytics(db: Store, year: Option<int>, month: Option<int>, viewType: Option<string>, clock: Clock)
    returns (r: Result<Analytics, AnalyticsError>)
    ensures r == Report(db.customers, db.payments, db.plans, year, month, viewType, clock)
  {
    var customers, storedPayments, plans := db.customers, db.payments, db.plans;
    var view := BackendView(viewType);
    var currentYear := OrFallback(year, clock.year);
    var currentMonth := OrFallback(month, clock.month);
    var dateFilter := DateSuffix(view, currentMonth, currentYear);
    var newCustomers := RegisteredWith(customers, dateFilter);
    var deletedCustomers := DeletedWith(customers, dateFilter);
    var profitMap := ProfitMap(plans);
    ProfitMapShape(plans);
    var payments := QueriedPayments(storedPayments, view, currentYear, currentMonth);
    var totalCustomers := |customers|;

    var totals := TallyPayments(profitMap, payments, view, currentMonth);
    if totals.Err? {
      return Err(totals.error);
    }

    var rows := ViewedMonths(CustomerCommon.OfYear(storedPayments, currentYear), view, currentMonth);
    var totalActivePayments := ActiveRows(rows);
    var paidPayments := PaidRows(rows);
    var paymentRate := Rate(paidPayments, totalActivePayments);
    var t := totals.value;
    r := Ok(Analytics(totalCustomers, newCustomers, deletedCustomers, t.revenue, t.profit, t.methods,
                      t.debt, t.advance, paymentRate));
  }

  // ---------------------------------------------------------------------------
  // What the report promises

  /** The request fails exactly when there are no plans and some row counts. Else
      the revenue is the sum of the counting rows' amounts, positive exactly when
      some row counts; the profit is, row by row, the nearest plan's; each payment
      method holds the amounts paid through it, together at most the revenue; the
      rate lies in 0..100; and every stored customer is counted. */
  lemma ReportSpec(customers: seq<Customer>, payments: seq<Payment>, plans: seq<Plan>,
                   year: Option<int>, month: Option<int>, viewType: Option<string>, clock: Clock, via: string)
    ensures var r := Report(customers, payments, plans, year, month, viewType, clock);
      var view := BackendView(viewType);
      var y := OrFallback(year, clock.year);
      var m := OrFallback(month, clock.month);
      var ms := ViewedMonths(CustomerCommon.OfYear(payments, y), view, m);
      var cs := Contributing(ms);
      (r.Err? <==> plans == [] && cs != []) &&
      (r.Ok? ==>
        var a := r.value;
        var k := KeyIndex(a.paymentMethods, via);
        a.totalCustomers == |customers| &&
        a.revenue == SumAmount(cs) && (a.revenue > 0 <==> cs != []) &&
        a.profit == SumProfit(ProfitMap(plans), cs) &&
        (k != -1 <==> via != [] && PaidVia(cs, via) != []) &&
        (k != -1 ==> a.paymentMethods[k].value == SumAmount(PaidVia(cs, via))) &&
        Total(a.paymentMethods) <= a.revenue &&
        0 <= a.paymentRate <= 100)
  {
    var view := BackendView(viewType);
    var y := OrFallback(year, clock.year);
    var m := OrFallback(month, clock.month);
    var ms := ViewedMonths(CustomerCommon.OfYear(payments, y), view, m);
    var cs := Contributing(ms);
    QueriedSameRows(payments, view, y, m);
    ProfitMapShape(plans);
    RevenuePositive(ms);
    MethodsSpec(cs, via);
    MethodsWithinRevenue(ms);
    PaidWithinActive(ms);
    RateBounds(PaidRows(ms), ActiveRows(ms));
  }

  /** When every batch belongs to a customer that is not soft-deleted and there are
      plans, the two controllers report the same revenue, profit, payment methods,
      debt, advance and rate for the same period and view. */
  lemma ReportsAgree(customers: seq<Customer>, payments: seq<Payment>, plans: seq<Plan>,
                     year: Option<int>, month: Option<int>, viewType: Option<string>, clock: Clock)
    requires plans != []
    requires forall i :: 0 <= i < |payments| ==> ServerBill.ActiveCustomer(customers, payments[i].customerId)
    ensures var r := Report(customers, payments, plans, year, month, viewType, clock);
      var s := ServerAnalytics.Report(customers, payments, plans, year, month, BackendView(viewType), clock);
      r.Ok? && r.value.revenue == s.revenue && r.value.profit == s.profit &&
      r.value.paymentMethods == s.paymentMethods && r.value.totalDebt == s.totalDebt &&
      r.value.totalAdvance == s.totalAdvance && r.value.paymentRate == s.paymentRate
  {
    var view := BackendView(viewType);
    var y := OrFallback(year, clock.year);
    var m := OrFallback(month, clock.month);
    QueriedSameRows(payments, view, y, m);
    ServerAnalytics.YearPaymentsAllActive(customers, payments, y);
    ProfitMapShape(plans);
  }
}
