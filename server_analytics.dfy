/** The server's analytics controller (server/src/controllers/analyticsController.ts):
    customer movement by a `LIKE` pattern on the stored date strings, and revenue,
    profit, payment methods, debt, advance and the payment rate over the month rows
    of the active customers' batches of the selected year (and month). */
module ServerAnalytics {
  import opened Ledger
  import opened AnalyticsCommon
  import ServerBill
  import ServerCustomer
  import CustomerCommon

  /** The route's reading of `viewType`: Yearly only for exactly 'Yearly'. */
  function RouteView(q: Option<string>): (v: ViewType)
    ensures v == Yearly <==> q == Some("Yearly")
  {
    if q == Some("Yearly") then Yearly else Monthly
  }

  // ---------------------------------------------------------------------------
  // The date filter

  /** The pattern after its leading `%`: '-mm-yyyy' for Monthly, '-yyyy' for
      Yearly. */
  function FilterTail(view: ViewType, month: int, year: int): string
  {
    if view == Monthly then "-" + MonthYear(month, year) else "-" + NumberString(year)
  }

  function DateFilter(view: ViewType, month: int, year: int): string
  {
    "%" + FilterTail(view, month, year)
  }

  function Lower(c: char): char
  {
    if 'A' <= c <= 'Z' then (c as int + 32) as char else c
  }

  /** SQLite's `LIKE`: `%` matches any run of characters, `_` any one character, and
      other characters match ignoring ASCII case. */
  predicate Like(s: string, p: string)
    decreases |p|, |s|
  {
    if p == [] then s == []
    else if p[0] == '%' then Like(s, p[1..]) || (s != [] && Like(s[1..], p))
    else s != [] && (p[0] == '_' || Lower(s[0]) == Lower(p[0])) && Like(s[1..], p[1..])
  }

  /** A pattern character that matches only itself: no wildcard and no letter. */
  predicate Literal(c: char)
  {
    c != '%' && c != '_' && !('A' <= c <= 'Z') && !('a' <= c <= 'z')
  }

  /** A pattern made of literal characters matches exactly itself. */
  lemma {:induction false} LikeLiteral(s: string, t: string)
    requires forall i :: 0 <= i < |t| ==> Literal(t[i])
    ensures Like(s, t) <==> s == t
    decreases |t|
  {
    if t != [] && s != [] {
      LikeLiteral(s[1..], t[1..]);
      if s != [] && Lower(s[0]) == Lower(t[0]) {
        assert s[0] == t[0];
      }
      if s != [] && s[0] == t[0] && s[1..] == t[1..] {
        assert s == [s[0]] + s[1..] && t == [t[0]] + t[1..];
      }
    }
  }

  /** `%` followed by literal characters matches exactly the strings ending with
      them. */
  lemma {:induction false} LikeSuffix(s: string, t: string)
    requires forall i :: 0 <= i < |t| ==> Literal(t[i])
    ensures Like(s, "%" + t) <==> EndsWith(s, t)
    decreases |s|
  {
    var p := "%" + t;
    assert p[1..] == t;
    LikeLiteral(s, t);
    if s != [] {
      LikeSuffix(s[1..], t);
      if |t| < |s| {
        assert s[1..][|s| - 1 - |t|..] == s[|s| - |t|..];
      }
    }
  }

  /** The pieces of the pattern are digits and dashes. */
  lemma TailLiteral(view: ViewType, month: int, year: int)
    requires 0 <= month <= 99 && 1000 <= year <= 9999
    ensures var t := FilterTail(view, month, year);
      forall i :: 0 <= i < |t| ==> Literal(t[i])
  {
    Pad2RoundTrip(month);
    YearRoundTrip(year);
  }

  /** For a date written 'dd-mm-yyyy', the Monthly pattern of a month and a
      four-digit year matches exactly the dates of that month of that year, and the
      Yearly pattern exactly the dates of that year. */
  lemma FilterMatches(d: int, m: int, y: int, view: ViewType, month: int, year: int)
    requires 0 <= d <= 99 && 0 <= m <= 99 && 1000 <= y <= 9999
    requires 0 <= month <= 99 && 1000 <= year <= 9999
    ensures Like(DateString(d, m, y), DateFilter(view, month, year)) <==>
            y == year && (view == Monthly ==> m == month)
  {
    TailLiteral(view, month, year);
    LikeSuffix(DateString(d, m, y), FilterTail(view, month, year));
    if view == Monthly {
      MonthTail(d, m, y, month, year);
    } else {
      YearTail(d, m, y, year);
    }
  }

  // ---------------------------------------------------------------------------
  // The queries

  /** `count()` of the customers whose registration date matches the pattern. */
  function RegisteredLike(cs: seq<Customer>, filter: string): (n: nat)
    ensures n <= |cs|
  {
    if cs == [] then 0
    else (if cs[0].registerAt.Some? && Like(cs[0].registerAt.value, filter) then 1 else 0) + RegisteredLike(cs[1..], filter)
  }

  /** `count()` of the customers whose deletion date matches the pattern. */
  function DeletedLike(cs: seq<Customer>, filter: string): (n: nat)
    ensures n <= |cs|
  {
    if cs == [] then 0
    else (if cs[0].deletedAt.Some? && Like(cs[0].deletedAt.value, filter) then 1 else 0) + DeletedLike(cs[1..], filter)
  }

  /** The batches of that year joined to a customer that is not soft-deleted. */
  function YearPayments(customers: seq<Customer>, ps: seq<Payment>, year: int): (r: seq<Payment>)
    ensures forall p :: p in r <==> p in ps && p.year == year && ServerBill.ActiveCustomer(customers, p.customerId)
  {
    if ps == [] then []
    else
      var last := ps[|ps| - 1];
      YearPayments(customers, ps[..|ps| - 1], year) +
        if last.year == year && ServerBill.ActiveCustomer(customers, last.customerId) then [last] else []
  }

  /** When every batch belongs to an active customer, the join keeps all the year's
      batches. */
  lemma {:induction false} YearPaymentsAllActive(customers: seq<Customer>, ps: seq<Payment>, year: int)
    requires forall i :: 0 <= i < |ps| ==> ServerBill.ActiveCustomer(customers, ps[i].customerId)
    ensures YearPayments(customers, ps, year) == CustomerCommon.OfYear(ps, year)
    decreases |ps|
  {
    if ps != [] {
      YearPaymentsAllActive(customers, ps[..|ps| - 1], year);
    }
  }

  // ---------------------------------------------------------------------------
  // getAnalytics

  /** What getAnalytics reports for a year and month (absent or 0: the clock's) and a
      view: the active customers; the customers registered and deleted in the
      period; over the rows in view of the active customers' batches of the year, the
      revenue, profit, payment methods, debt and advance of the rows that count, and
      the rate of paid rows among the rows not 'Off'. */
  function Report(customers: seq<Customer>, payments: seq<Payment>, plans: seq<Plan>,
                  year: Option<int>, month: Option<int>, view: ViewType, clock: Clock): Analytics
  {
    var y := OrFallback(year, clock.year);
    var m := OrFallback(month, clock.month);
    var filter := DateFilter(view, m, y);
    var ms := ViewedMonths(YearPayments(customers, payments, y), view, m);
    var cs := Contributing(ms);
    Analytics(|ServerCustomer.ActiveCustomers(customers)|,
              RegisteredLike(customers, filter), DeletedLike(customers, filter),
              SumAmount(cs), SumProfit(ProfitMap(plans), cs), Methods(cs), SumDebt(cs), SumAdvance(cs),
              Rate(PaidRows(ms), ActiveRows(ms)))
  }

  /** The plan profit of one counting row: the exact match, else the nearest
      amount when the map has any. */
  method LookupProfit(profitMap: seq<Entry<int, int>>, monthAmount: int) returns (planProfit: int)
    ensures planProfit == PlanProfit(profitMap, monthAmount)
  {
    planProfit := 0;
    var k := KeyIndex(profitMap, monthAmount);
    if k != -1 {
      planProfit := profitMap[k].value;
    } else if |profitMap| > 0 {
      var closestAmount := NearestIndex(Keys(profitMap), monthAmount);
      planProfit := profitMap[closestAmount].value;
    }
  }

  /** The body of getAnalytics' inner loop: one row in view. */
  method CountRow(profitMap: seq<Entry<int, int>>, month: MonthEntry,
                  revenue: int, profit: int, debt: int, advance: int, methods: seq<Entry<string, int>>)
    returns (totalRevenue: int, totalProfit: int, totalDebt: int, totalAdvance: int,
             paymentMethods: seq<Entry<string, int>>)
    ensures Tally(totalRevenue, totalProfit, totalDebt, totalAdvance, paymentMethods) ==
            Step(profitMap, Tally(revenue, profit, debt, advance, methods), month)
  {
    totalRevenue, totalProfit, totalDebt, totalAdvance, paymentMethods := revenue, profit, debt, advance, methods;
    var monthAmount := month.amount;
    if month.status != Off && monthAmount > 0 {
      totalRevenue := totalRevenue + monthAmount;
      var planProfit := LookupProfit(profitMap, monthAmount);
      totalProfit := totalProfit + planProfit;
      if HasMethod(month) {
        var via := month.paidVia.value;
        var existing := KeyIndex(paymentMethods, via);
        paymentMethods := Put(paymentMethods, via, (if existing == -1 then 0 else paymentMethods[existing].value) + monthAmount);
      }
      totalDebt := totalDebt + month.debt;
      totalAdvance := totalAdvance + month.advance;
    }
  }

  /** The inner loop of getAnalytics over one batch's rows in view. */
  method TallyBatch(profitMap: seq<Entry<int, int>>, months: seq<MonthEntry>, ghost seen: seq<MonthEntry>,
                    revenue: int, profit: int, debt: int, advance: int, methods: seq<Entry<string, int>>)
    returns (totalRevenue: int, totalProfit: int, totalDebt: int, totalAdvance: int,
             paymentMethods: seq<Entry<string, int>>)
    requires Tally(revenue, profit, debt, advance, methods) == TallyOf(profitMap, seen)
    ensures Tally(totalRevenue, totalProfit, totalDebt, totalAdvance, paymentMethods) == TallyOf(profitMap, seen + months)
  {
    totalRevenue, totalProfit, totalDebt, totalAdvance, paymentMethods := revenue, profit, debt, advance, methods;
    var j := 0;
    assert seen + months[..0] == seen;
    while j < |months|
      invariant 0 <= j <= |months|
      invariant Tally(totalRevenue, totalProfit, totalDebt, totalAdvance, paymentMethods) == TallyOf(profitMap, seen + months[..j])
      decreases |months| - j
    {
      TallyOfSnoc(profitMap, seen + months[..j], months[j]);
      totalRevenue, totalProfit, totalDebt, totalAdvance, paymentMethods :=
        CountRow(profitMap, months[j], totalRevenue, totalProfit, totalDebt, totalAdvance, paymentMethods);
      assert (seen + months[..j]) + [months[j]] == seen + months[..j + 1];
      j := j + 1;
    }
    assert months[..j] == months;
  }

  /** The outer loop of getAnalytics over the year's batches. */
  method TallyPayments(profitMap: seq<Entry<int, int>>, allPayments: seq<Payment>, viewType: ViewType,
                       currentMonth: int)
    returns (totalRevenue: int, totalProfit: int, totalDebt: int, totalAdvance: int,
             paymentMethods: seq<Entry<string, int>>)
    ensures Tally(totalRevenue, totalProfit, totalDebt, totalAdvance, paymentMethods) ==
            TallyOf(profitMap, ViewedMonths(allPayments, viewType, currentMonth))
  {
    totalRevenue, totalProfit, totalDebt, totalAdvance := 0, 0, 0, 0;
    paymentMethods := [];
    var i := 0;
    while i < |allPayments|
      invariant 0 <= i <= |allPayments|
      invariant Tally(totalRevenue, totalProfit, totalDebt, totalAdvance, paymentMethods) ==
                TallyOf(profitMap, ViewedMonths(allPayments[..i], viewType, currentMonth))
      decreases |allPayments| - i
    {
      var months := InView(allPayments[i].months, viewType, currentMonth);
      ghost var seen := ViewedMonths(allPayments[..i], viewType, currentMonth);
      totalRevenue, totalProfit, totalDebt, totalAdvance, paymentMethods :=
        TallyBatch(profitMap, months, seen, totalRevenue, totalProfit, totalDebt, totalAdvance, paymentMethods);
      ViewedMonthsSnoc(allPayments, i, viewType, currentMonth);
      i := i + 1;
    }
    assert allPayments[..i] == allPayments;
  }

  method GetAnalytics(db: Store, year: Option<int>, month: Option<int>, viewType: ViewType, clock: Clock)
    returns (r: Analytics)
    ensures r == Report(db.customers, db.payments, db.plans, year, month, viewType, clock)
  {
    var customers, payments, plans := db.customers, db.payments, db.plans;
    var currentYear := OrFallback(year, clock.year);
    var currentMonth := OrFallback(month, clock.month);
    var dateFilter := DateFilter(viewType, currentMonth, currentYear);
    var newCustomersCount := RegisteredLike(customers, dateFilter);
    var deletedCustomersCount := DeletedLike(customers, dateFilter);
    var profitMap := ProfitMap(plans);
    var allPayments := YearPayments(customers, payments, currentYear);
    var totalCustomersCount := |ServerCustomer.ActiveCustomers(customers)|;

    var totalRevenue, totalProfit, totalDebt, totalAdvance, paymentMethods :=
      TallyPayments(profitMap, allPayments, viewType, currentMonth);

    var viewed := ViewedMonths(allPayments, viewType, currentMonth);
    var totalActivePayments := ActiveRows(viewed);
    var totalPaidPayments := PaidRows(viewed);
    var paymentRate := Rate(totalPaidPayments, totalActivePayments);
    r := Analytics(totalCustomersCount, newCustomersCount, deletedCustomersCount, totalRevenue, totalProfit,
                   paymentMethods, totalDebt, totalAdvance, paymentRate);
  }

  // ---------------------------------------------------------------------------
  // What the report promises

  /** Revenue is the sum of the counting rows' amounts and is positive exactly when
      some row counts; each payment method holds the amounts paid through it, and
      together they come to at most the revenue; the profit is, row by row, the
      profit of the nearest plan amount (0 without plans); the rate is the share of
      paid rows among active rows as a percentage between 0 and 100. */
  lemma ReportSpec(customers: seq<Customer>, payments: seq<Payment>, plans: seq<Plan>,
                   year: Option<int>, month: Option<int>, view: ViewType, clock: Clock, via: string)
    ensures var r := Report(customers, payments, plans, year, month, view, clock);
      var ms := ViewedMonths(YearPayments(customers, payments, OrFallback(year, clock.year)), view,
                             OrFallback(month, clock.month));
      var cs := Contributing(ms);
      var k := KeyIndex(r.paymentMethods, via);
      r.revenue == SumAmount(cs) && (r.revenue > 0 <==> cs != []) &&
      (k != -1 <==> via != [] && PaidVia(cs, via) != []) &&
      (k != -1 ==> r.paymentMethods[k].value == SumAmount(PaidVia(cs, via))) &&
      Total(r.paymentMethods) <= r.revenue &&
      (plans == [] ==> r.profit == 0) &&
      0 <= r.paymentRate <= 100
  {
    var r := Report(customers, payments, plans, year, month, view, clock);
    var ms := ViewedMonths(YearPayments(customers, payments, OrFallback(year, clock.year)), view,
                           OrFallback(month, clock.month));
    var cs := Contributing(ms);
    RevenuePositive(ms);
    MethodsSpec(cs, via);
    MethodsWithinRevenue(ms);
    if plans == [] {
      NoPlansNoProfit(cs);
    }
    PaidWithinActive(ms);
    RateBounds(PaidRows(ms), ActiveRows(ms));
  }

  lemma {:induction false} NoPlansNoProfit(ms: seq<MonthEntry>)
    ensures SumProfit(ProfitMap([]), ms) == 0
    decreases |ms|
  {
    if ms != [] {
      NoPlansNoProfit(ms[1..]);
    }
  }

  /** With plans, each counting row earns the profit of the plan whose amount is
      nearest its own, the earliest such plan on a tie, an exact match included. */
  lemma ProfitNearest(plans: seq<Plan>, amount: int)
    requires plans != []
    ensures var pm := ProfitMap(plans);
      |pm| > 0 && PlanProfit(pm, amount) == pm[NearestIndex(Keys(pm), amount)].value
  {
    ProfitMapSpec(plans, amount);
    ExactIsNearest(ProfitMap(plans), amount);
  }
}
