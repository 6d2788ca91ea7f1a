/** What both analytics controllers share: the year and month a request falls back
    to, the decimal and zero-padded strings the date filters are built from, the
    months that count towards revenue, the plan-profit lookup with its nearest-amount
    search, the payment-method tally and the rounded payment rate. */
module AnalyticsCommon {
  import opened Ledger

  datatype ViewType = Monthly | Yearly

  datatype Analytics = Analytics(
    totalCustomers: int,
    newCustomers: int,
    deletedCustomers: int,
    revenue: int,
    profit: int,
    paymentMethods: seq<Entry<string, int>>,
    totalDebt: int,
    totalAdvance: int,
    paymentRate: int)

  // ---------------------------------------------------------------------------
  // Decimal strings

  function Digit(d: int): char
    requires 0 <= d < 10
  {
    (48 + d) as char
  }

  /** `n.toString()` for a non-negative integer. */
  function Digits(n: nat): (s: string)
    ensures |s| >= 1 && forall i :: 0 <= i < |s| ==> '0' <= s[i] <= '9'
  {
    if n < 10 then [Digit(n)] else Digits(n / 10) + [Digit(n % 10)]
  }

  /** `n.toString()`. */
  function NumberString(n: int): string
  {
    if n < 0 then "-" + Digits(-n) else Digits(n)
  }

  /** `padStart(2, '0')`. */
  function PadStart2(s: string): (r: string)
    ensures |r| == if |s| >= 2 then |s| else 2
    decreases 2 - |s|
  {
    if |s| >= 2 then s else PadStart2(['0'] + s)
  }

  /** A month or day as the date strings write it: two digits, zero-padded. */
  function Pad2(n: int): string
  {
    PadStart2(NumberString(n))
  }

  /** The value of a string of decimal digits (leading zeros allowed). */
  function ParseDigits(s: string): int
  {
    if s == [] then 0 else ParseDigits(s[..|s| - 1]) * 10 + (s[|s| - 1] as int - 48)
  }

  lemma {:induction false} DigitsRoundTrip(n: nat)
    ensures ParseDigits(Digits(n)) == n
    decreases n
  {
    if n >= 10 {
      DigitsRoundTrip(n / 10);
      var s := Digits(n);
      assert s[..|s| - 1] == Digits(n / 10);
    }
  }

  /** A day or month in 0..99 becomes exactly two digits that read back as it. */
  lemma Pad2RoundTrip(n: int)
    requires 0 <= n <= 99
    ensures |Pad2(n)| == 2 && ParseDigits(Pad2(n)) == n
    ensures forall i :: 0 <= i < 2 ==> '0' <= Pad2(n)[i] <= '9'
  {
    DigitsRoundTrip(n);
    if n < 10 {
      var s := ['0', Digit(n)];
      assert NumberString(n) == [Digit(n)];
      assert PadStart2([Digit(n)]) == PadStart2(s) == s;
      assert s[..1] == ['0'] && ['0'][..0] == [];
    } else {
      assert Digits(n) == Digits(n / 10) + [Digit(n % 10)];
    }
  }

  /** A four-digit year is written with exactly four digits that read back as it. */
  lemma YearRoundTrip(y: int)
    requires 1000 <= y <= 9999
    ensures NumberString(y) == Digits(y) && |Digits(y)| == 4 && ParseDigits(Digits(y)) == y
  {
    DigitsRoundTrip(y);
    var a := y / 10;
    var b := a / 10;
    var c := b / 10;
    assert 100 <= a <= 999 && 10 <= b <= 99 && 1 <= c <= 9;
    assert |Digits(c)| == 1;
    assert |Digits(b)| == |Digits(c)| + 1;
    assert |Digits(a)| == |Digits(b)| + 1;
    assert |Digits(y)| == |Digits(a)| + 1;
  }

  /** The 'mm-yyyy' part of a date, and the Monthly filter's. */
  function MonthYear(month: int, year: int): string
  {
    Pad2(month) + ("-" + NumberString(year))
  }

  /** A date as the controllers format today's date: 'dd-mm-yyyy'. */
  function DateString(day: int, month: int, year: int): string
  {
    Pad2(day) + ("-" + MonthYear(month, year))
  }

  predicate EndsWith(s: string, t: string)
  {
    |t| <= |s| && s[|s| - |t|..] == t
  }

  /** Two strings of equal-length pieces are equal only piece by piece. */
  lemma SplitEqual(a: string, b: string, c: string, d: string)
    requires |a| == |c| && a + b == c + d
    ensures a == c && b == d
  {
    assert a == (a + b)[..|a|] && c == (c + d)[..|c|];
    assert b == (a + b)[|a|..] && d == (c + d)[|c|..];
  }

  /** Formatted with a month in 0..99 and a four-digit year, 'mm-yyyy' identifies
      them. */
  lemma MonthYearTail(m: int, y: int, mm: int, yy: int)
    requires 0 <= m <= 99 && 0 <= mm <= 99 && 1000 <= y <= 9999 && 1000 <= yy <= 9999
    ensures MonthYear(m, y) == MonthYear(mm, yy) <==> m == mm && y == yy
  {
    Pad2RoundTrip(m);
    Pad2RoundTrip(mm);
    YearRoundTrip(y);
    YearRoundTrip(yy);
    if MonthYear(m, y) == MonthYear(mm, yy) {
      SplitEqual(Pad2(m), "-" + NumberString(y), Pad2(mm), "-" + NumberString(yy));
      SplitEqual("-", NumberString(y), "-", NumberString(yy));
    }
  }

  /** The pieces of a date with a day and month in 0..99 and a four-digit year: ten
      characters, whose tails from the third, fourth and sixth character on are
      '-mm-yyyy', 'mm-yyyy' and '-yyyy'. */
  lemma DateStringShape(d: int, m: int, y: int)
    requires 0 <= d <= 99 && 0 <= m <= 99 && 1000 <= y <= 9999
    ensures var s := DateString(d, m, y);
      |s| == 10 &&
      s[2..] == "-" + MonthYear(m, y) &&
      s[3..] == MonthYear(m, y) &&
      s[5..] == "-" + NumberString(y)
  {
    Pad2RoundTrip(d);
    Pad2RoundTrip(m);
    YearRoundTrip(y);
    var s := DateString(d, m, y);
    var t := "-" + MonthYear(m, y);
    assert s[2..] == t;
    assert s[3..] == t[1..];
    assert MonthYear(m, y)[2..] == "-" + NumberString(y);
  }

  /** A date ends with 'mm-yyyy' of a month in 0..99 and a four-digit year exactly
      when it falls in that month of that year, and so for '-mm-yyyy'. */
  lemma MonthTail(d: int, m: int, y: int, mm: int, yy: int)
    requires 0 <= d <= 99 && 0 <= m <= 99 && 1000 <= y <= 9999 && 0 <= mm <= 99 && 1000 <= yy <= 9999
    ensures EndsWith(DateString(d, m, y), MonthYear(mm, yy)) <==> m == mm && y == yy
    ensures EndsWith(DateString(d, m, y), "-" + MonthYear(mm, yy)) <==> m == mm && y == yy
  {
    DateStringShape(d, m, y);
    Pad2RoundTrip(mm);
    YearRoundTrip(yy);
    MonthYearTail(m, y, mm, yy);
    if "-" + MonthYear(m, y) == "-" + MonthYear(mm, yy) {
      SplitEqual("-", MonthYear(m, y), "-", MonthYear(mm, yy));
    }
  }

  /** A date ends with '-yyyy' of a four-digit year exactly when it falls in that
      year. */
  lemma YearTail(d: int, m: int, y: int, yy: int)
    requires 0 <= d <= 99 && 0 <= m <= 99 && 1000 <= y <= 9999 && 1000 <= yy <= 9999
    ensures EndsWith(DateString(d, m, y), "-" + NumberString(yy)) <==> y == yy
  {
    DateStringShape(d, m, y);
    YearRoundTrip(y);
    YearRoundTrip(yy);
    if "-" + NumberString(y) == "-" + NumberString(yy) {
      SplitEqual("-", NumberString(y), "-", NumberString(yy));
    }
  }

  // ---------------------------------------------------------------------------
  // The months that count

  /** A month row counts towards revenue, profit, methods, debt and advance when it
      is not 'Off' and its amount is positive. */
  predicate Contributes(m: MonthEntry)
  {
    m.status != Off && m.amount > 0
  }

  function Contributing(ms: seq<MonthEntry>): (r: seq<MonthEntry>)
    ensures forall m :: m in r <==> m in ms && Contributes(m)
  {
    if ms == [] then []
    else if Contributes(ms[0]) then [ms[0]] + Contributing(ms[1..])
    else Contributing(ms[1..])
  }

  lemma {:induction false} ContributingAppend(a: seq<MonthEntry>, b: seq<MonthEntry>)
    ensures Contributing(a + b) == Contributing(a) + Contributing(b)
    decreases |a|
  {
    if a == [] {
      assert a + b == b;
    } else {
      assert (a + b)[1..] == a[1..] + b;
      ContributingAppend(a[1..], b);
    }
  }

  /** Appending one month row appends it to the counting rows exactly when it
      counts. */
  lemma ContributingSnoc(ms: seq<MonthEntry>, m: MonthEntry)
    ensures Contributing(ms + [m]) == Contributing(ms) + (if Contributes(m) then [m] else [])
  {
    ContributingAppend(ms, [m]);
    assert [m][1..] == [];
  }

  /** The month rows a batch contributes to a view: in the Monthly view only the rows
      of the selected month, in the Yearly view all of them. */
  function InView(ms: seq<MonthEntry>, view: ViewType, month: int): (r: seq<MonthEntry>)
    ensures forall m :: m in r <==> m in ms && (view == Monthly ==> m.month == month)
  {
    if ms == [] then []
    else if view == Yearly || ms[0].month == month then [ms[0]] + InView(ms[1..], view, month)
    else InView(ms[1..], view, month)
  }

  /** The rows of all the batches in view, batch by batch. */
  function ViewedMonths(ps: seq<Payment>, view: ViewType, month: int): seq<MonthEntry>
  {
    if ps == [] then [] else ViewedMonths(ps[..|ps| - 1], view, month) + InView(ps[|ps| - 1].months, view, month)
  }

  lemma {:induction false} ViewedMonthsAppend(a: seq<Payment>, b: seq<Payment>, view: ViewType, month: int)
    ensures ViewedMonths(a + b, view, month) == ViewedMonths(a, view, month) + ViewedMonths(b, view, month)
    decreases |b|
  {
    if b == [] {
      assert a + b == a;
    } else {
      var c := a + b;
      assert c[..|c| - 1] == a + b[..|b| - 1] && c[|c| - 1] == b[|b| - 1];
      ViewedMonthsAppend(a, b[..|b| - 1], view, month);
    }
  }

  lemma ViewedMonthsSnoc(ps: seq<Payment>, i: int, view: ViewType, month: int)
    requires 0 <= i < |ps|
    ensures ViewedMonths(ps[..i + 1], view, month) == ViewedMonths(ps[..i], view, month) + InView(ps[i].months, view, month)
  {
    assert ps[..i + 1][..i] == ps[..i];
  }

  /** A batch with no row of the selected month adds nothing to the Monthly view. */
  lemma {:induction false} InViewEmpty(ms: seq<MonthEntry>, month: int)
    requires forall i :: 0 <= i < |ms| ==> ms[i].month != month
    ensures InView(ms, Monthly, month) == []
    decreases |ms|
  {
    if ms != [] {
      assert ms[0].month != month;
      InViewEmpty(ms[1..], month);
    }
  }

  /** The counting month rows total: when any row counts, revenue is positive. */
  lemma {:induction false} RevenuePositive(ms: seq<MonthEntry>)
    ensures SumAmount(Contributing(ms)) >= 0
    ensures Contributing(ms) != [] <==> SumAmount(Contributing(ms)) > 0
    decreases |ms|
  {
    if ms != [] {
      RevenuePositive(ms[1..]);
    }
  }

  // ---------------------------------------------------------------------------
  // Insertion-ordered maps

  /** One key of a JavaScript `Map` or of a plain object used as a record, which both
      keep their keys in first-insertion order. */
  datatype Entry<K, V> = Entry(key: K, value: V)

  function KeyIndex<K(==), V>(t: seq<Entry<K, V>>, k: K): (i: int)
    ensures -1 <= i < |t|
    ensures i >= 0 ==> t[i].key == k && forall j :: 0 <= j < i ==> t[j].key != k
    ensures i == -1 ==> forall j :: 0 <= j < |t| ==> t[j].key != k
  {
    if t == [] then -1
    else if t[0].key == k then 0
    else
      var i := KeyIndex(t[1..], k);
      if i == -1 then -1 else i + 1
  }

  /** `set`: the value of a key already there is replaced in place; a new key is
      added last. */
  function Put<K(==), V>(t: seq<Entry<K, V>>, k: K, v: V): (r: seq<Entry<K, V>>)
    ensures KeyIndex(t, k) == -1 ==> r == t + [Entry(k, v)]
    ensures KeyIndex(t, k) != -1 ==> r == t[KeyIndex(t, k) := Entry(k, v)]
  {
    var i := KeyIndex(t, k);
    if i == -1 then t + [Entry(k, v)] else t[i := Entry(k, v)]
  }

  ghost predicate DistinctKeys<K, V>(t: seq<Entry<K, V>>)
  {
    forall i, j :: 0 <= i < j < |t| ==> t[i].key != t[j].key
  }

  /** Putting keeps the keys distinct; afterwards the key is present with the new
      value and every other key keeps its place and value. */
  lemma PutSpec<K, V>(t: seq<Entry<K, V>>, k: K, v: V)
    requires DistinctKeys(t)
    ensures var r := Put(t, k, v);
      DistinctKeys(r) && KeyIndex(r, k) != -1 && r[KeyIndex(r, k)].value == v &&
      forall k' :: k' != k ==> (KeyIndex(r, k') == KeyIndex(t, k') &&
                                (KeyIndex(t, k') != -1 ==> r[KeyIndex(r, k')] == t[KeyIndex(t, k')]))
  {
    var r := Put(t, k, v);
    var i := KeyIndex(t, k);
    forall k' | k' != k ensures KeyIndex(r, k') == KeyIndex(t, k') {
      KeyIndexSame(t, r, k', k);
    }
    if i == -1 {
      assert r[|t|].key == k;
    } else {
      assert r[i].key == k;
    }
  }

  /** Changing entries of key `k` only leaves the lookup of any other key alone. */
  lemma {:induction false} KeyIndexSame<K, V>(t: seq<Entry<K, V>>, r: seq<Entry<K, V>>, k': K, k: K)
    requires k' != k
    requires |t| <= |r|
    requires forall j :: 0 <= j < |t| ==> (r[j].key == k' <==> t[j].key == k')
    requires forall j :: |t| <= j < |r| ==> r[j].key == k
    ensures KeyIndex(r, k') == KeyIndex(t, k')
    decreases |t|
  {
    if t == [] {
      NoKey(r, k');
    } else if t[0].key != k' {
      KeyIndexSame(t[1..], r[1..], k', k);
    }
  }

  lemma {:induction false} NoKey<K, V>(r: seq<Entry<K, V>>, k': K)
    requires forall j :: 0 <= j < |r| ==> r[j].key != k'
    ensures KeyIndex(r, k') == -1
  {
  }

  // ---------------------------------------------------------------------------
  // Plan profits

  /** `new Map(plans.map(plan => [plan.amount, plan.profit]))`: one key per distinct
      amount, in the order amounts first occur, holding the profit of the last plan
      with that amount. */
  function ProfitMap(plans: seq<Plan>): seq<Entry<int, int>>
  {
    if plans == [] then [] else Put(ProfitMap(plans[..|plans| - 1]), plans[|plans| - 1].amount, plans[|plans| - 1].profit)
  }

  /** No key of the profit map repeats, and it is empty only when there are no
      plans. */
  lemma {:induction false} ProfitMapShape(plans: seq<Plan>)
    ensures DistinctKeys(ProfitMap(plans)) && (|ProfitMap(plans)| == 0 <==> plans == [])
    decreases |plans|
  {
    if plans != [] {
      var last := plans[|plans| - 1];
      ProfitMapShape(plans[..|plans| - 1]);
      PutSpec(ProfitMap(plans[..|plans| - 1]), last.amount, last.profit);
    }
  }

  /** The last plan with amount `a`, or -1. */
  function LastPlanWith(plans: seq<Plan>, a: int): (i: int)
    ensures -1 <= i < |plans|
    ensures i >= 0 ==> plans[i].amount == a && forall j :: i < j < |plans| ==> plans[j].amount != a
    ensures i == -1 <==> forall j :: 0 <= j < |plans| ==> plans[j].amount != a
  {
    if plans == [] then -1
    else if plans[|plans| - 1].amount == a then |plans| - 1
    else LastPlanWith(plans[..|plans| - 1], a)
  }

  /** The profit map has a key exactly for the amounts of the plans and holds the
      profit of the last plan with that amount; no key repeats; and it is empty only
      when there are no plans. */
  lemma {:induction false} ProfitMapSpec(plans: seq<Plan>, a: int)
    ensures var pm := ProfitMap(plans);
      var k := KeyIndex(pm, a);
      var i := LastPlanWith(plans, a);
      DistinctKeys(pm) && (|pm| == 0 <==> plans == []) &&
      (k == -1 <==> i == -1) && (k != -1 ==> pm[k].value == plans[i].profit)
    decreases |plans|
  {
    ProfitMapShape(plans);
    if plans != [] {
      var pre := plans[..|plans| - 1];
      var last := plans[|plans| - 1];
      ProfitMapSpec(pre, a);
      PutSpec(ProfitMap(pre), last.amount, last.profit);
      if a != last.amount {
        var i := LastPlanWith(pre, a);
        assert i != -1 ==> plans[i] == pre[i];
      }
    }
  }

  function Abs(x: int): int
  {
    if x < 0 then -x else x
  }

  /** The `reduce` over the plan amounts: start from the first and move to a later
      amount only when it is strictly nearer. The result is a nearest amount, and no
      earlier amount is as near: ties keep the earlier one. */
  function NearestIndex(keys: seq<int>, a: int): (i: int)
    requires keys != []
    ensures 0 <= i < |keys|
    ensures forall j :: 0 <= j < |keys| ==> Abs(keys[i] - a) <= Abs(keys[j] - a)
    ensures forall j :: 0 <= j < i ==> Abs(keys[j] - a) > Abs(keys[i] - a)
    decreases |keys|
  {
    if |keys| == 1 then 0
    else
      var n := |keys| - 1;
      var i := NearestIndex(keys[..n], a);
      assert forall j :: 0 <= j < n ==> keys[..n][j] == keys[j];
      if Abs(keys[n] - a) < Abs(keys[i] - a) then n else i
  }

  /** The nearest amount is determined: any index that is nearest with no earlier
      amount as near is the one the reduce finds. */
  lemma NearestUnique(keys: seq<int>, a: int, k: int)
    requires keys != [] && 0 <= k < |keys|
    requires forall j :: 0 <= j < |keys| ==> Abs(keys[k] - a) <= Abs(keys[j] - a)
    requires forall j :: 0 <= j < k ==> Abs(keys[j] - a) > Abs(keys[k] - a)
    ensures NearestIndex(keys, a) == k
  {
    var i := NearestIndex(keys, a);
    assert Abs(keys[i] - a) == Abs(keys[k] - a);
  }

  function Keys<V>(t: seq<Entry<int, V>>): (ks: seq<int>)
    ensures |ks| == |t| && forall i :: 0 <= i < |t| ==> ks[i] == t[i].key
  {
    seq(|t|, i requires 0 <= i < |t| => t[i].key)
  }

  /** `planProfit` as the server computes it: the profit of an exact amount match;
      failing that, of the nearest plan amount; 0 when there are no plans. */
  function PlanProfit(pm: seq<Entry<int, int>>, amount: int): int
  {
    var k := KeyIndex(pm, amount);
    if k != -1 then pm[k].value
    else if |pm| > 0 then pm[NearestIndex(Keys(pm), amount)].value
    else 0
  }

  /** The exact-match test only short-cuts the search: the profit is that of the
      nearest plan amount whenever there are plans. */
  lemma ExactIsNearest(pm: seq<Entry<int, int>>, amount: int)
    requires DistinctKeys(pm) && |pm| > 0
    ensures PlanProfit(pm, amount) == pm[NearestIndex(Keys(pm), amount)].value
  {
    var k := KeyIndex(pm, amount);
    if k != -1 {
      var ks := Keys(pm);
      forall j | 0 <= j < k ensures Abs(ks[j] - amount) > Abs(ks[k] - amount) {
        assert ks[j] != amount;
      }
      NearestUnique(ks, amount, k);
    }
  }

  /** The profit of each counting row, summed. */
  function SumProfit(pm: seq<Entry<int, int>>, ms: seq<MonthEntry>): int
  {
    if ms == [] then 0 else PlanProfit(pm, ms[0].amount) + SumProfit(pm, ms[1..])
  }

  lemma {:induction false} SumProfitAppend(pm: seq<Entry<int, int>>, a: seq<MonthEntry>, b: seq<MonthEntry>)
    ensures SumProfit(pm, a + b) == SumProfit(pm, a) + SumProfit(pm, b)
    decreases |a|
  {
    if a == [] {
      assert a + b == b;
    } else {
      assert (a + b)[1..] == a[1..] + b;
      SumProfitAppend(pm, a[1..], b);
    }
  }

  // ---------------------------------------------------------------------------
  // Payment methods

  /** A row's payment method as the code tests it: there and not empty. */
  predicate HasMethod(m: MonthEntry)
  {
    m.paidVia.Some? && m.paidVia.value != []
  }

  /** `paymentMethods[via] = (paymentMethods[via] || 0) + amount`. */
  function Credit(t: seq<Entry<string, int>>, via: string, amount: int): seq<Entry<string, int>>
  {
    var k := KeyIndex(t, via);
    Put(t, via, (if k == -1 then 0 else t[k].value) + amount)
  }

  /** The payment-method record after the given counting rows, in order. */
  function Methods(ms: seq<MonthEntry>): seq<Entry<string, int>>
  {
    if ms == [] then []
    else
      var t := Methods(ms[..|ms| - 1]);
      var m := ms[|ms| - 1];
      if HasMethod(m) then Credit(t, m.paidVia.value, m.amount) else t
  }

  /** The rows paid through one method. */
  function PaidVia(ms: seq<MonthEntry>, via: string): (r: seq<MonthEntry>)
    ensures forall m :: m in r <==> m in ms && m.paidVia == Some(via)
  {
    if ms == [] then []
    else if ms[0].paidVia == Some(via) then [ms[0]] + PaidVia(ms[1..], via)
    else PaidVia(ms[1..], via)
  }

  /** The rows with no payment method recorded. */
  function Unattributed(ms: seq<MonthEntry>): (r: seq<MonthEntry>)
    ensures forall m :: m in r <==> m in ms && !HasMethod(m)
  {
    if ms == [] then []
    else if !HasMethod(ms[0]) then [ms[0]] + Unattributed(ms[1..])
    else Unattributed(ms[1..])
  }

  function Total<K>(t: seq<Entry<K, int>>): int
  {
    if t == [] then 0 else t[0].value + Total(t[1..])
  }

  lemma {:induction false} TotalUpdate<K>(t: seq<Entry<K, int>>, i: int, e: Entry<K, int>)
    requires 0 <= i < |t|
    ensures Total(t[i := e]) == Total(t) - t[i].value + e.value
    decreases i
  {
    if i > 0 {
      TotalUpdate(t[1..], i - 1, e);
      assert t[i := e][1..] == t[1..][i - 1 := e];
    }
  }

  lemma {:induction false} TotalSnoc<K>(t: seq<Entry<K, int>>, e: Entry<K, int>)
    ensures Total(t + [e]) == Total(t) + e.value
    decreases |t|
  {
    if t == [] {
      assert [e][1..] == [];
    } else {
      TotalSnoc(t[1..], e);
      assert (t + [e])[1..] == t[1..] + [e];
    }
  }

  lemma RowSplitsSnoc(ms: seq<MonthEntry>, m: MonthEntry, via: string)
    ensures PaidVia(ms + [m], via) == PaidVia(ms, via) + (if m.paidVia == Some(via) then [m] else [])
    ensures Unattributed(ms + [m]) == Unattributed(ms) + (if HasMethod(m) then [] else [m])
  {
    PaidViaAppend(ms, [m], via);
    UnattributedAppend(ms, [m]);
    assert [m][1..] == [];
  }

  lemma {:induction false} PaidViaAppend(a: seq<MonthEntry>, b: seq<MonthEntry>, via: string)
    ensures PaidVia(a + b, via) == PaidVia(a, via) + PaidVia(b, via)
    decreases |a|
  {
    if a == [] {
      assert a + b == b;
    } else {
      assert (a + b)[1..] == a[1..] + b;
      PaidViaAppend(a[1..], b, via);
    }
  }

  lemma {:induction false} UnattributedAppend(a: seq<MonthEntry>, b: seq<MonthEntry>)
    ensures Unattributed(a + b) == Unattributed(a) + Unattributed(b)
    decreases |a|
  {
    if a == [] {
      assert a + b == b;
    } else {
      assert (a + b)[1..] == a[1..] + b;
      UnattributedAppend(a[1..], b);
    }
  }

  /** The record has one key per method used, none twice, and each holds the sum of
      the amounts paid through it. */
  lemma {:induction false} MethodsSpec(ms: seq<MonthEntry>, via: string)
    ensures var t := Methods(ms);
      DistinctKeys(t) &&
      (KeyIndex(t, via) != -1 <==> via != [] && PaidVia(ms, via) != []) &&
      (KeyIndex(t, via) != -1 ==> t[KeyIndex(t, via)].value == SumAmount(PaidVia(ms, via)))
    decreases |ms|
  {
    if ms != [] {
      var pre := ms[..|ms| - 1];
      var m := ms[|ms| - 1];
      assert ms == pre + [m];
      MethodsSpec(pre, via);
      RowSplitsSnoc(pre, m, via);
      if HasMethod(m) {
        CreditStep(pre, m, via);
      } else {
        assert Methods(ms) == Methods(pre);
        if m.paidVia == Some(via) {
          assert via == [];
        } else {
          assert PaidVia(ms, via) == PaidVia(pre, via);
        }
      }
    }
  }

  /** One credited row: the method's key holds its earlier total plus the amount. */
  lemma CreditStep(pre: seq<MonthEntry>, m: MonthEntry, via: string)
    requires HasMethod(m)
    requires var t0 := Methods(pre);
      DistinctKeys(t0) &&
      (KeyIndex(t0, via) != -1 <==> via != [] && PaidVia(pre, via) != []) &&
      (KeyIndex(t0, via) != -1 ==> t0[KeyIndex(t0, via)].value == SumAmount(PaidVia(pre, via)))
    ensures var t := Methods(pre + [m]);
      DistinctKeys(t) &&
      (KeyIndex(t, via) != -1 <==> via != [] && PaidVia(pre + [m], via) != []) &&
      (KeyIndex(t, via) != -1 ==> t[KeyIndex(t, via)].value == SumAmount(PaidVia(pre + [m], via)))
  {
    var ms := pre + [m];
    assert ms[..|ms| - 1] == pre && ms[|ms| - 1] == m;
    var t0 := Methods(pre);
    var v := m.paidVia.value;
    var k := KeyIndex(t0, v);
    var nv := (if k == -1 then 0 else t0[k].value) + m.amount;
    var t := Methods(ms);
    assert t == Put(t0, v, nv);
    PutSpec(t0, v, nv);
    RowSplitsSnoc(pre, m, via);
    if v == via {
      SumsAppend(PaidVia(pre, via), [m]);
      assert SumAmount([m]) == m.amount;
      assert PaidVia(ms, via) == PaidVia(pre, via) + [m];
      if k == -1 {
        assert PaidVia(pre, via) == [];
      }
    } else {
      assert PaidVia(ms, via) == PaidVia(pre, via);
    }
  }

  /** The method totals and the unattributed amounts together make up the whole
      amount. */
  lemma {:induction false} MethodsTotal(ms: seq<MonthEntry>)
    ensures Total(Methods(ms)) + SumAmount(Unattributed(ms)) == SumAmount(ms)
    decreases |ms|
  {
    if ms != [] {
      var pre := ms[..|ms| - 1];
      var m := ms[|ms| - 1];
      assert ms == pre + [m];
      MethodsTotal(pre);
      var t0 := Methods(pre);
      RowSplitsSnoc(pre, m, []);
      SumsAppend(pre, [m]);
      SumsAppend(Unattributed(pre), [m]);
      assert SumAmount([m]) == m.amount;
      if HasMethod(m) {
        var v := m.paidVia.value;
        var k := KeyIndex(t0, v);
        var nv := (if k == -1 then 0 else t0[k].value) + m.amount;
        assert Methods(ms) == Put(t0, v, nv);
        assert Unattributed(pre) + [] == Unattributed(pre);
        if k == -1 {
          TotalSnoc(t0, Entry(v, nv));
        } else {
          TotalUpdate(t0, k, Entry(v, nv));
        }
      } else {
        assert Methods(ms) == t0;
        assert Unattributed(ms) == Unattributed(pre) + [m];
      }
    }
  }

  /** Over counting rows, whose amounts are positive, the method totals add up to at
      most the revenue. */
  lemma MethodsWithinRevenue(ms: seq<MonthEntry>)
    ensures Total(Methods(Contributing(ms))) <= SumAmount(Contributing(ms))
  {
    var cs := Contributing(ms);
    MethodsTotal(cs);
    PositiveSum(Unattributed(cs));
  }

  lemma {:induction false} PositiveSum(ms: seq<MonthEntry>)
    requires forall m :: m in ms ==> m.amount > 0
    ensures SumAmount(ms) >= 0
    decreases |ms|
  {
    if ms != [] {
      assert ms[0] in ms;
      assert forall m :: m in ms[1..] ==> m in ms;
      PositiveSum(ms[1..]);
    }
  }

  // ---------------------------------------------------------------------------
  // Payment rate

  /** The rows of the view that are not 'Off'. */
  function ActiveRows(ms: seq<MonthEntry>): nat
  {
    if ms == [] then 0 else (if ms[0].status != Off then 1 else 0) + ActiveRows(ms[1..])
  }

  /** The rows of the view that are 'Paid' or 'Advance Paid'. */
  function PaidRows(ms: seq<MonthEntry>): nat
  {
    if ms == [] then 0 else (if ms[0].status == Paid || ms[0].status == AdvancePaid then 1 else 0) + PaidRows(ms[1..])
  }

  /** Every paid row is an active row. */
  lemma {:induction false} PaidWithinActive(ms: seq<MonthEntry>)
    ensures PaidRows(ms) <= ActiveRows(ms) <= |ms|
    decreases |ms|
  {
    if ms != [] {
      PaidWithinActive(ms[1..]);
    }
  }

  /** `Math.round(paid / active * 100)` on exact values, and 0 without active rows:
      the percentage rounded to the nearest integer, halves up. */
  function Rate(paid: int, active: int): (r: int)
    ensures active > 0 ==> 2 * active * r <= 200 * paid + active < 2 * active * (r + 1)
    ensures active <= 0 ==> r == 0
  {
    if active > 0 then (200 * paid + active) / (2 * active) else 0
  }

  /** A product with a positive factor has the sign of the other factor. */
  lemma SignOfProduct(a: int, x: int)
    requires a > 0
    ensures a * x <= 0 ==> x <= 0
    ensures a * x > 0 ==> x > 0
  {
  }

  /** A share of active rows gives a rate between 0 and 100. */
  lemma RateBounds(paid: int, active: int)
    requires 0 <= paid <= active
    ensures 0 <= Rate(paid, active) <= 100
  {
    if active > 0 {
      var r := Rate(paid, active);
      assert active * (2 * r - 201) <= 0;
      assert active * (2 * r + 2) > 0;
      SignOfProduct(active, 2 * r - 201);
      SignOfProduct(active, 2 * r + 2);
    }
  }

  // ---------------------------------------------------------------------------
  // Running totals

  /** The totals both analytics controllers accumulate row by row. */
  datatype Tally = Tally(revenue: int, profit: int, debt: int, advance: int,
                         methods: seq<Entry<string, int>>)

  /** The totals of the rows that count among `ms`. */
  function TallyOf(pm: seq<Entry<int, int>>, ms: seq<MonthEntry>): Tally
  {
    var cs := Contributing(ms);
    Tally(SumAmount(cs), SumProfit(pm, cs), SumDebt(cs), SumAdvance(cs), Methods(cs))
  }

  /** One row's effect: a row that counts adds its amount, its plan profit, its debt
      and advance and credits its method; any other row changes nothing. */
  function Step(pm: seq<Entry<int, int>>, t: Tally, m: MonthEntry): Tally
  {
    if Contributes(m) then
      Tally(t.revenue + m.amount, t.profit + PlanProfit(pm, m.amount), t.debt + m.debt,
            t.advance + m.advance, if HasMethod(m) then Credit(t.methods, m.paidVia.value, m.amount) else t.methods)
    else t
  }

  /** The totals of the counting rows with one more counting row. */
  lemma TallySnoc(pm: seq<Entry<int, int>>, cs: seq<MonthEntry>, m: MonthEntry)
    ensures SumAmount(cs + [m]) == SumAmount(cs) + m.amount
    ensures SumDebt(cs + [m]) == SumDebt(cs) + m.debt
    ensures SumAdvance(cs + [m]) == SumAdvance(cs) + m.advance
    ensures SumProfit(pm, cs + [m]) == SumProfit(pm, cs) + PlanProfit(pm, m.amount)
    ensures Methods(cs + [m]) == if HasMethod(m) then Credit(Methods(cs), m.paidVia.value, m.amount) else Methods(cs)
  {
    SumsAppend(cs, [m]);
    SumProfitAppend(pm, cs, [m]);
    assert [m][1..] == [];
    assert (cs + [m])[..|cs|] == cs;
  }

  /** Accumulating row by row gives the totals of the rows that count. */
  lemma TallyOfSnoc(pm: seq<Entry<int, int>>, ms: seq<MonthEntry>, m: MonthEntry)
    ensures TallyOf(pm, ms + [m]) == Step(pm, TallyOf(pm, ms), m)
  {
    var cs := Contributing(ms);
    var cs' := Contributing(ms + [m]);
    ContributingSnoc(ms, m);
    if Contributes(m) {
      assert cs' == cs + [m];
      TallySnoc(pm, cs, m);
    } else {
      assert cs' == cs + [] == cs;
    }
    assert TallyOf(pm, ms + [m]) == Tally(SumAmount(cs'), SumProfit(pm, cs'), SumDebt(cs'), SumAdvance(cs'), Methods(cs'));
  }
}
