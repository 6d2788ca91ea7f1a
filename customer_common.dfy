/** What both customer controllers share: the create-customer request and its
    required fields, the customer-id uniqueness the duplicate check keeps, the bill
    summary folds, the listing order by name, and grouping a customer's batches by
    year in first-seen order. */
module CustomerCommon {
  import opened Ledger

  /** The body of a create-customer request; an absent field is `None`. */
  datatype CustomerRequest = CustomerRequest(
    name: Option<string>,
    address: Option<string>,
    phone: Option<string>,
    customerId: Option<string>,
    stdId: Option<string>,
    notes: Option<string>,
    registerAt: Option<string>)

  datatype CustomerError =
    | ValidationFailed      // the server's schema rejected the body
    | MissingFields         // the backend's required-field check failed
    | DuplicateCustomerId   // 'Customer ID already exists'
    | CustomerNotFound
    | InvalidIdFormat       // 'Invalid customer ID format'
    | DeleteFailed          // the backend's update of an unknown id throws

  /** A string field that is there and not empty: a schema's `min(1)`, or the
      truthiness of a JavaScript string. */
  predicate Present(s: Option<string>)
  {
    s.Some? && s.value != []
  }

  /** Name, address, phone and customer id are all given and non-empty. */
  predicate Complete(req: CustomerRequest)
  {
    Present(req.name) && Present(req.address) && Present(req.phone) && Present(req.customerId)
  }

  /** Some stored customer, soft-deleted or not, already has this customer id. */
  predicate CustomerIdTaken(cs: seq<Customer>, cid: string)
  {
    exists i :: 0 <= i < |cs| && cs[i].customerId == cid
  }

  /** The customer-id column is unique. */
  ghost predicate UniqueCustomerIds(cs: seq<Customer>)
  {
    forall i, j :: 0 <= i < j < |cs| ==> cs[i].customerId != cs[j].customerId
  }

  lemma UniqueAppend(cs: seq<Customer>, c: Customer)
    requires UniqueCustomerIds(cs)
    requires !CustomerIdTaken(cs, c.customerId)
    ensures UniqueCustomerIds(cs + [c])
  {
    var r := cs + [c];
    forall a, b | 0 <= a < b < |r| ensures r[a].customerId != r[b].customerId {
      assert r[a] == cs[a];
      if b < |cs| {
        assert r[b] == cs[b];
      }
    }
  }

  // ---------------------------------------------------------------------------
  // Customer rows by id

  /** Every row with this id gets today's deletion date; nothing else changes. */
  function SoftDeleted(cs: seq<Customer>, id: string, today: string): (r: seq<Customer>)
    ensures |r| == |cs|
  {
    seq(|cs|, i requires 0 <= i < |cs| => if cs[i].id == id then cs[i].(deletedAt := Some(today)) else cs[i])
  }

  /** The first row with this id, soft-deleted or not. */
  function FindById(cs: seq<Customer>, id: string): (k: int)
    ensures -1 <= k < |cs|
    ensures k >= 0 ==> cs[k].id == id
    ensures k == -1 <==> forall i :: 0 <= i < |cs| ==> cs[i].id != id
  {
    if cs == [] then -1
    else if cs[0].id == id then 0
    else
      var k := FindById(cs[1..], id);
      if k == -1 then -1 else k + 1
  }

  // ---------------------------------------------------------------------------
  // Bill summaries

  datatype BillSummary = BillSummary(totalPaid: int, totalDebt: int, totalAdvance: int)

  /** A customer with the batches listed for it and their summary. */
  datatype CustomerWithData = CustomerWithData(customer: Customer, payments: seq<Payment>, summary: BillSummary)

  /** The three folds over a customer's batches: every month amount summed, and the
      batch-level debt and advance columns summed. */
  function Totals(ps: seq<Payment>): (s: BillSummary)
    ensures s.totalPaid == SumAmount(AllMonths(ps))
  {
    SumPaidIsSumOfAllMonths(ps);
    BillSummary(SumPaid(ps), SumTotalDebt(ps), SumTotalAdvance(ps))
  }

  /** Each batch's header totals are the sums of its own month rows, as the bill
      workflows store them. */
  ghost predicate HeadersConsistent(ps: seq<Payment>)
  {
    forall i :: 0 <= i < |ps| ==>
      ps[i].totalDebt == SumDebt(ps[i].months) && ps[i].totalAdvance == SumAdvance(ps[i].months)
  }

  /** Over consistent batches the debt and advance summaries are the sums over all
      month rows, like the paid summary. */
  lemma {:induction false} TotalsOfConsistent(ps: seq<Payment>)
    requires HeadersConsistent(ps)
    ensures Totals(ps).totalDebt == SumDebt(AllMonths(ps))
    ensures Totals(ps).totalAdvance == SumAdvance(AllMonths(ps))
    decreases |ps|
  {
    if ps != [] {
      var pre := ps[..|ps| - 1];
      assert HeadersConsistent(pre) by {
        forall i | 0 <= i < |pre| ensures pre[i] == ps[i] { }
      }
      TotalsOfConsistent(pre);
      SumsAppend(AllMonths(pre), ps[|ps| - 1].months);
    }
  }

  /** The summary of two lists of batches taken together adds up. */
  lemma TotalsAppend(a: seq<Payment>, b: seq<Payment>)
    ensures Totals(a + b) == BillSummary(Totals(a).totalPaid + Totals(b).totalPaid,
                                         Totals(a).totalDebt + Totals(b).totalDebt,
                                         Totals(a).totalAdvance + Totals(b).totalAdvance)
  {
    BatchSumsAppend(a, b);
  }

  /** One customer as listed: its batches latest year first, and their summary. */
  function View(c: Customer, payments: seq<Payment>): CustomerWithData
  {
    var mine := ByYearDesc(OfCustomer(payments, c.id));
    CustomerWithData(c, mine, Totals(mine))
  }

  /** The listing of a sequence of customers, in that order. */
  function Views(cs: seq<Customer>, payments: seq<Payment>): (r: seq<CustomerWithData>)
    ensures |r| == |cs|
    ensures forall k :: 0 <= k < |cs| ==> r[k] == View(cs[k], payments)
  {
    if cs == [] then [] else Views(cs[..|cs| - 1], payments) + [View(cs[|cs| - 1], payments)]
  }

  /** A listed customer's summary covers exactly its own batches: any batch of that
      customer counts once towards it, and no other customer's batch does. */
  lemma {:induction false} ViewCoversOwnBatches(c: Customer, payments: seq<Payment>)
    ensures multiset(View(c, payments).payments) == multiset(OfCustomer(payments, c.id))
    ensures YearDescending(View(c, payments).payments)
    ensures forall p :: p in View(c, payments).payments <==> p in payments && p.customerId == c.id
  {
    ByYearDescSorted(OfCustomer(payments, c.id));
    var mine := ByYearDesc(OfCustomer(payments, c.id));
    forall p ensures p in mine <==> p in OfCustomer(payments, c.id) {
      assert p in mine <==> p in multiset(mine);
    }
  }

  // ---------------------------------------------------------------------------
  // Ordering by name

  /** Lexicographic order of names by character code. */
  predicate NameLeq(a: string, b: string)
    decreases |a|
  {
    a == [] || (b != [] && (a[0] < b[0] || (a[0] == b[0] && NameLeq(a[1..], b[1..]))))
  }

  lemma {:induction false} NameLeqTotal(a: string, b: string)
    ensures NameLeq(a, b) || NameLeq(b, a)
    decreases |a|
  {
    if a != [] && b != [] && a[0] == b[0] {
      NameLeqTotal(a[1..], b[1..]);
    }
  }

  lemma {:induction false} NameLeqTrans(a: string, b: string, c: string)
    requires NameLeq(a, b) && NameLeq(b, c)
    ensures NameLeq(a, c)
    decreases |a|
  {
    if a != [] && a[0] == b[0] && b[0] == c[0] {
      NameLeqTrans(a[1..], b[1..], c[1..]);
    }
  }

  ghost predicate ByNameSorted(cs: seq<Customer>)
  {
    forall i, j :: 0 <= i < j < |cs| ==> NameLeq(cs[i].name, cs[j].name)
  }

  /** Insert `c` before the first customer whose name is not smaller. */
  function InsertByName(c: Customer, s: seq<Customer>): seq<Customer>
  {
    if s == [] || NameLeq(c.name, s[0].name) then [c] + s
    else [s[0]] + InsertByName(c, s[1..])
  }

  /** `orderBy asc(name)`; rows with equal names keep their storage order. */
  function ByName(cs: seq<Customer>): seq<Customer>
  {
    if cs == [] then [] else InsertByName(cs[0], ByName(cs[1..]))
  }

  lemma {:induction false} InsertByNamePerm(c: Customer, s: seq<Customer>)
    ensures multiset(InsertByName(c, s)) == multiset(s) + multiset{c}
    decreases |s|
  {
    if !(s == [] || NameLeq(c.name, s[0].name)) {
      InsertByNamePerm(c, s[1..]);
      assert s == [s[0]] + s[1..];
    }
  }

  lemma ConsByName(x: Customer, t: seq<Customer>)
    requires ByNameSorted(t)
    requires forall i :: 0 <= i < |t| ==> NameLeq(x.name, t[i].name)
    ensures ByNameSorted([x] + t)
  {
    var r := [x] + t;
    forall a, c | 0 <= a < c < |r| ensures NameLeq(r[a].name, r[c].name) {
      assert r[c] == t[c - 1];
      if a > 0 {
        assert r[a] == t[a - 1];
      }
    }
  }

  lemma {:induction false} InsertByNameSorted(c: Customer, s: seq<Customer>)
    requires ByNameSorted(s)
    ensures ByNameSorted(InsertByName(c, s))
    decreases |s|
  {
    if s == [] || NameLeq(c.name, s[0].name) {
      forall i | 0 <= i < |s| ensures NameLeq(c.name, s[i].name) {
        if i > 0 {
          NameLeqTrans(c.name, s[0].name, s[i].name);
        }
      }
      ConsByName(c, s);
    } else {
      var t := InsertByName(c, s[1..]);
      assert ByNameSorted(s[1..]) by {
        forall a, b | 0 <= a < b < |s[1..]| ensures NameLeq(s[1..][a].name, s[1..][b].name) {
          assert s[1..][a] == s[a + 1] && s[1..][b] == s[b + 1];
        }
      }
      InsertByNameSorted(c, s[1..]);
      InsertByNamePerm(c, s[1..]);
      NameLeqTotal(c.name, s[0].name);
      forall i | 0 <= i < |t| ensures NameLeq(s[0].name, t[i].name) {
        var x := t[i];
        assert x in multiset(t);
        if x != c {
          assert x in multiset(s[1..]);
          var k :| 0 <= k < |s[1..]| && s[1..][k] == x;
          assert s[k + 1] == x;
        }
      }
      ConsByName(s[0], t);
    }
  }

  /** The name-ordered listing holds the same customers, sorted by name. */
  lemma {:induction false} ByNameSortedPerm(cs: seq<Customer>)
    ensures ByNameSorted(ByName(cs))
    ensures multiset(ByName(cs)) == multiset(cs)
    decreases |cs|
  {
    if cs != [] {
      ByNameSortedPerm(cs[1..]);
      InsertByNameSorted(cs[0], ByName(cs[1..]));
      InsertByNamePerm(cs[0], ByName(cs[1..]));
      assert cs == [cs[0]] + cs[1..];
    }
  }

  // ---------------------------------------------------------------------------
  // Grouping by year

  /** One year of a customer's history and the rows listed for it. */
  datatype Group<R> = Group(year: int, rows: seq<R>)

  /** `where year = y`, storage order kept. */
  function OfYear(ps: seq<Payment>, y: int): (r: seq<Payment>)
    ensures forall p :: p in r <==> p in ps && p.year == y
  {
    if ps == [] then []
    else OfYear(ps[..|ps| - 1], y) + if ps[|ps| - 1].year == y then [ps[|ps| - 1]] else []
  }

  /** The years of the batches in first-seen order, each once. */
  function Years(ps: seq<Payment>): (ys: seq<int>)
    ensures forall i, j :: 0 <= i < j < |ys| ==> ys[i] != ys[j]
  {
    if ps == [] then []
    else
      var pre := Years(ps[..|ps| - 1]);
      if ps[|ps| - 1].year in pre then pre else pre + [ps[|ps| - 1].year]
  }

  /** One more batch adds its year at the end unless the year is already there. */
  lemma YearsSnoc(pre: seq<Payment>, p: Payment)
    ensures Years(pre + [p]) == if p.year in Years(pre) then Years(pre) else Years(pre) + [p.year]
  {
    assert (pre + [p])[..|pre|] == pre;
  }

  /** A year is among the years exactly when some batch has it. */
  lemma {:induction false} YearsMembers(ps: seq<Payment>, y: int)
    ensures y in Years(ps) <==> OfYear(ps, y) != []
    ensures y in Years(ps) <==> exists t :: 0 <= t < |ps| && ps[t].year == y
    decreases |ps|
  {
    if ps != [] {
      var pre, last := ps[..|ps| - 1], ps[|ps| - 1];
      YearsMembers(pre, y);
      var ys := Years(pre);
      assert Years(ps) == if last.year in ys then ys else ys + [last.year];
      assert OfYear(ps, y) == OfYear(pre, y) + if last.year == y then [last] else [];
      if last.year == y {
        assert y in Years(ps);
        assert ps[|ps| - 1].year == y;
      } else {
        assert y in Years(ps) <==> y in ys;
        if exists t :: 0 <= t < |pre| && pre[t].year == y {
          var t :| 0 <= t < |pre| && pre[t].year == y;
          assert ps[t].year == y;
        }
        if exists t :: 0 <= t < |ps| && ps[t].year == y {
          var t :| 0 <= t < |ps| && ps[t].year == y;
          assert t != |ps| - 1 && t < |pre|;
          assert pre[t] == ps[t];
        }
      }
    }
  }

  /** The first group of year `y` (`find` on the accumulator), or -1. */
  function FindYear<R>(gs: seq<Group<R>>, y: int): (k: int)
    ensures -1 <= k < |gs|
    ensures k >= 0 ==> gs[k].year == y && forall i :: 0 <= i < k ==> gs[i].year != y
    ensures k == -1 ==> forall i :: 0 <= i < |gs| ==> gs[i].year != y
  {
    if gs == [] then -1
    else if gs[0].year == y then 0
    else
      var k := FindYear(gs[1..], y);
      if k == -1 then -1 else k + 1
  }

  /** One step of the grouping: a batch of a year not seen yet opens a group with
      `opening` of its months; a batch of a seen year adds `more` of its months to that
      year's group. */
  function AddBatch<R>(gs: seq<Group<R>>, p: Payment, opening: seq<MonthEntry> -> seq<R>,
                       more: seq<MonthEntry> -> seq<R>): seq<Group<R>>
  {
    var k := FindYear(gs, p.year);
    if k == -1 then gs + [Group(p.year, opening(p.months))]
    else gs[k := Group(p.year, gs[k].rows + more(p.months))]
  }

  /** The grouping over all batches, in order. */
  function GroupBy<R>(ps: seq<Payment>, opening: seq<MonthEntry> -> seq<R>,
                      more: seq<MonthEntry> -> seq<R>): seq<Group<R>>
  {
    if ps == [] then [] else AddBatch(GroupBy(ps[..|ps| - 1], opening, more), ps[|ps| - 1], opening, more)
  }

  /** What a seen year's later batches add to its group, oldest first. */
  function LaterRows<R>(q: seq<Payment>, more: seq<MonthEntry> -> seq<R>): seq<R>
  {
    if |q| <= 1 then [] else LaterRows(q[..|q| - 1], more) + more(q[|q| - 1].months)
  }

  /** There is one group per year, in the order the years first occur. */
  lemma {:induction false} GroupByYears<R>(ps: seq<Payment>, opening: seq<MonthEntry> -> seq<R>,
                                           more: seq<MonthEntry> -> seq<R>)
    ensures |GroupBy(ps, opening, more)| == |Years(ps)|
    ensures forall k :: 0 <= k < |Years(ps)| ==> GroupBy(ps, opening, more)[k].year == Years(ps)[k]
    decreases |ps|
  {
    if ps != [] {
      var pre := ps[..|ps| - 1];
      GroupByYears(pre, opening, more);
      var p := ps[|ps| - 1];
      assert p.year in Years(pre) <==> FindYear(GroupBy(pre, opening, more), p.year) != -1 by {
        if p.year in Years(pre) {
          var k :| 0 <= k < |Years(pre)| && Years(pre)[k] == p.year;
          assert GroupBy(pre, opening, more)[k].year == p.year;
        }
      }
    }
  }

  /** Group `g` holds `opening` of the months of its year's first batch in `ps`, then
      `more` of the months of each later batch of that year, in order. */
  ghost predicate RowsFit<R>(ps: seq<Payment>, g: Group<R>, opening: seq<MonthEntry> -> seq<R>,
                             more: seq<MonthEntry> -> seq<R>)
  {
    var q := OfYear(ps, g.year);
    q != [] && g.rows == opening(q[0].months) + LaterRows(q, more)
  }

  lemma LaterRowsSnoc<R>(q: seq<Payment>, p: Payment, more: seq<MonthEntry> -> seq<R>)
    requires q != []
    ensures LaterRows(q + [p], more) == LaterRows(q, more) + more(p.months)
    ensures (q + [p])[0] == q[0]
  {
    assert (q + [p])[..|q|] == q;
  }

  /** A group of another year is not affected by a new batch. */
  lemma RowsFitOther<R>(pre: seq<Payment>, p: Payment, g: Group<R>, opening: seq<MonthEntry> -> seq<R>,
                        more: seq<MonthEntry> -> seq<R>)
    requires RowsFit(pre, g, opening, more) && g.year != p.year
    ensures RowsFit(pre + [p], g, opening, more)
  {
    assert (pre + [p])[..|pre|] == pre;
    assert OfYear(pre + [p], g.year) == OfYear(pre, g.year);
  }

  /** The first batch of a year opens its group. */
  lemma RowsFitOpen<R>(pre: seq<Payment>, p: Payment, opening: seq<MonthEntry> -> seq<R>,
                       more: seq<MonthEntry> -> seq<R>)
    requires p.year !in Years(pre)
    ensures RowsFit(pre + [p], Group(p.year, opening(p.months)), opening, more)
  {
    assert (pre + [p])[..|pre|] == pre;
    YearsMembers(pre, p.year);
    assert OfYear(pre + [p], p.year) == [p];
    assert LaterRows([p], more) == [];
  }

  /** A later batch of a year extends that year's group. */
  lemma RowsFitExtend<R>(pre: seq<Payment>, p: Payment, g: Group<R>, opening: seq<MonthEntry> -> seq<R>,
                         more: seq<MonthEntry> -> seq<R>)
    requires RowsFit(pre, g, opening, more) && g.year == p.year
    ensures RowsFit(pre + [p], Group(p.year, g.rows + more(p.months)), opening, more)
  {
    assert (pre + [p])[..|pre|] == pre;
    var q := OfYear(pre, p.year);
    assert OfYear(pre + [p], p.year) == q + [p];
    LaterRowsSnoc(q, p, more);
  }

  /** Every group satisfies `RowsFit`. */
  lemma {:induction false} GroupByRowsAt<R>(ps: seq<Payment>, opening: seq<MonthEntry> -> seq<R>,
                                            more: seq<MonthEntry> -> seq<R>, k: int)
    requires 0 <= k < |GroupBy(ps, opening, more)|
    ensures RowsFit(ps, GroupBy(ps, opening, more)[k], opening, more)
    decreases |ps|
  {
    var pre := ps[..|ps| - 1];
    var p := ps[|ps| - 1];
    assert ps == pre + [p];
    var g0 := GroupBy(pre, opening, more);
    GroupByYears(pre, opening, more);
    var j := FindYear(g0, p.year);
    var G := GroupBy(ps, opening, more);
    assert G == AddBatch(g0, p, opening, more);
    if j == -1 {
      if k < |g0| {
        GroupByRowsAt(pre, opening, more, k);
        assert G[k] == g0[k];
        RowsFitOther(pre, p, g0[k], opening, more);
      } else {
        assert G[k] == Group(p.year, opening(p.months));
        RowsFitOpen(pre, p, opening, more);
      }
    } else {
      GroupByRowsAt(pre, opening, more, k);
      if k != j {
        assert G[k] == g0[k];
        assert g0[k].year == Years(pre)[k] != Years(pre)[j] == p.year;
        RowsFitOther(pre, p, g0[k], opening, more);
      } else {
        assert G[k] == Group(p.year, g0[j].rows + more(p.months));
        RowsFitExtend(pre, p, g0[j], opening, more);
      }
    }
  }

  /** When every batch contributes its months unchanged, a year's group holds all
      the month rows of that year's batches, in order. */
  lemma {:induction false} LaterRowsAll(q: seq<Payment>, more: seq<MonthEntry> -> seq<MonthEntry>)
    requires q != []
    requires forall ms :: more(ms) == ms
    ensures q[0].months + LaterRows(q, more) == AllMonths(q)
    decreases |q|
  {
    if |q| == 1 {
      assert q[..0] == [];
    } else {
      var pre := q[..|q| - 1];
      var last := q[|q| - 1];
      LaterRowsAll(pre, more);
      assert pre[0] == q[0];
      assert LaterRows(q, more) == LaterRows(pre, more) + last.months;
      assert AllMonths(q) == AllMonths(pre) + last.months;
      assert q[0].months + (LaterRows(pre, more) + last.months)
          == (q[0].months + LaterRows(pre, more)) + last.months;
    }
  }
}
