/** What the two bill-creation workflows (server/src/controllers/billController.ts and
    backend/src/controllers/bill.controller.ts) have in common: the request, the year
    and end-month defaults, the month count, the paused ("Off") rows and the errors. */
module BillCommon {
  import opened Ledger
  import opened Helpers

  /** A bill request after the transport layer has turned it into typed fields; an
      absent field is `None`, and `wasOff` is already defaulted to false. */
  datatype BillRequest = BillRequest(
    customerId: string,
    year: Option<int>,
    monthlyAmount: Option<int>,
    startMonth: int,
    endMonth: Option<int>,
    amount: int,
    paidVia: Option<string>,
    paymentDate: Option<int>,
    wasOff: bool,
    note: Option<string>)

  datatype BillError =
    | ValidationFailed
    | CustomerNotFound
    | InvalidAmount(numberOfMonths: int, minimum: int)
    | PaymentAlreadyExists
    | TransactionNotFound

  /** The opening balance a new batch continues from. */
  datatype Balance = Balance(advance: int, debt: int)

  /** The rate when the request gives none. */
  const DefaultRate: int := 310

  /** The payment method when the request gives none. */
  const DefaultPaidVia: string := "Cash"

  function RateOf(req: BillRequest): (rate: int)
    ensures req.monthlyAmount.Some? ==> rate == req.monthlyAmount.value
    ensures req.monthlyAmount.None? ==> rate == DefaultRate
  {
    if req.monthlyAmount.Some? then req.monthlyAmount.value else DefaultRate
  }

  function PaidViaOf(req: BillRequest): (via: string)
    ensures req.paidVia.Some? ==> via == req.paidVia.value
    ensures req.paidVia.None? ==> via == DefaultPaidVia
  {
    if req.paidVia.Some? then req.paidVia.value else DefaultPaidVia
  }

  /** The billing year: the request's own year if it has one; otherwise a start month
      already behind the current month bills next year, any other the current year. */
  function ResolveYear(year: Option<int>, startMonth: int, clock: Clock): (y: int)
    ensures year.Some? ==> y == year.value
    ensures year.None? ==> (y == clock.year + 1 <==> startMonth < clock.month)
    ensures year.None? ==> (y == clock.year <==> startMonth >= clock.month)
  {
    if year.Some? then year.value
    else if startMonth < clock.month then clock.year + 1
    else clock.year
  }

  /** The number of months billed; negative when the end month precedes the start. */
  function MonthCount(startMonth: int, endMonth: int): (n: int)
    ensures n + startMonth - 1 == endMonth
  {
    endMonth - startMonth + 1
  }

  /** `Array.from({ length: n }, ...)` for a paused bill: one row per month from the
      start (none for a non-positive length), amount 0, status Off, and the carried
      debt and advance held unchanged. */
  function OffMonths(startMonth: int, n: int, b: Balance, s: Stamp): (r: seq<MonthEntry>)
    ensures |r| == if n > 0 then n else 0
    ensures forall i :: 0 <= i < |r| ==>
      r[i] == MonthEntry(startMonth + i, 0, s.paidVia, s.paymentDate, b.debt, b.advance, Off, s.note, s.createdAt)
  {
    seq(if n > 0 then n else 0,
        i => MonthEntry(startMonth + i, 0, s.paidVia, s.paymentDate, b.debt, b.advance, Off, s.note, s.createdAt))
  }

  lemma {:induction false} EntriesTotals(ms: seq<MonthEntry>, debt: int, advance: int)
    requires forall i :: 0 <= i < |ms| ==> ms[i].amount == 0 && ms[i].debt == debt && ms[i].advance == advance
    ensures SumAmount(ms) == 0 && SumDebt(ms) == |ms| * debt && SumAdvance(ms) == |ms| * advance
    decreases |ms|
  {
    if ms != [] {
      EntriesTotals(ms[1..], debt, advance);
    }
  }

  /** A paused bill pays nothing and its totals are the carried debt and advance once
      per month; its months run consecutively from the start and are all Off. */
  lemma OffMonthsTotals(startMonth: int, n: int, b: Balance, s: Stamp)
    ensures var r := OffMonths(startMonth, n, b, s);
      SumAmount(r) == 0 && SumDebt(r) == |r| * b.debt && SumAdvance(r) == |r| * b.advance &&
      Increasing(r) && (forall i :: 0 <= i < |r| ==> r[i].status == Off)
  {
    var r := OffMonths(startMonth, n, b, s);
    EntriesTotals(r, b.debt, b.advance);
  }

  /** The batch header's `totalDebt` and `totalAdvance`: the sums of its rows' debt and
      advance. */
  function Header(id: string, customerId: string, year: int, updatedAt: int, months: seq<MonthEntry>): (p: Payment)
    ensures p.id == id && p.customerId == customerId && p.year == year && p.updatedAt == updatedAt
    ensures p.months == months && p.totalDebt == SumDebt(months) && p.totalAdvance == SumAdvance(months)
  {
    Payment(id, customerId, year, SumDebt(months), SumAdvance(months), updatedAt, months)
  }

  /** The rows a new batch holds: the paused rows, or the allocation of the amount. */
  function BatchMonths(wasOff: bool, startMonth: int, endMonth: int, rate: int, amount: int, b: Balance, s: Stamp): seq<MonthEntry>
  {
    if wasOff then OffMonths(startMonth, MonthCount(startMonth, endMonth), b, s)
    else Allocate(startMonth, endMonth, rate, amount, b.advance, s)
  }

  /** Either way a batch holds one row per month of `startMonth..endMonth`, in order,
      each stamped with the batch's shared columns. (That the read-back in ascending
      month order returns the rows in emission order rests on this.) */
  lemma BatchMonthsShape(wasOff: bool, startMonth: int, endMonth: int, rate: int, amount: int, b: Balance, s: Stamp)
    ensures var r := BatchMonths(wasOff, startMonth, endMonth, rate, amount, b, s);
      |r| == (if startMonth <= endMonth then endMonth - startMonth + 1 else 0) &&
      Increasing(r) &&
      forall i :: 0 <= i < |r| ==>
        r[i].month == startMonth + i && startMonth <= r[i].month <= endMonth &&
        r[i].paidVia == s.paidVia && r[i].paymentDate == s.paymentDate &&
        r[i].note == s.note && r[i].createdAt == s.createdAt
  {
    AllocateShape(startMonth, endMonth, rate, amount, b.advance, s);
  }

  /** Storage with its month rows ordered by month in every batch, as both workflows
      leave it. */
  ghost predicate MonthsOrdered(ps: seq<Payment>)
  {
    forall i :: 0 <= i < |ps| ==> Increasing(ps[i].months)
  }

  /** `where id = paymentId` removed. */
  function Without(ps: seq<Payment>, id: string): (r: seq<Payment>)
    ensures forall p :: p in r <==> p in ps && p.id != id
    ensures |r| <= |ps|
  {
    if ps == [] then []
    else if ps[0].id == id then Without(ps[1..], id)
    else [ps[0]] + Without(ps[1..], id)
  }

  predicate HasPayment(ps: seq<Payment>, id: string)
  {
    exists i :: 0 <= i < |ps| && ps[i].id == id
  }

  lemma {:induction false} WithoutAppend(a: seq<Payment>, b: seq<Payment>, id: string)
    ensures Without(a + b, id) == Without(a, id) + Without(b, id)
    decreases |a|
  {
    if a == [] {
      assert a + b == b;
    } else {
      assert (a + b)[1..] == a[1..] + b;
      WithoutAppend(a[1..], b, id);
    }
  }

  /** Removing an id nothing carries changes nothing. */
  lemma {:induction false} WithoutAbsent(ps: seq<Payment>, id: string)
    requires forall i :: 0 <= i < |ps| ==> ps[i].id != id
    ensures Without(ps, id) == ps
    decreases |ps|
  {
    if ps != [] {
      var tail := ps[1..];
      forall i | 0 <= i < |tail| ensures tail[i].id != id {
        assert tail[i] == ps[i + 1];
      }
      WithoutAbsent(tail, id);
      assert ps[0].id != id;
      assert Without(ps, id) == [ps[0]] + tail;
      assert ps == [ps[0]] + tail;
    }
  }

  /** Removing an id that is stored exactly once, at `k`, drops exactly that row and
      keeps the others in order. */
  lemma WithoutUnique(ps: seq<Payment>, id: string, k: int)
    requires DistinctIds(ps)
    requires 0 <= k < |ps| && ps[k].id == id
    ensures Without(ps, id) == ps[..k] + ps[k + 1..]
  {
    assert ps == ps[..k] + ([ps[k]] + ps[k + 1..]);
    WithoutAppend(ps[..k], [ps[k]] + ps[k + 1..], id);
    WithoutAppend([ps[k]], ps[k + 1..], id);
    WithoutAbsent(ps[..k], id);
    var tail := ps[k + 1..];
    forall i | 0 <= i < |tail| ensures tail[i].id != id {
      assert tail[i] == ps[k + 1 + i];
    }
    WithoutAbsent(tail, id);
    assert [ps[k]][1..] == [];
  }

  /** No stored month row carries a negative debt or advance. */
  ghost predicate NonNegativeBalances(ps: seq<Payment>)
  {
    forall p, m :: p in ps && m in p.months ==> m.debt >= 0 && m.advance >= 0
  }

  /** A new batch keeps every balance non-negative when the rate is positive, the
      carried balance is non-negative, and a billed (not paused) range is paid a
      non-negative amount. */
  lemma BatchMonthsNonNegative(wasOff: bool, startMonth: int, endMonth: int, rate: int, amount: int, b: Balance, s: Stamp)
    requires rate > 0 && b.advance >= 0 && b.debt >= 0
    requires !wasOff && startMonth <= endMonth ==> amount >= 0
    ensures var r := BatchMonths(wasOff, startMonth, endMonth, rate, amount, b, s);
      (forall m :: m in r ==> m.debt >= 0 && m.advance >= 0) && SumDebt(r) >= 0 && SumAdvance(r) >= 0
  {
    var r := BatchMonths(wasOff, startMonth, endMonth, rate, amount, b, s);
    if wasOff {
      OffMonthsTotals(startMonth, MonthCount(startMonth, endMonth), b, s);
    } else if startMonth <= endMonth {
      assert r == Allocate(startMonth, endMonth, rate, amount, b.advance, s);
      AllocateBalances(startMonth, endMonth, rate, amount, b.advance, s);
      NonNegativeSums(r);
    } else {
      AllocateShape(startMonth, endMonth, rate, amount, b.advance, s);
    }
  }

  lemma {:induction false} NonNegativeSums(ms: seq<MonthEntry>)
    requires forall i :: 0 <= i < |ms| ==> ms[i].debt >= 0 && ms[i].advance >= 0
    ensures SumDebt(ms) >= 0 && SumAdvance(ms) >= 0
    decreases |ms|
  {
    if ms != [] {
      NonNegativeSums(ms[1..]);
    }
  }

  lemma NonNegativeAppend(ps: seq<Payment>, p: Payment)
    requires NonNegativeBalances(ps)
    requires forall m :: m in p.months ==> m.debt >= 0 && m.advance >= 0
    ensures NonNegativeBalances(ps + [p])
  {
  }

  /** Removing rows keeps the remaining ids distinct. */
  lemma {:induction false} WithoutDistinct(ps: seq<Payment>, id: string)
    requires DistinctIds(ps)
    ensures DistinctIds(Without(ps, id))
    decreases |ps|
  {
    if ps != [] {
      var tail := ps[1..];
      assert DistinctIds(tail) by {
        forall a, c | 0 <= a < c < |tail| ensures tail[a].id != tail[c].id {
          assert tail[a] == ps[a + 1] && tail[c] == ps[c + 1];
        }
      }
      WithoutDistinct(tail, id);
      if ps[0].id != id {
        var w := Without(tail, id);
        forall q | q in w ensures q.id != ps[0].id {
          assert q in tail;
          var j :| 0 <= j < |tail| && tail[j] == q;
          assert ps[j + 1] == q;
        }
        var r := [ps[0]] + w;
        forall a, c | 0 <= a < c < |r| ensures r[a].id != r[c].id {
          assert r[c] == w[c - 1];
          if a > 0 {
            assert r[a] == w[a - 1];
          }
        }
      }
    }
  }
}
