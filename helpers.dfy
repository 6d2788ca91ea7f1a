/** The monthly payment allocation engine of server/src/utils/helpers.ts: the status
    classification and the forward allocation loop, with the allocation's meaning
    given by the recursive specification `Allocate`. */
module Helpers {
  import opened Ledger

  /** The four-way classification of what was paid toward what was required. */
  function PaymentStatus(paid: int, required: int): (s: Status)
    ensures s != Off
    ensures s == Unpaid <==> paid == 0
    ensures s == PartiallyPaid <==> paid != 0 && paid < required
    ensures s == AdvancePaid <==> paid != 0 && paid > required
    ensures s == Paid <==> paid != 0 && paid == required
  {
    if paid == 0 then Unpaid
    else if paid < required then PartiallyPaid
    else if paid > required then AdvancePaid
    else Paid
  }

  /** The columns that every row of one generated batch shares. */
  datatype Stamp = Stamp(paidVia: Option<string>, paymentDate: int, note: Option<string>, createdAt: Option<int>)

  function Min(a: int, b: int): int
  {
    if a <= b then a else b
  }

  /** The part of the remaining amount that `month` receives: everything that is left
      in the last month of the range, otherwise at most one monthly rate. */
  function MonthShare(month: int, endMonth: int, rate: int, remaining: int): int
  {
    if month == endMonth then remaining else Min(rate, remaining)
  }

  /** The row for one month that receives `amount` while `carried` advance comes in
      from the month before: the effective amount is their sum; a surplus over the
      rate becomes the new advance, a shortfall the new debt. */
  function Settle(month: int, amount: int, rate: int, carried: int, s: Stamp): MonthEntry
  {
    var effective := amount + carried;
    if effective >= rate then
      MonthEntry(month, amount, s.paidVia, s.paymentDate, 0, effective - rate,
                 PaymentStatus(effective, rate), s.note, s.createdAt)
    else
      MonthEntry(month, amount, s.paidVia, s.paymentDate, rate - effective, 0,
                 PaymentStatus(effective, rate), s.note, s.createdAt)
  }

  /** The rows the allocation loop emits for months `month..endMonth` when `remaining`
      is still to be spread and `advance` was carried out of the previous month. */
  function Allocate(month: int, endMonth: int, rate: int, remaining: int, advance: int, s: Stamp): seq<MonthEntry>
    decreases endMonth - month
  {
    if month > endMonth then []
    else
      var amount := MonthShare(month, endMonth, rate, remaining);
      var e := Settle(month, amount, rate, advance, s);
      [e] + Allocate(month + 1, endMonth, rate, remaining - amount, e.advance, s)
  }

  /** One step of the allocation: the first month of a non-empty range settles its
      share, and the rest of the range continues with what is left and its advance. */
  lemma AllocateStep(month: int, endMonth: int, rate: int, remaining: int, advance: int, s: Stamp)
    requires month <= endMonth
    ensures var amount := MonthShare(month, endMonth, rate, remaining);
      var e := Settle(month, amount, rate, advance, s);
      Allocate(month, endMonth, rate, remaining, advance, s)
        == [e] + Allocate(month + 1, endMonth, rate, remaining - amount, e.advance, s)
  {
  }

  /** The allocation loop's step: rows already emitted, followed by the first month's
      row and then the rest of the range, are the emitted rows followed by the range. */
  lemma AllocatePush(done: seq<MonthEntry>, month: int, endMonth: int, rate: int, remaining: int, advance: int, s: Stamp)
    requires month <= endMonth
    ensures var amount := MonthShare(month, endMonth, rate, remaining);
      var e := Settle(month, amount, rate, advance, s);
      done + [e] + Allocate(month + 1, endMonth, rate, remaining - amount, e.advance, s)
        == done + Allocate(month, endMonth, rate, remaining, advance, s)
  {
    var amount := MonthShare(month, endMonth, rate, remaining);
    var e := Settle(month, amount, rate, advance, s);
    var rest := Allocate(month + 1, endMonth, rate, remaining - amount, e.advance, s);
    AllocateStep(month, endMonth, rate, remaining, advance, s);
    assert done + [e] + rest == done + ([e] + rest);
  }

  /** generateMonthlyPayments. The opening debt is assigned to the loop's debt variable
      and overwritten in every iteration before it is read, so the result does not
      depend on it: the postcondition does not mention `initialDebt`. */
  method GenerateMonthlyPayments(startMonth: int, endMonth: int, monthlyAmount: int, amount: int,
                                 paidVia: Option<string>, paymentTimestamp: int, note: Option<string>,
                                 initialDebt: int, initialAdvance: int, now: int)
    returns (months: seq<MonthEntry>)
    ensures months == Allocate(startMonth, endMonth, monthlyAmount, amount, initialAdvance,
                               Stamp(paidVia, paymentTimestamp, note, Some(now)))
  {
    ghost var s := Stamp(paidVia, paymentTimestamp, note, Some(now));
    months := [];
    var currentDebt := initialDebt;
    var currentAdvance := initialAdvance;
    var remainingAmount := amount;
    var month := startMonth;
    while month <= endMonth
      invariant months + Allocate(month, endMonth, monthlyAmount, remainingAmount, currentAdvance, s)
             == Allocate(startMonth, endMonth, monthlyAmount, amount, initialAdvance, s)
      decreases endMonth - month
    {
      AllocatePush(months, month, endMonth, monthlyAmount, remainingAmount, currentAdvance, s);
      ghost var e := Settle(month, MonthShare(month, endMonth, monthlyAmount, remainingAmount),
                            monthlyAmount, currentAdvance, s);
      var isLastMonth := month == endMonth;
      var monthAmount := if isLastMonth then remainingAmount else Min(monthlyAmount, remainingAmount);
      remainingAmount := remainingAmount - monthAmount;
      var effectiveAmount := monthAmount + currentAdvance;
      if effectiveAmount >= monthlyAmount {
        var extraAmount := effectiveAmount - monthlyAmount;
        currentAdvance := extraAmount;
        currentDebt := 0;
      } else {
        currentDebt := monthlyAmount - effectiveAmount;
        currentAdvance := 0;
      }
      var row := MonthEntry(month, monthAmount, paidVia, paymentTimestamp, currentDebt, currentAdvance,
                            PaymentStatus(effectiveAmount, monthlyAmount), note, Some(now));
      assert row == e;
      months := months + [row];
      month := month + 1;
    }
  }

  // ---------------------------------------------------------------------------
  // Properties of the allocation

  /** One row per month of the range, months consecutive from the first, every row
      carrying the batch's shared columns. */
  lemma {:induction false} AllocateShape(month: int, endMonth: int, rate: int, remaining: int, advance: int, s: Stamp)
    ensures var r := Allocate(month, endMonth, rate, remaining, advance, s);
      |r| == (if month <= endMonth then endMonth - month + 1 else 0) &&
      forall i :: 0 <= i < |r| ==>
        r[i].month == month + i && r[i].paidVia == s.paidVia && r[i].paymentDate == s.paymentDate &&
        r[i].note == s.note && r[i].createdAt == s.createdAt
    decreases endMonth - month
  {
    if month <= endMonth {
      var amount := MonthShare(month, endMonth, rate, remaining);
      var e := Settle(month, amount, rate, advance, s);
      AllocateShape(month + 1, endMonth, rate, remaining - amount, e.advance, s);
    }
  }

  /** Months strictly increase within a generated batch. */
  lemma AllocateIncreasing(month: int, endMonth: int, rate: int, remaining: int, advance: int, s: Stamp)
    ensures Increasing(Allocate(month, endMonth, rate, remaining, advance, s))
  {
    AllocateShape(month, endMonth, rate, remaining, advance, s);
  }

  /** Conservation: over a non-empty range the row amounts add up to exactly the
      amount paid, because the last month absorbs whatever is left. */
  lemma {:induction false} AllocateConserves(month: int, endMonth: int, rate: int, remaining: int, advance: int, s: Stamp)
    requires month <= endMonth
    ensures SumAmount(Allocate(month, endMonth, rate, remaining, advance, s)) == remaining
    decreases endMonth - month
  {
    var amount := MonthShare(month, endMonth, rate, remaining);
    var e := Settle(month, amount, rate, advance, s);
    var rest := Allocate(month + 1, endMonth, rate, remaining - amount, e.advance, s);
    AllocateStep(month, endMonth, rate, remaining, advance, s);
    SumsCons(e, rest);
    if month < endMonth {
      AllocateConserves(month + 1, endMonth, rate, remaining - amount, e.advance, s);
    }
  }

  /** The share of row `i`: what `MonthShare` gives for that month out of what the
      rows before it left over. */
  lemma {:induction false} ShareAt(month: int, endMonth: int, rate: int, remaining: int, advance: int, s: Stamp, i: int)
    requires 0 <= i < |Allocate(month, endMonth, rate, remaining, advance, s)|
    ensures var r := Allocate(month, endMonth, rate, remaining, advance, s);
      r[i].amount == MonthShare(month + i, endMonth, rate, remaining - SumAmount(r[..i]))
    decreases i
  {
    AllocateShape(month, endMonth, rate, remaining, advance, s);
    var amount := MonthShare(month, endMonth, rate, remaining);
    var e := Settle(month, amount, rate, advance, s);
    var rest := Allocate(month + 1, endMonth, rate, remaining - amount, e.advance, s);
    var r := Allocate(month, endMonth, rate, remaining, advance, s);
    AllocateStep(month, endMonth, rate, remaining, advance, s);
    AllocateShape(month + 1, endMonth, rate, remaining - amount, e.advance, s);
    if i == 0 {
      assert r[..0] == [];
    } else {
      ShareAt(month + 1, endMonth, rate, remaining - amount, e.advance, s, i - 1);
      assert r[..i] == [e] + rest[..i - 1];
      SumsCons(e, rest[..i - 1]);
      assert r[i] == rest[i - 1];
    }
  }

  /** How the amount is split: every month but the last receives the smaller of the
      rate and what the earlier months left over; the last receives all that is left. */
  lemma AllocateShares(month: int, endMonth: int, rate: int, remaining: int, advance: int, s: Stamp)
    ensures var r := Allocate(month, endMonth, rate, remaining, advance, s);
      (forall i :: 0 <= i < |r| - 1 ==> r[i].amount == Min(rate, remaining - SumAmount(r[..i]))) &&
      (r != [] ==> r[|r| - 1].amount == remaining - SumAmount(r[..|r| - 1]))
  {
    var r := Allocate(month, endMonth, rate, remaining, advance, s);
    AllocateShape(month, endMonth, rate, remaining, advance, s);
    forall i | 0 <= i < |r|
      ensures r[i].amount == MonthShare(month + i, endMonth, rate, remaining - SumAmount(r[..i]))
    {
      ShareAt(month, endMonth, rate, remaining, advance, s, i);
    }
  }

  /** What row `i` receives and what is left before it are bounded by the amount and
      the rate. */
  lemma {:induction false} CapsAt(month: int, endMonth: int, rate: int, remaining: int, advance: int, s: Stamp, i: int)
    requires remaining >= 0 && rate >= 0
    requires 0 <= i < |Allocate(month, endMonth, rate, remaining, advance, s)|
    ensures var r := Allocate(month, endMonth, rate, remaining, advance, s);
      var left := remaining - SumAmount(r[..i]);
      left >= 0 && 0 <= r[i].amount <= left &&
      (i < |r| - 1 ==> r[i].amount <= rate && (left >= rate ==> r[i].amount == rate))
    decreases i
  {
    AllocateShape(month, endMonth, rate, remaining, advance, s);
    var amount := MonthShare(month, endMonth, rate, remaining);
    var e := Settle(month, amount, rate, advance, s);
    var rest := Allocate(month + 1, endMonth, rate, remaining - amount, e.advance, s);
    var r := Allocate(month, endMonth, rate, remaining, advance, s);
    AllocateStep(month, endMonth, rate, remaining, advance, s);
    AllocateShape(month + 1, endMonth, rate, remaining - amount, e.advance, s);
    if i == 0 {
      assert r[..0] == [];
    } else {
      CapsAt(month + 1, endMonth, rate, remaining - amount, e.advance, s, i - 1);
      assert r[..i] == [e] + rest[..i - 1];
      SumsCons(e, rest[..i - 1]);
      assert r[i] == rest[i - 1];
    }
  }

  /** With a non-negative amount and rate, every month receives between 0 and what is
      left, every month but the last at most the rate, and the full rate whenever at
      least that much is left. */
  lemma AllocateCaps(month: int, endMonth: int, rate: int, remaining: int, advance: int, s: Stamp)
    requires remaining >= 0 && rate >= 0
    ensures var r := Allocate(month, endMonth, rate, remaining, advance, s);
      (forall i :: 0 <= i < |r| ==> 0 <= r[i].amount <= remaining - SumAmount(r[..i])) &&
      (forall i :: 0 <= i < |r| - 1 ==>
         r[i].amount <= rate && (remaining - SumAmount(r[..i]) >= rate ==> r[i].amount == rate))
  {
    var r := Allocate(month, endMonth, rate, remaining, advance, s);
    forall i | 0 <= i < |r|
      ensures 0 <= r[i].amount <= remaining - SumAmount(r[..i])
      ensures i < |r| - 1 ==> r[i].amount <= rate && (remaining - SumAmount(r[..i]) >= rate ==> r[i].amount == rate)
    {
      CapsAt(month, endMonth, rate, remaining, advance, s, i);
    }
  }

  /** Carry chaining: each row settles its own amount plus the advance carried out of
      the row before it (the opening advance for the first row). */
  lemma {:induction false} AllocateChain(month: int, endMonth: int, rate: int, remaining: int, advance: int, s: Stamp)
    ensures var r := Allocate(month, endMonth, rate, remaining, advance, s);
      forall i :: 0 <= i < |r| ==>
        r[i] == Settle(r[i].month, r[i].amount, rate, if i == 0 then advance else r[i - 1].advance, s)
    decreases endMonth - month
  {
    if month <= endMonth {
      var amount := MonthShare(month, endMonth, rate, remaining);
      var e := Settle(month, amount, rate, advance, s);
      var rest := Allocate(month + 1, endMonth, rate, remaining - amount, e.advance, s);
      AllocateStep(month, endMonth, rate, remaining, advance, s);
      AllocateChain(month + 1, endMonth, rate, remaining - amount, e.advance, s);
      var r := Allocate(month, endMonth, rate, remaining, advance, s);
      assert r == [e] + rest;
      forall i | 0 <= i < |r|
        ensures r[i] == Settle(r[i].month, r[i].amount, rate, if i == 0 then advance else r[i - 1].advance, s)
      {
        if i > 0 {
          assert r[i] == rest[i - 1];
          if i > 1 {
            assert r[i - 1] == rest[i - 2];
          }
        }
      }
    }
  }

  /** Balance flags of one settled month, for a positive rate and non-negative inputs. */
  lemma SettleBalances(month: int, amount: int, rate: int, carried: int, s: Stamp)
    requires rate > 0 && amount >= 0 && carried >= 0
    ensures var e := Settle(month, amount, rate, carried, s);
      e.debt >= 0 && e.advance >= 0 && (e.debt == 0 || e.advance == 0) &&
      (e.debt > 0 <==> e.status == Unpaid || e.status == PartiallyPaid) &&
      (e.advance > 0 <==> e.status == AdvancePaid) &&
      e.status != Off
  {
  }

  /** Debt/advance exclusivity and status consistency: for a positive rate and
      non-negative amount and opening advance, no row both owes and overpays, a row
      owes exactly when it is Unpaid or Partially Paid, and carries an advance exactly
      when it is Advance Paid. */
  lemma {:induction false} AllocateBalances(month: int, endMonth: int, rate: int, remaining: int, advance: int, s: Stamp)
    requires rate > 0 && remaining >= 0 && advance >= 0
    ensures var r := Allocate(month, endMonth, rate, remaining, advance, s);
      forall i :: 0 <= i < |r| ==>
        r[i].debt >= 0 && r[i].advance >= 0 && (r[i].debt == 0 || r[i].advance == 0) &&
        (r[i].debt > 0 <==> r[i].status == Unpaid || r[i].status == PartiallyPaid) &&
        (r[i].advance > 0 <==> r[i].status == AdvancePaid) &&
        r[i].status != Off
    decreases endMonth - month
  {
    if month <= endMonth {
      var amount := MonthShare(month, endMonth, rate, remaining);
      var e := Settle(month, amount, rate, advance, s);
      AllocateStep(month, endMonth, rate, remaining, advance, s);
      SettleBalances(month, amount, rate, advance, s);
      AllocateBalances(month + 1, endMonth, rate, remaining - amount, e.advance, s);
    }
  }

  /** The batch's ledger identity: what was paid plus the advance carried in plus the
      shortfalls recorded equals the rate owed for every month plus the advance
      carried out of the last month. */
  lemma {:induction false} AllocateLedgerIdentity(month: int, endMonth: int, rate: int, remaining: int, advance: int, s: Stamp)
    requires month <= endMonth
    ensures var r := Allocate(month, endMonth, rate, remaining, advance, s);
      |r| > 0 &&
      remaining + advance + SumDebt(r) == (endMonth - month + 1) * rate + r[|r| - 1].advance
    decreases endMonth - month
  {
    var amount := MonthShare(month, endMonth, rate, remaining);
    var e := Settle(month, amount, rate, advance, s);
    var rest := Allocate(month + 1, endMonth, rate, remaining - amount, e.advance, s);
    HeadFacts(month, endMonth, rate, remaining, advance, s);
    if month < endMonth {
      AllocateLedgerIdentity(month + 1, endMonth, rate, remaining - amount, e.advance, s);
      var n := endMonth - month;
      assert (n + 1) * rate == n * rate + rate;
    }
  }

  /** What the first step contributes to the sums and to the last row. */
  lemma HeadFacts(month: int, endMonth: int, rate: int, remaining: int, advance: int, s: Stamp)
    requires month <= endMonth
    ensures var amount := MonthShare(month, endMonth, rate, remaining);
      var e := Settle(month, amount, rate, advance, s);
      var rest := Allocate(month + 1, endMonth, rate, remaining - amount, e.advance, s);
      var r := Allocate(month, endMonth, rate, remaining, advance, s);
      |r| == |rest| + 1 &&
      SumDebt(r) == e.debt + SumDebt(rest) &&
      e.advance - e.debt == amount + advance - rate &&
      (month == endMonth ==> rest == [] && amount == remaining) &&
      (month < endMonth ==> |rest| > 0 && r[|r| - 1] == rest[|rest| - 1])
  {
    var amount := MonthShare(month, endMonth, rate, remaining);
    var e := Settle(month, amount, rate, advance, s);
    var rest := Allocate(month + 1, endMonth, rate, remaining - amount, e.advance, s);
    AllocateStep(month, endMonth, rate, remaining, advance, s);
    SumsCons(e, rest);
    AllocateShape(month + 1, endMonth, rate, remaining - amount, e.advance, s);
  }

  /** Worked cases of the single-month and two-month allocation. */
  lemma AllocateExamples(s: Stamp)
    ensures Allocate(1, 1, 310, 310, 0, s) == [Settle(1, 310, 310, 0, s)]
    ensures Allocate(1, 1, 310, 310, 0, s)[0].status == Paid
    ensures Allocate(1, 1, 310, 300, 0, s)[0].debt == 10
    ensures Allocate(1, 1, 310, 320, 0, s)[0].advance == 10
    ensures Allocate(1, 1, 310, 320, 0, s)[0].status == AdvancePaid
    ensures Allocate(1, 2, 310, 320, 0, s)[0].amount == 310
    ensures Allocate(1, 2, 310, 320, 0, s)[1].amount == 10
    ensures Allocate(1, 2, 310, 320, 0, s)[1].debt == 300
    ensures Allocate(3, 3, 310, 50, 100, s)[0].debt == 160
    ensures Allocate(3, 3, 310, 50, 100, s)[0].status == PartiallyPaid
  {
  }
}
