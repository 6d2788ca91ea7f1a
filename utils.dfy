/** The backend's copy of the allocation engine (backend/src/utils/utils.ts): the same
    status classification and allocation loop as the server's, with rows that carry no
    creation time, and the older `distributePayment`, which fills whole months first
    and then puts any remainder into the month after them. */
module Utils {
  import opened Ledger
  import opened Helpers

  /** generateMonthlyPayments of the backend: the server's loop, with rows that have no
      creation time of their own. As in the server's copy, the opening debt is never
      read, so the postcondition does not mention `initialDebt`. */
  method GenerateMonthlyPayments(startMonth: int, endMonth: int, monthlyAmount: int, amount: int,
                                 paidVia: Option<string>, paymentDate: int, note: Option<string>,
                                 initialDebt: int, initialAdvance: int)
    returns (months: seq<MonthEntry>)
    ensures months == Allocate(startMonth, endMonth, monthlyAmount, amount, initialAdvance,
                               Stamp(paidVia, paymentDate, note, None))
  {
    ghost var s := Stamp(paidVia, paymentDate, note, None);
    months := [];
    var currentDebt := initialDebt;
    var currentAdvance := initialAdvance;
    var remainingAmount := amount;
    var month := startMonth;
    while month <= endMonth
      invariant months + Allocate(month, endMonth, monthlyAmount, remainingAmount, currentAdvance, s)
             == Allocate(startMonth, endMonth, monthlyAmount, amount, initialAdvance, s)
      decreases endMonth - month
    {
      AllocatePush(months, month, endMonth, monthlyAmount, remainingAmount, currentAdvance, s);
      ghost var e := Settle(month, MonthShare(month, endMonth, monthlyAmount, remainingAmount),
                            monthlyAmount, currentAdvance, s);
      var isLastMonth := month == endMonth;
      var monthAmount := if isLastMonth then remainingAmount else Min(monthlyAmount, remainingAmount);
      remainingAmount := remainingAmount - monthAmount;
      var effectiveAmount := monthAmount + currentAdvance;
      if effectiveAmount >= monthlyAmount {
        var extraAmount := effectiveAmount - monthlyAmount;
        currentAdvance := extraAmount;
        currentDebt := 0;
      } else {
        currentDebt := monthlyAmount - effectiveAmount;
        currentAdvance := 0;
      }
      var row := MonthEntry(month, monthAmount, paidVia, paymentDate, currentDebt, currentAdvance,
                            PaymentStatus(effectiveAmount, monthlyAmount), note, None);
      assert row == e;
      months := months + [row];
      month := month + 1;
    }
  }

  // ---------------------------------------------------------------------------
  // distributePayment

  /** One entry of `distributePayment`'s result; the payment date is optional there. */
  datatype Share = Share(month: int, amount: int, paidVia: Option<string>, paymentDate: Option<int>, status: Status)

  /** How many whole months the first loop emits: it runs `monthsCovered` times but
      stops at the first month past December. */
  function MainCount(startMonth: int, monthsCovered: int): (k: int)
    ensures 0 <= k
    ensures k <= monthsCovered || k == 0
    ensures k == 0 || startMonth + k - 1 <= 12
    ensures k < monthsCovered && k > 0 ==> startMonth + k == 13
  {
    if monthsCovered <= 0 || startMonth > 12 then 0
    else if monthsCovered <= 13 - startMonth then monthsCovered
    else 13 - startMonth
  }

  /** The whole months, consecutive from `startMonth`, each for the full rate. */
  function MainShares(startMonth: int, k: nat, monthlyAmount: int, paidVia: Option<string>, paymentDate: Option<int>): seq<Share>
    decreases k
  {
    if k == 0 then []
    else MainShares(startMonth, k - 1, monthlyAmount, paidVia, paymentDate)
         + [Share(startMonth + k - 1, monthlyAmount, paidVia, paymentDate, Paid)]
  }

  /** What `distributePayment` returns: the whole months, then one more month for a
      positive remainder when that month is still in the year. */
  function Distribution(startMonth: int, monthsCovered: int, monthlyAmount: int, totalPaid: int,
                        paidVia: Option<string>, paymentDate: Option<int>): seq<Share>
  {
    var k := MainCount(startMonth, monthsCovered);
    var rest := totalPaid - k * monthlyAmount;
    MainShares(startMonth, k, monthlyAmount, paidVia, paymentDate)
    + if rest > 0 && startMonth + monthsCovered <= 12
      then [Share(startMonth + monthsCovered, rest, paidVia, paymentDate,
                  if rest >= monthlyAmount then Paid else PartiallyPaid)]
      else []
  }

  method DistributePayment(startMonth: int, monthsCovered: int, monthlyAmount: int, totalPaid: int,
                           paidVia: Option<string>, paymentDate: Option<int>)
    returns (payments: seq<Share>)
    ensures payments == Distribution(startMonth, monthsCovered, monthlyAmount, totalPaid, paidVia, paymentDate)
  {
    payments := [];
    var remainingAmount := totalPaid;
    var i := 0;
    while i < monthsCovered
      invariant 0 <= i <= MainCount(startMonth, monthsCovered)
      invariant payments == MainShares(startMonth, i, monthlyAmount, paidVia, paymentDate)
      invariant remainingAmount == totalPaid - i * monthlyAmount
      decreases monthsCovered - i
    {
      var month := startMonth + i;
      if month > 12 {
        break;
      }
      payments := payments + [Share(month, monthlyAmount, paidVia, paymentDate, Paid)];
      remainingAmount := remainingAmount - monthlyAmount;
      assert (i + 1) * monthlyAmount == i * monthlyAmount + monthlyAmount;
      i := i + 1;
    }
    assert i == MainCount(startMonth, monthsCovered);
    if remainingAmount > 0 && startMonth + monthsCovered <= 12 {
      payments := payments + [Share(startMonth + monthsCovered, remainingAmount, paidVia, paymentDate,
                                    if remainingAmount >= monthlyAmount then Paid else PartiallyPaid)];
    }
  }

  lemma {:induction false} MainSharesShape(startMonth: int, k: nat, monthlyAmount: int, paidVia: Option<string>, paymentDate: Option<int>)
    ensures var m := MainShares(startMonth, k, monthlyAmount, paidVia, paymentDate);
      |m| == k &&
      forall i :: 0 <= i < k ==> m[i] == Share(startMonth + i, monthlyAmount, paidVia, paymentDate, Paid)
    decreases k
  {
    if k > 0 {
      MainSharesShape(startMonth, k - 1, monthlyAmount, paidVia, paymentDate);
    }
  }

  /** The whole months are consecutive from `startMonth`, each paid in full, and there
      are as many as fit both `monthsCovered` and the year. */
  lemma DistributionMain(startMonth: int, monthsCovered: int, monthlyAmount: int, totalPaid: int,
                         paidVia: Option<string>, paymentDate: Option<int>)
    ensures var d := Distribution(startMonth, monthsCovered, monthlyAmount, totalPaid, paidVia, paymentDate);
      var k := MainCount(startMonth, monthsCovered);
      k <= |d| <= k + 1 &&
      forall i :: 0 <= i < k ==>
        d[i].month == startMonth + i && d[i].amount == monthlyAmount && d[i].status == Paid &&
        d[i].paidVia == paidVia && d[i].paymentDate == paymentDate
  {
    MainSharesShape(startMonth, MainCount(startMonth, monthsCovered), monthlyAmount, paidVia, paymentDate);
  }

  /** No entry is for a month after December. */
  lemma DistributionWithinYear(startMonth: int, monthsCovered: int, monthlyAmount: int, totalPaid: int,
                               paidVia: Option<string>, paymentDate: Option<int>)
    ensures var d := Distribution(startMonth, monthsCovered, monthlyAmount, totalPaid, paidVia, paymentDate);
      forall i :: 0 <= i < |d| ==> d[i].month <= 12
  {
    MainSharesShape(startMonth, MainCount(startMonth, monthsCovered), monthlyAmount, paidVia, paymentDate);
  }

  /** There is at most one entry after the whole months, exactly when the remainder
      after them is positive and the month after the covered ones is still in the year;
      that entry holds the remainder and is Paid exactly when the remainder reaches the
      rate. */
  lemma DistributionExtra(startMonth: int, monthsCovered: int, monthlyAmount: int, totalPaid: int,
                          paidVia: Option<string>, paymentDate: Option<int>)
    ensures var d := Distribution(startMonth, monthsCovered, monthlyAmount, totalPaid, paidVia, paymentDate);
      var k := MainCount(startMonth, monthsCovered);
      var rest := totalPaid - k * monthlyAmount;
      (|d| == k + 1 <==> rest > 0 && startMonth + monthsCovered <= 12) &&
      (|d| == k + 1 ==>
         d[k].month == startMonth + monthsCovered && d[k].amount == rest &&
         (d[k].status == Paid <==> rest >= monthlyAmount) &&
         (d[k].status == PartiallyPaid <==> rest < monthlyAmount))
  {
    MainSharesShape(startMonth, MainCount(startMonth, monthsCovered), monthlyAmount, paidVia, paymentDate);
  }

  /** When the covered months fit the year and start no earlier than January, and
      there is money left after them, the remainder entry sits right after them. */
  lemma DistributionExtraFollows(startMonth: int, monthsCovered: int, monthlyAmount: int, totalPaid: int,
                                 paidVia: Option<string>, paymentDate: Option<int>)
    requires monthsCovered >= 0
    ensures var d := Distribution(startMonth, monthsCovered, monthlyAmount, totalPaid, paidVia, paymentDate);
      startMonth + monthsCovered <= 12 ==>
        MainCount(startMonth, monthsCovered) == monthsCovered &&
        forall i :: 0 <= i < |d| ==> d[i].month == startMonth + i
  {
    MainSharesShape(startMonth, MainCount(startMonth, monthsCovered), monthlyAmount, paidVia, paymentDate);
  }
}
