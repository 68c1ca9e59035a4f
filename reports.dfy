/**
 * The reports page (`reports.tsx`): the same month figures as the dashboard,
 * but transactions are chosen by the `YYYY-MM` prefix of their date string,
 * the extra-milk bucket matches the literal "Extra Milk", and milk litres are
 * used without a `|| 0` default.  `barData` lists the five buckets.
 */
module Reports {
  import opened Wrappers
  import opened Text
  import opened Calendar
  import opened Records
  import opened RateHistory
  import opened Proration
  import opened Aggregation
  import Dashboard

  /** The name this page matches for the extra-milk bucket. */
  const ExtraMilkLabel := "Extra Milk"

  /** Every customer has a `milkLitres` value (without one the page's sum is NaN). */
  predicate AllHaveLitres(cs: seq<Customer>)
  {
    forall i :: 0 <= i < |cs| ==> cs[i].milkLitres.Some?
  }

  /** `activeDays * customer.milkLitres * milkRate`. */
  function MilkLine(c: Customer, year: int, month0: int, milkRate: int): int
    requires 0 <= month0 < 12 && c.milkLitres.Some?
  {
    ActiveDays(c, year, month0) * c.milkLitres.value * milkRate
  }

  function MilkRevenue(cs: seq<Customer>, year: int, month0: int, milkRate: int): int
    requires 0 <= month0 < 12 && AllHaveLitres(cs)
  {
    if cs == [] then 0
    else MilkRevenue(cs[..|cs| - 1], year, month0, milkRate) + MilkLine(cs[|cs| - 1], year, month0, milkRate)
  }

  /** `transactions.filter((t) => t.date.startsWith(monthKey))`. */
  function SelectByKey(ts: seq<Transaction>, monthKey: string): (r: seq<Transaction>)
    ensures |r| <= |ts|
  {
    if ts == [] then []
    else
      var init := SelectByKey(ts[..|ts| - 1], monthKey);
      init + (if StartsWith(ts[|ts| - 1].date, monthKey) then [ts[|ts| - 1]] else [])
  }

  /** A transaction is kept exactly when its date string starts with `monthKey`. */
  lemma {:induction false} SelectByKeyMembers(ts: seq<Transaction>, monthKey: string)
    ensures forall t :: t in SelectByKey(ts, monthKey) <==> t in ts && StartsWith(t.date, monthKey)
  {
    if ts != [] {
      SelectByKeyMembers(ts[..|ts| - 1], monthKey);
      assert ts == ts[..|ts| - 1] + [ts[|ts| - 1]];
    }
  }

  function Expected(customers: seq<Customer>, transactions: seq<Transaction>,
                    settings: SettingsDoc, year: int, month0: int): Revenue
    requires 0 <= month0 < 12 && AllHaveLitres(customers)
  {
    var filtered := SelectByKey(transactions, MonthKey(year, month0));
    Revenue(
      MilkRevenue(customers, year, month0, CurrentRate(RateList(Some(settings), MilkRatesKey))),
      ProductSum(filtered, ExtraMilkLabel),
      ProductSum(filtered, Egg),
      ProductSum(filtered, Curd),
      ProductSum(filtered, Chanakapodi))
  }

  /** The page body once `settings` has loaded: the milk loop, the filter, the bucket loop. */
  method Summarize(customers: seq<Customer>, transactions: seq<Transaction>,
                   settings: SettingsDoc, selectedYear: int, selectedMonth: int)
    returns (rev: Revenue)
    requires 0 <= selectedMonth < 12 && AllHaveLitres(customers)
    ensures rev == Expected(customers, transactions, settings, selectedYear, selectedMonth)
  {
    var monthKey := MonthKey(selectedYear, selectedMonth);
    var milkRate := CurrentRate(RateList(Some(settings), MilkRatesKey));
    var milkRevenue := SumMilk(customers, selectedYear, selectedMonth, milkRate);
    var filtered := SelectByKey(transactions, monthKey);
    var extraMilkRevenue, eggRevenue, curdRevenue, dungRevenue := SumBuckets(filtered);
    rev := Revenue(milkRevenue, extraMilkRevenue, eggRevenue, curdRevenue, dungRevenue);
  }

  lemma MilkRevenueStep(cs: seq<Customer>, i: int, year: int, month0: int, milkRate: int)
    requires 0 <= month0 < 12 && 0 <= i < |cs| && AllHaveLitres(cs)
    ensures MilkRevenue(cs[..i + 1], year, month0, milkRate)
            == MilkRevenue(cs[..i], year, month0, milkRate) + MilkLine(cs[i], year, month0, milkRate)
  {
    assert cs[..i + 1][..i] == cs[..i];
  }

  /** `customers.forEach(...)` with the inline paused-day computation. */
  method SumMilk(customers: seq<Customer>, selectedYear: int, selectedMonth: int, milkRate: int)
    returns (milkRevenue: int)
    requires 0 <= selectedMonth < 12 && AllHaveLitres(customers)
    ensures milkRevenue == MilkRevenue(customers, selectedYear, selectedMonth, milkRate)
  {
    var daysInMonth := DaysInMonth(FullYear(selectedYear), selectedMonth);
    milkRevenue := 0;
    for i := 0 to |customers|
      invariant milkRevenue == MilkRevenue(customers[..i], selectedYear, selectedMonth, milkRate)
    {
      var customer := customers[i];
      var pausedDays := InlinePausedDays(customer, selectedYear, selectedMonth);
      var activeDays := daysInMonth - pausedDays;
      assert activeDays == ActiveDays(customer, selectedYear, selectedMonth);
      MilkRevenueStep(customers, i, selectedYear, selectedMonth, milkRate);
      milkRevenue := milkRevenue + activeDays * customer.milkLitres.value * milkRate;
    }
    assert customers[..|customers|] == customers;
  }

  /** The paused-day computation this page writes inline; it is the dashboard's `PausedDays`. */
  method InlinePausedDays(customer: Customer, selectedYear: int, selectedMonth: int) returns (pausedDays: int)
    requires 0 <= selectedMonth < 12
    ensures pausedDays == PausedDays(customer, selectedYear, selectedMonth)
  {
    pausedDays := 0;
    if customer.pauseStart.Some? && customer.pauseEnd.Some? {
      var start, end := DayNumber(customer.pauseStart.value), DayNumber(customer.pauseEnd.value);
      var monthStart, monthEnd := MonthStart(FullYear(selectedYear), selectedMonth), MonthEnd(FullYear(selectedYear), selectedMonth);
      if !(end < monthStart || start > monthEnd) {
        var effectiveStart := if start < monthStart then monthStart else start;
        var effectiveEnd := if end > monthEnd then monthEnd else end;
        pausedDays := effectiveEnd - effectiveStart + 1;
      }
    }
  }

  /** `filteredTransactions.forEach(...)`: add each sale to the bucket its product names exactly. */
  method SumBuckets(filtered: seq<Transaction>)
    returns (extraMilkRevenue: int, eggRevenue: int, curdRevenue: int, dungRevenue: int)
    ensures extraMilkRevenue == ProductSum(filtered, ExtraMilkLabel)
    ensures eggRevenue == ProductSum(filtered, Egg)
    ensures curdRevenue == ProductSum(filtered, Curd)
    ensures dungRevenue == ProductSum(filtered, Chanakapodi)
  {
    extraMilkRevenue, eggRevenue, curdRevenue, dungRevenue := 0, 0, 0, 0;
    for i := 0 to |filtered|
      invariant extraMilkRevenue == ProductSum(filtered[..i], ExtraMilkLabel)
      invariant eggRevenue == ProductSum(filtered[..i], Egg)
      invariant curdRevenue == ProductSum(filtered[..i], Curd)
      invariant dungRevenue == ProductSum(filtered[..i], Chanakapodi)
    {
      var t := filtered[i];
      assert filtered[..i + 1] == filtered[..i] + [t];
      ProductSumStep(filtered[..i], t, ExtraMilkLabel);
      ProductSumStep(filtered[..i], t, Egg);
      ProductSumStep(filtered[..i], t, Curd);
      ProductSumStep(filtered[..i], t, Chanakapodi);
      if t.product == ExtraMilkLabel { extraMilkRevenue := extraMilkRevenue + t.quantity * t.rate; }
      if t.product == Egg { eggRevenue := eggRevenue + t.quantity * t.rate; }
      if t.product == Curd { curdRevenue := curdRevenue + t.quantity * t.rate; }
      if t.product == Chanakapodi { dungRevenue := dungRevenue + t.quantity * t.rate; }
    }
    assert filtered[..|filtered|] == filtered;
  }

  datatype Bar = Bar(name: string, value: int)

  /** `barData`: the five buckets, in a fixed order. */
  function BarData(rev: Revenue): (bars: seq<Bar>)
    ensures |bars| == 5
    ensures bars[0].name == "Milk" && bars[1].name == ExtraMilkLabel && bars[2].name == Egg
            && bars[3].name == Curd && bars[4].name == Chanakapodi
    ensures bars[0].value == rev.milk && bars[1].value == rev.extraMilk && bars[2].value == rev.egg
            && bars[3].value == rev.curd && bars[4].value == rev.dung
  {
    [Bar("Milk", rev.milk), Bar(ExtraMilkLabel, rev.extraMilk), Bar(Egg, rev.egg),
     Bar(Curd, rev.curd), Bar(Chanakapodi, rev.dung)]
  }

  function BarSum(bars: seq<Bar>): int
  {
    if bars == [] then 0 else bars[0].value + BarSum(bars[1..])
  }

  /** The bars add up to `totalRevenue`, so the chart shows exactly the total's parts. */
  lemma BarsAddUpToTotal(rev: Revenue)
    ensures BarSum(BarData(rev)) == rev.Total()
  {
    var bars := BarData(rev);
    assert BarSum(bars[4..]) == rev.dung by { assert bars[4..][1..] == []; }
    assert BarSum(bars[3..]) == rev.curd + rev.dung by { assert bars[3..][1..] == bars[4..]; }
    assert BarSum(bars[2..]) == rev.egg + rev.curd + rev.dung by { assert bars[2..][1..] == bars[3..]; }
    assert BarSum(bars[1..]) == rev.extraMilk + rev.egg + rev.curd + rev.dung by { assert bars[1..][1..] == bars[2..]; }
  }

  lemma SelectByKeyStep(ts: seq<Transaction>, t: Transaction, monthKey: string)
    ensures SelectByKey(ts + [t], monthKey)
            == SelectByKey(ts, monthKey) + (if StartsWith(t.date, monthKey) then [t] else [])
  {
    assert (ts + [t])[..|ts|] == ts;
  }

  /**
   * A transaction stored as "ExtraMilk" (what the customers page writes)
   * lands in none of this page's buckets: the whole report is as if it did
   * not exist.  The same holds for any product name other than the four
   * this page matches.
   */
  lemma UnmatchedProductIgnored(customers: seq<Customer>, transactions: seq<Transaction>, t: Transaction,
                                settings: SettingsDoc, year: int, month0: int)
    requires 0 <= month0 < 12 && AllHaveLitres(customers)
    requires t.product !in {ExtraMilkLabel, Egg, Curd, Chanakapodi}
    ensures Expected(customers, transactions + [t], settings, year, month0)
            == Expected(customers, transactions, settings, year, month0)
  {
    var key := MonthKey(year, month0);
    var before := SelectByKey(transactions, key);
    SelectByKeyStep(transactions, t, key);
    if StartsWith(t.date, key) {
      ProductSumStep(before, t, ExtraMilkLabel);
      ProductSumStep(before, t, Egg);
      ProductSumStep(before, t, Curd);
      ProductSumStep(before, t, Chanakapodi);
    } else {
      assert SelectByKey(transactions + [t], key) == before + [] == before;
    }
  }

  /** In particular the spelling the customers page stores is never counted here. */
  lemma StoredExtraMilkIgnored(customers: seq<Customer>, transactions: seq<Transaction>, t: Transaction,
                               settings: SettingsDoc, year: int, month0: int)
    requires 0 <= month0 < 12 && AllHaveLitres(customers)
    requires t.product == ExtraMilk
    ensures Expected(customers, transactions + [t], settings, year, month0)
            == Expected(customers, transactions, settings, year, month0)
  {
    UnmatchedProductIgnored(customers, transactions, t, settings, year, month0);
  }

  /** With every date a well-formed `YYYY-MM-DD` string, the prefix filter is the dashboard's filter. */
  lemma {:induction false} PrefixFilterIsMonthFilter(ts: seq<Transaction>, year: int, month0: int)
    requires 0 <= month0 < 12 && 1000 <= year <= 9999
    requires forall i :: 0 <= i < |ts| ==> ParseIsoDate(ts[i].date).Some?
    ensures SelectByKey(ts, MonthKey(year, month0)) == Dashboard.SelectMonth(ts, year, month0)
  {
    if ts != [] {
      var n := |ts| - 1;
      var init := ts[..n];
      var key := MonthKey(year, month0);
      forall i | 0 <= i < |init| ensures ParseIsoDate(init[i].date).Some? {
        assert init[i] == ts[i];
      }
      PrefixFilterIsMonthFilter(init, year, month0);
      PrefixSelectsMonth(ts[n].date, year, month0);
      assert StartsWith(ts[n].date, key) <==> Dashboard.InSelectedMonth(ts[n], year, month0);
      SelectByKeyStep(init, ts[n], key);
      assert init + [ts[n]] == ts;
    }
  }

  lemma {:induction false} MilkRevenueAgrees(cs: seq<Customer>, year: int, month0: int, rate: int)
    requires 0 <= month0 < 12 && AllHaveLitres(cs)
    ensures MilkRevenue(cs, year, month0, rate) == Dashboard.MilkRevenue(cs, year, month0, rate)
  {
    if cs != [] {
      MilkRevenueAgrees(cs[..|cs| - 1], year, month0, rate);
    }
  }

  /**
   * The two pages agree on milk, egg, curd and chanakapodi revenue when every
   * customer has litres, every date is well formed and the year has four
   * digits; they differ only in the extra-milk bucket's spelling.
   */
  lemma AgreesWithDashboard(customers: seq<Customer>, transactions: seq<Transaction>,
                            settings: SettingsDoc, year: int, month0: int)
    requires 0 <= month0 < 12 && 1000 <= year <= 9999 && AllHaveLitres(customers)
    requires forall i :: 0 <= i < |transactions| ==> ParseIsoDate(transactions[i].date).Some?
    ensures var r := Expected(customers, transactions, settings, year, month0);
            var d := Dashboard.Expected(customers, transactions, Some(settings), year, month0);
            r.milk == d.milk && r.egg == d.egg && r.curd == d.curd && r.dung == d.dung
            && r.extraMilk == ProductSum(Dashboard.SelectMonth(transactions, year, month0), ExtraMilkLabel)
  {
    PrefixFilterIsMonthFilter(transactions, year, month0);
    MilkRevenueAgrees(customers, year, month0, CurrentRate(RateList(Some(settings), MilkRatesKey)));
  }
}
