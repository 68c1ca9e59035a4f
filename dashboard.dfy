/**
 * The dashboard (`index.tsx`): subscription milk revenue prorated by paused
 * days, four product buckets over the transactions dated in the selected
 * month and year, the total, and the active/paused customer counts.
 * `selectedMonth` is 0-based, as `getMonth()` returns it.
 */
module Dashboard {
  import opened Wrappers
  import opened Calendar
  import opened Records
  import opened RateHistory
  import opened Proration
  import opened Aggregation

  /** `activeDays * (customer.milkLitres || 0) * milkRate`. */
  function MilkLine(c: Customer, year: int, month0: int, milkRate: int): int
    requires 0 <= month0 < 12
  {
    ActiveDays(c, year, month0) * c.milkLitres.GetOr(0) * milkRate
  }

  /** Σ of `MilkLine` over all customers. */
  function MilkRevenue(cs: seq<Customer>, year: int, month0: int, milkRate: int): int
    requires 0 <= month0 < 12
  {
    if cs == [] then 0
    else MilkRevenue(cs[..|cs| - 1], year, month0, milkRate) + MilkLine(cs[|cs| - 1], year, month0, milkRate)
  }

  /** `new Date(t.date)` falls in the selected month and year. */
  predicate InSelectedMonth(t: Transaction, year: int, month0: int)
  {
    match ParseIsoDate(t.date)
    case None => false
    case Some(d) => d.month - 1 == month0 && d.year == year
  }

  /** The transactions the dashboard counts, in list order. */
  function SelectMonth(ts: seq<Transaction>, year: int, month0: int): seq<Transaction>
  {
    if ts == [] then []
    else SelectMonth(ts[..|ts| - 1], year, month0)
         + (if InSelectedMonth(ts[|ts| - 1], year, month0) then [ts[|ts| - 1]] else [])
  }

  lemma SelectMonthStep(ts: seq<Transaction>, i: int, year: int, month0: int)
    requires 0 <= i < |ts|
    ensures SelectMonth(ts[..i + 1], year, month0)
            == SelectMonth(ts[..i], year, month0) + (if InSelectedMonth(ts[i], year, month0) then [ts[i]] else [])
  {
    assert ts[..i + 1][..i] == ts[..i];
  }

  /** The dashboard's figures for one month, as the page defines them. */
  function Expected(customers: seq<Customer>, transactions: seq<Transaction>,
                    settings: Option<SettingsDoc>, year: int, month0: int): Revenue
    requires 0 <= month0 < 12
  {
    var selected := SelectMonth(transactions, year, month0);
    Revenue(
      MilkRevenue(customers, year, month0, CurrentRate(RateList(settings, MilkRatesKey))),
      ProductSum(selected, ExtraMilk),
      ProductSum(selected, Egg),
      ProductSum(selected, Curd),
      ProductSum(selected, Chanakapodi))
  }

  /** The page's accumulation: one loop over the customers, one over the transactions. */
  method Summarize(customers: seq<Customer>, transactions: seq<Transaction>,
                   settings: Option<SettingsDoc>, selectedYear: int, selectedMonth: int)
    returns (rev: Revenue)
    requires 0 <= selectedMonth < 12
    ensures rev == Expected(customers, transactions, settings, selectedYear, selectedMonth)
  {
    var milkRate := CurrentRate(RateList(settings, MilkRatesKey));
    var milkRevenue := SumMilk(customers, selectedYear, selectedMonth, milkRate);
    var extraMilkRevenue, eggRevenue, curdRevenue, dungRevenue := SumProducts(transactions, selectedYear, selectedMonth);
    rev := Revenue(milkRevenue, extraMilkRevenue, eggRevenue, curdRevenue, dungRevenue);
  }

  lemma MilkRevenueStep(cs: seq<Customer>, i: int, year: int, month0: int, milkRate: int)
    requires 0 <= month0 < 12 && 0 <= i < |cs|
    ensures MilkRevenue(cs[..i + 1], year, month0, milkRate)
            == MilkRevenue(cs[..i], year, month0, milkRate) + MilkLine(cs[i], year, month0, milkRate)
  {
    assert cs[..i + 1][..i] == cs[..i];
  }

  /** `customers.forEach(...)`: add each customer's prorated milk amount. */
  method SumMilk(customers: seq<Customer>, selectedYear: int, selectedMonth: int, milkRate: int)
    returns (milkRevenue: int)
    requires 0 <= selectedMonth < 12
    ensures milkRevenue == MilkRevenue(customers, selectedYear, selectedMonth, milkRate)
  {
    var daysInMonth := DaysInMonth(FullYear(selectedYear), selectedMonth);
    milkRevenue := 0;
    for i := 0 to |customers|
      invariant milkRevenue == MilkRevenue(customers[..i], selectedYear, selectedMonth, milkRate)
    {
      var customer := customers[i];
      var pausedDays := PausedDays(customer, selectedYear, selectedMonth);
      var activeDays := daysInMonth - pausedDays;
      assert activeDays == ActiveDays(customer, selectedYear, selectedMonth);
      MilkRevenueStep(customers, i, selectedYear, selectedMonth, milkRate);
      milkRevenue := milkRevenue + activeDays * customer.milkLitres.GetOr(0) * milkRate;
    }
    assert customers[..|customers|] == customers;
  }

  /** `transactions.forEach(...)`: add each sale dated in the month to its product's bucket. */
  method SumProducts(transactions: seq<Transaction>, selectedYear: int, selectedMonth: int)
    returns (extraMilkRevenue: int, eggRevenue: int, curdRevenue: int, dungRevenue: int)
    ensures extraMilkRevenue == ProductSum(SelectMonth(transactions, selectedYear, selectedMonth), ExtraMilk)
    ensures eggRevenue == ProductSum(SelectMonth(transactions, selectedYear, selectedMonth), Egg)
    ensures curdRevenue == ProductSum(SelectMonth(transactions, selectedYear, selectedMonth), Curd)
    ensures dungRevenue == ProductSum(SelectMonth(transactions, selectedYear, selectedMonth), Chanakapodi)
  {
    extraMilkRevenue, eggRevenue, curdRevenue, dungRevenue := 0, 0, 0, 0;
    for i := 0 to |transactions|
      invariant extraMilkRevenue == ProductSum(SelectMonth(transactions[..i], selectedYear, selectedMonth), ExtraMilk)
      invariant eggRevenue == ProductSum(SelectMonth(transactions[..i], selectedYear, selectedMonth), Egg)
      invariant curdRevenue == ProductSum(SelectMonth(transactions[..i], selectedYear, selectedMonth), Curd)
      invariant dungRevenue == ProductSum(SelectMonth(transactions[..i], selectedYear, selectedMonth), Chanakapodi)
    {
      var t := transactions[i];
      SelectMonthStep(transactions, i, selectedYear, selectedMonth);
      ghost var before := SelectMonth(transactions[..i], selectedYear, selectedMonth);
      var tDate := ParseIsoDate(t.date);
      if tDate.Some? && tDate.value.month - 1 == selectedMonth && tDate.value.year == selectedYear {
        assert SelectMonth(transactions[..i + 1], selectedYear, selectedMonth) == before + [t];
        ProductSumStep(before, t, ExtraMilk);
        ProductSumStep(before, t, Egg);
        ProductSumStep(before, t, Curd);
        ProductSumStep(before, t, Chanakapodi);
        var amount := Amount(t);
        if t.product == ExtraMilk { extraMilkRevenue := extraMilkRevenue + amount; }
        if t.product == Egg { eggRevenue := eggRevenue + amount; }
        if t.product == Curd { curdRevenue := curdRevenue + amount; }
        if t.product == Chanakapodi { dungRevenue := dungRevenue + amount; }
      } else {
        assert SelectMonth(transactions[..i + 1], selectedYear, selectedMonth) == before;
      }
    }
    assert transactions[..|transactions|] == transactions;
  }

  /** `customers.filter((c) => !c.isPaused).length`. */
  function ActiveCustomers(cs: seq<Customer>): nat
  {
    if cs == [] then 0 else ActiveCustomers(cs[..|cs| - 1]) + (if cs[|cs| - 1].isPaused then 0 else 1)
  }

  /** `customers.filter((c) => c.isPaused).length`. */
  function PausedCustomers(cs: seq<Customer>): nat
  {
    if cs == [] then 0 else PausedCustomers(cs[..|cs| - 1]) + (if cs[|cs| - 1].isPaused then 1 else 0)
  }

  /** Every customer is counted exactly once, as active or as paused. */
  lemma {:induction false} CountsPartition(cs: seq<Customer>)
    ensures ActiveCustomers(cs) + PausedCustomers(cs) == |cs|
  {
    if cs != [] { CountsPartition(cs[..|cs| - 1]); }
  }

  /** Milk revenue decomposes per customer. */
  lemma {:induction false} MilkRevenueAppend(a: seq<Customer>, b: seq<Customer>, year: int, month0: int, rate: int)
    requires 0 <= month0 < 12
    ensures MilkRevenue(a + b, year, month0, rate) == MilkRevenue(a, year, month0, rate) + MilkRevenue(b, year, month0, rate)
  {
    if b == [] {
      assert a + b == a;
    } else {
      var b' := b[..|b| - 1];
      assert (a + b)[..|a + b| - 1] == a + b';
      MilkRevenueAppend(a, b', year, month0, rate);
    }
  }

  /** A customer with the `isPaused` flag reset, everything else kept. */
  function Unflagged(c: Customer): Customer
  {
    c.(isPaused := false)
  }

  /**
   * Milk revenue never looks at `isPaused`: two customer lists that differ
   * only in that flag give the same revenue; only the pause dates count.
   */
  lemma {:induction false} MilkRevenueIgnoresFlag(cs: seq<Customer>, cs': seq<Customer>, year: int, month0: int, rate: int)
    requires 0 <= month0 < 12
    requires |cs| == |cs'| && forall i :: 0 <= i < |cs| ==> Unflagged(cs[i]) == Unflagged(cs'[i])
    ensures MilkRevenue(cs, year, month0, rate) == MilkRevenue(cs', year, month0, rate)
  {
    if cs != [] {
      var n := |cs| - 1;
      MilkRevenueIgnoresFlag(cs[..n], cs'[..n], year, month0, rate);
      assert Unflagged(cs[n]) == Unflagged(cs'[n]);
      assert cs[n].pauseStart == cs'[n].pauseStart && cs[n].pauseEnd == cs'[n].pauseEnd;
      assert cs[n].milkLitres == cs'[n].milkLitres;
    }
  }

  /** A customer whose pause does not touch the month is billed for every day of it. */
  lemma UnpausedMilkLine(c: Customer, year: int, month0: int, rate: int)
    requires 0 <= month0 < 12 && !PauseOverlaps(c, year, month0)
    ensures MilkLine(c, year, month0, rate) == DaysInMonth(FullYear(year), month0) * c.milkLitres.GetOr(0) * rate
  {
    PausedDaysBounds(c, year, month0);
  }

  lemma {:induction false} SelectMonthAppend(a: seq<Transaction>, b: seq<Transaction>, year: int, month0: int)
    ensures SelectMonth(a + b, year, month0) == SelectMonth(a, year, month0) + SelectMonth(b, year, month0)
  {
    if b == [] {
      assert a + b == a;
    } else {
      var b' := b[..|b| - 1];
      assert (a + b)[..|a + b| - 1] == a + b';
      SelectMonthAppend(a, b', year, month0);
    }
  }

  /** A transaction is counted iff it is in the list and dated in the selected month and year. */
  lemma {:induction false} SelectMonthMembers(ts: seq<Transaction>, year: int, month0: int)
    ensures forall t :: t in SelectMonth(ts, year, month0) <==> t in ts && InSelectedMonth(t, year, month0)
  {
    if ts != [] {
      SelectMonthMembers(ts[..|ts| - 1], year, month0);
      assert ts == ts[..|ts| - 1] + [ts[|ts| - 1]];
    }
  }

  /**
   * A transaction dated outside the selected month, or whose product is not
   * exactly the bucket's name, changes nothing in that bucket wherever it
   * stands in the list.
   */
  lemma BucketIgnores(a: seq<Transaction>, t: Transaction, b: seq<Transaction>, product: string, year: int, month0: int)
    requires !InSelectedMonth(t, year, month0) || t.product != product
    ensures ProductSum(SelectMonth(a + [t] + b, year, month0), product)
            == ProductSum(SelectMonth(a + b, year, month0), product)
  {
    SelectMonthAppend(a + [t], b, year, month0);
    SelectMonthAppend(a, [t], year, month0);
    SelectMonthAppend(a, b, year, month0);
    var sa, sb := SelectMonth(a, year, month0), SelectMonth(b, year, month0);
    var st := SelectMonth([t], year, month0);
    assert [t][..0] == [];
    ProductSumAppend(sa + st, sb, product);
    ProductSumAppend(sa, st, product);
    ProductSumAppend(sa, sb, product);
    if st != [] {
      assert st == [t];
      assert [t][..0] == [];
    }
  }
}
