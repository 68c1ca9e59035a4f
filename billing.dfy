/**
 * The billing page (`billing.tsx`): deliveries of the selected month
 * (`month` is 1-based here), per-customer quantity totals, the bill as a dot
 * product with the page's rate table, the customers a bulk send messages,
 * and the PDF file name.
 */
module Billing {
  import opened Wrappers
  import opened Text
  import opened Calendar
  import opened Records

  datatype Totals = Totals(milk: int, extraMilk: int, egg: int, curd: int, chanakapodi: int)

  datatype Rates = Rates(milk: int, extraMilk: int, egg: int, curd: int, chanakapodi: int)

  /** The page's `rates` state; `setRates` is never called, so these are the rates every bill uses. */
  const DefaultRates := Rates(70, 70, 6, 40, 300)

  const NoTotals := Totals(0, 0, 0, 0, 0)

  /** `new Date(data.date)` has the selected 1-based month and the selected year; a missing date is dropped first. */
  predicate InBillingMonth(d: Delivery, month: int, year: int)
  {
    d.date != "" &&
    match ParseIsoDate(d.date)
    case None => false
    case Some(x) => x.month == month && x.year == year
  }

  function DeliveriesInMonth(ds: seq<Delivery>, month: int, year: int): (r: seq<Delivery>)
    ensures |r| <= |ds|
    ensures forall d :: d in r <==> d in ds && InBillingMonth(d, month, year)
  {
    if ds == [] then []
    else
      assert ds == ds[..|ds| - 1] + [ds[|ds| - 1]];
      DeliveriesInMonth(ds[..|ds| - 1], month, year)
      + (if InBillingMonth(ds[|ds| - 1], month, year) then [ds[|ds| - 1]] else [])
  }

  /** `fetchDeliveries` on a snapshot of the collection: push each record of the month into `filtered`. */
  method FetchDeliveries(snapshot: seq<Delivery>, month: int, year: int) returns (filtered: seq<Delivery>)
    ensures filtered == DeliveriesInMonth(snapshot, month, year)
  {
    filtered := [];
    for i := 0 to |snapshot|
      invariant filtered == DeliveriesInMonth(snapshot[..i], month, year)
    {
      var data := snapshot[i];
      assert snapshot[..i + 1][..i] == snapshot[..i];
      if data.date == "" {
        continue;
      }
      var d := ParseIsoDate(data.date);
      if d.Some? && d.value.month == month && d.value.year == year {
        filtered := filtered + [data];
      }
    }
    assert snapshot[..|snapshot|] == snapshot;
  }

  /** `deliveries.filter((d) => d.customerId === customerId)`. */
  function ForCustomer(ds: seq<Delivery>, customerId: string): (r: seq<Delivery>)
    ensures forall d :: d in r <==> d in ds && d.customerId == customerId
  {
    if ds == [] then []
    else
      assert ds == ds[..|ds| - 1] + [ds[|ds| - 1]];
      ForCustomer(ds[..|ds| - 1], customerId)
      + (if ds[|ds| - 1].customerId == customerId then [ds[|ds| - 1]] else [])
  }

  /** `totals.x += Number(d.x) || 0` for the five quantities. */
  function AddDelivery(t: Totals, d: Delivery): Totals
  {
    Totals(t.milk + d.milk.GetOr(0), t.extraMilk + d.extraMilk.GetOr(0), t.egg + d.egg.GetOr(0),
           t.curd + d.curd.GetOr(0), t.chanakapodi + d.chanakapodi.GetOr(0))
  }

  function SumTotals(ds: seq<Delivery>): Totals
  {
    if ds == [] then NoTotals else AddDelivery(SumTotals(ds[..|ds| - 1]), ds[|ds| - 1])
  }

  /** What `getCustomerTotals(customerId)` returns. */
  function CustomerTotals(ds: seq<Delivery>, customerId: string): Totals
  {
    SumTotals(ForCustomer(ds, customerId))
  }

  /** `getCustomerTotals`: filter, then accumulate into a zeroed `totals` record. */
  method GetCustomerTotals(deliveries: seq<Delivery>, customerId: string) returns (totals: Totals)
    ensures totals == CustomerTotals(deliveries, customerId)
  {
    var custDeliveries := ForCustomer(deliveries, customerId);
    totals := Totals(0, 0, 0, 0, 0);
    for i := 0 to |custDeliveries|
      invariant totals == SumTotals(custDeliveries[..i])
    {
      var d := custDeliveries[i];
      assert custDeliveries[..i + 1][..i] == custDeliveries[..i];
      totals := totals.(milk := totals.milk + d.milk.GetOr(0));
      totals := totals.(extraMilk := totals.extraMilk + d.extraMilk.GetOr(0));
      totals := totals.(egg := totals.egg + d.egg.GetOr(0));
      totals := totals.(curd := totals.curd + d.curd.GetOr(0));
      totals := totals.(chanakapodi := totals.chanakapodi + d.chanakapodi.GetOr(0));
    }
    assert custDeliveries[..|custDeliveries|] == custDeliveries;
  }

  function Dot(t: Totals, r: Rates): int
  {
    t.milk * r.milk + t.extraMilk * r.extraMilk + t.egg * r.egg + t.curd * r.curd + t.chanakapodi * r.chanakapodi
  }

  /** `calculateTotal(customerId)`. */
  function CalculateTotal(ds: seq<Delivery>, customerId: string): int
  {
    Dot(CustomerTotals(ds, customerId), DefaultRates)
  }

  /** One delivery priced on its own, a missing or non-numeric quantity counting 0. */
  function LineAmount(d: Delivery): int
  {
    70 * d.milk.GetOr(0) + 70 * d.extraMilk.GetOr(0) + 6 * d.egg.GetOr(0)
    + 40 * d.curd.GetOr(0) + 300 * d.chanakapodi.GetOr(0)
  }

  function SumLines(ds: seq<Delivery>): int
  {
    if ds == [] then 0 else SumLines(ds[..|ds| - 1]) + LineAmount(ds[|ds| - 1])
  }

  lemma {:induction false} DotOfSum(ds: seq<Delivery>)
    ensures Dot(SumTotals(ds), DefaultRates) == SumLines(ds)
  {
    if ds != [] { DotOfSum(ds[..|ds| - 1]); }
  }

  /**
   * Summing the quantities first and pricing the sums is the same as
   * pricing each of the customer's deliveries of the month and adding the
   * prices up.
   */
  lemma CalculateTotalByLines(ds: seq<Delivery>, customerId: string)
    ensures CalculateTotal(ds, customerId) == SumLines(ForCustomer(ds, customerId))
  {
    DotOfSum(ForCustomer(ds, customerId));
  }

  /** A customer with no delivery in the list gets five zero totals and a zero bill. */
  lemma NoDeliveriesNoBill(ds: seq<Delivery>, customerId: string)
    requires forall d :: d in ds ==> d.customerId != customerId
    ensures CustomerTotals(ds, customerId) == NoTotals
    ensures CalculateTotal(ds, customerId) == 0
  {
  }

  lemma {:induction false} SumTotalsAppend(a: seq<Delivery>, b: seq<Delivery>)
    ensures var s, x, y := SumTotals(a + b), SumTotals(a), SumTotals(b);
            s == Totals(x.milk + y.milk, x.extraMilk + y.extraMilk, x.egg + y.egg,
                        x.curd + y.curd, x.chanakapodi + y.chanakapodi)
  {
    if b == [] {
      assert a + b == a;
    } else {
      var b' := b[..|b| - 1];
      assert (a + b)[..|a + b| - 1] == a + b';
      SumTotalsAppend(a, b');
    }
  }

  /** The customers `sendBulkWhatsApp` messages, in list order. */
  function Recipients(customers: seq<Customer>, ds: seq<Delivery>): (r: seq<Customer>)
    ensures forall c :: c in r <==> c in customers && CalculateTotal(ds, c.id) > 0
  {
    if customers == [] then []
    else
      var n := |customers| - 1;
      assert customers == customers[..n] + [customers[n]];
      Recipients(customers[..n], ds) + (if CalculateTotal(ds, customers[n].id) > 0 then [customers[n]] else [])
  }

  /** `sendBulkWhatsApp`: `sent` is the sequence of customers `sendWhatsApp` is called for. */
  method SendBulk(customers: seq<Customer>, deliveries: seq<Delivery>) returns (sent: seq<Customer>)
    ensures sent == Recipients(customers, deliveries)
  {
    sent := [];
    for i := 0 to |customers|
      invariant sent == Recipients(customers[..i], deliveries)
    {
      var cust := customers[i];
      assert customers[..i + 1][..i] == customers[..i];
      var total := CalculateTotal(deliveries, cust.id);
      if total > 0 {
        sent := sent + [cust];
      }
    }
    assert customers[..|customers|] == customers;
  }

  /** `` `${cust.name}-bill-${month}-${year}.pdf` ``. */
  function BillFileName(name: string, month: int, year: int): (f: string)
    ensures StartsWith(f, name + "-bill-")
    ensures |f| >= 4 && f[|f| - 4..] == ".pdf"
  {
    name + "-bill-" + DecimalString(month) + "-" + DecimalString(year) + ".pdf"
  }

  /** The index of the last `c` in `s`, if any. */
  function LastIndexOf(s: string, c: char): (r: Option<nat>)
    ensures r.Some? ==> r.value < |s| && s[r.value] == c
    ensures r.Some? ==> forall j :: r.value < j < |s| ==> s[j] != c
    ensures r.None? ==> forall j :: 0 <= j < |s| ==> s[j] != c
  {
    if s == [] then None
    else if s[|s| - 1] == c then Some(|s| - 1)
    else LastIndexOf(s[..|s| - 1], c)
  }

  /**
   * Reads month and year back from a bill file name for customer `name`:
   * the text between `name + "-bill-"` and ".pdf", split at its last dash.
   */
  function ReadBillFileName(f: string, name: string): Option<(int, int)>
  {
    var prefix := name + "-bill-";
    if StartsWith(f, prefix) && |prefix| + 4 <= |f| && f[|f| - 4..] == ".pdf" then
      var mid := f[|prefix|..|f| - 4];
      match LastIndexOf(mid, '-')
      case None => None
      case Some(k) =>
        match (ParseNumber(mid[..k]), ParseNumber(mid[k + 1..]))
        case (Some(m), Some(y)) => Some((m, y))
        case _ => None
    else None
  }

  lemma DecimalHasNoDash(n: nat)
    ensures forall j :: 0 <= j < |DecimalString(n)| ==> DecimalString(n)[j] != '-'
  {
    DecimalStringIsDigits(n, DigitCount(n));
  }

  /** The last dash of `a + "-" + b` is the one after `a` when `b` has none. */
  lemma {:induction false} LastDashAt(a: string, b: string)
    requires forall j :: 0 <= j < |b| ==> b[j] != '-'
    ensures LastIndexOf(a + "-" + b, '-') == Some(|a|)
  {
    var m := a + "-" + b;
    if b == [] {
      assert m == a + "-";
    } else {
      var b' := b[..|b| - 1];
      forall j | 0 <= j < |b'| ensures b'[j] != '-' {
        assert b'[j] == b[j];
      }
      LastDashAt(a, b');
      assert m[..|m| - 1] == a + "-" + b';
      assert m[|m| - 1] == b[|b| - 1];
    }
  }

  /** The file name carries the month first and the year second, both readable back. */
  lemma BillFileNameRoundTrip(name: string, month: nat, year: nat)
    ensures ReadBillFileName(BillFileName(name, month, year), name) == Some((month, year))
  {
    var ms, ys := DecimalString(month), DecimalString(year);
    var prefix := name + "-bill-";
    var f := BillFileName(name, month, year);
    var mid := ms + "-" + ys;
    assert f == prefix + mid + ".pdf";
    assert f[|prefix|..|f| - 4] == mid;
    DecimalHasNoDash(year);
    LastDashAt(ms, ys);
    assert mid[..|ms|] == ms && mid[|ms| + 1..] == ys;
    ParseNumberDecimal(month);
    ParseNumberDecimal(year);
  }
}
