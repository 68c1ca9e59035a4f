/**
 * The documents of the four collections (customers, transactions, deliveries
 * and the `settings/business` singleton) as in-memory values.  Amounts,
 * litres and rates are integers; a field that may be absent, or that the
 * pages read through `Number(...) || 0`, is an `Option`.
 */
module Records {
  import opened Wrappers
  import opened Calendar

  /** One entry of a rate history: `{ rate, from: "YYYY-MM" }`. */
  datatype RateEntry = RateEntry(rate: int, from: string)

  /**
   * A customer document.  `pauseStart`/`pauseEnd` are `None` for `null`;
   * when set they are the days picked in the pause form's date inputs.
   */
  datatype Customer = Customer(
    id: string,
    name: string,
    phone: string,
    address: string,
    milkLitres: Option<int>,
    isPaused: bool,
    pauseStart: Option<CalendarDate>,
    pauseEnd: Option<CalendarDate>,
    payments: map<string, int>)

  /** One product sale; `date` is the stored `YYYY-MM-DD` string. */
  datatype Transaction = Transaction(
    customerId: string,
    product: string,
    quantity: int,
    rate: int,
    date: string)

  /**
   * One delivery row.  A quantity is `None` when the stored value is not a
   * number (NaN), which billing reads as 0.  An empty `date` is a missing one.
   */
  datatype Delivery = Delivery(
    customerId: string,
    customerName: string,
    date: string,
    milk: Option<int>,
    extraMilk: Option<int>,
    egg: Option<int>,
    curd: Option<int>,
    chanakapodi: Option<int>)

  /** The `settings/business` document; the rate lists are stored under their keys. */
  datatype SettingsDoc = SettingsDoc(
    farmName: string,
    ownerName: string,
    phone1: string,
    phone2: string,
    rates: map<string, seq<RateEntry>>)

  const MilkRatesKey := "milkRates"
  const EggRatesKey := "eggRates"
  const CurdRatesKey := "curdRates"
  const DungRatesKey := "dungRates"

  /** `settings?.[key]` when it is a list; a missing document or key reads as the empty list. */
  function RateList(settings: Option<SettingsDoc>, key: string): (h: seq<RateEntry>)
    ensures settings.Some? && key in settings.value.rates ==> h == settings.value.rates[key]
    ensures settings.None? || key !in settings.value.rates ==> h == []
  {
    if settings.Some? && key in settings.value.rates then settings.value.rates[key] else []
  }
}
