# Dairy-farm admin: a verified model of the business logic

This project models the business logic of a small dairy-farm admin app and proves properties of the model. The app's pages compute everything inline, next to their Firestore calls. With the storage and the UI stripped away, this is what remains:

- **Rate-history resolver (`getCurrentRate`).** It picks the rate whose `YYYY-MM` `from` sorts last, or 0 for an empty list.
- **Pause prorator.** It counts a customer's paused days inside a month.
- **Monthly revenue.** Two variants exist, one on the dashboard (`index.tsx`) and one on the reports page (`reports.tsx`). Each computes subscription milk, four product buckets and a total.
- **Billing tally (`billing.tsx`).** It filters deliveries to a month, adds up five quantities per customer, prices them with a fixed rate table, picks the customers a bulk message goes to, and names the PDF.
- **Record operations.** These are:
  - adding, deleting, pausing and resuming customers, and recording a product sale (`customers.tsx`);
  - appending a dated rate (`settings.tsx`);
  - the per-customer delivery form and saving one delivery per customer (`delivery.tsx`).

## Modules

| Module | Contents |
|---|---|
| `Wrappers` | `Option`. It stands for a missing field, an empty form input, or NaN. |
| `Text` | The JavaScript string built-ins the pages use: `String(n)`, `padStart(2, "0")`, `localeCompare` (taken as code-point lexicographic order), `startsWith`, `includes`, `toLowerCase`, and `Number` on integer strings. |
| `Calendar` | The Gregorian calendar: `DaysInMonth`, day numbers, `YYYY-MM-DD` formatting and parsing, and the `YYYY-MM` month key. |
| `Records` | The documents of the collections. |
| `RateHistory`, `Proration`, `Aggregation` | The logic the pages share. |
| `Dashboard`, `Reports`, `Billing` | One module per page. |
| `Customers`, `Settings`, `DeliveryLog` | One module per page. Each has a class for the state the page updates in place. |
| `Scenarios` | Worked examples on concrete data. |

## Modelling choices

- **Numbers and NaN.** Numbers are unbounded integers. NaN appears only where the pages read it as 0 or test it for truthiness. It is `None` of an `Option<int>`.
- **Dates.** Calendar days are validated `Date` values with 1-based months and years 0..9999. They are compared through a day number counted from 0000-01-01 in the proleptic Gregorian calendar.
  - Pause dates come from date inputs, so they are such days or absent.
  - Transaction and delivery dates stay strings, because the reports page filters them by string prefix.
  - The dashboard and the billing page parse those strings as `YYYY-MM-DD`; a parsed string keeps the year it spells.
  - The pages build month bounds with the `Date` constructor `new Date(year, month, day)`, which reads a year of 0..99 as 1900 + year. `Calendar.FullYear` is that rule. A cleared year box on the dashboard reads as year 0, so its months are those of 1900 (`Scenarios.YearZeroFebruary`, `Scenarios.TwoDigitYearPause`).
- **Months.**
  - The dashboard and the reports page select a month with a 0-based `month0`, as `getMonth()` returns it.
  - The billing page uses a 1-based `month`.
  - `DAYS_IN_MONTH` and `daysInMonth` are `Calendar.DaysInMonth(FullYear(year), month0)`, and the month's first and last days are `MonthStart` and `MonthEnd` of `FullYear(year)`.
- **Stable sort.** `getCurrentRate` sorts a copy with the engine's stable sort. The model uses a stable insertion sort, `RateHistory.SortByFrom`. Any two stable sorts by the same key give the same order, so the result is the one the app sees.
- **Two month filters.**
  - The dashboard keeps a transaction when its parsed date has the selected month and year.
  - The reports page keeps it when the date string starts with `monthKey`.
  - `Reports.PrefixFilterIsMonthFilter` proves the two agree on well-formed dates with four-digit years.
- **Extra-milk spelling.** The reports page counts extra milk under the literal `"Extra Milk"`. The customers page stores `"ExtraMilk"`. This difference is kept as written: `Reports.StoredExtraMilkIgnored` proves that such a sale adds nothing to a report.
- **Inverted pauses.** A pause whose end precedes its start, inside the month, gives a paused count of `end - start + 1 <= 0`, so the active days are at least `DaysInMonth` and never negative (`Proration.InvertedPauseCount`, `Proration.ActiveDays`).

## Model

| member | source | states |
|---|---|---|
| RateHistory.CurrentRate | src/pages/index.tsx:80-81 | An empty (or absent) history gives rate 0. |
| RateHistory.SortByFrom | src/pages/index.tsx:82-84 | Sorting a copy of the history keeps exactly its entries: same multiset, same length. |
| RateHistory.Insert | src/pages/index.tsx:82-84 | One insertion step of the stable sort adds exactly the new entry. |
| RateHistory.InsertSorted | src/pages/index.tsx:82-84 | Inserting into a list sorted by `from` keeps it sorted. |
| RateHistory.SortByFromSorted | src/pages/index.tsx:82-84 | The sorted copy is ordered by `from`. |
| RateHistory.LastOfInsert | src/pages/index.tsx:82-85 | After an insertion the last entry is the new one if its `from` is not smaller, else the old last one (ties go to the later entry). |
| RateHistory.LatestAfterAppend | src/pages/index.tsx:82-85 | Appending an entry moves the latest position to it exactly when its `from` is not smaller than the current latest. |
| RateHistory.LastOfSort | src/pages/index.tsx:82-85 | The last entry of the sorted copy is the input's latest entry: maximal `from`, and the last input position among ties. |
| RateHistory.LatestUnique | src/pages/index.tsx:82-85 | A non-empty history has exactly one latest position. |
| RateHistory.CurrentRateIsLatest | src/pages/index.tsx:80-86 | The resolved rate is the rate of the entry with maximal `from`, the later input entry winning among ties. |
| RateHistory.CurrentRateOrderIndependent | src/pages/index.tsx:82-85 | With distinct `from` values, any reordering of the history resolves to the same rate. |
| RateHistory.SameLatest | src/pages/index.tsx:82-85 | Two orderings of one history with distinct dates have the same latest entry. |
| RateHistory.IndexOf | src/pages/index.tsx:82-85 | Proof step: an entry of a history sits at one of its positions. |
| RateHistory.DistinctIndex | src/pages/index.tsx:82-85 | Proof step: with distinct dates, an entry's position is determined by its `from`. |
| RateHistory.AppendedRateIsCurrent | src/pages/index.tsx:82-85 | An appended entry that no earlier entry sorts after becomes the current rate. |
| Records.RateList | src/pages/index.tsx:133 | `settings?.milkRates`: a missing settings document or key reads as the empty list. |
| Text.LexLeReflexive | src/pages/index.tsx:83 | The comparison `localeCompare` stands for is reflexive. |
| Text.LexLeTotal | src/pages/index.tsx:83 | The comparison is total. |
| Text.LexLeTransitive | src/pages/index.tsx:83 | The comparison is transitive. |
| Text.LexLeAntisymmetric | src/pages/index.tsx:83 | The comparison is antisymmetric; equal keys are equal strings. |
| Text.LexLeConcat | src/pages/index.tsx:83 | For equal-length first parts, concatenations compare first part first, then the rest. |
| Text.LexLeDigits | src/pages/index.tsx:83 | On digit strings of one width, string order is numeric order. |
| Text.DigitChar | src/pages/reports.tsx:38-40 | The character written for a digit is a digit character of that value. |
| Text.CharValue | src/pages/index.tsx:148 | Reading a digit character gives a digit whose character is the one read. |
| Text.Pow10 | src/pages/reports.tsx:38-40 | Helper for digit fields: powers of ten are positive. |
| Text.Digits | src/pages/reports.tsx:38-40 | A zero-padded field of width `w` has exactly `w` characters, all digits. |
| Text.DigitsRoundTrip | src/pages/index.tsx:148 | Reading back a zero-padded field gives the number written, when it fits. |
| Text.ValueRoundTrip | src/pages/index.tsx:148 | A digit string is the zero-padded field of its value, at its own width. |
| Text.DigitsValueInjective | src/pages/index.tsx:148 | Digit strings of one width have equal values exactly when they are equal. |
| Text.DecimalString | src/pages/reports.tsx:38-40 | The decimal text of a number is never empty. |
| Text.DecimalStringIsDigits | src/pages/reports.tsx:38-40 | The decimal text of a `w`-digit number is its zero-padded field of width `w`. |
| Text.DigitCount | src/pages/delivery.tsx:50-54 | The number of decimal digits of `n` is the least width whose power of ten exceeds `n`. |
| Text.ContainsAt | src/pages/customers.tsx:217-222 | A query found at some position counts as contained (`includes`). |
| Text.ContainsFound | src/pages/customers.tsx:217-222 | Conversely, `includes` holds only where the query occurs at some position. |
| Text.ContainsIffOccurs | src/pages/customers.tsx:217-222 | `includes` holds exactly when the query occurs at some position. |
| Text.ToLower | src/pages/customers.tsx:217-222 | Lower-casing keeps the length and leaves no capital ASCII letter. |
| Text.ToLowerIdempotent | src/pages/customers.tsx:217-222 | Lower-casing a lower-cased string changes nothing. |
| Text.LowerCharEqual | src/pages/customers.tsx:217-222 | Two characters lower to the same one exactly when they are the same letter in either case, or equal. |
| Text.ToLowerEqualIff | src/pages/customers.tsx:217-222 | Two strings lower to the same string exactly when they differ only in ASCII letter case. |
| Calendar.FullYear | src/pages/index.tsx:96-106 | The `Date` constructor never builds a year in 0..99: such a year becomes 1900 + year, and every other year is kept. |
| Calendar.DaysInMonth | src/pages/index.tsx:96-100 | A month has 28 to 31 days; 29 exactly for February of a leap year, 28 for February otherwise, 30 exactly for April, June, September and November. |
| Calendar.YearStartStep | src/pages/index.tsx:96-100 | Consecutive years' first days are one year length apart. |
| Calendar.CountStep | src/pages/index.tsx:96-100 | Proof step for the leap-year count: moving to the next year adds one multiple of 4, 100 or 400 exactly when the year is one. |
| Calendar.Divisibility | src/pages/index.tsx:96-100 | Proof step for the leap-year count: multiples of 400 are multiples of 100, which are multiples of 4. |
| Calendar.MultipleOf400 | src/pages/index.tsx:96-100 | Proof step for the leap-year count: a multiple of 400 is a multiple of 100. |
| Calendar.MultipleOf100 | src/pages/index.tsx:96-100 | Proof step for the leap-year count: a multiple of 100 is a multiple of 4. |
| Calendar.MonthsTile | src/pages/index.tsx:105-106 | The day after a month's last day is the first day of the next month, December wrapping to January. |
| Calendar.MonthStartMonotone | src/pages/index.tsx:105-106 | Earlier months of a year end before later months start. |
| Calendar.DayNumber | src/pages/index.tsx:108-109 | A day's number lies between its month's first and last day numbers. |
| Calendar.DayInYear | src/pages/index.tsx:108-109 | A day's number lies within its year. |
| Calendar.YearStartMonotone | src/pages/index.tsx:108-109 | Later years start after earlier ones end. |
| Calendar.DayNumberOrder | src/pages/index.tsx:111 | Comparing day numbers is comparing dates chronologically, in both directions. |
| Calendar.EarlierYear | src/pages/index.tsx:111 | Every day of an earlier year has a smaller day number. |
| Calendar.EarlierMonth | src/pages/index.tsx:111 | Within a year, every day of an earlier month has a smaller day number. |
| Calendar.FormatIsoDate | src/pages/customers.tsx:176 | `toISOString().split("T")[0]` is 10 characters wide with dashes at positions 4 and 7. |
| Calendar.ParseFormat | src/pages/index.tsx:148 | Parsing a formatted day gives the same day back. |
| Calendar.FormatParse | src/pages/index.tsx:148 | A string that parses is the formatting of the parsed day. |
| Calendar.MonthKey | src/pages/reports.tsx:38-40 | `monthKey` is the decimal year, a dash, and a two-character month. |
| Calendar.MonthKeyDigits | src/pages/reports.tsx:38-40 | For four-digit years `monthKey` is `YYYY-MM` with the 1-based month zero-padded. |
| Calendar.MonthKeyOrder | src/pages/settings.tsx:43-46 | Month keys of four-digit years sort as their months do chronologically, in both directions. |
| Calendar.DigitsOrder | src/pages/settings.tsx:43-46 | Fields of one width compare as strings exactly as their numbers compare, and are equal exactly when the numbers are. |
| Calendar.KeyOrder | src/pages/settings.tsx:43-46 | Keys with equal-width first parts compare by first part, then by the rest. |
| Calendar.DigitKeyOrder | src/pages/settings.tsx:43-46 | `YYYY-MM` keys compare as (year, month) pairs do. |
| Calendar.DigitKeyEqual | src/pages/reports.tsx:129-131 | `YYYY-MM` keys are equal exactly when years and months are. |
| Calendar.IsoYearMonth | src/pages/reports.tsx:129-131 | The first seven characters of a well-formed date are its `YYYY-MM`. |
| Calendar.PrefixSelectsMonth | src/pages/reports.tsx:129-131 | A well-formed date starts with `monthKey` exactly when its year and month are the selected ones. |
| Text.PadStart2 | src/pages/reports.tsx:38-40 | `padStart(2, "0")` gives at least two characters and ends with the input. |
| Text.ParseNumberDecimal | src/pages/delivery.tsx:50-54 | `Number(String(n))` is `n`. |
| Text.ParseNumber | src/pages/delivery.tsx:50-54 | `Number` of a non-empty digit string is its decimal value. |
| Proration.ClippedCount | src/pages/index.tsx:111-124 | The clipped inclusive count never exceeds the month's length. |
| Proration.PausedDays | src/pages/index.tsx:102-125 | `calculatePausedDays` is 0 when either pause date is missing, and never more than the days of the month the `Date` constructor builds for the selected year. |
| Proration.ActiveDays | src/pages/index.tsx:137 | Active days (`DAYS_IN_MONTH - pausedDays`) are never negative. |
| Proration.CoveredDaysIsClipped | src/pages/index.tsx:114-124 | Counting month days one by one gives the clipped inclusive count. |
| Proration.PausedDaysCountsDays | src/pages/index.tsx:102-125 | For an ordered pause, the paused count is the number of days of the month inside the pause. |
| Proration.PausedDaysBounds | src/pages/index.tsx:111-124 | With no overlap, 0 paused and all days active. For an ordered overlapping pause, 1..DaysInMonth paused and 0..DaysInMonth-1 active. |
| Proration.InvertedPauseCount | src/pages/index.tsx:114-124 | A pause ending before it starts, inside the month guard, counts `end - start + 1 < 1` days, leaving at least `DaysInMonth` active days. |
| Aggregation.ProductSumStep | src/pages/index.tsx:154-164 | One more transaction adds its `quantity * rate` to its own product's bucket only. |
| Aggregation.ProductSumAppend | src/pages/index.tsx:147-166 | A bucket over a concatenation is the sum of the buckets of the parts. |
| Aggregation.ProductSumOthers | src/pages/index.tsx:156-164 | Transactions of other products add nothing to a bucket. |
| Dashboard.Summarize | src/pages/index.tsx:127-173 | The page's accumulation produces the five buckets of `Expected`: milk over active days × litres (or 0) × current milk rate, and per-product sums over the month's transactions. |
| Dashboard.SumMilk | src/pages/index.tsx:133-145 | The `forEach` over customers accumulates the milk revenue sum. |
| Dashboard.MilkRevenueStep | src/pages/index.tsx:135-145 | Each loop step adds exactly that customer's milk line. |
| Dashboard.SumProducts | src/pages/index.tsx:147-166 | The `forEach` over transactions accumulates each product's sum over the transactions dated in the selected month and year. |
| Dashboard.SelectMonthStep | src/pages/index.tsx:148-153 | A transaction is kept when its parsed date is in the selected month and year. |
| Dashboard.SelectMonthAppend | src/pages/index.tsx:147-153 | The month selection distributes over concatenation. |
| Dashboard.SelectMonthMembers | src/pages/index.tsx:148-153 | Exactly the transactions dated in the selected month and year are selected. |
| Dashboard.BucketIgnores | src/pages/index.tsx:150-164 | A transaction of another month or product does not change a bucket. |
| Dashboard.MilkRevenueAppend | src/pages/index.tsx:135-145 | Milk revenue is additive over the customer list. |
| Dashboard.MilkRevenueIgnoresFlag | src/pages/index.tsx:135-145 | Milk revenue does not consult `isPaused`: lists differing only in the flag give the same revenue. |
| Dashboard.UnpausedMilkLine | src/pages/index.tsx:136-142 | A customer whose pause does not touch the month pays for every day. |
| Dashboard.CountsPartition | src/pages/index.tsx:175-181 | Active plus paused customers is the number of customers. |
| Reports.SelectByKey | src/pages/reports.tsx:129-131 | The filter never adds transactions. |
| Reports.SelectByKeyMembers | src/pages/reports.tsx:129-131 | A transaction is kept exactly when its date string starts with `monthKey`. |
| Reports.SelectByKeyStep | src/pages/reports.tsx:129-131 | The filter handles each transaction on its own, in order. |
| Reports.Summarize | src/pages/reports.tsx:85-157 | The page's accumulation produces `Expected`: milk over `daysInMonth - pausedDays` × litres × milk rate, and four buckets over the prefix-filtered transactions, extra milk under `"Extra Milk"`. |
| Reports.SumMilk | src/pages/reports.tsx:94-126 | The customer loop accumulates the milk revenue sum. |
| Reports.MilkRevenueStep | src/pages/reports.tsx:94-126 | Each loop step adds exactly that customer's milk line. |
| Reports.InlinePausedDays | src/pages/reports.tsx:97-121 | The inline paused-day computation equals `calculatePausedDays`: 0 unless both dates are set and the pause overlaps, else the clipped inclusive count. |
| Reports.SumBuckets | src/pages/reports.tsx:133-150 | The bucket loop accumulates each product's sum. |
| Reports.MilkRevenueAgrees | src/pages/reports.tsx:123-126 | Where every customer has litres, the reports page's milk revenue is the dashboard's. |
| Reports.PrefixFilterIsMonthFilter | src/pages/reports.tsx:129-131 | On well-formed dates with four-digit years, the prefix filter selects what the dashboard's parsed-date filter selects. |
| Reports.AgreesWithDashboard | src/pages/reports.tsx:85-157 | Under those conditions the reports figures equal the dashboard's, except that extra milk is summed under `"Extra Milk"`. |
| Reports.UnmatchedProductIgnored | src/pages/reports.tsx:138-150 | A transaction whose product is none of the four labels changes no figure. |
| Reports.StoredExtraMilkIgnored | src/pages/reports.tsx:139-140 | A transaction stored as `"ExtraMilk"` adds nothing to any report figure. |
| Reports.BarData | src/pages/reports.tsx:159-165 | The bar chart has exactly five bars named Milk, Extra Milk, Egg, Curd, Chanakapodi in that order, carrying the milk, extra-milk, egg, curd and chanakapodi revenue respectively. |
| Reports.BarsAddUpToTotal | src/pages/reports.tsx:152-165 | The bars add up to `totalRevenue`. |
| Billing.DeliveriesInMonth | src/pages/billing.tsx:60-78 | A delivery is kept exactly when it has a date whose 1-based month and year are the selected ones. |
| Billing.FetchDeliveries | src/pages/billing.tsx:60-78 | The snapshot loop pushes exactly those deliveries, in order. |
| Billing.ForCustomer | src/pages/billing.tsx:82-84 | Exactly the deliveries with the given `customerId` are considered. |
| Billing.GetCustomerTotals | src/pages/billing.tsx:81-103 | The loop accumulates the five quantity sums of the customer's deliveries, a missing or NaN quantity adding 0. |
| Billing.DotOfSum | src/pages/billing.tsx:105-115 | Pricing the summed quantities equals adding the prices of the single deliveries. |
| Billing.CalculateTotalByLines | src/pages/billing.tsx:105-115 | `calculateTotal` is the sum over the customer's deliveries of 70·milk + 70·extraMilk + 6·egg + 40·curd + 300·chanakapodi. |
| Billing.NoDeliveriesNoBill | src/pages/billing.tsx:81-115 | A customer without deliveries gets five zero totals and a zero bill. |
| Billing.SumTotalsAppend | src/pages/billing.tsx:94-100 | Quantity totals are additive over the delivery list. |
| Billing.Recipients | src/pages/billing.tsx:144-151 | A customer gets a bulk message exactly when its total is positive. |
| Billing.SendBulk | src/pages/billing.tsx:144-151 | The bulk loop messages exactly those customers, in customer-list order. |
| Billing.BillFileName | src/pages/billing.tsx:172 | The file name starts with `<name>-bill-` and ends with `.pdf`. |
| Billing.LastIndexOf | src/pages/billing.tsx:172 | Helper for reading the name back: the position found holds the character and no later position does; none is found only when it is absent. |
| Billing.DecimalHasNoDash | src/pages/billing.tsx:172 | Helper: `String(n)` of a non-negative number contains no dash. |
| Billing.LastDashAt | src/pages/billing.tsx:172 | Helper: the last dash of `a-b` is the one after `a` when `b` has none. |
| Billing.BillFileNameRoundTrip | src/pages/billing.tsx:172 | Between the prefix and `.pdf`, the name holds the month, a dash and the year, and reading them back gives exactly the month and the year used. |
| Customers.RemoveId | src/pages/customers.tsx:111-115 | A delete never adds records. |
| Customers.RemoveIdMembers | src/pages/customers.tsx:111-115 | After a delete, the remaining records are exactly those with another id. |
| Customers.RemoveAbsent | src/pages/customers.tsx:111-115 | Deleting an id that is not present changes nothing. |
| Customers.RemoveIdUnique | src/pages/customers.tsx:111-115 | Deleting keeps ids unique. |
| Customers.RemoveIdPresent | src/pages/customers.tsx:111-115 | With unique ids, deleting a present id removes exactly one record. |
| Customers.SetPause | src/pages/customers.tsx:124-128 | The pause update changes the three pause fields of the customer with that id and no other row. |
| Customers.SetPauseKeepsRecords | src/pages/customers.tsx:124-142 | Pause and resume keep every row's id, name, phone, address, litres and payments, unique ids, and agreement of flag and dates. |
| Customers.PauseThenResume | src/pages/customers.tsx:118-143 | Pausing an unpaused customer and then resuming it restores the collection. |
| Customers.ResumeIdempotent | src/pages/customers.tsx:137-143 | A second resume changes nothing. |
| Customers.RateKey | src/pages/customers.tsx:155-169 | Exactly the four product types `ExtraMilk`, `Egg`, `Curd`, `Chanakapodi` have a rate list. |
| Customers.ProductRate | src/pages/customers.tsx:153-169 | The stored rate comes from milkRates, eggRates, curdRates or dungRates for ExtraMilk, Egg, Curd or Chanakapodi, and is 0 for any other type. |
| Customers.ProductRateIsLatest | src/pages/customers.tsx:76-82 | That rate is the rate of the list's latest entry. |
| Customers.SaleCountsInItsMonth | src/pages/customers.tsx:171-177 | A sale's date parses back to the day it was recorded, so the dashboard, and for four-digit years the reports filter, count it in that month. |
| Customers.SearchFilter | src/pages/customers.tsx:217-222 | The search never lists more customers than there are. |
| Customers.SearchFilterMembers | src/pages/customers.tsx:217-222 | A customer is listed exactly when its lower-cased name contains the lower-cased query or its phone contains the query. |
| Customers.EmptySearchKeepsAll | src/pages/customers.tsx:217-222 | An empty query lists every customer in order. |
| Customers.NameMatchFound | src/pages/customers.tsx:220 | A name containing the query in any ASCII letter case is listed. |
| Customers.CustomerStore.constructor | src/pages/customers.tsx:62-68 | The store holds the loaded collections. |
| Customers.CustomerStore.AddCustomer | src/pages/customers.tsx:85-100 | Refuses when name, phone or litres is empty. Otherwise appends a customer with those fields, unpaused, no pause dates and no payments, keeping ids unique. |
| Customers.CustomerStore.Delete | src/pages/customers.tsx:111-115 | Without confirmation nothing changes. Otherwise exactly the record with the id is removed. |
| Customers.CustomerStore.Pause | src/pages/customers.tsx:118-128 | Refuses unless both dates and a selected customer are present. Otherwise sets that customer's flag and both dates, nothing else. |
| Customers.CustomerStore.Resume | src/pages/customers.tsx:137-143 | Clears the flag and both dates of the customer with the id, nothing else. |
| Customers.CustomerStore.AddProduct | src/pages/customers.tsx:147-177 | Refuses unless a product, a quantity and a selected customer are present. Otherwise appends one transaction with that customer, product and quantity, the resolved rate and today's date. |
| Settings.FalsyRateIgnored | src/pages/settings.tsx:41 | A rate of 0 or NaN changes nothing. |
| Settings.RateAppended | src/pages/settings.tsx:48-56 | The list for the key (empty if absent) grows by exactly one trailing entry dated with the month key, earlier entries unchanged. Every other key and field is unchanged. |
| Settings.RateDatedYearMonth | src/pages/settings.tsx:43-46 | The new entry's `from` is `YYYY-MM` of the current month, zero-padded. |
| Settings.AddedRateIsCurrent | src/pages/settings.tsx:48-51 | If no existing entry sorts after the current month, the added rate becomes the current rate. |
| Settings.DatedByThenSortsFirst | src/pages/settings.tsx:43-46 | A key of a month no later than the current one sorts no later than the current key. |
| Settings.ChronologicalRateIsCurrent | src/pages/settings.tsx:43-51 | When all earlier entries are dated no later than this month, the added rate is current. |
| Settings.SettingsEditor.constructor | src/pages/settings.tsx:7-16 | The initial settings: the farm and owner names, empty phones, four empty rate lists. |
| Settings.SettingsEditor.Load | src/pages/settings.tsx:27-30 | A stored settings document replaces the state. |
| Settings.SettingsEditor.AddRate | src/pages/settings.tsx:40-57 | `addRate` leaves the record as `WithRate` describes it. |
| DeliveryLog.FormQuantity | src/pages/delivery.tsx:50-54 | A quantity never entered or left empty is 0; otherwise it is `Number` of the input. |
| DeliveryLog.RecordsFor | src/pages/delivery.tsx:43-56 | Saving writes exactly one record per customer. |
| DeliveryLog.RecordsForAt | src/pages/delivery.tsx:43-55 | The i-th record belongs to the i-th customer and carries its id, its name and the selected date. |
| DeliveryLog.UntouchedRowIsZero | src/pages/delivery.tsx:44-54 | A customer whose row was never touched is saved with zero quantities and a zero bill line. |
| DeliveryLog.SavedRecordBilledInItsMonth | src/pages/delivery.tsx:49 | The billing page selects a saved record exactly in the month and year of the selected day. |
| DeliveryLog.TypedValueSaved | src/pages/delivery.tsx:32-54 | A value typed into a field is what the saved record stores for it. |
| DeliveryLog.DeliveryPage.constructor | src/pages/delivery.tsx:19 | The form map starts empty. |
| DeliveryLog.DeliveryPage.HandleChange | src/pages/delivery.tsx:32-40 | Sets `deliveryData[custId][field]`. The row's other fields and every other customer's row are unchanged; an absent row starts empty. |
| DeliveryLog.DeliveryPage.SaveDelivery | src/pages/delivery.tsx:42-56 | The loop appends `RecordsFor` of the customer list, in order, and keeps the form. |
| Scenarios.JanBeforeJune | src/pages/index.tsx:83 | `"2025-01"` sorts before `"2025-06"`. |
| Scenarios.LaterListedLast | src/pages/index.tsx:80-86 | Of two rates, the later-dated one listed last is current. |
| Scenarios.LaterListedFirst | src/pages/index.tsx:80-86 | Of two differently dated rates, the later one is current even when listed first. |
| Scenarios.LaterRateListedLast | src/pages/index.tsx:80-86 | Rates `[60 from 2025-01, 70 from 2025-06]` resolve to 70. |
| Scenarios.LaterRateListedFirst | src/pages/index.tsx:80-86 | The same two rates in the other order also resolve to 70. |
| Scenarios.JunePause | src/pages/index.tsx:102-125 | A 10–20 June 2025 pause gives 11 paused days in June and 0 in July. |
| Scenarios.PauseAcrossMonthBoundary | src/pages/index.tsx:111-124 | A 25 May – 5 June pause gives 5 paused days in June. |
| Scenarios.YearZeroFebruary | src/pages/index.tsx:96-100 | Year 0 builds February 1900: 28 days, so a 2-litre subscriber at 70 pays 3920. |
| Scenarios.TwoDigitYearPause | src/pages/index.tsx:102-125 | With year 20 selected, a 10–20 June 1920 pause counts 11 paused days in June. |
| Scenarios.InvertedJunePause | src/pages/index.tsx:114-124 | A 20 June – 10 June pause gives −9 paused and 39 active days in June. |
| Scenarios.EggSaleInJune | src/pages/index.tsx:147-153 | A sale recorded on 15 June 2025 is selected for June 2025. |
| Scenarios.JuneMilk | src/pages/index.tsx:133-145 | A 2-litre subscriber at 70 without a pause gives June 2025 milk revenue 4200. |
| Scenarios.JuneEggs | src/pages/index.tsx:147-160 | Ten eggs at 6 sold in June 2025 give egg revenue 60 and nothing in the other three buckets. |
| Scenarios.JuneDashboard | src/pages/index.tsx:127-173 | A 2-litre customer at 70 and ten eggs at 6 in June 2025 give milk 4200, eggs 60 and total 4260. |

## Left out

- **Firestore and authentication.** Every read and write becomes an operation on in-memory collections. Left out: snapshot ordering, failed writes, and the login and role redirects.
- **Generated document ids.** `Customers.CustomerStore.AddCustomer` takes the id Firestore would generate as a parameter, which must be fresh.
- **`handleSave` in settings.tsx.** Its merge write (`setDoc` with `merge: true`) is not modelled. Neither is the reload round trip after saving.
- **UI.** Rendering, modals, `alert`/`confirm` and charts are left out. The confirmation answer is a parameter of `Delete`.
- **jsPDF, the WhatsApp URL and `window.open`.** These are left out; only the PDF file name is kept. `Billing.SendBulk` returns the customers it would message.
- **Clock and time zones.**
  - "Today" is a parameter: the UTC day for sale dates, the local day for rate month keys.
  - JavaScript parses `YYYY-MM-DD` as UTC midnight but builds month bounds in local time; the model compares plain day numbers.
  - Millisecond arithmetic is not modelled.
- **Other date formats.** Date strings other than `YYYY-MM-DD`, which the JavaScript `Date` parser may also accept, read as invalid here. Years outside 0..9999 are not modelled.
- **Prefix filter and years.** The agreement between the prefix filter and the parsed-date filter is proved only for four-digit years.
- **Floating point.** Number-to-string conversions other than integers are left out:
  - fractional litres, quantities and rates;
  - `parseFloat`'s prefix parsing;
  - `Number` on whitespace, exponents or signs other than a leading `-`;
  - `Number` on hexadecimal strings such as `"0x10"` (16 in JavaScript) and on `"Infinity"`, which read as NaN (`None`) here; number inputs do not produce them.

  A number input is taken to hold an integer or nothing. `toFixed` formatting is display only.
- **`localeCompare`.** It is modelled as code-point lexicographic order. This is exact for the `YYYY-MM` keys the settings page writes.
- **`toLowerCase`.** Only ASCII letters are lowered; Unicode case mapping is left out.
- **Reports.MilkRevenue requires every customer to have `milkLitres`.** A missing value makes the page's total NaN, and the model has no NaN figure. The dashboard covers a missing value (it uses `|| 0`).
- **Reports.Summarize takes a settings document.** It does not take an optional one, because the page renders nothing until settings are loaded.
- **Customers.CustomerStore.Pause does not require the selected customer to be unpaused.** The page only offers the pause button for unpaused customers; the model accepts any id.
- **The stale-closure read in `addRate`.** The model applies updates one after another.
