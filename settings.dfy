/**
 * The settings page (`settings.tsx`): the editable `settings` record, and
 * `addRate`, which appends a dated entry to one of its rate lists.
 */
module Settings {
  import opened Wrappers
  import opened Text
  import opened Calendar
  import opened Records
  import opened RateHistory

  /**
   * The record after `addRate(kind, rate)` on day `today`.  `rate` is
   * `Number(input)`, `None` standing for NaN; NaN and 0 are falsy.
   */
  function WithRate(d: SettingsDoc, kind: string, rate: Option<int>, today: CalendarDate): SettingsDoc
  {
    if rate.None? || rate.value == 0 then d
    else
      var entry := RateEntry(rate.value, MonthKey(today.year, today.month - 1));
      d.(rates := d.rates[kind := RateList(Some(d), kind) + [entry]])
  }

  /** A falsy rate changes nothing. */
  lemma FalsyRateIgnored(d: SettingsDoc, kind: string, rate: Option<int>, today: CalendarDate)
    requires rate.None? || rate.value == 0
    ensures WithRate(d, kind, rate, today) == d
  {
  }

  /**
   * Otherwise the list for `kind` (empty when absent) gains exactly one
   * trailing entry dated with the current month, the earlier entries keeping
   * their order, and every other key and field is unchanged.
   */
  lemma RateAppended(d: SettingsDoc, kind: string, v: int, today: CalendarDate)
    requires v != 0
    ensures var r := WithRate(d, kind, Some(v), today);
            var h, h' := RateList(Some(d), kind), RateList(Some(r), kind);
            |h'| == |h| + 1 && h'[..|h|] == h &&
            h'[|h|] == RateEntry(v, MonthKey(today.year, today.month - 1)) &&
            (forall k :: k != kind ==> RateList(Some(r), k) == RateList(Some(d), k)) &&
            r.rates.Keys == d.rates.Keys + {kind} &&
            r.farmName == d.farmName && r.ownerName == d.ownerName &&
            r.phone1 == d.phone1 && r.phone2 == d.phone2
  {
    var r := WithRate(d, kind, Some(v), today);
    var h, h' := RateList(Some(d), kind), RateList(Some(r), kind);
    assert h'[..|h|] == h;
  }

  /** The entry's `from` is the current month as `YYYY-MM` for four-digit years. */
  lemma RateDatedYearMonth(d: SettingsDoc, kind: string, v: int, today: CalendarDate)
    requires v != 0 && 1000 <= today.year
    ensures var h := RateList(Some(WithRate(d, kind, Some(v), today)), kind);
            h[|h| - 1].from == Digits(today.year, 4) + "-" + Digits(today.month, 2)
  {
    MonthKeyDigits(today.year, today.month - 1);
  }

  /**
   * When no existing entry sorts after the current month, the added rate
   * becomes the current one for every page that resolves this list.
   */
  lemma AddedRateIsCurrent(d: SettingsDoc, kind: string, v: int, today: CalendarDate)
    requires v != 0
    requires forall e :: e in RateList(Some(d), kind) ==> LexLe(e.from, MonthKey(today.year, today.month - 1))
    ensures CurrentRate(RateList(Some(WithRate(d, kind, Some(v), today)), kind)) == v
  {
    var h := RateList(Some(d), kind);
    var e := RateEntry(v, MonthKey(today.year, today.month - 1));
    var h' := RateList(Some(WithRate(d, kind, Some(v), today)), kind);
    assert h' == h + [e] by {
      RateAppended(d, kind, v, today);
      assert h' == h'[..|h|] + [h'[|h|]];
    }
    forall i | 0 <= i < |h| ensures LexLe(h[i].from, e.from) {
      assert h[i] in h;
    }
    AppendedRateIsCurrent(h, e);
  }

  /** `from` is the key of a four-digit-year month no later than `year`/`month0`. */
  ghost predicate DatedByThen(from: string, year: int, month0: int)
  {
    exists y, m :: 1000 <= y <= 9999 && 0 <= m < 12 && from == MonthKey(y, m) &&
                   (y < year || (y == year && m <= month0))
  }

  lemma DatedByThenSortsFirst(from: string, year: int, month0: int)
    requires DatedByThen(from, year, month0) && 1000 <= year <= 9999 && 0 <= month0 < 12
    ensures LexLe(from, MonthKey(year, month0))
  {
    var y, m :| 1000 <= y <= 9999 && 0 <= m < 12 && from == MonthKey(y, m) &&
                (y < year || (y == year && m <= month0));
    MonthKeyOrder(y, m, year, month0);
  }

  /**
   * In particular, when every earlier entry was dated with a month no later
   * than the current one, as entries this page adds over time are.
   */
  lemma ChronologicalRateIsCurrent(d: SettingsDoc, kind: string, v: int, today: CalendarDate)
    requires v != 0 && 1000 <= today.year
    requires forall e :: e in RateList(Some(d), kind) ==> DatedByThen(e.from, today.year, today.month - 1)
    ensures CurrentRate(RateList(Some(WithRate(d, kind, Some(v), today)), kind)) == v
  {
    forall e | e in RateList(Some(d), kind) ensures LexLe(e.from, MonthKey(today.year, today.month - 1)) {
      DatedByThenSortsFirst(e.from, today.year, today.month - 1);
    }
    AddedRateIsCurrent(d, kind, v, today);
  }

  /** The page's `settings` state. */
  class SettingsEditor {
    var farmName: string
    var ownerName: string
    var phone1: string
    var phone2: string
    var rates: map<string, seq<RateEntry>>

    function Doc(): SettingsDoc
      reads this
    {
      SettingsDoc(farmName, ownerName, phone1, phone2, rates)
    }

    /** The initial state before the stored document is loaded. */
    constructor ()
      ensures Doc() == SettingsDoc("Ann's Dairy Farm", "Eldho Jacob", "", "",
        map[MilkRatesKey := [], EggRatesKey := [], CurdRatesKey := [], DungRatesKey := []])
    {
      farmName := "Ann's Dairy Farm";
      ownerName := "Eldho Jacob";
      phone1 := "";
      phone2 := "";
      rates := map[MilkRatesKey := [], EggRatesKey := [], CurdRatesKey := [], DungRatesKey := []];
    }

    /** `fetchSettings` when `settings/business` exists: the document replaces the state. */
    method Load(stored: SettingsDoc)
      modifies this
      ensures Doc() == stored
    {
      farmName, ownerName, phone1, phone2, rates :=
        stored.farmName, stored.ownerName, stored.phone1, stored.phone2, stored.rates;
    }

    /** `addRate(kind, rate)`; `today` is the current local day. */
    method AddRate(kind: string, rate: Option<int>, today: CalendarDate)
      modifies this
      ensures Doc() == WithRate(old(Doc()), kind, rate, today)
    {
      if rate.None? || rate.value == 0 {
        return;
      }
      var monthKey := DecimalString(today.year) + "-" + PadStart2(DecimalString(today.month));
      var updatedRates := (if kind in rates then rates[kind] else []) + [RateEntry(rate.value, monthKey)];
      rates := rates[kind := updatedRates];
    }
  }
}
