/**
 * Worked examples of the rate resolver, the prorator and the dashboard's
 * monthly figures on small concrete data.
 */
module Scenarios {
  import opened Wrappers
  import opened Text
  import opened Calendar
  import opened Records
  import opened RateHistory
  import opened Proration
  import opened Aggregation
  import Dashboard

  const June10: CalendarDate := Date(2025, 6, 10)
  const June20: CalendarDate := Date(2025, 6, 20)

  /** An active customer taking 2 litres a day, with the given pause dates. */
  function Subscriber(start: Option<CalendarDate>, end: Option<CalendarDate>): Customer
  {
    Customer("c1", "Anu", "9000000000", "", Some(2), start.Some?, start, end, map[])
  }

  const Jan60 := RateEntry(60, "2025-01")
  const June70 := RateEntry(70, "2025-06")

  lemma JanBeforeJune()
    ensures LexLe(Jan60.from, June70.from) && Jan60.from != June70.from
  {
    var p := "2025-0";
    assert Jan60.from == p + "1" && June70.from == p + "6";
    LexLeReflexive(p);
    LexLeConcat(p, p, "1", "6");
    assert Jan60.from[6] != June70.from[6];
  }

  /** Of two rates with different dates, the later-dated one is current when it is listed last ... */
  lemma LaterListedLast(early: RateEntry, late: RateEntry)
    requires LexLe(early.from, late.from)
    ensures CurrentRate([early, late]) == late.rate
  {
    assert [early, late] == [early] + [late];
    AppendedRateIsCurrent([early], late);
  }

  /** ... and when it is listed first. */
  lemma LaterListedFirst(early: RateEntry, late: RateEntry)
    requires LexLe(early.from, late.from) && early.from != late.from
    ensures CurrentRate([late, early]) == late.rate
  {
    var h := [late, early];
    LexLeReflexive(late.from);
    if LexLe(late.from, early.from) {
      LexLeAntisymmetric(late.from, early.from);
    }
    assert IsLatest(h, 0);
    CurrentRateIsLatest(h, 0);
  }

  /** The June 2025 rate of 70 beats the January rate of 60 in either order. */
  lemma LaterRateListedLast()
    ensures CurrentRate([Jan60, June70]) == 70
  {
    JanBeforeJune();
    LaterListedLast(Jan60, June70);
  }

  lemma LaterRateListedFirst()
    ensures CurrentRate([June70, Jan60]) == 70
  {
    JanBeforeJune();
    LaterListedFirst(Jan60, June70);
  }

  /** A 10 to 20 June pause: 11 paused days in June, none in July. */
  lemma JunePause()
    ensures PausedDays(Subscriber(Some(June10), Some(June20)), 2025, 5) == 11
    ensures PausedDays(Subscriber(Some(June10), Some(June20)), 2025, 6) == 0
  {
  }

  /** A pause from 25 May to 5 June is clipped to the 5 days that fall in June. */
  lemma PauseAcrossMonthBoundary()
    ensures PausedDays(Subscriber(Some(Date(2025, 5, 25)), Some(Date(2025, 6, 5))), 2025, 5) == 5
  {
  }

  /** The inverted pause 20 June to 10 June counts -9 paused days, so 39 active ones. */
  lemma InvertedJunePause()
    ensures PausedDays(Subscriber(Some(June20), Some(June10)), 2025, 5) == -9
    ensures ActiveDays(Subscriber(Some(June20), Some(June10)), 2025, 5) == 39
  {
  }

  const June15: CalendarDate := Date(2025, 6, 15)

  /** Ten eggs at 6 recorded through the customers page on 15 June 2025. */
  /**
   * A cleared year box reads as year 0, and the Date constructor builds
   * February 1900 for it, which is not a leap year: 28 days, so a 2-litre
   * subscriber at 70 pays 3920.
   */
  lemma YearZeroFebruary()
    ensures DaysInMonth(FullYear(0), 1) == 28
    ensures Dashboard.MilkRevenue([Subscriber(None, None)], 0, 1, 70) == 3920
  {
    var c := Subscriber(None, None);
    assert ActiveDays(c, 0, 1) == 28;
    assert [c][..0] == [];
  }

  /** With year 20 selected, the month is June 1920, so a 10 to 20 June 1920 pause counts 11 days. */
  lemma TwoDigitYearPause()
    ensures PausedDays(Subscriber(Some(Date(1920, 6, 10)), Some(Date(1920, 6, 20))), 20, 5) == 11
  {
  }

  const EggSale := Transaction("c1", "Egg", 10, 6, FormatIsoDate(June15))

  lemma EggSaleInJune()
    ensures Dashboard.SelectMonth([EggSale], 2025, 5) == [EggSale]
  {
    ParseFormat(June15);
    assert Dashboard.InSelectedMonth(EggSale, 2025, 5);
    assert [EggSale][..0] == [];
  }

  const JuneSettings := SettingsDoc("", "", "", "", map[MilkRatesKey := [RateEntry(70, "2025-01")]])

  /** A 2-litre customer without a pause pays 30 days × 2 litres × 70 in June 2025. */
  lemma JuneMilk()
    ensures Dashboard.MilkRevenue([Subscriber(None, None)], 2025, 5,
                                  CurrentRate(RateList(Some(JuneSettings), MilkRatesKey))) == 4200
  {
    var c := Subscriber(None, None);
    assert RateList(Some(JuneSettings), MilkRatesKey) == [RateEntry(70, "2025-01")];
    assert CurrentRate([RateEntry(70, "2025-01")]) == 70;
    assert ActiveDays(c, 2025, 5) == 30;
    assert [c][..0] == [];
  }

  /** Ten eggs at 6 make 60 in the egg bucket and nothing in the others. */
  lemma JuneEggs()
    ensures var sel := Dashboard.SelectMonth([EggSale], 2025, 5);
            ProductSum(sel, Egg) == 60 && ProductSum(sel, ExtraMilk) == 0 &&
            ProductSum(sel, Curd) == 0 && ProductSum(sel, Chanakapodi) == 0
  {
    EggSaleInJune();
    assert [EggSale][..0] == [];
    ProductSumOthers([EggSale], ExtraMilk);
    ProductSumOthers([EggSale], Curd);
    ProductSumOthers([EggSale], Chanakapodi);
  }

  /** One unpaused 2-litre customer at 70 and ten eggs at 6 in June 2025: 4200 + 60 = 4260. */
  lemma JuneDashboard()
    ensures var rev := Dashboard.Expected([Subscriber(None, None)], [EggSale], Some(JuneSettings), 2025, 5);
            rev.milk == 4200 && rev.egg == 60 && rev.Total() == 4260
  {
    JuneMilk();
    JuneEggs();
  }
}
