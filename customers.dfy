/**
 * The customers page (`customers.tsx`): the customers and transactions
 * collections as an in-memory store, with adding, deleting, pausing and
 * resuming customers, recording a product sale at the resolved rate, and the
 * search filter of the list.
 *
 * Form inputs are `Option`s: `None` is an empty input.  A non-empty number
 * input holds a number and a non-empty date input a valid calendar day.
 */
module Customers {
  import opened Wrappers
  import opened Text
  import opened Calendar
  import opened Records
  import opened RateHistory
  import Dashboard
  import Reports

  /** Firestore document ids are unique within the collection. */
  predicate UniqueIds(cs: seq<Customer>)
  {
    forall i, j :: 0 <= i < j < |cs| ==> cs[i].id != cs[j].id
  }

  /** The pause fields of a customer as added, and as left by a resume. */
  predicate Unpaused(c: Customer)
  {
    !c.isPaused && c.pauseStart.None? && c.pauseEnd.None?
  }

  /** The flag and the dates agree: unpaused with no dates, or paused with both. */
  predicate PauseConsistent(c: Customer)
  {
    Unpaused(c) || (c.isPaused && c.pauseStart.Some? && c.pauseEnd.Some?)
  }

  predicate AllPauseConsistent(cs: seq<Customer>)
  {
    forall i :: 0 <= i < |cs| ==> PauseConsistent(cs[i])
  }

  // ---------------------------------------------------------------- delete

  /** The collection after `deleteDoc(doc(db, "customers", id))`. */
  function RemoveId(cs: seq<Customer>, id: string): (r: seq<Customer>)
    ensures |r| <= |cs|
  {
    if cs == [] then []
    else
      var n := |cs| - 1;
      RemoveId(cs[..n], id) + (if cs[n].id == id then [] else [cs[n]])
  }

  /** After a delete, the remaining records are exactly those with another id. */
  lemma {:induction false} RemoveIdMembers(cs: seq<Customer>, id: string)
    ensures forall c :: c in RemoveId(cs, id) <==> c in cs && c.id != id
  {
    if cs != [] {
      var n := |cs| - 1;
      RemoveIdMembers(cs[..n], id);
      assert cs == cs[..n] + [cs[n]];
    }
  }

  lemma {:induction false} RemoveAbsent(cs: seq<Customer>, id: string)
    requires forall i :: 0 <= i < |cs| ==> cs[i].id != id
    ensures RemoveId(cs, id) == cs
  {
    if cs != [] {
      var n := |cs| - 1;
      var init := cs[..n];
      forall i | 0 <= i < |init| ensures init[i].id != id {
        assert init[i] == cs[i];
      }
      RemoveAbsent(init, id);
      assert cs[n].id != id;
      assert RemoveId(cs, id) == init + [cs[n]];
      assert init + [cs[n]] == cs;
    }
  }

  /** Deleting keeps the remaining ids unique. */
  lemma {:induction false} RemoveIdUnique(cs: seq<Customer>, id: string)
    requires UniqueIds(cs)
    ensures UniqueIds(RemoveId(cs, id))
  {
    if cs != [] {
      var n := |cs| - 1;
      var init := cs[..n];
      assert UniqueIds(init);
      RemoveIdUnique(init, id);
      var r := RemoveId(cs, id);
      var ri := RemoveId(init, id);
      if cs[n].id != id {
        assert r == ri + [cs[n]];
        forall i, j | 0 <= i < j < |r| ensures r[i].id != r[j].id {
          if j < |ri| {
            assert r[i] == ri[i] && r[j] == ri[j];
          } else {
            assert r[i] == ri[i] && r[j] == cs[n];
            RemoveIdMembers(init, id);
            assert ri[i] in init;
            var k :| 0 <= k < |init| && init[k] == ri[i];
            assert cs[k] == init[k];
          }
        }
      }
    }
  }

  /** With unique ids, deleting a present id removes exactly one record. */
  lemma {:induction false} RemoveIdPresent(cs: seq<Customer>, id: string, k: int)
    requires UniqueIds(cs)
    requires 0 <= k < |cs| && cs[k].id == id
    ensures |RemoveId(cs, id)| == |cs| - 1
  {
    var n := |cs| - 1;
    var init := cs[..n];
    assert UniqueIds(init);
    if k == n {
      assert forall i :: 0 <= i < |init| ==> init[i].id != id;
      RemoveAbsent(init, id);
    } else {
      assert init[k].id == id;
      RemoveIdPresent(init, id, k);
    }
  }

  // ---------------------------------------------------------- pause/resume

  /** `updateDoc` of the three pause fields on the customer with the given id. */
  function SetPause(cs: seq<Customer>, id: string, isPaused: bool,
                    start: Option<CalendarDate>, end: Option<CalendarDate>): (r: seq<Customer>)
    ensures |r| == |cs|
    ensures forall i :: 0 <= i < |cs| && cs[i].id != id ==> r[i] == cs[i]
    ensures forall i :: 0 <= i < |cs| && cs[i].id == id ==>
              r[i] == cs[i].(isPaused := isPaused, pauseStart := start, pauseEnd := end)
  {
    seq(|cs|, i requires 0 <= i < |cs| =>
      if cs[i].id == id then cs[i].(isPaused := isPaused, pauseStart := start, pauseEnd := end) else cs[i])
  }

  /**
   * A pause or resume changes nothing but the flag and the two dates: ids,
   * names, phones, addresses, litres and payments of every row stay, and so
   * does the uniqueness of ids and the agreement of flag and dates.
   */
  lemma SetPauseKeepsRecords(cs: seq<Customer>, id: string, isPaused: bool,
                             start: Option<CalendarDate>, end: Option<CalendarDate>)
    ensures var r := SetPause(cs, id, isPaused, start, end);
            forall i :: 0 <= i < |cs| ==>
              r[i].id == cs[i].id && r[i].name == cs[i].name && r[i].phone == cs[i].phone &&
              r[i].address == cs[i].address && r[i].milkLitres == cs[i].milkLitres &&
              r[i].payments == cs[i].payments
    ensures UniqueIds(cs) ==> UniqueIds(SetPause(cs, id, isPaused, start, end))
    ensures AllPauseConsistent(cs) && isPaused == start.Some? && isPaused == end.Some?
            ==> AllPauseConsistent(SetPause(cs, id, isPaused, start, end))
  {
  }

  /** Pausing a customer that is not paused and then resuming it restores the collection. */
  lemma PauseThenResume(cs: seq<Customer>, id: string, start: CalendarDate, end: CalendarDate)
    requires forall i :: 0 <= i < |cs| && cs[i].id == id ==> Unpaused(cs[i])
    ensures SetPause(SetPause(cs, id, true, Some(start), Some(end)), id, false, None, None) == cs
  {
    var r := SetPause(SetPause(cs, id, true, Some(start), Some(end)), id, false, None, None);
    assert forall i :: 0 <= i < |cs| ==> r[i] == cs[i];
  }

  /** A second resume changes nothing. */
  lemma ResumeIdempotent(cs: seq<Customer>, id: string)
    ensures var r := SetPause(cs, id, false, None, None);
            SetPause(r, id, false, None, None) == r
  {
    var r := SetPause(cs, id, false, None, None);
    assert forall i :: 0 <= i < |r| ==> SetPause(r, id, false, None, None)[i] == r[i];
  }

  // ----------------------------------------------------------- add product

  /** The settings list whose current rate prices a product type, if any. */
  function RateKey(productType: string): (k: Option<string>)
    ensures k.Some? <==> productType in {"ExtraMilk", "Egg", "Curd", "Chanakapodi"}
  {
    if productType == "ExtraMilk" then Some(MilkRatesKey)
    else if productType == "Egg" then Some(EggRatesKey)
    else if productType == "Curd" then Some(CurdRatesKey)
    else if productType == "Chanakapodi" then Some(DungRatesKey)
    else None
  }

  /** The `rate` that `handleAddProduct` stores. */
  function ProductRate(settings: Option<SettingsDoc>, productType: string): (rate: int)
    ensures productType == "ExtraMilk" ==> rate == CurrentRate(RateList(settings, MilkRatesKey))
    ensures productType == "Egg" ==> rate == CurrentRate(RateList(settings, EggRatesKey))
    ensures productType == "Curd" ==> rate == CurrentRate(RateList(settings, CurdRatesKey))
    ensures productType == "Chanakapodi" ==> rate == CurrentRate(RateList(settings, DungRatesKey))
    ensures productType !in {"ExtraMilk", "Egg", "Curd", "Chanakapodi"} ==> rate == 0
  {
    match RateKey(productType)
    case None => 0
    case Some(key) => CurrentRate(RateList(settings, key))
  }

  /** The stored rate is that of the latest entry of the product's list, and 0 with no settings. */
  lemma ProductRateIsLatest(settings: Option<SettingsDoc>, productType: string, k: int)
    requires RateKey(productType).Some?
    requires IsLatest(RateList(settings, RateKey(productType).value), k)
    ensures ProductRate(settings, productType) == RateList(settings, RateKey(productType).value)[k].rate
  {
    CurrentRateIsLatest(RateList(settings, RateKey(productType).value), k);
  }

  /** The transaction document `handleAddProduct` writes. */
  function SaleRecord(customerId: string, productType: string, quantity: int,
                      settings: Option<SettingsDoc>, today: CalendarDate): Transaction
  {
    Transaction(customerId, productType, quantity, ProductRate(settings, productType), FormatIsoDate(today))
  }

  /**
   * A sale is dated with the day it is recorded, so the dashboard counts it
   * in that month, and so does the reports page for four-digit years.
   */
  lemma SaleCountsInItsMonth(customerId: string, productType: string, quantity: int,
                             settings: Option<SettingsDoc>, today: CalendarDate)
    ensures var t := SaleRecord(customerId, productType, quantity, settings, today);
            ParseIsoDate(t.date) == Some(today) &&
            Dashboard.InSelectedMonth(t, today.year, today.month - 1) &&
            (1000 <= today.year ==> StartsWith(t.date, MonthKey(today.year, today.month - 1)))
  {
    var t := SaleRecord(customerId, productType, quantity, settings, today);
    ParseFormat(today);
    if 1000 <= today.year {
      PrefixSelectsMonth(t.date, today.year, today.month - 1);
    }
  }

  // ---------------------------------------------------------------- search

  /** The list's filter: lower-cased name contains the lower-cased query, or the phone contains it. */
  predicate Matches(c: Customer, search: string)
  {
    Contains(ToLower(c.name), ToLower(search)) || Contains(c.phone, search)
  }

  function SearchFilter(cs: seq<Customer>, search: string): (r: seq<Customer>)
    ensures |r| <= |cs|
  {
    if cs == [] then []
    else
      var n := |cs| - 1;
      SearchFilter(cs[..n], search) + (if Matches(cs[n], search) then [cs[n]] else [])
  }

  /** A customer is listed exactly when it matches the query. */
  lemma {:induction false} SearchFilterMembers(cs: seq<Customer>, search: string)
    ensures forall c :: c in SearchFilter(cs, search) <==> c in cs && Matches(c, search)
  {
    if cs != [] {
      var n := |cs| - 1;
      SearchFilterMembers(cs[..n], search);
      assert cs == cs[..n] + [cs[n]];
    }
  }

  /** An empty query lists every customer, in order. */
  lemma {:induction false} EmptySearchKeepsAll(cs: seq<Customer>)
    ensures SearchFilter(cs, "") == cs
  {
    if cs != [] {
      var n := |cs| - 1;
      EmptySearchKeepsAll(cs[..n]);
      assert StartsWith(ToLower(cs[n].name), ToLower(""));
      assert cs == cs[..n] + [cs[n]];
    }
  }

  /** A name that contains the query, in any letter case, is found. */
  lemma NameMatchFound(c: Customer, search: string, i: nat)
    requires i + |search| <= |c.name|
    requires ToLower(c.name)[i..i + |search|] == ToLower(search)
    ensures Matches(c, search)
  {
    ContainsAt(ToLower(c.name), ToLower(search), i);
  }

  // ----------------------------------------------------------------- store

  class CustomerStore {
    var customers: seq<Customer>
    var transactions: seq<Transaction>

    ghost predicate Valid()
      reads this
    {
      UniqueIds(customers)
    }

    constructor (customers0: seq<Customer>, transactions0: seq<Transaction>)
      requires UniqueIds(customers0)
      ensures Valid() && customers == customers0 && transactions == transactions0
    {
      customers := customers0;
      transactions := transactions0;
    }

    /** `handleAddCustomer`; `newId` is the id Firestore generates for the new document. */
    method AddCustomer(newId: string, name: string, phone: string, address: string, milkLitres: Option<int>)
      returns (ok: bool)
      requires Valid()
      requires forall i :: 0 <= i < |customers| ==> customers[i].id != newId
      modifies this
      ensures Valid()
      ensures ok <==> name != "" && phone != "" && milkLitres.Some?
      ensures customers == if ok
        then old(customers) + [Customer(newId, name, phone, address, milkLitres, false, None, None, map[])]
        else old(customers)
      ensures ok ==> Unpaused(customers[|customers| - 1])
      ensures AllPauseConsistent(old(customers)) ==> AllPauseConsistent(customers)
      ensures transactions == old(transactions)
    {
      if name == "" || phone == "" || milkLitres.None? {
        return false;
      }
      customers := customers + [Customer(newId, name, phone, address, milkLitres, false, None, None, map[])];
      ok := true;
    }

    /** `handleDelete`; `confirmed` is the answer to the confirmation prompt. */
    method Delete(id: string, confirmed: bool)
      requires Valid()
      modifies this
      ensures Valid()
      ensures customers == if confirmed then RemoveId(old(customers), id) else old(customers)
      ensures transactions == old(transactions)
    {
      if !confirmed {
        return;
      }
      RemoveIdUnique(customers, id);
      customers := RemoveId(customers, id);
    }

    /** `handlePause` for the customer selected in the list, if any. */
    method Pause(selected: Option<string>, pauseStart: Option<CalendarDate>, pauseEnd: Option<CalendarDate>)
      returns (ok: bool)
      requires Valid()
      modifies this
      ensures Valid()
      ensures ok <==> pauseStart.Some? && pauseEnd.Some? && selected.Some? && selected.value != ""
      ensures customers == if ok then SetPause(old(customers), selected.value, true, pauseStart, pauseEnd)
                           else old(customers)
      ensures AllPauseConsistent(old(customers)) ==> AllPauseConsistent(customers)
      ensures transactions == old(transactions)
    {
      if pauseStart.None? || pauseEnd.None? || selected.None? || selected.value == "" {
        return false;
      }
      SetPauseKeepsRecords(customers, selected.value, true, pauseStart, pauseEnd);
      customers := SetPause(customers, selected.value, true, pauseStart, pauseEnd);
      ok := true;
    }

    /** `handleResume`. */
    method Resume(id: string)
      requires Valid()
      modifies this
      ensures Valid()
      ensures customers == SetPause(old(customers), id, false, None, None)
      ensures forall i :: 0 <= i < |customers| && customers[i].id == id ==> Unpaused(customers[i])
      ensures AllPauseConsistent(old(customers)) ==> AllPauseConsistent(customers)
      ensures transactions == old(transactions)
    {
      SetPauseKeepsRecords(customers, id, false, None, None);
      customers := SetPause(customers, id, false, None, None);
    }

    /** `handleAddProduct`; `today` is the current UTC day. */
    method AddProduct(selected: Option<string>, productType: string, quantity: Option<int>,
                      today: CalendarDate, settings: Option<SettingsDoc>) returns (ok: bool)
      modifies this
      ensures ok <==> productType != "" && quantity.Some? && selected.Some? && selected.value != ""
      ensures transactions == if ok
        then old(transactions) + [SaleRecord(selected.value, productType, quantity.value, settings, today)]
        else old(transactions)
      ensures customers == old(customers)
    {
      if productType == "" || quantity.None? || selected.None? || selected.value == "" {
        return false;
      }
      var rate := 0;
      if productType == "ExtraMilk" {
        rate := CurrentRate(RateList(settings, MilkRatesKey));
      }
      if productType == "Egg" {
        rate := CurrentRate(RateList(settings, EggRatesKey));
      }
      if productType == "Curd" {
        rate := CurrentRate(RateList(settings, CurdRatesKey));
      }
      if productType == "Chanakapodi" {
        rate := CurrentRate(RateList(settings, DungRatesKey));
      }
      transactions := transactions + [Transaction(selected.value, productType, quantity.value, rate, FormatIsoDate(today))];
      ok := true;
    }
  }
}
