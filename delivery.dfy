/**
 * The daily delivery log (`delivery.tsx`): the per-customer form map the
 * inputs fill in, and saving one delivery record per customer.
 */
module DeliveryLog {
  import opened Wrappers
  import opened Text
  import opened Calendar
  import opened Records
  import Billing

  /** `Number(values[field] || 0)`: a field never entered, or left empty, reads as 0. */
  function FormQuantity(values: map<string, string>, field: string): (q: Option<int>)
    ensures field !in values || values[field] == "" ==> q == Some(0)
    ensures field in values && values[field] != "" ==> q == ParseNumber(values[field])
  {
    if field in values && values[field] != "" then ParseNumber(values[field]) else Some(0)
  }

  /** `deliveryData[cust.id] || {}`. */
  function RowOf(data: map<string, map<string, string>>, custId: string): map<string, string>
  {
    if custId in data then data[custId] else map[]
  }

  /** The document `saveDelivery` writes for one customer. */
  function RecordFor(c: Customer, data: map<string, map<string, string>>, date: string): Delivery
  {
    var values := RowOf(data, c.id);
    Delivery(c.id, c.name, date,
             FormQuantity(values, "milk"), FormQuantity(values, "extraMilk"), FormQuantity(values, "egg"),
             FormQuantity(values, "curd"), FormQuantity(values, "chanakapodi"))
  }

  /** The documents `saveDelivery` writes, in customer-list order. */
  function RecordsFor(cs: seq<Customer>, data: map<string, map<string, string>>, date: string): (r: seq<Delivery>)
    ensures |r| == |cs|
  {
    if cs == [] then [] else RecordsFor(cs[..|cs| - 1], data, date) + [RecordFor(cs[|cs| - 1], data, date)]
  }

  /** One record per customer in list order, each carrying that customer's id and name and the selected date. */
  lemma {:induction false} RecordsForAt(cs: seq<Customer>, data: map<string, map<string, string>>, date: string, i: int)
    requires 0 <= i < |cs|
    ensures RecordsFor(cs, data, date)[i] == RecordFor(cs[i], data, date)
    ensures var r := RecordsFor(cs, data, date)[i];
            r.customerId == cs[i].id && r.customerName == cs[i].name && r.date == date
  {
    if i < |cs| - 1 {
      RecordsForAt(cs[..|cs| - 1], data, date, i);
    }
  }

  /** A customer whose row was never touched gets zero quantities, and so a zero bill line. */
  lemma UntouchedRowIsZero(c: Customer, data: map<string, map<string, string>>, date: string)
    requires c.id !in data
    ensures var r := RecordFor(c, data, date);
            r.milk == r.extraMilk == r.egg == r.curd == r.chanakapodi == Some(0) &&
            Billing.LineAmount(r) == 0
  {
  }

  /** The billing page picks up a saved record in exactly the month of the selected day. */
  lemma SavedRecordBilledInItsMonth(c: Customer, data: map<string, map<string, string>>,
                                    day: CalendarDate, month: int, year: int)
    ensures Billing.InBillingMonth(RecordFor(c, data, FormatIsoDate(day)), month, year)
            <==> day.month == month && day.year == year
  {
    ParseFormat(day);
  }

  /** The page's form state and the deliveries collection. */
  class DeliveryPage {
    var deliveryData: map<string, map<string, string>>
    var deliveries: seq<Delivery>

    constructor (deliveries0: seq<Delivery>)
      ensures deliveryData == map[] && deliveries == deliveries0
    {
      deliveryData := map[];
      deliveries := deliveries0;
    }

    /** `handleChange(custId, field, value)`. */
    method HandleChange(custId: string, field: string, value: string)
      modifies this
      ensures custId in deliveryData && field in deliveryData[custId]
      ensures deliveryData[custId][field] == value
      ensures forall f :: f != field && f in RowOf(old(deliveryData), custId) ==>
                f in deliveryData[custId] && deliveryData[custId][f] == RowOf(old(deliveryData), custId)[f]
      ensures deliveryData[custId].Keys == RowOf(old(deliveryData), custId).Keys + {field}
      ensures deliveryData.Keys == old(deliveryData).Keys + {custId}
      ensures forall k :: k in old(deliveryData) && k != custId ==> deliveryData[k] == old(deliveryData)[k]
      ensures deliveries == old(deliveries)
    {
      var prev := if custId in deliveryData then deliveryData[custId] else map[];
      deliveryData := deliveryData[custId := prev[field := value]];
    }

    /** `saveDelivery`: one `addDoc` per customer, in list order; the form is kept. */
    method SaveDelivery(customers: seq<Customer>, selectedDate: string)
      modifies this
      ensures deliveries == old(deliveries) + RecordsFor(customers, deliveryData, selectedDate)
      ensures deliveryData == old(deliveryData)
    {
      ghost var before := deliveries;
      for i := 0 to |customers|
        invariant deliveryData == old(deliveryData)
        invariant deliveries == before + RecordsFor(customers[..i], deliveryData, selectedDate)
      {
        var cust := customers[i];
        var values := if cust.id in deliveryData then deliveryData[cust.id] else map[];
        var record := Delivery(cust.id, cust.name, selectedDate,
          FormQuantity(values, "milk"), FormQuantity(values, "extraMilk"), FormQuantity(values, "egg"),
          FormQuantity(values, "curd"), FormQuantity(values, "chanakapodi"));
        assert customers[..i + 1][..i] == customers[..i];
        deliveries := deliveries + [record];
      }
      assert customers[..|customers|] == customers;
    }
  }

  /** A value typed into a row's input is what that customer's record stores for it. */
  lemma TypedValueSaved(data: map<string, map<string, string>>, c: Customer, field: string, value: string, date: string)
    requires value != ""
    ensures var data' := data[c.id := RowOf(data, c.id)[field := value]];
            var r := RecordFor(c, data', date);
            (field == "milk" ==> r.milk == ParseNumber(value)) &&
            (field == "extraMilk" ==> r.extraMilk == ParseNumber(value)) &&
            (field == "egg" ==> r.egg == ParseNumber(value)) &&
            (field == "curd" ==> r.curd == ParseNumber(value)) &&
            (field == "chanakapodi" ==> r.chanakapodi == ParseNumber(value))
  {
  }
}
