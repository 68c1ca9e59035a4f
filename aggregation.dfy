/**
 * What the dashboard and the reports page share when they total a month:
 * the five revenue buckets, and the sum of `quantity * rate` over the
 * transactions of one product.
 */
module Aggregation {
  import opened Records

  /** The four product names that the customers page writes into transactions. */
  const ExtraMilk := "ExtraMilk"
  const Egg := "Egg"
  const Curd := "Curd"
  const Chanakapodi := "Chanakapodi"

  /** `t.quantity * t.rate`: the rate stored at sale time, not re-resolved. */
  function Amount(t: Transaction): int
  {
    t.quantity * t.rate
  }

  /** Sum of `quantity * rate` over the transactions whose product is exactly `product`. */
  function ProductSum(ts: seq<Transaction>, product: string): int
  {
    if ts == [] then 0
    else ProductSum(ts[..|ts| - 1], product)
         + (if ts[|ts| - 1].product == product then Amount(ts[|ts| - 1]) else 0)
  }

  lemma ProductSumStep(ts: seq<Transaction>, t: Transaction, product: string)
    ensures ProductSum(ts + [t], product) == ProductSum(ts, product) + (if t.product == product then Amount(t) else 0)
  {
    assert (ts + [t])[..|ts|] == ts;
  }

  /** The sum decomposes over any split of the list. */
  lemma {:induction false} ProductSumAppend(a: seq<Transaction>, b: seq<Transaction>, product: string)
    ensures ProductSum(a + b, product) == ProductSum(a, product) + ProductSum(b, product)
  {
    if b == [] {
      assert a + b == a;
    } else {
      var b' := b[..|b| - 1];
      assert (a + b)[..|a + b| - 1] == a + b';
      ProductSumAppend(a, b', product);
    }
  }

  /** Transactions of other products add nothing. */
  lemma {:induction false} ProductSumOthers(ts: seq<Transaction>, product: string)
    requires forall t :: t in ts ==> t.product != product
    ensures ProductSum(ts, product) == 0
  {
    if ts != [] {
      ProductSumOthers(ts[..|ts| - 1], product);
    }
  }

  /** The five buckets of a month. */
  datatype Revenue = Revenue(milk: int, extraMilk: int, egg: int, curd: int, dung: int)
  {
    /** `totalRevenue`. */
    function Total(): int
    {
      milk + extraMilk + egg + curd + dung
    }
  }
}
