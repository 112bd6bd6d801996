/**
 * `checkProductsAndPrices` in server.js: one counting query asks how many
 * products match a claimed (id, price) pair, and the order proceeds only if
 * that count equals the number of distinct product keys.
 */
module Reconciliation {
  import opened Wrappers
  import opened WebErrors
  import opened Tables

  /**
   * `x.toFixed(2)` read back by MySQL as a decimal: the claimed price in
   * cents, rounded half away from zero.
   */
  function ToCents(x: real): int {
    if x < 0.0 then -((-x * 100.0 + 0.5).Floor) else (x * 100.0 + 0.5).Floor
  }

  /** A price with whole cents survives toFixed(2) unchanged. */
  lemma ToCentsExact(c: int)
    ensures ToCents(c as real / 100.0) == c
  {
    if c < 0 {
      assert -(c as real / 100.0) * 100.0 + 0.5 == (-c) as real + 0.5;
    } else {
      assert (c as real / 100.0) * 100.0 + 0.5 == c as real + 0.5;
    }
  }

  /** Product `id` exists and its stored price equals the claimed price. */
  predicate PriceMatches(products: map<string, Product>, id: string, claimed: real) {
    id in products && products[id].price == ToCents(claimed)
  }

  /** The product ids the counting query finds. */
  function Matching(products: map<string, Product>, prices: map<string, real>): (m: set<string>)
    ensures m <= prices.Keys
  {
    set id | id in prices && PriceMatches(products, id, prices[id])
  }

  /** The comparison `results[0].c === expectedCount`. */
  predicate Reconciled(products: map<string, Product>, prices: map<string, real>) {
    |Matching(products, prices)| == |prices|
  }

  /** Every claimed pair names an existing product at its current price. */
  predicate AllMatch(products: map<string, Product>, prices: map<string, real>) {
    forall id :: id in prices ==> PriceMatches(products, id, prices[id])
  }

  /**
   * The count comparison accepts exactly when every product exists and has
   * the claimed price; a missing product and a changed price are one case.
   */
  lemma ReconciledIffAllMatch(products: map<string, Product>, prices: map<string, real>)
    ensures Reconciled(products, prices) <==> AllMatch(products, prices)
  {
    var m := Matching(products, prices);
    if !AllMatch(products, prices) {
      var id :| id in prices && !PriceMatches(products, id, prices[id]);
      assert id in prices.Keys - m;
      assert prices.Keys == m + (prices.Keys - m);
      assert |prices.Keys| == |m| + |prices.Keys - m|;
    } else {
      assert m == prices.Keys;
    }
  }

  /** The outcome of the check: go on to store the order, or the error to send. */
  datatype Verdict = Proceed | Reject(error: WebAppError)

  /** The 400 sent when the count falls short. */
  function PricesChanged(): (e: WebAppError)
    ensures e.status == 400 && e.message == "sorry, prices have changed\n"
  {
    MakeError(400, "sorry, prices have changed")
  }

  /** The `for (const id in priceCheck) expectedCount++` loop: the number of distinct keys. */
  method CountKeys(prices: map<string, real>) returns (expectedCount: nat)
    ensures expectedCount == |prices|
  {
    expectedCount := 0;
    var pending := prices.Keys;
    while pending != {}
      invariant expectedCount + |pending| == |prices.Keys|
      decreases |pending|
    {
      var id :| id in pending;
      expectedCount := expectedCount + 1;
      pending := pending - {id};
    }
  }

  /**
   * `checkProductsAndPrices`: the key count against the counting query's
   * result; `queryError` is the error the query reports, if any.
   */
  method CheckProductsAndPrices(prices: map<string, real>, products: map<string, Product>,
                                queryError: Option<string>)
    returns (v: Verdict)
    ensures queryError.Some? ==> v == Reject(DatabaseError(queryError.value))
    ensures queryError.None? ==> (v == Proceed <==> AllMatch(products, prices))
    ensures queryError.None? && v != Proceed ==> v == Reject(PricesChanged())
  {
    var expectedCount := CountKeys(prices);
    if queryError.Some? {
      return Reject(DatabaseError(queryError.value));
    }
    var count := |Matching(products, prices)|;
    ReconciledIffAllMatch(products, prices);
    if count != expectedCount {
      v := Reject(PricesChanged());
    } else {
      v := Proceed;
    }
  }
}
