/**
 * The client's shopping cart (static/js/cart.js): a map from product id to
 * order line, the running item count and the running price, and the loop of
 * `submitOrder` that turns the map into the order's lines. Prices are whole
 * cents.
 */
module ShoppingCart {
  import opened JsValue
  import Validation

  /** A product as the listing gives it to `addProductToCart`. */
  datatype Product = Product(id: string, price: int)

  /** A cart entry `{ product, qty, price }`: also the order line submitted. */
  datatype CartLine = CartLine(product: string, qty: nat, price: int)

  /** One `addProductToCart` on the map alone. */
  function AddTo(cart: map<string, CartLine>, p: Product): map<string, CartLine> {
    if p.id in cart then cart[p.id := cart[p.id].(qty := cart[p.id].qty + 1)]
    else cart[p.id := CartLine(p.id, 1, p.price)]
  }

  /** The map after adding `ps` in turn to an empty cart. */
  function Build(ps: seq<Product>): map<string, CartLine> {
    if |ps| == 0 then map[] else AddTo(Build(ps[..|ps| - 1]), ps[|ps| - 1])
  }

  function PriceSum(ps: seq<Product>): int {
    if |ps| == 0 then 0 else PriceSum(ps[..|ps| - 1]) + ps[|ps| - 1].price
  }

  /** How many of `ps` have id `k`. */
  function Count(ps: seq<Product>, k: string): nat {
    if |ps| == 0 then 0 else Count(ps[..|ps| - 1], k) + (if ps[|ps| - 1].id == k then 1 else 0)
  }

  /** `ps[i]` is the first product with id `k`. */
  predicate FirstWith(ps: seq<Product>, k: string, i: int) {
    0 <= i < |ps| && ps[i].id == k && forall j :: 0 <= j < i ==> ps[j].id != k
  }

  ghost function Pick(m: map<string, CartLine>): string
    requires m.Keys != {}
  {
    var k :| k in m.Keys; k
  }

  /** The sum of `qty` over the cart's entries. */
  ghost function SumQty(m: map<string, CartLine>): int
    decreases m.Keys
  {
    if m.Keys == {} then 0 else m[Pick(m)].qty + SumQty(m - {Pick(m)})
  }

  // ---------------------------------------------------------------------------
  // Lemmas

  /**
   * An unseen id gets the entry `{product: id, qty: 1, price}`; a known id
   * has its qty raised by one and keeps its first price; no other entry
   * changes.
   */
  lemma AddToEntries(cart: map<string, CartLine>, p: Product)
    ensures AddTo(cart, p).Keys == cart.Keys + {p.id}
    ensures p.id !in cart ==> AddTo(cart, p)[p.id] == CartLine(p.id, 1, p.price)
    ensures p.id in cart ==> AddTo(cart, p)[p.id] == cart[p.id].(qty := cart[p.id].qty + 1)
    ensures forall k :: k in cart && k != p.id ==> AddTo(cart, p)[k] == cart[k]
  {
  }

  /** The sum may take any entry first. */
  lemma {:induction false} SumQtyAny(m: map<string, CartLine>, k: string)
    requires k in m
    ensures SumQty(m) == m[k].qty + SumQty(m - {k})
    decreases m.Keys
  {
    var j := Pick(m);
    if j != k {
      SumQtyAny(m - {j}, k);
      SumQtyAny(m - {k}, j);
      assert m - {j} - {k} == m - {k} - {j};
    }
  }

  lemma SumQtyAddTo(m: map<string, CartLine>, p: Product)
    ensures SumQty(AddTo(m, p)) == SumQty(m) + 1
  {
    var m' := AddTo(m, p);
    SumQtyAny(m', p.id);
    if p.id in m {
      SumQtyAny(m, p.id);
      assert m' - {p.id} == m - {p.id};
    } else {
      assert m' - {p.id} == m;
    }
  }

  /** The item count equals the sum of the entries' quantities. */
  lemma {:induction false} CountIsSumOfQty(ps: seq<Product>)
    ensures SumQty(Build(ps)) == |ps|
  {
    if |ps| > 0 {
      CountIsSumOfQty(ps[..|ps| - 1]);
      SumQtyAddTo(Build(ps[..|ps| - 1]), ps[|ps| - 1]);
    }
  }

  /**
   * One entry per distinct id added; each entry names its own id, counts
   * the adds of that id and keeps the price the id had when first added.
   */
  lemma {:induction false} BuildEntries(ps: seq<Product>)
    ensures forall k :: k in Build(ps) <==> Count(ps, k) > 0
    ensures forall k :: k in Build(ps) ==>
      && Build(ps)[k].product == k && Build(ps)[k].qty == Count(ps, k)
      && exists i :: FirstWith(ps, k, i) && Build(ps)[k].price == ps[i].price
  {
    if |ps| > 0 {
      var front := ps[..|ps| - 1];
      var p := ps[|ps| - 1];
      BuildEntries(front);
      forall k | k in Build(ps)
        ensures exists i :: FirstWith(ps, k, i) && Build(ps)[k].price == ps[i].price
      {
        if k in Build(front) {
          var i :| FirstWith(front, k, i) && Build(front)[k].price == front[i].price;
          assert ps[i] == front[i];
          assert forall j :: 0 <= j < i ==> ps[j] == front[j];
          assert FirstWith(ps, k, i);
        } else {
          assert k == p.id;
          CountZero(front, k);
          assert FirstWith(ps, k, |ps| - 1);
        }
      }
    }
  }

  lemma {:induction false} CountZero(ps: seq<Product>, k: string)
    requires Count(ps, k) == 0
    ensures forall j :: 0 <= j < |ps| ==> ps[j].id != k
  {
    if |ps| > 0 {
      CountZero(ps[..|ps| - 1], k);
      assert forall j :: 0 <= j < |ps| - 1 ==> ps[j] == ps[..|ps| - 1][j];
    }
  }

  // ---------------------------------------------------------------------------
  // The order the client submits

  /** The lines of a submittable order: distinct products, each at least once, none `__proto__`. */
  predicate Submittable(lines: seq<CartLine>) {
    && (forall i :: 0 <= i < |lines| ==> lines[i].qty >= 1 && lines[i].product != "__proto__")
    && (forall i, j :: 0 <= i < j < |lines| ==> lines[i].product != lines[j].product)
  }

  /** A line as `JSON.stringify` sends it and the server parses it back. */
  function LineJson(l: CartLine): Json {
    JObj(map["product" := JStr(l.product), "qty" := JNum(l.qty as real), "price" := JNum(l.price as real / 100.0)])
  }

  /** `{ order: { lines, address, buyer } }`. */
  function Payload(buyer: string, address: string, lines: seq<CartLine>): Json {
    JObj(map["order" := JObj(map[
      "lines" := JArr(seq(|lines|, i requires 0 <= i < |lines| => LineJson(lines[i]))),
      "address" := JStr(address),
      "buyer" := JStr(buyer)])])
  }

  /**
   * A non-empty submittable cart always passes the server's validation: the
   * quantity check and the duplicate check cannot fail on it.
   */
  lemma SubmittedOrderValidates(buyer: string, address: string, lines: seq<CartLine>)
    requires Submittable(lines) && |lines| > 0
    ensures Validation.Validate(Payload(buyer, address, lines)).Success?
  {
    var data := Payload(buyer, address, lines);
    var items := Validation.LinesOf(data);
    assert |items| == |lines|;
    forall i | 0 <= i < |items|
      ensures Validation.LineWellFormed(items[i]) && Validation.LineKey(items[i]) == lines[i].product
    {
      assert items[i] == LineJson(lines[i]);
      assert (lines[i].qty as real).Floor == lines[i].qty;
    }
    assert Validation.WellFormed(data);
    Validation.ValidateAcceptsExactly(data);
  }

  /** The products the lines name. */
  function ProductsOf(lines: seq<CartLine>): set<string> {
    if |lines| == 0 then {} else ProductsOf(lines[..|lines| - 1]) + {lines[|lines| - 1].product}
  }

  lemma {:induction false} ProductsOfMembers(lines: seq<CartLine>)
    ensures forall k :: k in ProductsOf(lines) <==> exists i :: 0 <= i < |lines| && lines[i].product == k
  {
    if |lines| > 0 {
      var front := lines[..|lines| - 1];
      ProductsOfMembers(front);
      forall k | k in ProductsOf(lines) ensures exists i :: 0 <= i < |lines| && lines[i].product == k {
        if k in ProductsOf(front) {
          var i :| 0 <= i < |front| && front[i].product == k;
          assert lines[i] == front[i];
        } else {
          assert lines[|lines| - 1].product == k;
        }
      }
      forall k, i | 0 <= i < |lines| && lines[i].product == k ensures k in ProductsOf(lines) {
        if i < |front| { assert front[i] == lines[i]; }
      }
    }
  }

  /** What `EntryLines` keeps: `lines` lists the cart entries not in `remaining`, once each. */
  ghost predicate EntriesSoFar(cart: map<string, CartLine>, lines: seq<CartLine>, remaining: set<string>) {
    && remaining <= cart.Keys
    && |lines| + |remaining| == |cart.Keys|
    && ProductsOf(lines) == cart.Keys - remaining
    && (forall i :: 0 <= i < |lines| ==> lines[i].product in cart && lines[i] == cart[lines[i].product])
    && (forall i :: 0 <= i < |lines| ==> lines[i].product !in remaining)
    && (forall i, j :: 0 <= i < j < |lines| ==> lines[i].product != lines[j].product)
  }

  /** Moving one remaining key's entry onto the end of the lines keeps `EntriesSoFar`. */
  lemma EntriesStep(cart: map<string, CartLine>, lines: seq<CartLine>, remaining: set<string>, k: string)
    requires forall k :: k in cart ==> cart[k].product == k
    requires EntriesSoFar(cart, lines, remaining) && k in remaining
    ensures EntriesSoFar(cart, lines + [cart[k]], remaining - {k})
  {
    var next := lines + [cart[k]];
    assert next[..|lines|] == lines;
    assert |remaining - {k}| == |remaining| - 1;
  }

  /** The entries of `cart` in some order, each exactly once. */
  method EntryLines(cart: map<string, CartLine>) returns (lines: seq<CartLine>)
    requires forall k :: k in cart ==> cart[k].product == k && cart[k].qty >= 1
    requires "__proto__" !in cart
    ensures |lines| == |cart|
    ensures forall i :: 0 <= i < |lines| ==> lines[i].product in cart && lines[i] == cart[lines[i].product]
    ensures ProductsOf(lines) == cart.Keys
    ensures Submittable(lines)
  {
    lines := [];
    var remaining := cart.Keys;
    while remaining != {}
      invariant EntriesSoFar(cart, lines, remaining)
      decreases |remaining|
    {
      var k :| k in remaining;
      EntriesStep(cart, lines, remaining, k);
      lines := lines + [cart[k]];
      remaining := remaining - {k};
    }
  }

  // ---------------------------------------------------------------------------
  // The cart's module state

  class Cart {
    var cart: map<string, CartLine>
    var cartPrice: int
    var cartCount: int
    /** The products added since the cart was last cleared. */
    ghost var added: seq<Product>

    ghost predicate Valid()
      reads this
    {
      && cart == Build(added)
      && cartCount == |added|
      && cartPrice == PriceSum(added)
      && forall i :: 0 <= i < |added| ==> added[i].id !in InheritedNames
    }

    constructor ()
      ensures Valid() && added == []
      ensures cart == map[] && cartPrice == 0 && cartCount == 0
    {
      cart, cartPrice, cartCount := map[], 0, 0;
      added := [];
    }

    /** `addProductToCart`, without its DOM updates. */
    method AddProductToCart(p: Product)
      requires Valid() && p.id !in InheritedNames
      modifies this
      ensures Valid() && added == old(added) + [p]
      ensures cart == AddTo(old(cart), p)
      ensures cartPrice == old(cartPrice) + p.price
      ensures cartCount == old(cartCount) + 1
      ensures cartCount == SumQty(cart)
    {
      if p.id in cart {
        cart := cart[p.id := cart[p.id].(qty := cart[p.id].qty + 1)];
      } else {
        cart := cart[p.id := CartLine(p.id, 1, p.price)];
      }
      cartPrice := cartPrice + p.price;
      cartCount := cartCount + 1;
      added := added + [p];
      assert added[..|added| - 1] == old(added);
      CountIsSumOfQty(added);
    }

    /** `clearCart`, without its DOM updates. */
    method ClearCart()
      modifies this
      ensures Valid() && added == []
      ensures cart == map[] && cartPrice == 0 && cartCount == 0
    {
      cart, cartPrice, cartCount := map[], 0, 0;
      added := [];
    }

    /**
     * The loop of `submitOrder`: one line per cart entry, each entry exactly
     * once, so the lines are submittable.
     */
    method SubmitLines() returns (lines: seq<CartLine>)
      requires Valid()
      ensures |lines| == |cart|
      ensures forall i :: 0 <= i < |lines| ==> lines[i].product in cart && lines[i] == cart[lines[i].product]
      ensures ProductsOf(lines) == cart.Keys
      ensures Submittable(lines)
    {
      BuildEntries(added);
      lines := EntryLines(cart);
    }
  }
}
