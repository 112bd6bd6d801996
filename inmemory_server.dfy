/**
 * server-inmemory.js: the same API as server.js over two in-memory tables,
 * an array of orders and an array whose named properties are the category
 * records. Orders are kept as
 * the JSON the client sent, stamped with date, dispatched and id.
 */
module InMemoryServer {
  import opened Wrappers
  import opened JsValue
  import opened WebErrors

  /** A category record: `category`, `products`, and whatever was added beside them. */
  type Record = map<string, Json>

  const NeedsBody: string := "POST needs a JSON object body with one or more products in it\n"

  /**
   * Express's reply when a handler throws: status 500 (the body of the
   * default error page is not modelled).
   */
  const Uncaught: Response<Json> := Response(500, None, Text("Internal Server Error"))

  // ---------------------------------------------------------------------------
  // addOrder, its dispatch timer, getOrder

  /**
   * `order.date = new Date(); order.dispatched = false; order.id = orderNo`.
   * On an array the three assignments create properties JSON does not show.
   */
  function Stamped(order: Json, now: string, id: nat): Json
    requires order.JObj? || order.JArr?
  {
    if order.JObj? then
      JObj(order.fields["date" := JStr(now)]["dispatched" := JBool(false)]["id" := JNum(id as real)])
    else order
  }

  /**
   * `addOrder` on the orders array: the new array and the response. A truthy
   * `order` that is a primitive makes the strict-mode assignment throw.
   */
  function PlacedOrder(orders: seq<Json>, body: Option<Json>, now: string): (seq<Json>, Response<Json>)
    requires body.Some? ==> body.value.JObj? || body.value.JArr?
  {
    if body.None? then (orders, Response(400, None, Text(NeedsBody)))
    else match Get(body.value, "order")
      case Value(order) =>
        if !Truthy(order) then (orders, Response(400, None, Text(NeedsBody)))
        else if !(order.JObj? || order.JArr?) then (orders, Uncaught)
        else
          var id := |orders|;
          var stored := Stamped(order, now, id);
          (orders + [stored],
           Response(201, Some("/api/orders/" + NatToString(id)), Data(JObj(map["order" := stored]))))
      case _ => (orders, Response(400, None, Text(NeedsBody)))
  }

  /** The timer's `order.dispatched = true` on the order at `orderNo`. */
  function Dispatched(orders: seq<Json>, orderNo: nat): seq<Json>
    requires orderNo < |orders|
  {
    if orders[orderNo].JObj? then
      orders[orderNo := JObj(orders[orderNo].fields["dispatched" := JBool(true)])]
    else orders
  }

  /**
   * `getOrder`: `id in orders` holds for a canonical index below the length
   * and for the array's own `length` property.
   */
  function OrderLookup(orders: seq<Json>, id: string): Response<Json> {
    if id == "length" then Response(200, None, Data(JObj(map["order" := JNum(|orders| as real)])))
    else match ParseIndex(id)
      case Some(n) =>
        if n < |orders| then Response(200, None, Data(JObj(map["order" := orders[n]])))
        else Response(404, None, Text("no such order: " + id + "\n"))
      case None => Response(404, None, Text("no such order: " + id + "\n"))
  }

  /**
   * No body, or a body with no truthy `order`: 400 and nothing stored; a
   * truthy primitive `order`: 500 and nothing stored.
   */
  lemma AddOrderRejects(orders: seq<Json>, body: Option<Json>, now: string)
    requires body.Some? ==> body.value.JObj? || body.value.JArr?
    ensures var (after, resp) := PlacedOrder(orders, body, now);
      && (body.None? || !Get(body.value, "order").Value? || !Truthy(Get(body.value, "order").v) ==>
            after == orders && resp == Response(400, None, Text(NeedsBody)))
      && (body.Some? && Get(body.value, "order").Value? && Truthy(Get(body.value, "order").v)
          && !(Get(body.value, "order").v.JObj? || Get(body.value, "order").v.JArr?) ==>
            after == orders && resp.status == 500)
  {
  }

  /** The stamp sets date, dispatched and id and keeps every other field. */
  lemma StampedObject(order: Json, now: string, id: nat)
    requires order.JObj?
    ensures var f := Stamped(order, now, id).fields;
      && Stamped(order, now, id).JObj?
      && f.Keys == order.fields.Keys + {"date", "dispatched", "id"}
      && f["date"] == JStr(now) && f["dispatched"] == JBool(false) && f["id"] == JNum(id as real)
      && forall k :: k in order.fields && k !in {"date", "dispatched", "id"} ==> f[k] == order.fields[k]
  {
  }

  /**
   * A JSON object or array `order` is appended as order number |orders|,
   * nothing before it changes, and the response is 201 with the new URL and
   * the stamped order (see `StampedObject`); an array is stored as sent.
   */
  lemma AddOrderAppends(orders: seq<Json>, body: Json, now: string)
    requires body.JObj? || body.JArr?
    requires Get(body, "order").Value?
    requires Get(body, "order").v.JObj? || Get(body, "order").v.JArr?
    ensures var (after, resp) := PlacedOrder(orders, Some(body), now);
      var order := Get(body, "order").v;
      && |after| == |orders| + 1
      && after[..|orders|] == orders
      && resp.status == 201
      && resp.location == Some("/api/orders/" + NatToString(|orders|))
      && resp.body == Data(JObj(map["order" := after[|orders|]]))
      && (order.JArr? ==> after[|orders|] == order)
      && after[|orders|] == Stamped(order, now, |orders|)
  {
    var (after, resp) := PlacedOrder(orders, Some(body), now);
    assert after == orders + [Stamped(Get(body, "order").v, now, |orders|)];
  }

  /** The URL an accepted order is given finds that order. */
  lemma PlacedOrderIsFound(orders: seq<Json>, body: Json, now: string)
    requires body.JObj? || body.JArr?
    requires Get(body, "order").Value?
    requires Get(body, "order").v.JObj? || Get(body, "order").v.JArr?
    ensures var (after, resp) := PlacedOrder(orders, Some(body), now);
      OrderLookup(after, NatToString(|orders|)) == Response(200, None, resp.body)
  {
    var n := |orders|;
    AddOrderAppends(orders, body, now);
    var (after, resp) := PlacedOrder(orders, Some(body), now);
    IndexRoundTrip(n);
    assert NatToString(n) != "length" by {
      DigitsOfNat(n);
    }
  }

  /** Dispatch sets only that order's flag; an array order shows no change. */
  lemma DispatchedSetsFlag(orders: seq<Json>, orderNo: nat)
    requires orderNo < |orders|
    ensures |Dispatched(orders, orderNo)| == |orders|
    ensures forall i :: 0 <= i < |orders| && i != orderNo ==> Dispatched(orders, orderNo)[i] == orders[i]
    ensures orders[orderNo].JObj? ==>
      var o := Dispatched(orders, orderNo)[orderNo];
      && o.JObj? && o.fields["dispatched"] == JBool(true)
      && forall k :: k in orders[orderNo].fields && k != "dispatched" ==> o.fields[k] == orders[orderNo].fields[k]
    ensures !orders[orderNo].JObj? ==> Dispatched(orders, orderNo) == orders
  {
  }

  /** Looking an order up: 404 exactly for ids that are neither `length` nor an index in range. */
  lemma OrderLookupFinds(orders: seq<Json>, id: string)
    ensures OrderLookup(orders, id).status == 404 <==>
      id != "length" && (ParseIndex(id).None? || ParseIndex(id).value >= |orders|)
    ensures OrderLookup(orders, id).status == 404 ==>
      OrderLookup(orders, id).body == Text("no such order: " + id + "\n")
    ensures ParseIndex(id).Some? && ParseIndex(id).value < |orders| ==>
      OrderLookup(orders, id).body == Data(JObj(map["order" := orders[ParseIndex(id).value]]))
  {
    if ParseIndex(id).Some? {
      assert id != "length" by {
        assert IsDigit(id[0]);
      }
    }
  }

  // ---------------------------------------------------------------------------
  // listProducts, addProductToCategory

  /** `listProducts`: the category record, or 404. */
  function ProductsListing(products: map<string, Record>, id: string): (r: Response<Json>)
    ensures r.status == 200 <==> id in products
    ensures id in products ==> r.body == Data(JObj(products[id]))
    ensures id !in products ==> r == Response(404, None, Text("no such category: " + id + "\n"))
  {
    if id in products then Response(200, None, Data(JObj(products[id])))
    else Response(404, None, Text("no such category: " + id + "\n"))
  }

  /**
   * `addProductToCategory` for the id `length`: the categories array's own
   * `length` passes `id in products`, and `products.length` is a number, so
   * the first `product in products.length` throws a TypeError; a body with no
   * keys runs neither loop.
   */
  function LengthCategoryAdd(body: Option<Json>): (r: Response<Json>)
    requires body.Some? ==> body.value.JObj? || body.value.JArr?
    ensures body.None? ==> r == Response(400, None, Text(NeedsBody))
    ensures body.Some? ==> (r.status == 200 <==> |BodyFields(body.value)| == 0)
    ensures body.Some? && |BodyFields(body.value)| > 0 ==> r == Uncaught
  {
    if body.None? then Response(400, None, Text(NeedsBody))
    else if |BodyFields(body.value)| == 0 then Response(200, None, Text("products added\n"))
    else Uncaught
  }

  /** `Object.keys(array)` with the value at each index. */
  function ArrayFields(items: seq<Json>): map<string, Json> {
    if |items| == 0 then map[]
    else ArrayFields(items[..|items| - 1])[NatToString(|items| - 1) := items[|items| - 1]]
  }

  /** The own enumerable properties of the request body. */
  function BodyFields(body: Json): map<string, Json>
    requires body.JObj? || body.JArr?
  {
    if body.JObj? then body.fields else ArrayFields(body.items)
  }

  /** An array body contributes exactly its index names. */
  lemma {:induction false} ArrayFieldsKeys(items: seq<Json>)
    ensures forall k :: k in ArrayFields(items) <==> ParseIndex(k).Some? && ParseIndex(k).value < |items|
  {
    if |items| > 0 {
      ArrayFieldsKeys(items[..|items| - 1]);
      var last := |items| - 1;
      IndexRoundTrip(last);
      forall k ensures k in ArrayFields(items) <==> ParseIndex(k).Some? && ParseIndex(k).value < |items| {
        if ParseIndex(k).Some? && ParseIndex(k).value == last {
          IndexTextCanonical(k);
        }
      }
    }
  }

  /** Each index name of an array body carries the item at that index. */
  lemma {:induction false} ArrayFieldsValues(items: seq<Json>)
    ensures forall i :: 0 <= i < |items| ==>
      NatToString(i) in ArrayFields(items) && ArrayFields(items)[NatToString(i)] == items[i]
  {
    if |items| > 0 {
      var front := items[..|items| - 1];
      ArrayFieldsValues(front);
      var last := |items| - 1;
      forall i | 0 <= i < |items|
        ensures NatToString(i) in ArrayFields(items) && ArrayFields(items)[NatToString(i)] == items[i]
      {
        if i < last {
          IndexRoundTrip(i);
          IndexRoundTrip(last);
          assert NatToString(i) != NatToString(last);
          assert front[i] == items[i];
        }
      }
    }
  }

  /** The body keys the check loop refuses: those `in` the record, own or inherited. */
  function Conflicts(target: Record, fields: map<string, Json>): (ks: set<string>)
    ensures ks <= fields.Keys
  {
    set k | k in fields && (k in target || k in InheritedNames)
  }

  /**
   * The two loops of `addProductToCategory` as written: refuse when some key
   * is already in the category record, else copy every key into the record.
   */
  function AsWrittenAdd(record: Record, fields: map<string, Json>): (r: Result<Record, set<string>>)
  {
    if Conflicts(record, fields) != {} then Failure(Conflicts(record, fields)) else Success(record + fields)
  }

  /**
   * The check refuses a body exactly when one of its keys is already in the
   * record; an accepted body's entries are all added and the record's
   * existing entries are kept.
   */
  lemma AsWrittenAddMerges(record: Record, fields: map<string, Json>)
    ensures AsWrittenAdd(record, fields).Failure? <==>
      exists k :: k in fields && (k in record || k in InheritedNames)
    ensures AsWrittenAdd(record, fields).Success? ==>
      var r := AsWrittenAdd(record, fields).value;
      && r.Keys == record.Keys + fields.Keys
      && (forall k :: k in fields ==> r[k] == fields[k])
      && (forall k :: k in record ==> r[k] == record[k])
  {
    if exists k :: k in fields && (k in record || k in InheritedNames) {
      var k :| k in fields && (k in record || k in InheritedNames);
      assert k in Conflicts(record, fields);
    }
  }

  /** Every category record has its `products` object. */
  ghost predicate WellShaped(products: map<string, Record>) {
    forall id :: id in products ==> "products" in products[id] && products[id]["products"].JObj?
  }

  /** The as-written add never replaces `products`: that key is always refused. */
  lemma AsWrittenAddKeepsShape(products: map<string, Record>, id: string, fields: map<string, Json>)
    requires WellShaped(products) && id in products
    requires AsWrittenAdd(products[id], fields).Success?
    ensures WellShaped(products[id := AsWrittenAdd(products[id], fields).value])
    ensures AsWrittenAdd(products[id], fields).value["products"] == products[id]["products"]
  {
    assert "products" !in Conflicts(products[id], fields);
  }

  /**
   * The check and the copy act on the category record, not on its
   * `products` object: a product id the category already lists passes the
   * check, and the category's product list stays as it was.
   */
  lemma KnownProductAccepted()
    ensures var record := map["category" := JStr("Cameras"),
                              "products" := JObj(map["nixon123x" := JStr("old")])];
      var r := AsWrittenAdd(record, map["nixon123x" := JStr("new")]);
      && r.Success?
      && r.value["products"] == JObj(map["nixon123x" := JStr("old")])
      && r.value["nixon123x"] == JStr("new")
  {
    var record := map["category" := JStr("Cameras"),
                      "products" := JObj(map["nixon123x" := JStr("old")])];
    var fields := map["nixon123x" := JStr("new")];
    assert "nixon123x" !in InheritedNames;
  }

  /**
   * What the handler is evidently meant to do: refuse a product already in
   * the category's `products` object and add the new ones there.
   */
  function IntendedAdd(record: Record, fields: map<string, Json>): (r: Result<Record, set<string>>)
    requires "products" in record && record["products"].JObj?
  {
    var known := record["products"].fields;
    if Conflicts(known, fields) != {} then Failure(Conflicts(known, fields))
    else Success(record["products" := JObj(known + fields)])
  }

  /**
   * The intended add refuses exactly the bodies naming a known product, and
   * otherwise lists every new product beside the old ones, leaving the rest
   * of the record and the record's shape as they were.
   */
  lemma IntendedAddListsProducts(products: map<string, Record>, id: string, fields: map<string, Json>)
    requires WellShaped(products) && id in products
    ensures var known := products[id]["products"].fields;
      IntendedAdd(products[id], fields).Failure? <==>
        exists k :: k in fields && (k in known || k in InheritedNames)
    ensures IntendedAdd(products[id], fields).Success? ==>
      var r := IntendedAdd(products[id], fields).value;
      var known := products[id]["products"].fields;
      && WellShaped(products[id := r])
      && r.Keys == products[id].Keys
      && (forall k :: k in r && k != "products" ==> r[k] == products[id][k])
      && r["products"].fields.Keys == known.Keys + fields.Keys
      && (forall k :: k in fields ==> r["products"].fields[k] == fields[k])
      && (forall k :: k in known ==> r["products"].fields[k] == known[k])
  {
    var known := products[id]["products"].fields;
    if exists k :: k in fields && (k in known || k in InheritedNames) {
      var k :| k in fields && (k in known || k in InheritedNames);
      assert k in Conflicts(known, fields);
    }
  }

  /** The intended add rejects the request the as-written one accepts. */
  lemma IntendedAddRejectsKnownProduct()
    ensures var record := map["category" := JStr("Cameras"),
                              "products" := JObj(map["nixon123x" := JStr("old")])];
      IntendedAdd(record, map["nixon123x" := JStr("new")]) == Failure({"nixon123x"})
  {
    var record := map["category" := JStr("Cameras"),
                      "products" := JObj(map["nixon123x" := JStr("old")])];
    var fields := map["nixon123x" := JStr("new")];
    assert "nixon123x" in Conflicts(record["products"].fields, fields);
    assert Conflicts(record["products"].fields, fields) == {"nixon123x"};
  }

  /**
   * What the next `GET` of the category returns after an accepted add: as
   * written, the record with the new entries beside its unchanged `products`
   * object; with the intended add, a `products` object listing the new
   * products beside the old ones.
   */
  lemma AddedProductsListed(products: map<string, Record>, id: string, fields: map<string, Json>)
    requires WellShaped(products) && id in products
    ensures AsWrittenAdd(products[id], fields).Success? ==>
      var listing := ProductsListing(products[id := AsWrittenAdd(products[id], fields).value], id);
      && listing.status == 200
      && listing.body == Data(JObj(products[id] + fields))
      && listing.body.data.fields["products"] == products[id]["products"]
    ensures IntendedAdd(products[id], fields).Success? ==>
      var listing := ProductsListing(products[id := IntendedAdd(products[id], fields).value], id);
      && listing.status == 200 && listing.body.Data? && listing.body.data.JObj?
      && "products" in listing.body.data.fields && listing.body.data.fields["products"].JObj?
      && listing.body.data.fields["products"].fields == products[id]["products"].fields + fields
  {
    if AsWrittenAdd(products[id], fields).Success? {
      AsWrittenAddKeepsShape(products, id, fields);
    }
  }

  lemma MergeStep(base: Record, written: map<string, Json>, k: string, v: Json)
    ensures (base + written)[k := v] == base + written[k := v]
  {
  }

  lemma MergeComplete(written: map<string, Json>, fields: map<string, Json>)
    requires written.Keys == fields.Keys
    requires forall k :: k in written ==> written[k] == fields[k]
    ensures written == fields
  {
  }

  /** Part way through the copy: `written` is what has been copied, `unwritten` what is left. */
  ghost predicate CopyProgress(base: Record, fields: map<string, Json>, record: Record,
                               written: map<string, Json>, unwritten: set<string>) {
    && unwritten <= fields.Keys
    && written.Keys == fields.Keys - unwritten
    && (forall k :: k in written ==> written[k] == fields[k])
    && record == base + written
  }

  /** Copying one more key keeps `CopyProgress`. */
  lemma CopyStep(base: Record, fields: map<string, Json>, record: Record,
                 written: map<string, Json>, unwritten: set<string>, k: string)
    requires CopyProgress(base, fields, record, written, unwritten) && k in unwritten
    ensures CopyProgress(base, fields, record[k := fields[k]], written[k := fields[k]], unwritten - {k})
    ensures |unwritten - {k}| < |unwritten|
  {
    MergeStep(base, written, k, fields[k]);
  }

  /** One assignment `record[k] = fields[k]` per key of `fields`, in any order. */
  method WriteFields(base: Record, fields: map<string, Json>) returns (record: Record)
    ensures record == base + fields
  {
    record := base;
    var unwritten := fields.Keys;
    ghost var written: map<string, Json> := map[];
    assert base + written == base;
    while unwritten != {}
      invariant CopyProgress(base, fields, record, written, unwritten)
      decreases |unwritten|
    {
      var k :| k in unwritten;
      CopyStep(base, fields, record, written, unwritten, k);
      record := record[k := fields[k]];
      written := written[k := fields[k]];
      unwritten := unwritten - {k};
    }
    MergeComplete(written, fields);
  }

  /** The first loop of `addProductToCategory`: a body key already `in` the target, if any. */
  method FindKnownKey(target: Record, fields: map<string, Json>) returns (known: Option<string>)
    ensures known.None? <==> Conflicts(target, fields) == {}
    ensures known.Some? ==> known.value in Conflicts(target, fields)
  {
    var unchecked := fields.Keys;
    while unchecked != {}
      invariant unchecked <= fields.Keys
      invariant forall k :: k in fields.Keys - unchecked ==> k !in target && k !in InheritedNames
      decreases |unchecked|
    {
      var k :| k in unchecked;
      if k in target || k in InheritedNames {
        return Some(k);
      }
      unchecked := unchecked - {k};
    }
    assert forall k :: k in fields.Keys ==> k !in target && k !in InheritedNames;
    return None;
  }

  // ---------------------------------------------------------------------------
  // The server's state

  class Server {
    var orders: seq<Json>
    var products: map<string, Record>

    constructor (seedOrders: seq<Json>, seedProducts: map<string, Record>)
      ensures orders == seedOrders && products == seedProducts
    {
      orders, products := seedOrders, seedProducts;
    }

    /** `addOrder`; the dispatch timer it starts is `DispatchOrder`. */
    method AddOrder(body: Option<Json>, now: string) returns (resp: Response<Json>)
      requires body.Some? ==> body.value.JObj? || body.value.JArr?
      modifies this
      ensures (orders, resp) == PlacedOrder(old(orders), body, now)
      ensures products == old(products)
    {
      if body.None? {
        return Response(400, None, Text(NeedsBody));
      }
      var read := Get(body.value, "order");
      if !read.Value? || !Truthy(read.v) {
        return Response(400, None, Text(NeedsBody));
      }
      var order := read.v;
      if !(order.JObj? || order.JArr?) {
        return Uncaught;
      }
      var orderNo := |orders|;
      var stored := Stamped(order, now, orderNo);
      orders := orders + [stored];
      resp := Response(201, Some("/api/orders/" + NatToString(orderNo)), Data(JObj(map["order" := stored])));
    }

    /** The `dispatch` closure `addOrder` schedules for order `orderNo`. */
    method DispatchOrder(orderNo: nat)
      requires orderNo < |orders|
      modifies this
      ensures orders == Dispatched(old(orders), orderNo)
      ensures products == old(products)
    {
      if orders[orderNo].JObj? {
        orders := orders[orderNo := JObj(orders[orderNo].fields["dispatched" := JBool(true)])];
      }
    }

    function GetOrder(id: string): Response<Json>
      reads this
    {
      OrderLookup(orders, id)
    }

    function ListProducts(id: string): Response<Json>
      reads this
    {
      ProductsListing(products, id)
    }

    /**
     * The second loop of `addProductToCategory`, `products[id][product] =
     * req.body[product]`, on the category record it then stores back.
     */
    method CopyFields(id: string, fields: map<string, Json>)
      requires id in products
      modifies this
      ensures products == old(products)[id := old(products)[id] + fields]
      ensures orders == old(orders)
    {
      var record := WriteFields(products[id], fields);
      products := products[id := record];
    }

    /** `addProductToCategory`. */
    method AddProductToCategory(id: string, body: Option<Json>) returns (resp: Response<Json>)
      requires body.Some? ==> body.value.JObj? || body.value.JArr?
      modifies this
      ensures orders == old(orders)
      ensures id == "length" ==> products == old(products) && resp == LengthCategoryAdd(body)
      ensures id != "length" && id !in old(products) ==>
        products == old(products) && resp == Response(404, None, Text("no such category: " + id + "\n"))
      ensures id != "length" && id in old(products) && body.None? ==>
        products == old(products) && resp == Response(400, None, Text(NeedsBody))
      ensures id != "length" && id in old(products) && body.Some? ==>
        var r := AsWrittenAdd(old(products)[id], BodyFields(body.value));
        && (r.Failure? ==>
              && products == old(products)
              && (exists k :: k in r.error &&
                    resp == Response(400, None, Text("cannot add a product that's already known: " + k + "\n"))))
        && (r.Success? ==>
              && products == old(products)[id := r.value]
              && resp == Response(200, None, Text("products added\n")))
    {
      if id == "length" {
        if body.None? {
          return Response(400, None, Text(NeedsBody));
        }
        if |BodyFields(body.value)| == 0 {
          return Response(200, None, Text("products added\n"));
        }
        return Uncaught;
      }
      if id !in products {
        return Response(404, None, Text("no such category: " + id + "\n"));
      }
      if body.None? {
        return Response(400, None, Text(NeedsBody));
      }
      var fields := BodyFields(body.value);
      var known := FindKnownKey(products[id], fields);
      if known.Some? {
        return Response(400, None, Text("cannot add a product that's already known: " + known.value + "\n"));
      }
      CopyFields(id, fields);
      resp := Response(200, None, Text("products added\n"));
    }

    /**
     * `addProductToCategory` as it is evidently meant to work: the check and
     * the copy use the category's `products` object.
     */
    method AddListedProducts(id: string, body: Option<Json>) returns (resp: Response<Json>)
      requires body.Some? ==> body.value.JObj? || body.value.JArr?
      requires WellShaped(products)
      modifies this
      ensures orders == old(orders) && WellShaped(products)
      ensures id == "length" ==> products == old(products) && resp == LengthCategoryAdd(body)
      ensures id != "length" && id !in old(products) ==>
        products == old(products) && resp == Response(404, None, Text("no such category: " + id + "\n"))
      ensures id != "length" && id in old(products) && body.None? ==>
        products == old(products) && resp == Response(400, None, Text(NeedsBody))
      ensures id != "length" && id in old(products) && body.Some? ==>
        var r := IntendedAdd(old(products)[id], BodyFields(body.value));
        && (r.Failure? ==>
              && products == old(products)
              && (exists k :: k in r.error &&
                    resp == Response(400, None, Text("cannot add a product that's already known: " + k + "\n"))))
        && (r.Success? ==>
              && products == old(products)[id := r.value]
              && resp == Response(200, None, Text("products added\n")))
    {
      if id == "length" {
        if body.None? {
          return Response(400, None, Text(NeedsBody));
        }
        if |BodyFields(body.value)| == 0 {
          return Response(200, None, Text("products added\n"));
        }
        return Uncaught;
      }
      if id !in products {
        return Response(404, None, Text("no such category: " + id + "\n"));
      }
      if body.None? {
        return Response(400, None, Text(NeedsBody));
      }
      var fields := BodyFields(body.value);
      var listed := products[id]["products"].fields;
      var known := FindKnownKey(listed, fields);
      if known.Some? {
        return Response(400, None, Text("cannot add a product that's already known: " + known.value + "\n"));
      }
      var merged := WriteFields(listed, fields);
      IntendedAddListsProducts(products, id, fields);
      products := products[id := products[id]["products" := JObj(merged)]];
      resp := Response(200, None, Text("products added\n"));
    }
  }
}
