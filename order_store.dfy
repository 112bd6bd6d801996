/**
 * `storeValidOrder`, `rollback`, `dispatchOrder` and the `addOrder` pipeline
 * of server.js. The four statements of the transaction are linked by
 * MySQL's `last_insert_id()`; a rollback restores the tables but, as in
 * MySQL, neither the auto-increment counters nor `last_insert_id()`.
 */
module OrderStore {
  import opened Wrappers
  import opened JsValue
  import opened WebErrors
  import opened Tables
  import opened Validation
  import opened Reconciliation
  import opened Normalisation

  /** The error, if any, each step of the transaction reports. */
  datatype Faults = Faults(
    begin: Option<string>,
    insertCustomer: Option<string>,
    insertOrder: Option<string>,
    insertLines: Option<string>,
    commit: Option<string>)

  predicate NoFault(f: Faults) {
    f.begin.None? && f.insertCustomer.None? && f.insertOrder.None? && f.insertLines.None? && f.commit.None?
  }

  /** The order the client gets back: the stored order plus date, dispatched and id. */
  datatype Created = Created(order: ValidOrder, date: Timestamp, dispatched: bool, id: nat)

  /** Every line's product is a number or a string, so it has a key. */
  predicate ProductsHaveKeys(o: ValidOrder) {
    forall i :: 0 <= i < |o.lines| ==> o.lines[i].product.JNum? || o.lines[i].product.JStr?
  }

  /** The OrderLine rows `( last_insert_id(), product, qty, price )` for the lines. */
  function LineRows(order: nat, lines: seq<Line>): (rows: seq<LineRow>)
    requires forall i :: 0 <= i < |lines| ==> lines[i].product.JNum? || lines[i].product.JStr?
  {
    seq(|lines|, i requires 0 <= i < |lines| =>
      LineRow(order, KeyOf(lines[i].product), lines[i].qty, ToCents(lines[i].price)))
  }

  /**
   * `INSERT INTO Customer SET ? ON DUPLICATE KEY UPDATE id=last_insert_id(id)`:
   * a new (name, address) gets the next id; a known one keeps its id; either
   * way `last_insert_id()` becomes that id.
   */
  function AfterUpsert(s: DbState, c: Customer): DbState {
    if c in s.customers then s.(lastInsertId := s.customers[c])
    else s.(customers := s.customers[c := s.customerAutoInc],
            customerAutoInc := s.customerAutoInc + 1,
            lastInsertId := s.customerAutoInc)
  }

  /**
   * ``INSERT INTO `Order` SET customer = last_insert_id(), date, dispatched = 'n'``;
   * the date column keeps whole seconds.
   */
  function AfterOrderInsert(s: DbState, date: Timestamp): DbState {
    s.(orders := s.orders[s.orderAutoInc := OrderRow(s.lastInsertId, StoredDate(date), 'n')],
       orderAutoInc := s.orderAutoInc + 1,
       lastInsertId := s.orderAutoInc)
  }

  /** The multi-row OrderLine insert; OrderLine has no auto-increment column. */
  function AfterLinesInsert(s: DbState, lines: seq<Line>): DbState
    requires forall i :: 0 <= i < |lines| ==> lines[i].product.JNum? || lines[i].product.JStr?
  {
    s.(lines := s.lines + LineRows(s.lastInsertId, lines))
  }

  /** `sql.rollback()`: the tables as they were when the transaction began. */
  function AfterRollback(saved: DbState, s: DbState): DbState {
    s.(customers := saved.customers, orders := saved.orders, lines := saved.lines)
  }

  /** The transaction of `storeValidOrder`: new state and the new order's id or the error. */
  function Store(s: DbState, o: ValidOrder, date: Timestamp, f: Faults): (DbState, Result<nat, WebAppError>)
    requires ProductsHaveKeys(o)
  {
    if f.begin.Some? then (s, Failure(DatabaseError(f.begin.value)))
    else if f.insertCustomer.Some? then (AfterRollback(s, s), Failure(DatabaseError(f.insertCustomer.value)))
    else
      var s1 := AfterUpsert(s, Customer(o.buyer, o.address));
      if f.insertOrder.Some? then (AfterRollback(s, s1), Failure(DatabaseError(f.insertOrder.value)))
      else
        var s2 := AfterOrderInsert(s1, date);
        if f.insertLines.Some? then (AfterRollback(s, s2), Failure(DatabaseError(f.insertLines.value)))
        else
          var s3 := AfterLinesInsert(s2, o.lines);
          if f.commit.Some? then (AfterRollback(s, s3), Failure(DatabaseError(f.commit.value)))
          else (s3, Success(s1.orderAutoInc))
  }

  /** ``UPDATE `Order` set dispatched='y' where id=?``; an error is only logged. */
  function Dispatch(s: DbState, n: nat, error: Option<string>): DbState {
    if error.Some? || n !in s.orders then s
    else s.(orders := s.orders[n := s.orders[n].(dispatched := 'y')])
  }

  /** The whole of `addOrder`: validation, price check, normalisation, transaction, response. */
  function PlaceOrder(s: DbState, data: Json, now: Timestamp, priceQueryError: Option<string>, f: Faults)
    : (DbState, Response<Created>)
    requires data.JObj? || data.JArr?
  {
    match Validate(data)
    case Failure(e) => (s, HandleWebAppError(ValidationError(e)))
    case Success(prices) =>
      if priceQueryError.Some? then (s, HandleWebAppError(DatabaseError(priceQueryError.value)))
      else if !Reconciled(s.products, prices) then (s, HandleWebAppError(PricesChanged()))
      else
        ValidateAcceptsExactly(data);
        var o := Normalise(data);
        assert ProductsHaveKeys(o);
        var (t, r) := Store(s, o, now, f);
        match r
        case Failure(e) => (t, HandleWebAppError(e))
        case Success(id) =>
          (t, Response(201, Some("/api/orders/" + NatToString(id) + "/"), Data(Created(o, now, false, id))))
  }

  // ---------------------------------------------------------------------------
  // Lemmas about the transaction

  /**
   * A failure at any step leaves Customer, Order and OrderLine as they were
   * and reports only "database error"; the id counters never go back.
   */
  lemma StoreAllOrNothing(s: DbState, o: ValidOrder, date: Timestamp, f: Faults)
    requires ProductsHaveKeys(o)
    ensures Store(s, o, date, f).1.Success? <==> NoFault(f)
    ensures Store(s, o, date, f).1.Failure? ==>
      var t := Store(s, o, date, f).0;
      && t.customers == s.customers && t.orders == s.orders && t.lines == s.lines
      && t.products == s.products
      && Store(s, o, date, f).1.error == MakeError(500, "database error")
    ensures Store(s, o, date, f).0.orderAutoInc >= s.orderAutoInc
    ensures Store(s, o, date, f).0.customerAutoInc >= s.customerAutoInc
  {
  }

  /**
   * On success there is exactly one new order row, not dispatched, with the
   * server's date to the second and the resolved customer, and one line row per line, each
   * referencing the new order: the order insert set `last_insert_id()` to it.
   */
  lemma StoreSuccess(s: DbState, o: ValidOrder, date: Timestamp, f: Faults)
    requires ProductsHaveKeys(o) && NoFault(f) && OrderIdsBelowCounter(s)
    ensures var (t, r) := Store(s, o, date, f);
      var c := Customer(o.buyer, o.address);
      && r.Success?
      && r.value !in s.orders
      && c in t.customers
      && t.orders == s.orders[r.value := OrderRow(t.customers[c], StoredDate(date), 'n')]
      && t.lines == s.lines + LineRows(r.value, o.lines)
      && |t.lines| == |s.lines| + |o.lines|
      && (forall i :: |s.lines| <= i < |t.lines| ==> t.lines[i].order == r.value)
      && t.products == s.products
  {
  }

  /**
   * The customer upsert: a known (name, address) keeps the Customer table as
   * it is and the order references the existing id; a new pair adds exactly
   * one customer.
   */
  lemma StoreResolvesCustomer(s: DbState, o: ValidOrder, date: Timestamp, f: Faults)
    requires ProductsHaveKeys(o) && NoFault(f)
    ensures var (t, r) := Store(s, o, date, f);
      var c := Customer(o.buyer, o.address);
      && (c in s.customers ==> t.customers == s.customers
                               && t.orders[r.value].customer == s.customers[c])
      && (c !in s.customers ==> t.customers == s.customers[c := s.customerAutoInc]
                                && |t.customers| == |s.customers| + 1
                                && t.orders[r.value].customer == s.customerAutoInc)
  {
    var c := Customer(o.buyer, o.address);
    StoreSteps(s, o, date, f);
    var s1 := AfterUpsert(s, c);
    assert Store(s, o, date, f).0.customers == s1.customers;
    assert Store(s, o, date, f).0.orders[s.orderAutoInc].customer == s1.lastInsertId;
    if c !in s.customers {
      assert (s.customers[c := s.customerAutoInc]).Keys == s.customers.Keys + {c};
    }
  }

  /** A transaction without faults is the three statements in sequence. */
  lemma StoreSteps(s: DbState, o: ValidOrder, date: Timestamp, f: Faults)
    requires ProductsHaveKeys(o) && NoFault(f)
    ensures Store(s, o, date, f) ==
      (AfterLinesInsert(AfterOrderInsert(AfterUpsert(s, Customer(o.buyer, o.address)), date), o.lines),
       Success(s.orderAutoInc))
  {
  }

  /**
   * Two successful orders from the same buyer and address: one customer row,
   * two order rows that both reference it.
   */
  lemma RepeatBuyerSharesCustomer(s: DbState, o1: ValidOrder, o2: ValidOrder, d1: Timestamp, d2: Timestamp, f: Faults)
    requires ProductsHaveKeys(o1) && ProductsHaveKeys(o2) && NoFault(f) && OrderIdsBelowCounter(s)
    requires o1.buyer == o2.buyer && o1.address == o2.address
    ensures var (t1, r1) := Store(s, o1, d1, f);
      var (t2, r2) := Store(t1, o2, d2, f);
      && |t2.customers| <= |s.customers| + 1
      && t2.customers == t1.customers
      && r1.value != r2.value
      && r1.value in t2.orders && r2.value in t2.orders
      && t2.orders[r1.value].customer == t2.orders[r2.value].customer
  {
    var c := Customer(o1.buyer, o1.address);
    StoreResolvesCustomer(s, o1, d1, f);
    StoreSuccess(s, o1, d1, f);
    var (t1, r1) := Store(s, o1, d1, f);
    assert OrderIdsBelowCounter(t1);
    StoreResolvesCustomer(t1, o2, d2, f);
    StoreSuccess(t1, o2, d2, f);
  }

  /** The new line rows have distinct products when the order's keys are distinct. */
  lemma LineRowsKeys(order: nat, lines: seq<Line>)
    requires forall i :: 0 <= i < |lines| ==> lines[i].product.JNum? || lines[i].product.JStr?
    requires forall i, j :: 0 <= i < j < |lines| ==> KeyOf(lines[i].product) != KeyOf(lines[j].product)
    ensures forall i, j :: 0 <= i < j < |LineRows(order, lines)| ==>
      LineRows(order, lines)[i].product != LineRows(order, lines)[j].product
  {
  }

  /** An order whose products have distinct keys. */
  predicate DistinctProducts(o: ValidOrder)
    requires ProductsHaveKeys(o)
  {
    forall i, j :: 0 <= i < j < |o.lines| ==> KeyOf(o.lines[i].product) != KeyOf(o.lines[j].product)
  }

  lemma UpsertPreservesValid(s: DbState, c: Customer)
    requires Valid(s)
    ensures Valid(AfterUpsert(s, c))
    ensures AfterUpsert(s, c).lastInsertId in AfterUpsert(s, c).customers.Values
  {
    var t := AfterUpsert(s, c);
    if c !in s.customers {
      assert forall d :: d in s.customers ==> s.customers[d] == t.customers[d];
      assert forall id :: id in s.orders ==> s.orders[id].customer in t.customers.Values by {
        forall id | id in s.orders ensures s.orders[id].customer in t.customers.Values {
          var d :| d in s.customers && s.customers[d] == s.orders[id].customer;
          assert t.customers[d] == s.orders[id].customer;
        }
      }
      assert t.customers[c] == t.lastInsertId;
    } else {
      assert t.customers[c] == t.lastInsertId;
    }
  }

  lemma OrderInsertPreservesValid(s: DbState, date: Timestamp)
    requires Valid(s) && s.lastInsertId in s.customers.Values
    ensures Valid(AfterOrderInsert(s, date))
    ensures AfterOrderInsert(s, date).lastInsertId in AfterOrderInsert(s, date).orders
    ensures forall i :: 0 <= i < |s.lines| ==> s.lines[i].order != AfterOrderInsert(s, date).lastInsertId
  {
    var t := AfterOrderInsert(s, date);
    assert LinesValid(t) by {
      forall i | 0 <= i < |t.lines| ensures t.lines[i].order in t.orders {
        assert t.lines[i] == s.lines[i];
      }
    }
  }

  /** Rows of one new order with distinct products, appended to valid rows, keep the keys. */
  lemma AppendedRowsValid(rows: seq<LineRow>, added: seq<LineRow>, orders: map<nat, OrderRow>, id: nat)
    requires id in orders
    requires forall i :: 0 <= i < |rows| ==> rows[i].order in orders && rows[i].order != id
    requires forall i, j :: 0 <= i < j < |rows| ==> rows[i].order != rows[j].order || rows[i].product != rows[j].product
    requires forall i :: 0 <= i < |added| ==> added[i].order == id
    requires forall i, j :: 0 <= i < j < |added| ==> added[i].product != added[j].product
    ensures forall i :: 0 <= i < |rows + added| ==> (rows + added)[i].order in orders
    ensures forall i, j :: 0 <= i < j < |rows + added| ==>
      (rows + added)[i].order != (rows + added)[j].order || (rows + added)[i].product != (rows + added)[j].product
  {
    var all := rows + added;
    forall i | 0 <= i < |all| ensures all[i].order in orders {
      if i < |rows| { assert all[i] == rows[i]; } else { assert all[i] == added[i - |rows|]; }
    }
    forall i, j | 0 <= i < j < |all|
      ensures all[i].order != all[j].order || all[i].product != all[j].product
    {
      if j < |rows| {
        assert all[i] == rows[i] && all[j] == rows[j];
      } else if i < |rows| {
        assert all[i] == rows[i] && all[j] == added[j - |rows|];
      } else {
        assert all[i] == added[i - |rows|] && all[j] == added[j - |rows|];
      }
    }
  }

  lemma LinesInsertPreservesValid(s: DbState, lines: seq<Line>)
    requires forall i :: 0 <= i < |lines| ==> lines[i].product.JNum? || lines[i].product.JStr?
    requires forall i, j :: 0 <= i < j < |lines| ==> KeyOf(lines[i].product) != KeyOf(lines[j].product)
    requires Valid(s) && s.lastInsertId in s.orders
    requires forall i :: 0 <= i < |s.lines| ==> s.lines[i].order != s.lastInsertId
    ensures Valid(AfterLinesInsert(s, lines))
  {
    var added := LineRows(s.lastInsertId, lines);
    LineRowsKeys(s.lastInsertId, lines);
    AppendedRowsValid(s.lines, added, s.orders, s.lastInsertId);
    var t := AfterLinesInsert(s, lines);
    assert t.lines == s.lines + added;
    assert CustomersValid(t) && OrdersValid(t);
  }


  /** Restoring valid tables after the counters moved on keeps them valid. */
  lemma RollbackPreservesValid(saved: DbState, s: DbState)
    requires Valid(saved)
    requires s.customerAutoInc >= saved.customerAutoInc && s.orderAutoInc >= saved.orderAutoInc
    ensures Valid(AfterRollback(saved, s))
  {
  }

  /** The schema's keys and foreign keys survive a transaction, whatever its outcome. */
  lemma StorePreservesValid(s: DbState, o: ValidOrder, date: Timestamp, f: Faults)
    requires ProductsHaveKeys(o) && DistinctProducts(o) && Valid(s)
    ensures Valid(Store(s, o, date, f).0)
  {
    var c := Customer(o.buyer, o.address);
    var s1 := AfterUpsert(s, c);
    if f.begin.Some? {
    } else if f.insertCustomer.Some? {
      RollbackPreservesValid(s, s);
    } else if f.insertOrder.Some? {
      RollbackPreservesValid(s, s1);
    } else {
      UpsertPreservesValid(s, c);
      var s2 := AfterOrderInsert(s1, date);
      OrderInsertPreservesValid(s1, date);
      if f.insertLines.Some? {
        RollbackPreservesValid(s, s2);
      } else {
        var s3 := AfterLinesInsert(s2, o.lines);
        if f.commit.Some? {
          RollbackPreservesValid(s, s3);
        } else {
          LinesInsertPreservesValid(s2, o.lines);
          assert Store(s, o, date, f).0 == s3;
        }
      }
    }
  }

  // ---------------------------------------------------------------------------
  // Lemmas about dispatch

  /** Dispatch sets only order `n`'s flag; on error nothing changes. */
  lemma DispatchTouchesOneRow(s: DbState, n: nat, error: Option<string>)
    ensures var t := Dispatch(s, n, error);
      && t.orders.Keys == s.orders.Keys
      && (forall m :: m in s.orders && m != n ==> t.orders[m] == s.orders[m])
      && (error.None? && n in s.orders ==> t.orders[n] == s.orders[n].(dispatched := 'y'))
      && (error.Some? ==> t == s)
      && t.customers == s.customers && t.lines == s.lines && t.products == s.products
      && t.orderAutoInc == s.orderAutoInc && t.customerAutoInc == s.customerAutoInc
  {
  }

  /** Dispatching twice is the same as dispatching once. */
  lemma DispatchIdempotent(s: DbState, n: nat)
    ensures Dispatch(Dispatch(s, n, None), n, None) == Dispatch(s, n, None)
  {
  }

  lemma DispatchPreservesValid(s: DbState, n: nat, error: Option<string>)
    requires Valid(s)
    ensures Valid(Dispatch(s, n, error))
  {
    var t := Dispatch(s, n, error);
    assert forall id :: id in t.orders ==> t.orders[id].customer == s.orders[id].customer;
  }

  // ---------------------------------------------------------------------------
  // Lemmas about the pipeline

  /** An invalid payload: 400 with the first failed check's message, and nothing is written. */
  lemma PlaceOrderRejectsInvalid(s: DbState, data: Json, now: Timestamp, q: Option<string>, f: Faults)
    requires data.JObj? || data.JArr?
    requires Validate(data).Failure?
    ensures PlaceOrder(s, data, now, q, f).0 == s
    ensures PlaceOrder(s, data, now, q, f).1 ==
      Response(400, None, Text("invalid order: " + Message(Validate(data).error) + "\n"))
  {
  }

  /**
   * A valid payload naming a missing product or a wrong price: 400 "sorry,
   * prices have changed", and nothing is written.
   */
  lemma PlaceOrderRejectsStalePrices(s: DbState, data: Json, now: Timestamp, f: Faults, i: nat)
    requires data.JObj? || data.JArr?
    requires WellFormed(data) && i < |LinesOf(data)|
    requires !PriceMatches(s.products, LineKey(LinesOf(data)[i]), LinePrice(LinesOf(data)[i]))
    ensures PlaceOrder(s, data, now, None, f).0 == s
    ensures PlaceOrder(s, data, now, None, f).1 == Response(400, None, Text("sorry, prices have changed\n"))
  {
    ValidateAcceptsExactly(data);
    ValidateTable(data);
    ReconciledIffAllMatch(s.products, Validate(data).value);
  }

  /** The line rows of an accepted, reconciled order carry the catalogue's prices. */
  lemma RowsAtCataloguePrices(products: map<string, Product>, data: Json, id: nat)
    requires data.JObj? || data.JArr?
    requires Validate(data).Success? && AllMatch(products, Validate(data).value)
    ensures WellFormed(data) && ProductsHaveKeys(Normalise(data))
    ensures var rows := LineRows(id, Normalise(data).lines);
      forall k :: 0 <= k < |rows| ==> rows[k].product in products && rows[k].price == products[rows[k].product].price
  {
    ValidateTable(data);
    var prices := Validate(data).value;
    var o := Normalise(data);
    var lines := LinesOf(data);
    var rows := LineRows(id, o.lines);
    forall k | 0 <= k < |rows|
      ensures rows[k].product in products && rows[k].price == products[rows[k].product].price
    {
      assert o.lines[k] == LineOf(lines[k]);
      assert rows[k].product == LineKey(lines[k]);
      assert LineKey(lines[k]) in KeySet(lines);
      assert PriceMatches(products, LineKey(lines[k]), prices[LineKey(lines[k])]);
    }
  }

  /** Rows at catalogue prices appended to any rows: the appended part is at catalogue prices. */
  lemma AppendedAtPrices(rows: seq<LineRow>, added: seq<LineRow>, products: map<string, Product>)
    requires forall k :: 0 <= k < |added| ==> added[k].product in products && added[k].price == products[added[k].product].price
    ensures forall i :: |rows| <= i < |rows + added| ==>
      (rows + added)[i].product in products && (rows + added)[i].price == products[(rows + added)[i].product].price
  {
    forall i | |rows| <= i < |rows + added|
      ensures (rows + added)[i].product in products && (rows + added)[i].price == products[(rows + added)[i].product].price
    {
      assert (rows + added)[i] == added[i - |rows|];
    }
  }

  /** Orders change only through a successful store of the normalised, reconciled order. */
  lemma PlaceOrderWriteMeans(s: DbState, data: Json, now: Timestamp, q: Option<string>, f: Faults)
    requires data.JObj? || data.JArr?
    requires PlaceOrder(s, data, now, q, f).0.orders != s.orders
    ensures Validate(data).Success? && WellFormed(data) && q.None?
    ensures AllMatch(s.products, Validate(data).value)
    ensures ProductsHaveKeys(Normalise(data))
    ensures NoFault(f)
    ensures PlaceOrder(s, data, now, q, f).0 == Store(s, Normalise(data), now, f).0
    ensures PlaceOrder(s, data, now, q, f).1.status == 201
  {
    ValidateAcceptsExactly(data);
    ReconciledIffAllMatch(s.products, Validate(data).value);
    StoreAllOrNothing(s, Normalise(data), now, f);
  }

  /**
   * An order is written only with a 201 response, and then every line row
   * written names an existing product at exactly its stored price.
   */
  lemma PlaceOrderWritesOnlyMatchingPrices(s: DbState, data: Json, now: Timestamp, q: Option<string>, f: Faults)
    requires data.JObj? || data.JArr?
    requires OrderIdsBelowCounter(s)
    ensures var t := PlaceOrder(s, data, now, q, f).0;
      t.orders != s.orders ==>
        && PlaceOrder(s, data, now, q, f).1.status == 201
        && WellFormed(data)
        && |t.lines| == |s.lines| + |LinesOf(data)|
        && forall i :: |s.lines| <= i < |t.lines| ==>
             t.lines[i].product in s.products && t.lines[i].price == s.products[t.lines[i].product].price
  {
    var t := PlaceOrder(s, data, now, q, f).0;
    if t.orders != s.orders {
      PlaceOrderWriteMeans(s, data, now, q, f);
      RowsAtCataloguePrices(s.products, data, s.orderAutoInc);
      var o := Normalise(data);
      NormaliseKeepsLines(data);
      StoreSteps(s, o, now, f);
      var rows := LineRows(s.orderAutoInc, o.lines);
      AppendedAtPrices(s.lines, rows, s.products);
      assert t.lines == s.lines + rows;
    }
  }

  /**
   * The response is 201 exactly when the payload is valid, the prices match
   * and every database step succeeds; it points to `/api/orders/<id>/` and
   * echoes the normalised order with the server's date and dispatched = false.
   */
  lemma PlaceOrderCreated(s: DbState, data: Json, now: Timestamp, q: Option<string>, f: Faults)
    requires data.JObj? || data.JArr?
    ensures var resp := PlaceOrder(s, data, now, q, f).1;
      resp.status == 201 <==>
        && WellFormed(data) && Validate(data).Success? && q.None?
        && AllMatch(s.products, Validate(data).value) && NoFault(f)
    ensures var resp := PlaceOrder(s, data, now, q, f).1;
      resp.status == 201 ==>
        && resp.location == Some("/api/orders/" + NatToString(s.orderAutoInc) + "/")
        && resp.body == Data(Created(Normalise(data), now, false, s.orderAutoInc))
  {
    ValidateAcceptsExactly(data);
    if Validate(data).Success? {
      ReconciledIffAllMatch(s.products, Validate(data).value);
      if q.None? && Reconciled(s.products, Validate(data).value) {
        var o := Normalise(data);
        StoreAllOrNothing(s, o, now, f);
        var (t, r) := Store(s, o, now, f);
        if NoFault(f) {
          StoreSteps(s, o, now, f);
          assert r == Success(s.orderAutoInc);
        }
      }
    }
  }

  /** An accepted order's lines have distinct product keys, so its rows keep OrderLine's key. */
  lemma NormalisedProductsDistinct(data: Json)
    requires WellFormed(data)
    ensures ProductsHaveKeys(Normalise(data)) && DistinctProducts(Normalise(data))
  {
    var o := Normalise(data);
    var lines := LinesOf(data);
    NormaliseKeepsLines(data);
    assert forall i :: 0 <= i < |o.lines| ==> o.lines[i] == LineOf(lines[i]);
    assert forall i :: 0 <= i < |o.lines| ==> KeyOf(o.lines[i].product) == LineKey(lines[i]);
  }

  /** Whatever the request and whichever step fails, `addOrder` keeps the schema's keys and foreign keys. */
  lemma PlaceOrderPreservesValid(s: DbState, data: Json, now: Timestamp, q: Option<string>, f: Faults)
    requires data.JObj? || data.JArr?
    requires Valid(s)
    ensures Valid(PlaceOrder(s, data, now, q, f).0)
  {
    ValidateAcceptsExactly(data);
    if Validate(data).Success? && q.None? && Reconciled(s.products, Validate(data).value) {
      NormalisedProductsDistinct(data);
      StorePreservesValid(s, Normalise(data), now, f);
    }
  }

  // ---------------------------------------------------------------------------
  // The database connection, whose statements change the tables in place.

  class Database {
    var products: map<string, Product>
    var customers: map<Customer, nat>
    var orders: map<nat, OrderRow>
    var lines: seq<LineRow>
    var customerAutoInc: nat
    var orderAutoInc: nat
    var lastInsertId: nat

    function State(): DbState
      reads this
    {
      DbState(products, customers, orders, lines, customerAutoInc, orderAutoInc, lastInsertId)
    }

    /** A database holding only the catalogue; MySQL ids start at 1. */
    constructor (catalogue: map<string, Product>)
      ensures State() == DbState(catalogue, map[], map[], [], 1, 1, 0)
      ensures Valid(State())
    {
      products, customers, orders, lines := catalogue, map[], map[], [];
      customerAutoInc, orderAutoInc, lastInsertId := 1, 1, 0;
    }

    method InsertCustomer(c: Customer)
      modifies this
      ensures State() == AfterUpsert(old(State()), c)
    {
      if c in customers {
        lastInsertId := customers[c];
      } else {
        customers := customers[c := customerAutoInc];
        lastInsertId := customerAutoInc;
        customerAutoInc := customerAutoInc + 1;
      }
    }

    method InsertOrder(date: Timestamp) returns (insertId: nat)
      modifies this
      ensures State() == AfterOrderInsert(old(State()), date)
      ensures insertId == old(orderAutoInc)
    {
      insertId := orderAutoInc;
      orders := orders[insertId := OrderRow(lastInsertId, StoredDate(date), 'n')];
      orderAutoInc := orderAutoInc + 1;
      lastInsertId := insertId;
    }

    /** One row per line, in line order, all referencing `last_insert_id()`. */
    method InsertLines(newLines: seq<Line>)
      requires forall i :: 0 <= i < |newLines| ==> newLines[i].product.JNum? || newLines[i].product.JStr?
      modifies this
      ensures State() == AfterLinesInsert(old(State()), newLines)
    {
      var i := 0;
      while i < |newLines|
        invariant 0 <= i <= |newLines|
        invariant lines == old(lines) + LineRows(lastInsertId, newLines[..i])
        invariant State() == old(State()).(lines := lines)
      {
        var line := newLines[i];
        assert newLines[..i + 1] == newLines[..i] + [line];
        lines := lines + [LineRow(lastInsertId, KeyOf(line.product), line.qty, ToCents(line.price))];
        i := i + 1;
      }
      assert newLines[..i] == newLines;
    }

    method Rollback(saved: DbState)
      modifies this
      ensures State() == AfterRollback(saved, old(State()))
    {
      customers, orders, lines := saved.customers, saved.orders, saved.lines;
    }

    /** `storeValidOrder`: begin, upsert customer, insert order, insert lines, commit. */
    method StoreValidOrder(o: ValidOrder, date: Timestamp, f: Faults) returns (r: Result<nat, WebAppError>)
      requires ProductsHaveKeys(o)
      modifies this
      ensures (State(), r) == Store(old(State()), o, date, f)
    {
      if f.begin.Some? {
        return Failure(DatabaseError(f.begin.value));
      }
      var saved := State();
      if f.insertCustomer.Some? {
        Rollback(saved);
        return Failure(DatabaseError(f.insertCustomer.value));
      }
      InsertCustomer(Customer(o.buyer, o.address));
      if f.insertOrder.Some? {
        Rollback(saved);
        return Failure(DatabaseError(f.insertOrder.value));
      }
      var orderNo := InsertOrder(date);
      if f.insertLines.Some? {
        Rollback(saved);
        return Failure(DatabaseError(f.insertLines.value));
      }
      InsertLines(o.lines);
      if f.commit.Some? {
        Rollback(saved);
        return Failure(DatabaseError(f.commit.value));
      }
      r := Success(orderNo);
    }

    /** `dispatchOrder(orderNo)`. */
    method DispatchOrder(orderNo: nat, error: Option<string>)
      modifies this
      ensures State() == Dispatch(old(State()), orderNo, error)
    {
      if error.Some? { return; }
      if orderNo in orders {
        orders := orders[orderNo := orders[orderNo].(dispatched := 'y')];
      }
    }

    /** `addOrder`: the handler for `POST /api/orders/`. */
    method AddOrder(data: Json, now: Timestamp, priceQueryError: Option<string>, f: Faults)
      returns (resp: Response<Created>)
      requires data.JObj? || data.JArr?
      modifies this
      ensures (State(), resp) == PlaceOrder(old(State()), data, now, priceQueryError, f)
      ensures Valid(old(State())) ==> Valid(State())
    {
      if Valid(State()) {
        PlaceOrderPreservesValid(State(), data, now, priceQueryError, f);
      }
      var checked := ValidateOrder(data);
      if checked.Failure? {
        return HandleWebAppError(ValidationError(checked.error));
      }
      var verdict := CheckProductsAndPrices(checked.value, products, priceQueryError);
      ReconciledIffAllMatch(products, checked.value);
      if verdict.Reject? {
        return HandleWebAppError(verdict.error);
      }
      ValidateAcceptsExactly(data);
      var validOrder := ExtractValidOrder(data);
      var stored := StoreValidOrder(validOrder, now, f);
      if stored.Failure? {
        return HandleWebAppError(stored.error);
      }
      var orderNo := stored.value;
      resp := Response(201, Some("/api/orders/" + NatToString(orderNo) + "/"),
                       Data(Created(validOrder, now, false, orderNo)));
    }
  }
}
