/**
 * The read side of server.js: `ordersFromSQL` (with the join `getOrder`
 * runs), `productsFromSQL` and `categoriesFromSQL`, which turn query result
 * rows into the JSON the API returns.
 */
module OrderQuery {
  import opened Wrappers
  import opened JsValue
  import opened WebErrors
  import opened Tables
  import opened Normalisation
  import OrderStore
  import Reconciliation

  // ---------------------------------------------------------------------------
  // getOrder / ordersFromSQL

  /** One row of the `getOrder` join: P.id, P.name, L.quantity, L.price, C.name, C.address, O.date, O.dispatched. */
  datatype OrderResultRow = OrderResultRow(
    productId: string, productName: string, quantity: real, price: real,
    buyer: string, address: string, date: Timestamp, dispatched: char)

  datatype LineView = LineView(product: string, title: string, price: real, qty: real)

  /** The `order` object of the response. */
  datatype OrderView = OrderView(
    buyer: string, address: string, date: Timestamp, dispatched: bool, id: string, lines: seq<LineView>)

  function LineViewOf(row: OrderResultRow): LineView {
    LineView(row.productId, row.productName, row.price, row.quantity)
  }

  /** The line objects `ordersFromSQL` builds, one per row, in row order. */
  function Views(rows: seq<OrderResultRow>): (vs: seq<LineView>)
    ensures |vs| == |rows|
    ensures forall i :: 0 <= i < |rows| ==> vs[i] == LineViewOf(rows[i])
  {
    seq(|rows|, i requires 0 <= i < |rows| => LineViewOf(rows[i]))
  }

  /** `ordersFromSQL`: 404 for no rows, otherwise the order and one line per row. */
  function OrdersFromSQL(rows: seq<OrderResultRow>, id: string): (r: Result<OrderView, WebAppError>)
  {
    if |rows| == 0 then Failure(MakeError(404, "no such order: " + id))
    else Success(OrderView(rows[0].buyer, rows[0].address, rows[0].date, rows[0].dispatched == 'y', id, Views(rows)))
  }

  /**
   * The mapper reports 404 exactly for an empty result; otherwise it keeps
   * every row, in order, and reads dispatched as the 'y' flag.
   */
  lemma OrdersFromSQLShape(rows: seq<OrderResultRow>, id: string)
    ensures OrdersFromSQL(rows, id).Failure? <==> rows == []
    ensures rows == [] ==> OrdersFromSQL(rows, id).error == WebAppError(404, "no such order: " + id + "\n")
    ensures rows != [] ==>
      var v := OrdersFromSQL(rows, id).value;
      && v.id == id
      && |v.lines| == |rows|
      && (v.dispatched <==> rows[0].dispatched == 'y')
      && forall i :: 0 <= i < |rows| ==>
           v.lines[i].product == rows[i].productId && v.lines[i].qty == rows[i].quantity
           && v.lines[i].price == rows[i].price && v.lines[i].title == rows[i].productName
  {
  }

  /** The customer with a given id, if any (the Customer side of the join). */
  ghost function CustomerWithId(customers: map<Customer, nat>, cid: nat): Option<Customer> {
    if exists c :: c in customers && customers[c] == cid then
      var c :| c in customers && customers[c] == cid; Some(c)
    else None
  }

  lemma CustomerWithIdInverse(s: DbState, c: Customer)
    requires CustomersValid(s) && c in s.customers
    ensures CustomerWithId(s.customers, s.customers[c]) == Some(c)
  {
  }

  /** Whether an OrderLine row takes part in the join for order `n`. */
  ghost predicate Joins(s: DbState, n: nat, l: LineRow) {
    l.order == n && n in s.orders && l.product in s.products
    && CustomerWithId(s.customers, s.orders[n].customer).Some?
  }

  ghost function JoinedRow(s: DbState, n: nat, l: LineRow): OrderResultRow
    requires Joins(s, n, l)
  {
    var o := s.orders[n];
    var c := CustomerWithId(s.customers, o.customer).value;
    OrderResultRow(l.product, s.products[l.product].name, l.quantity, l.price as real / 100.0,
                   c.name, c.address, o.date, o.dispatched)
  }

  /** The inner join of Customer, Order, OrderLine and Product for order `n`, in OrderLine order. */
  ghost function JoinFrom(s: DbState, n: nat, ls: seq<LineRow>): seq<OrderResultRow> {
    if |ls| == 0 then []
    else
      var rest := JoinFrom(s, n, ls[..|ls| - 1]);
      var l := ls[|ls| - 1];
      if Joins(s, n, l) then rest + [JoinedRow(s, n, l)] else rest
  }

  /**
   * The rows MySQL may answer `WHERE O.id = ? ORDER BY P.name` with: the
   * join's rows for the requested order, sorted by product name. The
   * collation is not modelled, so any arrangement of the join's rows is
   * allowed; an id that is not canonical decimal text matches no order.
   */
  ghost predicate JoinResult(s: DbState, id: string, rows: seq<OrderResultRow>) {
    multiset(rows) == multiset(if ParseIndex(id).Some? then JoinFrom(s, ParseIndex(id).value, s.lines) else [])
  }

  /** `getOrder`: the query's rows for the requested id, then `ordersFromSQL`. */
  function GetOrder(id: string, rows: seq<OrderResultRow>, queryError: Option<string>): Response<OrderView> {
    if queryError.Some? then HandleWebAppError(DatabaseError(queryError.value))
    else
      match OrdersFromSQL(rows, id)
      case Failure(e) => HandleWebAppError(e)
      case Success(v) => Response(200, None, Data(v))
  }

  lemma ViewsConcat(p: seq<OrderResultRow>, q: seq<OrderResultRow>)
    ensures Views(p + q) == Views(p) + Views(q)
  {
    forall i | 0 <= i < |p + q| ensures Views(p + q)[i] == (Views(p) + Views(q))[i] {
      if i < |p| { assert (p + q)[i] == p[i]; } else { assert (p + q)[i] == q[i - |p|]; }
    }
  }

  /** Taking row `k` out of `b`: the rest of the rows and the rest of their line objects. */
  lemma RemoveAt(b: seq<OrderResultRow>, k: nat)
    requires k < |b|
    ensures multiset(b) == multiset(b[..k] + b[k + 1..]) + multiset{b[k]}
    ensures multiset(Views(b)) == multiset(Views(b[..k] + b[k + 1..])) + multiset{LineViewOf(b[k])}
  {
    var l, r := b[..k], b[k + 1..];
    assert b == l + [b[k]] + r;
    assert multiset(b) == multiset(l) + multiset{b[k]} + multiset(r);
    ViewsConcat(l, [b[k]]);
    ViewsConcat(l + [b[k]], r);
    ViewsConcat(l, r);
    assert Views([b[k]]) == [LineViewOf(b[k])];
    assert multiset(Views(b)) == multiset(Views(l)) + multiset{LineViewOf(b[k])} + multiset(Views(r));
  }

  lemma CancelOne<T>(m1: multiset<T>, m2: multiset<T>, x: T)
    requires m1 + multiset{x} == m2 + multiset{x}
    ensures m1 == m2
  {
    forall y ensures m1[y] == m2[y] {
      assert (m1 + multiset{x})[y] == m1[y] + multiset{x}[y];
      assert (m2 + multiset{x})[y] == m2[y] + multiset{x}[y];
    }
  }

  /** A row of `b` equal to the first row of `a`, and the rows each has left once it is taken out. */
  lemma TakeFirst(a: seq<OrderResultRow>, b: seq<OrderResultRow>) returns (k: nat)
    requires multiset(a) == multiset(b) && |a| > 0
    ensures k < |b| && b[k] == a[0]
    ensures multiset(a[1..]) == multiset(b[..k] + b[k + 1..])
    ensures multiset(Views(a)) == multiset(Views(a[1..])) + multiset{LineViewOf(a[0])}
    ensures multiset(Views(b)) == multiset(Views(b[..k] + b[k + 1..])) + multiset{LineViewOf(a[0])}
  {
    assert a[0] in multiset(b);
    k :| 0 <= k < |b| && b[k] == a[0];
    RemoveAt(a, 0);
    RemoveAt(b, k);
    assert a[..0] + a[1..] == a[1..];
    CancelOne(multiset(a[1..]), multiset(b[..k] + b[k + 1..]), a[0]);
  }

  /** Rearranging the rows rearranges the line objects built from them. */
  lemma {:induction false} ViewsPermute(a: seq<OrderResultRow>, b: seq<OrderResultRow>)
    requires multiset(a) == multiset(b)
    ensures multiset(Views(a)) == multiset(Views(b))
    decreases |a|
  {
    if |a| == 0 {
      assert |b| == |multiset(b)| == 0;
    } else {
      var k := TakeFirst(a, b);
      ViewsPermute(a[1..], b[..k] + b[k + 1..]);
    }
  }

  /** A row of a rearrangement is a row of the original. */
  lemma RowOfPermutation(a: seq<OrderResultRow>, b: seq<OrderResultRow>, i: nat)
    requires multiset(a) == multiset(b) && i < |a|
    ensures |b| == |a|
    ensures exists j :: 0 <= j < |b| && b[j] == a[i]
  {
    assert |a| == |multiset(a)| == |multiset(b)| == |b|;
    assert a[i] in multiset(b);
  }

  lemma {:induction false} JoinConcat(s: DbState, n: nat, xs: seq<LineRow>, ys: seq<LineRow>)
    ensures JoinFrom(s, n, xs + ys) == JoinFrom(s, n, xs) + JoinFrom(s, n, ys)
    decreases |ys|
  {
    if |ys| == 0 {
      assert xs + ys == xs;
    } else {
      assert (xs + ys)[..|xs + ys| - 1] == xs + ys[..|ys| - 1];
      JoinConcat(s, n, xs, ys[..|ys| - 1]);
    }
  }

  lemma {:induction false} JoinNone(s: DbState, n: nat, ls: seq<LineRow>)
    requires forall i :: 0 <= i < |ls| ==> ls[i].order != n
    ensures JoinFrom(s, n, ls) == []
  {
    if |ls| > 0 {
      JoinNone(s, n, ls[..|ls| - 1]);
    }
  }

  lemma {:induction false} JoinAll(s: DbState, n: nat, ls: seq<LineRow>)
    requires forall i :: 0 <= i < |ls| ==> Joins(s, n, ls[i])
    ensures |JoinFrom(s, n, ls)| == |ls|
    ensures forall i :: 0 <= i < |ls| ==> JoinFrom(s, n, ls)[i] == JoinedRow(s, n, ls[i])
  {
    if |ls| > 0 {
      JoinAll(s, n, ls[..|ls| - 1]);
    }
  }

  /** An id that names no order gives 404 "no such order". */
  lemma UnknownOrderNotFound(s: DbState, id: string, rows: seq<OrderResultRow>)
    requires LinesValid(s)
    requires ParseIndex(id).None? || ParseIndex(id).value !in s.orders
    requires JoinResult(s, id, rows)
    ensures GetOrder(id, rows, None) == Response(404, None, Text("no such order: " + id + "\n"))
  {
    if ParseIndex(id).Some? {
      JoinNone(s, ParseIndex(id).value, s.lines);
    }
    assert |rows| == |multiset(rows)| == 0;
  }

  /** The rows the join yields for order `n` whose lines were appended after all lines of other orders. */
  lemma JoinOfNewLines(t: DbState, n: nat, c: Customer, date: Timestamp, before: seq<LineRow>, lines: seq<Line>)
    requires forall i :: 0 <= i < |lines| ==> lines[i].product.JNum? || lines[i].product.JStr?
    requires forall i :: 0 <= i < |lines| ==> KeyOf(lines[i].product) in t.products
    requires t.lines == before + OrderStore.LineRows(n, lines)
    requires forall i :: 0 <= i < |before| ==> before[i].order != n
    requires CustomersValid(t) && c in t.customers
    requires n in t.orders && t.orders[n] == OrderRow(t.customers[c], date, 'n')
    ensures var rows := JoinFrom(t, n, t.lines);
      && |rows| == |lines|
      && forall i :: 0 <= i < |rows| ==>
           && rows[i].productId == KeyOf(lines[i].product) && rows[i].quantity == lines[i].qty
           && rows[i].productName == t.products[KeyOf(lines[i].product)].name
           && rows[i].price == Reconciliation.ToCents(lines[i].price) as real / 100.0
           && rows[i].buyer == c.name && rows[i].address == c.address
           && rows[i].date == date && rows[i].dispatched == 'n'
  {
    CustomerWithIdInverse(t, c);
    var added := OrderStore.LineRows(n, lines);
    JoinNone(t, n, before);
    assert forall i :: 0 <= i < |added| ==> Joins(t, n, added[i]);
    JoinAll(t, n, added);
    JoinConcat(t, n, before, added);
    var rows := JoinFrom(t, n, t.lines);
    assert rows == JoinFrom(t, n, added);
    forall i | 0 <= i < |rows|
      ensures && rows[i].productId == KeyOf(lines[i].product) && rows[i].quantity == lines[i].qty
              && rows[i].productName == t.products[KeyOf(lines[i].product)].name
              && rows[i].price == Reconciliation.ToCents(lines[i].price) as real / 100.0
              && rows[i].buyer == c.name && rows[i].address == c.address
              && rows[i].date == date && rows[i].dispatched == 'n'
    {
      assert rows[i] == JoinedRow(t, n, added[i]);
    }
  }

  /**
   * The join for a freshly stored order: one row per line, with the stored
   * customer, the date to the second and the catalogue's product names.
   */
  lemma JoinOfStored(s: DbState, o: ValidOrder, date: Timestamp, f: OrderStore.Faults)
    requires OrderStore.ProductsHaveKeys(o) && OrderStore.DistinctProducts(o) && Valid(s)
    requires OrderStore.NoFault(f)
    requires forall i :: 0 <= i < |o.lines| ==> KeyOf(o.lines[i].product) in s.products
    ensures var (t, r) := OrderStore.Store(s, o, date, f);
      var rows := JoinFrom(t, r.value, t.lines);
      && r == Success(s.orderAutoInc)
      && |rows| == |o.lines|
      && forall i :: 0 <= i < |rows| ==>
           && rows[i].productId == KeyOf(o.lines[i].product) && rows[i].quantity == o.lines[i].qty
           && rows[i].productName == s.products[KeyOf(o.lines[i].product)].name
           && rows[i].price == Reconciliation.ToCents(o.lines[i].price) as real / 100.0
           && rows[i].buyer == o.buyer && rows[i].address == o.address
           && rows[i].date == StoredDate(date) && rows[i].dispatched == 'n'
  {
    var t := OrderStore.Store(s, o, date, f).0;
    var n := OrderStore.Store(s, o, date, f).1.value;
    var c := Customer(o.buyer, o.address);
    OrderStore.StoreSteps(s, o, date, f);
    OrderStore.StoreSuccess(s, o, date, f);
    OrderStore.StorePreservesValid(s, o, date, f);
    assert forall i :: 0 <= i < |s.lines| ==> s.lines[i].order in s.orders;
    JoinOfNewLines(t, n, c, StoredDate(date), s.lines, o.lines);
  }

  /**
   * The database returns the rows of a non-empty join that share one
   * customer, date and flag: the response carries them and one line per row.
   */
  lemma FoundFromRows(rows: seq<OrderResultRow>, joined: seq<OrderResultRow>, id: string,
                      buyer: string, address: string, date: Timestamp, flag: char)
    requires multiset(rows) == multiset(joined) && |joined| > 0
    requires forall i :: 0 <= i < |joined| ==>
      joined[i].buyer == buyer && joined[i].address == address && joined[i].date == date && joined[i].dispatched == flag
    ensures var resp := GetOrder(id, rows, None);
      && resp.status == 200 && resp.body.Data?
      && resp.body.data.buyer == buyer && resp.body.data.address == address
      && resp.body.data.date == date && (resp.body.data.dispatched <==> flag == 'y')
      && resp.body.data.id == id
      && multiset(resp.body.data.lines) == multiset(Views(joined))
  {
    RowOfPermutation(rows, joined, 0);
    ViewsPermute(rows, joined);
  }

  /** The line objects a freshly stored order should read back as. */
  function ExpectedViews(products: map<string, Product>, o: ValidOrder): (vs: seq<LineView>)
    requires OrderStore.ProductsHaveKeys(o)
    requires forall i :: 0 <= i < |o.lines| ==> KeyOf(o.lines[i].product) in products
    ensures |vs| == |o.lines|
  {
    seq(|o.lines|, i requires 0 <= i < |o.lines| =>
      LineView(KeyOf(o.lines[i].product), products[KeyOf(o.lines[i].product)].name,
               Reconciliation.ToCents(o.lines[i].price) as real / 100.0, o.lines[i].qty))
  }

  /** Rows carrying each line's product, title, price and quantity read back as the expected lines. */
  lemma ViewsOfStored(joined: seq<OrderResultRow>, products: map<string, Product>, o: ValidOrder)
    requires OrderStore.ProductsHaveKeys(o)
    requires forall i :: 0 <= i < |o.lines| ==> KeyOf(o.lines[i].product) in products
    requires |joined| == |o.lines|
    requires forall i :: 0 <= i < |joined| ==>
      && joined[i].productId == KeyOf(o.lines[i].product) && joined[i].quantity == o.lines[i].qty
      && joined[i].productName == products[KeyOf(o.lines[i].product)].name
      && joined[i].price == Reconciliation.ToCents(o.lines[i].price) as real / 100.0
    ensures Views(joined) == ExpectedViews(products, o)
  {
    var e := ExpectedViews(products, o);
    forall i | 0 <= i < |joined| ensures Views(joined)[i] == e[i] {
    }
  }

  /**
   * Storing an order and then asking for it by its id, whatever order the
   * database returns the rows in: the response lists the buyer and address
   * stored, the date to the second, not dispatched, and exactly the lines
   * given, each with its product, catalogue title, quantity and price
   * rounded to cents.
   */
  lemma StoredOrderIsFound(s: DbState, o: ValidOrder, date: Timestamp, f: OrderStore.Faults,
                           rows: seq<OrderResultRow>)
    requires OrderStore.ProductsHaveKeys(o) && OrderStore.DistinctProducts(o) && Valid(s)
    requires OrderStore.NoFault(f) && |o.lines| > 0
    requires forall i :: 0 <= i < |o.lines| ==> KeyOf(o.lines[i].product) in s.products
    requires JoinResult(OrderStore.Store(s, o, date, f).0, NatToString(s.orderAutoInc), rows)
    ensures var resp := GetOrder(NatToString(s.orderAutoInc), rows, None);
      && resp.status == 200 && resp.body.Data?
      && resp.body.data.buyer == o.buyer && resp.body.data.address == o.address
      && resp.body.data.date == StoredDate(date) && !resp.body.data.dispatched
      && resp.body.data.id == NatToString(s.orderAutoInc)
      && multiset(resp.body.data.lines) == multiset(ExpectedViews(s.products, o))
  {
    var t := OrderStore.Store(s, o, date, f).0;
    var n := s.orderAutoInc;
    JoinOfStored(s, o, date, f);
    IndexRoundTrip(n);
    var joined := JoinFrom(t, n, t.lines);
    assert multiset(rows) == multiset(joined);
    FoundFromRows(rows, joined, NatToString(n), o.buyer, o.address, StoredDate(date), 'n');
    ViewsOfStored(joined, s.products, o);
  }

  /**
   * After a successful dispatch the order is still found and reads as
   * dispatched, whatever order the database returns the rows in.
   */
  lemma DispatchedOrderShows(s: DbState, n: nat, before: seq<OrderResultRow>, after: seq<OrderResultRow>)
    requires JoinResult(s, NatToString(n), before) && GetOrder(NatToString(n), before, None).status == 200
    requires JoinResult(OrderStore.Dispatch(s, n, None), NatToString(n), after)
    ensures GetOrder(NatToString(n), after, None).status == 200
    ensures GetOrder(NatToString(n), after, None).body.data.dispatched
  {
    IndexRoundTrip(n);
    var t := OrderStore.Dispatch(s, n, None);
    JoinDispatch(s, n, s.lines);
    assert |before| == |multiset(before)| == |JoinFrom(s, n, s.lines)| > 0;
    assert |after| == |multiset(after)| == |JoinFrom(t, n, t.lines)| > 0;
    RowOfPermutation(after, JoinFrom(t, n, t.lines), 0);
  }

  /** Dispatch changes only the flag of the joined rows. */
  lemma {:induction false} JoinDispatch(s: DbState, n: nat, ls: seq<LineRow>)
    ensures var t := OrderStore.Dispatch(s, n, None);
      && |JoinFrom(t, n, ls)| == |JoinFrom(s, n, ls)|
      && forall i :: 0 <= i < |JoinFrom(t, n, ls)| ==>
           JoinFrom(t, n, ls)[i] == JoinFrom(s, n, ls)[i].(dispatched := 'y')
  {
    if |ls| > 0 {
      JoinDispatch(s, n, ls[..|ls| - 1]);
      var t := OrderStore.Dispatch(s, n, None);
      var l := ls[|ls| - 1];
      assert Joins(t, n, l) == Joins(s, n, l);
      if Joins(s, n, l) {
        assert JoinedRow(t, n, l) == JoinedRow(s, n, l).(dispatched := 'y');
      }
    }
  }

  // ---------------------------------------------------------------------------
  // listProducts / productsFromSQL

  /** One row of the `listProducts` join: C.name, S.name, P.name, P.price, P.description, P.stock, P.id. */
  datatype ProductResultRow = ProductResultRow(
    category: string, supplier: string, name: string, price: real,
    description: string, stock: int, id: string)

  datatype ProductEntry = ProductEntry(title: string, price: real, description: string, stock: int, supplier: string)

  datatype ProductListing = ProductListing(category: string, products: map<string, ProductEntry>)

  function EntryOf(row: ProductResultRow): ProductEntry {
    ProductEntry(row.name, row.price, row.description, row.stock, row.supplier)
  }

  /** `products.products[row.P.id] = …` for each row in turn: a later row with the same id wins. */
  function ProductsMap(rows: seq<ProductResultRow>): map<string, ProductEntry> {
    if |rows| == 0 then map[]
    else ProductsMap(rows[..|rows| - 1])[rows[|rows| - 1].id := EntryOf(rows[|rows| - 1])]
  }

  /** What `productsFromSQL` returns: 404 for no rows, else the category and its products. */
  function Listing(rows: seq<ProductResultRow>, categoryId: string): Result<ProductListing, WebAppError> {
    if |rows| == 0 then Failure(MakeError(404, "no such category: " + categoryId))
    else Success(ProductListing(rows[0].category, ProductsMap(rows)))
  }

  /** `productsFromSQL`, with its `forEach` over the rows. */
  method ProductsFromSQL(rows: seq<ProductResultRow>, categoryId: string)
    returns (r: Result<ProductListing, WebAppError>)
    ensures r == Listing(rows, categoryId)
  {
    if |rows| == 0 {
      return Failure(MakeError(404, "no such category: " + categoryId));
    }
    var products: map<string, ProductEntry> := map[];
    var i := 0;
    while i < |rows|
      invariant 0 <= i <= |rows|
      invariant products == ProductsMap(rows[..i])
    {
      assert rows[..i + 1][..i] == rows[..i];
      products := products[rows[i].id := EntryOf(rows[i])];
      i := i + 1;
    }
    assert rows[..i] == rows;
    r := Success(ProductListing(rows[0].category, products));
  }

  /** Row `i` is the last row carrying id `k`. */
  predicate LastWith(rows: seq<ProductResultRow>, k: string, i: int) {
    0 <= i < |rows| && rows[i].id == k && forall j :: i < j < |rows| ==> rows[j].id != k
  }

  /**
   * The listing has an entry for every row's id and for nothing else, and
   * each entry comes from the last row carrying that id.
   */
  lemma {:induction false} ProductsMapContents(rows: seq<ProductResultRow>)
    ensures forall i :: 0 <= i < |rows| ==> rows[i].id in ProductsMap(rows)
    ensures forall k :: k in ProductsMap(rows) ==>
      exists i :: LastWith(rows, k, i) && ProductsMap(rows)[k] == EntryOf(rows[i])
  {
    if |rows| > 0 {
      var front := rows[..|rows| - 1];
      ProductsMapContents(front);
      var last := rows[|rows| - 1];
      forall i | 0 <= i < |rows| ensures rows[i].id in ProductsMap(rows) {
        if i < |front| { assert rows[i] == front[i]; }
      }
      forall k | k in ProductsMap(rows)
        ensures exists i :: LastWith(rows, k, i) && ProductsMap(rows)[k] == EntryOf(rows[i])
      {
        if k == last.id {
          assert LastWith(rows, k, |rows| - 1);
        } else {
          var i :| LastWith(front, k, i) && ProductsMap(front)[k] == EntryOf(front[i]);
          assert rows[i] == front[i];
          forall j | i < j < |rows| ensures rows[j].id != k {
            if j < |front| { assert rows[j] == front[j]; }
          }
          assert LastWith(rows, k, i);
        }
      }
    }
  }

  // ---------------------------------------------------------------------------
  // listCategories / categoriesFromSQL

  /** One row of `SELECT id, name FROM Category`. */
  datatype CategoryRow = CategoryRow(id: string, name: string)

  datatype CategoryLink = CategoryLink(title: string, productsURL: string)

  function CategoryURL(id: string): string {
    "/api/categories/" + id + "/"
  }

  /** `categoriesFromSQL`: one link per row, in the query's order. */
  function CategoriesFromSQL(rows: seq<CategoryRow>): (links: seq<CategoryLink>)
  {
    seq(|rows|, i requires 0 <= i < |rows| => CategoryLink(rows[i].name, CategoryURL(rows[i].id)))
  }

  /** The category id can be read back from its products URL. */
  lemma CategoryURLRoundTrip(id: string)
    ensures |CategoryURL(id)| == |id| + 17
    ensures CategoryURL(id)[16..|CategoryURL(id)| - 1] == id
  {
    var u := CategoryURL(id);
    assert u[16..|u| - 1] == id;
  }

  /**
   * Every row becomes one link with the row's name as title and a URL the
   * row's id can be read back from; distinct ids give distinct URLs.
   */
  lemma CategoriesFromSQLLinks(rows: seq<CategoryRow>)
    ensures |CategoriesFromSQL(rows)| == |rows|
    ensures forall i :: 0 <= i < |rows| ==>
      var u := CategoriesFromSQL(rows)[i].productsURL;
      CategoriesFromSQL(rows)[i].title == rows[i].name && |u| == |rows[i].id| + 17 && u[16..|u| - 1] == rows[i].id
    ensures forall i, j :: 0 <= i < |rows| && 0 <= j < |rows| && rows[i].id != rows[j].id ==>
      CategoriesFromSQL(rows)[i].productsURL != CategoriesFromSQL(rows)[j].productsURL
  {
    forall i | 0 <= i < |rows| {
      CategoryURLRoundTrip(rows[i].id);
    }
  }
}
