/**
 * The rows of the MySQL schema the order pipeline reads and writes, and the
 * database state as one value: tables plus the session's `last_insert_id()`
 * register and the tables' auto-increment counters.
 */
module Tables {

  /** A point in time (`new Date()`), supplied by the caller. */
  datatype Timestamp = Timestamp(millis: int)

  /**
   * What the Order table's `date` column keeps of a timestamp: whole seconds.
   * MySQL rounds the fractional seconds away when a DATETIME column has no
   * fractional digits, so `'2015-02-12 16:12:55.414'` is read back as
   * `16:12:55.000`.
   */
  function StoredDate(t: Timestamp): (d: Timestamp)
    ensures d.millis % 1000 == 0
    ensures t.millis - 500 < d.millis <= t.millis + 500
  {
    Timestamp((t.millis + 500) / 1000 * 1000)
  }

  /** A timestamp already in whole seconds is stored unchanged, so storing twice is storing once. */
  lemma StoredDateWholeSeconds(t: Timestamp)
    ensures t.millis % 1000 == 0 ==> StoredDate(t) == t
    ensures StoredDate(StoredDate(t)) == StoredDate(t)
  {
  }

  /** A Product row as far as the core reads it: display name and price in cents. */
  datatype Product = Product(name: string, price: int)

  /** The unique key (name, address) of a Customer row. */
  datatype Customer = Customer(name: string, address: string)

  /** An `Order` row: customer id, date and the dispatched flag ('y' or 'n'). */
  datatype OrderRow = OrderRow(customer: nat, date: Timestamp, dispatched: char)

  /** An OrderLine row: order id, product id, quantity and price in cents. */
  datatype LineRow = LineRow(order: nat, product: string, quantity: real, price: int)

  datatype DbState = DbState(
    products: map<string, Product>,   // Product.id -> row
    customers: map<Customer, nat>,    // (name, address) -> Customer.id
    orders: map<nat, OrderRow>,       // Order.id -> row
    lines: seq<LineRow>,              // OrderLine rows in insertion order
    customerAutoInc: nat,             // next Customer.id
    orderAutoInc: nat,                // next Order.id
    lastInsertId: nat)                // the connection's last_insert_id()

  /** Customer ids are unique and below the counter. */
  ghost predicate CustomersValid(s: DbState) {
    && (forall c :: c in s.customers ==> s.customers[c] < s.customerAutoInc)
    && (forall c, d :: c in s.customers && d in s.customers && c != d ==> s.customers[c] != s.customers[d])
  }

  /** Order ids are below the counter, so the next id is unused. */
  ghost predicate OrderIdsBelowCounter(s: DbState) {
    forall id :: id in s.orders ==> id < s.orderAutoInc
  }

  /** Order ids are below the counter and every order names an existing customer. */
  ghost predicate OrdersValid(s: DbState) {
    && OrderIdsBelowCounter(s)
    && forall id :: id in s.orders ==> s.orders[id].customer in s.customers.Values
  }

  /** Every line belongs to an existing order; (order, product) is a key of OrderLine. */
  ghost predicate LinesValid(s: DbState) {
    && (forall i :: 0 <= i < |s.lines| ==> s.lines[i].order in s.orders)
    && (forall i, j :: 0 <= i < j < |s.lines| ==>
          s.lines[i].order != s.lines[j].order || s.lines[i].product != s.lines[j].product)
  }

  /** The schema's keys and foreign keys hold. */
  ghost predicate Valid(s: DbState) {
    CustomersValid(s) && OrdersValid(s) && LinesValid(s)
  }
}
