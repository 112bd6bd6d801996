/**
 * `validateOrder` in server.js: ordered, fail-fast checks of an order payload,
 * filling the `priceCheck` table (product key -> claimed price) that is used
 * to reject repeated products and then to reconcile prices.
 */
module Validation {
  import opened Wrappers
  import opened JsValue
  import opened WebErrors

  /** The failed assertion, one per check, in the order the checks run. */
  datatype Invalid =
    | MissingOrder
    | MissingLines
    | EmptyLines
    | MissingBuyer
    | MissingAddress
    | MissingProduct
    | MissingQty
    | QtyBelowOne
    | MissingPrice
    | DuplicateProduct
    | NullRead(property: string)   // the TypeError of reading a property of null

  /** The message carried by the failed check. */
  function Message(e: Invalid): string {
    match e
    case MissingOrder => "order data missing top-level 'order'"
    case MissingLines => "order missing 'lines' array"
    case EmptyLines => "order 'lines' array must not be empty"
    case MissingBuyer => "order missing 'buyer' string"
    case MissingAddress => "order missing 'address' string"
    case MissingProduct => "order line missing 'product' ID string"
    case MissingQty => "order line missing 'qty' number"
    case QtyBelowOne => "order line qty must be at least 1"
    case MissingPrice => "order line missing 'price' number"
    case DuplicateProduct => "order cannot have multiple lines with the same product"
    case NullRead(p) => "Cannot read properties of null (reading '" + p + "')"
  }

  /** The error `validateOrder` hands on: 400 with the message prefixed. */
  function ValidationError(e: Invalid): (w: WebAppError)
    ensures w.status == 400
    ensures w.message == "invalid order: " + Message(e) + "\n"
  {
    MakeError(400, "invalid order: " + Message(e))
  }

  /** `typeof r` is one of `allowedProductIDTypes` (number or string). */
  predicate IsProductId(r: Read) {
    r.Value? && (r.v.JNum? || r.v.JStr?)
  }

  /** The number read, when `typeof r === 'number'`. */
  function NumberOf(r: Read): Option<real> {
    if r.Value? && r.v.JNum? then Some(r.v.n) else None
  }

  /**
   * The assertions of one `forEach` step, in order; on success the key the
   * product becomes and the claimed price.
   */
  function CheckLine(line: Json): (r: Result<(string, real), Invalid>)
  {
    var product := Get(line, "product");
    if product.ReadOfNull? then Failure(NullRead("product"))
    else if !IsProductId(product) then Failure(MissingProduct)
    else if NumberOf(Get(line, "qty")).None? then Failure(MissingQty)
    else if NumberOf(Get(line, "qty")).value.Floor <= 0 then Failure(QtyBelowOne)
    else if NumberOf(Get(line, "price")).None? then Failure(MissingPrice)
    else Success((KeyOf(product.v), NumberOf(Get(line, "price")).value))
  }

  /**
   * `priceCheck[key] = price`. Assigning to `__proto__` replaces the
   * prototype (ignored for a number) instead of creating an own property.
   */
  function Record(table: map<string, real>, key: string, price: real): map<string, real> {
    if key == "__proto__" then table else table[key := price]
  }

  /** The `forEach` over `lines`: the first failing line stops it. */
  function CheckLines(lines: seq<Json>): Result<map<string, real>, Invalid>
    decreases |lines|
  {
    if lines == [] then Success(map[])
    else
      match CheckLines(lines[..|lines| - 1])
      case Failure(e) => Failure(e)
      case Success(table) =>
        match CheckLine(lines[|lines| - 1])
        case Failure(e) => Failure(e)
        case Success(entry) => Success(Record(table, entry.0, entry.1))
  }

  predicate HasOrder(data: Json) {
    data.JObj? && "order" in data.fields
  }

  function OrderOf(data: Json): Json
    requires HasOrder(data)
  {
    data.fields["order"]
  }

  predicate HasLinesArray(data: Json) {
    HasOrder(data) && Get(OrderOf(data), "lines").Value? && Get(OrderOf(data), "lines").v.JArr?
  }

  function LinesOf(data: Json): seq<Json>
    requires HasLinesArray(data)
  {
    Get(OrderOf(data), "lines").v.items
  }

  predicate IsString(r: Read) {
    r.Value? && r.v.JStr?
  }

  /**
   * The whole of `validateOrder`'s try block. The body parser only produces
   * objects and arrays, so `'order' in data` never throws.
   */
  function Validate(data: Json): Result<map<string, real>, Invalid>
    requires data.JObj? || data.JArr?
  {
    if !HasOrder(data) then Failure(MissingOrder)
    else if OrderOf(data).JNull? then Failure(NullRead("lines"))
    else if !HasLinesArray(data) then Failure(MissingLines)
    else if |LinesOf(data)| == 0 then Failure(EmptyLines)
    else if !IsString(Get(OrderOf(data), "buyer")) then Failure(MissingBuyer)
    else if !IsString(Get(OrderOf(data), "address")) then Failure(MissingAddress)
    else
      match CheckLines(LinesOf(data))
      case Failure(e) => Failure(e)
      case Success(table) =>
        if |table| == |LinesOf(data)| then Success(table) else Failure(DuplicateProduct)
  }

  // ---------------------------------------------------------------------------
  // A declarative reading of what an accepted order looks like.

  /** A line every per-line assertion accepts. */
  predicate LineWellFormed(line: Json) {
    && line.JObj?
    && "product" in line.fields && (line.fields["product"].JNum? || line.fields["product"].JStr?)
    && "qty" in line.fields && line.fields["qty"].JNum? && line.fields["qty"].n.Floor >= 1
    && "price" in line.fields && line.fields["price"].JNum?
  }

  function LineKey(line: Json): string
    requires LineWellFormed(line)
  {
    KeyOf(line.fields["product"])
  }

  function LinePrice(line: Json): real
    requires LineWellFormed(line)
  {
    line.fields["price"].n
  }

  /** No two lines name the same product key, and none is `__proto__`. */
  predicate DistinctKeys(lines: seq<Json>)
    requires forall i :: 0 <= i < |lines| ==> LineWellFormed(lines[i])
  {
    && PairwiseDistinct(lines)
    && (forall i :: 0 <= i < |lines| ==> LineKey(lines[i]) != "__proto__")
  }

  predicate PairwiseDistinct(lines: seq<Json>)
    requires forall i :: 0 <= i < |lines| ==> LineWellFormed(lines[i])
  {
    forall i, j :: 0 <= i < j < |lines| ==> LineKey(lines[i]) != LineKey(lines[j])
  }

  predicate AllWellFormed(lines: seq<Json>) {
    forall i :: 0 <= i < |lines| ==> LineWellFormed(lines[i])
  }

  predicate WellFormed(data: Json) {
    && HasLinesArray(data)
    && |LinesOf(data)| > 0
    && IsString(Get(OrderOf(data), "buyer"))
    && IsString(Get(OrderOf(data), "address"))
    && (forall i :: 0 <= i < |LinesOf(data)| ==> LineWellFormed(LinesOf(data)[i]))
    && DistinctKeys(LinesOf(data))
  }

  /** The product keys the lines name. */
  function KeySet(lines: seq<Json>): set<string>
    requires forall i :: 0 <= i < |lines| ==> LineWellFormed(lines[i])
  {
    set i | 0 <= i < |lines| :: LineKey(lines[i])
  }

  // ---------------------------------------------------------------------------
  // Lemmas

  lemma CheckLineAccepts(line: Json)
    ensures CheckLine(line).Success? <==> LineWellFormed(line)
    ensures LineWellFormed(line) ==> CheckLine(line) == Success((LineKey(line), LinePrice(line)))
  {
  }

  /** The error a line that is not well formed stops the loop with. */
  function LineError(line: Json): Invalid
    requires !LineWellFormed(line)
  {
    CheckLineAccepts(line);
    CheckLine(line).error
  }

  lemma {:induction false} CheckLinesPrefixFailure(lines: seq<Json>, n: nat)
    requires n <= |lines|
    requires CheckLines(lines[..n]).Failure?
    ensures CheckLines(lines) == CheckLines(lines[..n])
    decreases |lines| - n
  {
    if n < |lines| {
      assert lines[..n + 1][..n] == lines[..n];
      CheckLinesPrefixFailure(lines, n + 1);
    } else {
      assert lines[..n] == lines;
    }
  }

  /** Well-formedness and key facts of a snapshot's prefix. */
  lemma KeySetSnoc(lines: seq<Json>)
    requires lines != []
    requires forall i :: 0 <= i < |lines| ==> LineWellFormed(lines[i])
    ensures AllWellFormed(lines[..|lines| - 1])
    ensures KeySet(lines) == KeySet(lines[..|lines| - 1]) + {LineKey(lines[|lines| - 1])}
  {
    var init := lines[..|lines| - 1];
    assert forall i :: 0 <= i < |init| ==> init[i] == lines[i];
    forall k | k in KeySet(lines) ensures k in KeySet(init) + {LineKey(lines[|lines| - 1])} {
      var i :| 0 <= i < |lines| && LineKey(lines[i]) == k;
      if i < |lines| - 1 { assert LineKey(init[i]) == k; }
    }
    forall k | k in KeySet(init) ensures k in KeySet(lines) {
      var i :| 0 <= i < |init| && LineKey(init[i]) == k;
      assert LineKey(lines[i]) == k;
    }
    assert LineKey(lines[|lines| - 1]) in KeySet(lines);
  }

  lemma DistinctPrefix(lines: seq<Json>)
    requires lines != []
    requires forall i :: 0 <= i < |lines| ==> LineWellFormed(lines[i])
    requires DistinctKeys(lines)
    ensures AllWellFormed(lines[..|lines| - 1])
    ensures DistinctKeys(lines[..|lines| - 1])
    ensures LineKey(lines[|lines| - 1]) !in KeySet(lines[..|lines| - 1])
  {
    var init := lines[..|lines| - 1];
    assert forall i :: 0 <= i < |init| ==> init[i] == lines[i];
  }

  /**
   * While every line is well formed, the loop's table holds exactly the lines'
   * keys except `__proto__`, each mapped to that line's price when the keys
   * are distinct.
   */
  lemma {:induction false} CheckLinesTable(lines: seq<Json>)
    requires forall i :: 0 <= i < |lines| ==> LineWellFormed(lines[i])
    ensures CheckLines(lines).Success?
    ensures CheckLines(lines).value.Keys == KeySet(lines) - {"__proto__"}
    ensures DistinctKeys(lines) ==>
      forall i :: 0 <= i < |lines| ==> CheckLines(lines).value[LineKey(lines[i])] == LinePrice(lines[i])
    decreases |lines|
  {
    if lines != [] {
      var init := lines[..|lines| - 1];
      var last := lines[|lines| - 1];
      KeySetSnoc(lines);
      CheckLinesTable(init);
      CheckLineAccepts(last);
      var table := CheckLines(init).value;
      assert CheckLines(lines) == Success(Record(table, LineKey(last), LinePrice(last)));
      if DistinctKeys(lines) {
        DistinctPrefix(lines);
        forall i | 0 <= i < |lines|
          ensures CheckLines(lines).value[LineKey(lines[i])] == LinePrice(lines[i])
        {
          if i < |lines| - 1 {
            assert init[i] == lines[i];
            assert LineKey(init[i]) in KeySet(init);
          }
        }
      }
    }
  }

  lemma PairwiseSnoc(lines: seq<Json>)
    requires lines != [] && AllWellFormed(lines)
    ensures AllWellFormed(lines[..|lines| - 1])
    ensures PairwiseDistinct(lines) <==>
      PairwiseDistinct(lines[..|lines| - 1]) && LineKey(lines[|lines| - 1]) !in KeySet(lines[..|lines| - 1])
  {
    var init := lines[..|lines| - 1];
    var last := lines[|lines| - 1];
    assert forall i :: 0 <= i < |init| ==> init[i] == lines[i];
    if PairwiseDistinct(init) && LineKey(last) !in KeySet(init) {
      forall i, j | 0 <= i < j < |lines| ensures LineKey(lines[i]) != LineKey(lines[j]) {
        if j == |lines| - 1 {
          assert LineKey(init[i]) in KeySet(init);
        } else {
          assert LineKey(init[i]) != LineKey(init[j]);
        }
      }
    }
  }

  /** The number of distinct keys of `n` well-formed lines is at most `n`, and equals it iff no key repeats. */
  lemma {:induction false} KeySetSize(lines: seq<Json>)
    requires AllWellFormed(lines)
    ensures |KeySet(lines)| <= |lines|
    ensures |KeySet(lines)| == |lines| <==> PairwiseDistinct(lines)
    decreases |lines|
  {
    if lines != [] {
      var init := lines[..|lines| - 1];
      KeySetSnoc(lines);
      PairwiseSnoc(lines);
      KeySetSize(init);
    }
  }

  /**
   * Validation accepts exactly the well-formed payloads: every check passes
   * and no two lines share a product key (the number 2 and the string "2"
   * count as the same key; a `__proto__` key is never recorded, so it counts
   * as a repeat).
   */
  lemma ValidateAcceptsExactly(data: Json)
    requires data.JObj? || data.JArr?
    ensures Validate(data).Success? <==> WellFormed(data)
  {
    if HasLinesArray(data) && |LinesOf(data)| > 0
       && IsString(Get(OrderOf(data), "buyer")) && IsString(Get(OrderOf(data), "address"))
    {
      var lines := LinesOf(data);
      assert Validate(data) == (match CheckLines(lines)
        case Failure(e) => Failure(e)
        case Success(table) => if |table| == |lines| then Success(table) else Failure(DuplicateProduct));
      if AllWellFormed(lines) {
        CheckLinesTable(lines);
        KeySetSize(lines);
        ProtoKeyShrinksTable(lines);
      } else {
        var i :| 0 <= i < |lines| && !LineWellFormed(lines[i]);
        FirstBadLineFrom(lines, i);
      }
    }
  }

  /** The table has one entry per line exactly when the keys are distinct and none is `__proto__`. */
  lemma ProtoKeyShrinksTable(lines: seq<Json>)
    requires AllWellFormed(lines)
    ensures CheckLines(lines).Success?
    ensures |CheckLines(lines).value| == |lines| <==> DistinctKeys(lines)
  {
    CheckLinesTable(lines);
    KeySetSize(lines);
    var keys := KeySet(lines);
    if "__proto__" in keys {
      assert |keys - {"__proto__"}| < |keys|;
      var i :| 0 <= i < |lines| && LineKey(lines[i]) == "__proto__";
    } else {
      assert keys - {"__proto__"} == keys;
    }
  }

  /** Some line is ill formed, so the loop fails at the first such line. */
  lemma FirstBadLineFrom(lines: seq<Json>, i: nat)
    requires i < |lines| && !LineWellFormed(lines[i])
    ensures CheckLines(lines).Failure?
    decreases i
  {
    if exists j :: 0 <= j < i && !LineWellFormed(lines[j]) {
      var j :| 0 <= j < i && !LineWellFormed(lines[j]);
      FirstBadLineFrom(lines, j);
    } else {
      FirstBadLineDecides(lines, i);
    }
  }

  /** On success the table maps each line's key to that line's price, one entry per line. */
  lemma ValidateTable(data: Json)
    requires data.JObj? || data.JArr?
    requires Validate(data).Success?
    ensures WellFormed(data)
    ensures Validate(data).value.Keys == KeySet(LinesOf(data))
    ensures |Validate(data).value| == |LinesOf(data)|
    ensures forall i :: 0 <= i < |LinesOf(data)| ==>
      Validate(data).value[LineKey(LinesOf(data)[i])] == LinePrice(LinesOf(data)[i])
  {
    ValidateAcceptsExactly(data);
    CheckLinesTable(LinesOf(data));
  }

  /**
   * The lines are checked in order: when line `i` is the first that is not
   * well formed, its first failed assertion is the loop's error.
   */
  lemma {:induction false} FirstBadLineDecides(lines: seq<Json>, i: nat)
    requires i < |lines|
    requires forall j :: 0 <= j < i ==> LineWellFormed(lines[j])
    requires !LineWellFormed(lines[i])
    ensures CheckLines(lines) == Failure(LineError(lines[i]))
  {
    var init := lines[..i];
    assert forall j :: 0 <= j < |init| ==> LineWellFormed(init[j]) by {
      forall j | 0 <= j < |init| ensures LineWellFormed(init[j]) { assert init[j] == lines[j]; }
    }
    CheckLinesTable(init);
    assert lines[..i + 1][..i] == init;
    CheckLineAccepts(lines[i]);
    CheckLinesPrefixFailure(lines, i + 1);
  }

  /**
   * The order-level checks run first, in this order, and the first that fails
   * decides the error; the duplicate check runs only after every line passed.
   */
  lemma ValidationOrder(data: Json)
    requires data.JObj? || data.JArr?
    ensures !HasOrder(data) ==> Validate(data) == Failure(MissingOrder)
    ensures HasOrder(data) && OrderOf(data).JNull? ==> Validate(data) == Failure(NullRead("lines"))
    ensures HasOrder(data) && !OrderOf(data).JNull? && !HasLinesArray(data) ==>
      Validate(data) == Failure(MissingLines)
    ensures HasLinesArray(data) && |LinesOf(data)| == 0 ==> Validate(data) == Failure(EmptyLines)
    ensures HasLinesArray(data) && |LinesOf(data)| > 0 && !IsString(Get(OrderOf(data), "buyer")) ==>
      Validate(data) == Failure(MissingBuyer)
    ensures HasLinesArray(data) && |LinesOf(data)| > 0 && IsString(Get(OrderOf(data), "buyer"))
            && !IsString(Get(OrderOf(data), "address")) ==>
      Validate(data) == Failure(MissingAddress)
  {
  }

  /** The order-level checks pass, so the first ill-formed line decides. */
  lemma BadLineDecides(data: Json, i: nat)
    requires data.JObj? || data.JArr?
    requires HasLinesArray(data) && |LinesOf(data)| > 0
    requires IsString(Get(OrderOf(data), "buyer")) && IsString(Get(OrderOf(data), "address"))
    requires i < |LinesOf(data)| && !LineWellFormed(LinesOf(data)[i])
    requires forall j :: 0 <= j < i ==> LineWellFormed(LinesOf(data)[j])
    ensures Validate(data) == Failure(LineError(LinesOf(data)[i]))
  {
    FirstBadLineDecides(LinesOf(data), i);
  }

  /** Every line passes but two share a key: the duplicate error. */
  lemma RepeatedProductRejected(data: Json, i: nat, j: nat)
    requires data.JObj? || data.JArr?
    requires HasLinesArray(data) && |LinesOf(data)| > 0
    requires IsString(Get(OrderOf(data), "buyer")) && IsString(Get(OrderOf(data), "address"))
    requires forall k :: 0 <= k < |LinesOf(data)| ==> LineWellFormed(LinesOf(data)[k])
    requires i < j < |LinesOf(data)| && LineKey(LinesOf(data)[i]) == LineKey(LinesOf(data)[j])
    ensures Validate(data) == Failure(DuplicateProduct)
  {
    ValidateAcceptsExactly(data);
    CheckLinesTable(LinesOf(data));
  }

  // ---------------------------------------------------------------------------
  // The imperative form of the check, as the source runs it.

  /** The `forEach` loop filling `priceCheck`; a failing assertion ends it. */
  method FillPriceCheck(lines: seq<Json>) returns (r: Result<map<string, real>, Invalid>)
    ensures r == CheckLines(lines)
  {
    var priceCheck: map<string, real> := map[];
    var i := 0;
    while i < |lines|
      invariant 0 <= i <= |lines|
      invariant CheckLines(lines[..i]) == Success(priceCheck)
    {
      assert lines[..i + 1][..i] == lines[..i];
      var checked := CheckLine(lines[i]);
      if checked.Failure? {
        CheckLinesPrefixFailure(lines, i + 1);
        return Failure(checked.error);
      }
      priceCheck := Record(priceCheck, checked.value.0, checked.value.1);
      i := i + 1;
    }
    assert lines[..i] == lines;
    return Success(priceCheck);
  }

  /** `validateOrder`: the checks on the order, then the line loop, then the duplicate count. */
  method ValidateOrder(data: Json) returns (r: Result<map<string, real>, Invalid>)
    requires data.JObj? || data.JArr?
    ensures r == Validate(data)
  {
    if !HasOrder(data) { return Failure(MissingOrder); }
    var order := data.fields["order"];
    if order.JNull? { return Failure(NullRead("lines")); }
    var linesRead := Get(order, "lines");
    if !(linesRead.Value? && linesRead.v.JArr?) { return Failure(MissingLines); }
    var lines := linesRead.v.items;
    assert lines == LinesOf(data);
    if |lines| == 0 { return Failure(EmptyLines); }
    if !IsString(Get(order, "buyer")) { return Failure(MissingBuyer); }
    if !IsString(Get(order, "address")) { return Failure(MissingAddress); }
    var checked := FillPriceCheck(lines);
    if checked.Failure? { return Failure(checked.error); }
    var priceCheck := checked.value;
    if |priceCheck| != |lines| { return Failure(DuplicateProduct); }
    return Success(priceCheck);
  }
}
