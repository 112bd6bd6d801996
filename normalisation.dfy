/**
 * `extractValidOrder` in server.js: the stored order keeps only the buyer,
 * the address and, per line, the product, quantity and price.
 */
module Normalisation {
  import opened JsValue
  import opened Validation

  datatype Line = Line(product: Json, qty: real, price: real)

  datatype ValidOrder = ValidOrder(buyer: string, address: string, lines: seq<Line>)

  function LineOf(line: Json): Line
    requires LineWellFormed(line)
  {
    Line(line.fields["product"], line.fields["qty"].n, line.fields["price"].n)
  }

  function Normalise(data: Json): ValidOrder
    requires WellFormed(data)
  {
    var lines := LinesOf(data);
    ValidOrder(
      Get(OrderOf(data), "buyer").v.s,
      Get(OrderOf(data), "address").v.s,
      seq(|lines|, i requires 0 <= i < |lines| => LineOf(lines[i])))
  }

  /** The loop pushing one copied line per client line. */
  method ExtractValidOrder(data: Json) returns (o: ValidOrder)
    requires WellFormed(data)
    ensures o == Normalise(data)
  {
    var order := OrderOf(data);
    var source := Get(order, "lines").v.items;
    var lines: seq<Line> := [];
    var i := 0;
    while i < |source|
      invariant 0 <= i <= |source|
      invariant |lines| == i
      invariant forall j :: 0 <= j < i ==> lines[j] == LineOf(source[j])
    {
      var line := source[i].fields;
      lines := lines + [Line(line["product"], line["qty"].n, line["price"].n)];
      i := i + 1;
    }
    o := ValidOrder(Get(order, "buyer").v.s, Get(order, "address").v.s, lines);
  }

  /** Line order and count are kept; each line keeps its three recognised fields. */
  lemma NormaliseKeepsLines(data: Json)
    requires WellFormed(data)
    ensures |Normalise(data).lines| == |LinesOf(data)|
    ensures forall i :: 0 <= i < |LinesOf(data)| ==>
      var f := LinesOf(data)[i].fields;
      Normalise(data).lines[i] == Line(f["product"], f["qty"].n, f["price"].n)
    ensures JStr(Normalise(data).buyer) == OrderOf(data).fields["buyer"]
    ensures JStr(Normalise(data).address) == OrderOf(data).fields["address"]
  {
  }

  /** `data` with `order[key] = v`. */
  function WithOrderField(data: Json, key: string, v: Json): Json
    requires HasOrder(data) && OrderOf(data).JObj?
  {
    JObj(data.fields["order":= JObj(OrderOf(data).fields[key := v])])
  }

  /** `data` with `order.lines[i][key] = v`. */
  function WithLineField(data: Json, i: nat, key: string, v: Json): Json
    requires WellFormed(data) && i < |LinesOf(data)|
  {
    var lines := LinesOf(data);
    var line := JObj(lines[i].fields[key := v]);
    WithOrderField(data, "lines", JArr(lines[i := line]))
  }

  /**
   * Any other field of the order (`id`, `date`, `dispatched`, ...) is neither
   * checked nor kept.
   */
  lemma OtherOrderFieldDropped(data: Json, key: string, v: Json)
    requires WellFormed(data)
    requires key != "lines" && key != "buyer" && key != "address"
    ensures WellFormed(WithOrderField(data, key, v))
    ensures Normalise(WithOrderField(data, key, v)) == Normalise(data)
  {
    var d := WithOrderField(data, key, v);
    assert LinesOf(d) == LinesOf(data);
  }

  /** Any other field of a line (`title`, ...) is neither checked nor kept. */
  lemma OtherLineFieldDropped(data: Json, i: nat, key: string, v: Json)
    requires WellFormed(data) && i < |LinesOf(data)|
    requires key != "product" && key != "qty" && key != "price"
    ensures WellFormed(WithLineField(data, i, key, v))
    ensures Normalise(WithLineField(data, i, key, v)) == Normalise(data)
  {
    var d := WithLineField(data, i, key, v);
    var lines := LinesOf(data);
    assert LinesOf(d) == lines[i := JObj(lines[i].fields[key := v])];
    assert forall j :: 0 <= j < |lines| ==> LineKey(LinesOf(d)[j]) == LineKey(lines[j]);
    assert forall j :: 0 <= j < |lines| ==> LineOf(LinesOf(d)[j]) == LineOf(lines[j]);
  }
}
