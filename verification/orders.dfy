/**
  Order assembly (`POST /api/orders`) and the admin status update
  (`PUT /api/orders/:id/status`).

  Assembly looks up all requested product ids in one batch, then walks the
  request's lines in order: a line whose product did not resolve, or whose
  quantity (absent or zero meaning 1) is below 1, is skipped; every other line
  becomes a snapshot of the catalog record and adds price × quantity to the
  total. Prices and names sent by the client are never read.
 */
module Orders {
  import opened Wrappers
  import opened Text
  import opened Http
  import opened Entities
  import opened Auth

  /** One element of the request's `items` array, including the fields a client may forge. */
  datatype ItemRequest = ItemRequest(productId: Option<Id>, quantity: Option<int>, clientName: Option<string>, clientPrice: Option<int>)

  /** The order request body; `items` is `None` when the body's `items` is not an array. */
  datatype OrderRequest = OrderRequest(
    customerName: Option<string>,
    customerEmail: Option<string>,
    customerPhone: Option<string>,
    customerLocation: Option<string>,
    items: Option<seq<ItemRequest>>)

  /** All four customer fields are truthy. */
  predicate CustomerPresent(req: OrderRequest) {
    Truthy(req.customerName) && Truthy(req.customerEmail) && Truthy(req.customerPhone) && Truthy(req.customerLocation)
  }

  /** `items` is an array with at least one element. */
  predicate CartPresent(req: OrderRequest) {
    req.items.Some? && req.items.value != []
  }

  /**
    `Number(item.quantity || 1)`: an absent or zero quantity counts as 1, any
    other is kept. So absent, zero and positive quantities pass the `< 1`
    check and only negative ones fail it; a result other than 1 is always the
    client's own quantity.
   */
  function CoerceQuantity(quantity: Option<int>): (n: int)
    ensures n >= 1 <==> quantity.None? || quantity.value >= 0
    ensures quantity.Some? && quantity.value >= 1 ==> n == quantity.value
    ensures n != 1 ==> quantity == Some(n)
  {
    match quantity
    case None => 1
    case Some(q) => if q == 0 then 1 else q
  }

  /** `String(item.productId)`: the key a line is looked up under; an absent id reads as `"undefined"`. */
  function KeyOf(productId: Option<Id>): (key: string)
    ensures productId.Some? ==> key == productId.value
  {
    match productId
    case Some(id) => id
    case None => "undefined"
  }

  /** `items.map(item => item.productId).filter(Boolean)`: the ids the batch lookup asks for. */
  function RequestedIds(items: seq<ItemRequest>): (ids: set<Id>)
    ensures forall i :: 0 <= i < |items| && Truthy(items[i].productId) ==> items[i].productId.value in ids
    ensures forall id :: id in ids ==> id != "" && exists i :: 0 <= i < |items| && items[i].productId == Some(id)
  {
    set i | 0 <= i < |items| && Truthy(items[i].productId) :: items[i].productId.value
  }

  /**
    A line without a product id is looked up under `"undefined"`, which the
    batch asks for only when another line names that id literally: such a line
    survives exactly when some line of the request has the id `"undefined"`,
    that id is in the catalog, and its own quantity passes.
   */
  lemma AbsentIdLookup(items: seq<ItemRequest>, i: nat, catalog: map<Id, Product>)
    requires i < |items| && items[i].productId.None?
    ensures Survives(items[i], ProductMap(items, catalog)) <==>
      && "undefined" in catalog
      && (exists j :: 0 <= j < |items| && items[j].productId == Some("undefined"))
      && CoerceQuantity(items[i].quantity) >= 1
  {
  }

  /** The map built from the batch lookup: the catalog restricted to the requested ids. */
  function ProductMap(items: seq<ItemRequest>, catalog: map<Id, Product>): (m: map<Id, Product>)
    ensures forall id :: id in m <==> id in catalog && id in RequestedIds(items)
    ensures forall id :: id in m ==> m[id] == catalog[id]
  {
    map id | id in catalog && id in RequestedIds(items) :: catalog[id]
  }

  /** A line is kept when its key resolves in the product map and its coerced quantity is at least 1. */
  predicate Survives(item: ItemRequest, products: map<Id, Product>)
    ensures Survives(item, products) <==>
      KeyOf(item.productId) in products && (item.quantity.None? || item.quantity.value >= 0)
  {
    KeyOf(item.productId) in products && CoerceQuantity(item.quantity) >= 1
  }

  /** The line snapshot of a kept line: name, price and image come from the product record. */
  function Snapshot(item: ItemRequest, products: map<Id, Product>): (line: LineItem)
    requires Survives(item, products)
    ensures var p := products[KeyOf(item.productId)];
      line.productId == KeyOf(item.productId) && line.name == p.name && line.price == p.price && line.image == p.image
    ensures line.quantity == CoerceQuantity(item.quantity) >= 1
  {
    var p := products[KeyOf(item.productId)];
    LineItem(KeyOf(item.productId), p.name, p.price, CoerceQuantity(item.quantity), p.image)
  }

  /** Reference definition of the kept lines: the snapshots of the surviving request lines, in request order. */
  function Lines(items: seq<ItemRequest>, products: map<Id, Product>): seq<LineItem>
  {
    if items == [] then []
    else
      var rest := Lines(items[..|items| - 1], products);
      var last := items[|items| - 1];
      if Survives(last, products) then rest + [Snapshot(last, products)] else rest
  }

  /** The sum of price × quantity over `lines`. */
  function Total(lines: seq<LineItem>): int
  {
    if lines == [] then 0
    else Total(lines[..|lines| - 1]) + lines[|lines| - 1].price * lines[|lines| - 1].quantity
  }

  /** The positions of the surviving request lines, in increasing order. */
  function SurvivingIndices(items: seq<ItemRequest>, products: map<Id, Product>): (idx: seq<nat>)
    ensures forall k :: 0 <= k < |idx| ==> idx[k] < |items| && Survives(items[idx[k]], products)
    ensures forall k, l :: 0 <= k < l < |idx| ==> idx[k] < idx[l]
    ensures forall i :: 0 <= i < |items| && Survives(items[i], products) ==> i in idx
  {
    if items == [] then []
    else
      var n := |items| - 1;
      var rest := SurvivingIndices(items[..n], products);
      assert forall k :: 0 <= k < |rest| ==> items[..n][rest[k]] == items[rest[k]];
      if Survives(items[n], products) then rest + [n] else rest
  }

  /**
    The kept lines are exactly one snapshot per surviving request line, in
    request order: lines that repeat a product id are not merged.
   */
  lemma {:induction false} LinesFollowIndices(items: seq<ItemRequest>, products: map<Id, Product>)
    ensures var idx := SurvivingIndices(items, products); var lines := Lines(items, products);
      |lines| == |idx| &&
      forall k :: 0 <= k < |idx| ==> lines[k] == Snapshot(items[idx[k]], products)
  {
    if items != [] {
      var n := |items| - 1;
      LinesFollowIndices(items[..n], products);
      var idx := SurvivingIndices(items[..n], products);
      assert forall k :: 0 <= k < |idx| ==> items[..n][idx[k]] == items[idx[k]];
    }
  }

  /** No line is kept exactly when no request line survives. */
  lemma LinesEmptyIff(items: seq<ItemRequest>, products: map<Id, Product>)
    ensures Lines(items, products) == [] <==> forall i :: 0 <= i < |items| ==> !Survives(items[i], products)
  {
  }

  /**
    A line with a present, non-empty product id survives exactly when that id
    is in the catalog and its coerced quantity is at least 1.
   */
  lemma PresentIdResolves(items: seq<ItemRequest>, i: nat, catalog: map<Id, Product>)
    requires i < |items| && Truthy(items[i].productId)
    ensures Survives(items[i], ProductMap(items, catalog)) <==>
      items[i].productId.value in catalog && CoerceQuantity(items[i].quantity) >= 1
  {
  }

  /** A line with an empty product id never survives: the batch lookup does not ask for it. */
  lemma EmptyIdDropped(items: seq<ItemRequest>, i: nat, catalog: map<Id, Product>)
    requires i < |items| && items[i].productId == Some("")
    ensures !Survives(items[i], ProductMap(items, catalog))
  {
  }

  /** Every line names a catalog product and carries its name, price and image, with a quantity of at least 1. */
  predicate MirrorsCatalog(lines: seq<LineItem>, catalog: map<Id, Product>) {
    forall k :: 0 <= k < |lines| ==>
      && lines[k].productId in catalog
      && lines[k].name == catalog[lines[k].productId].name
      && lines[k].price == catalog[lines[k].productId].price
      && lines[k].image == catalog[lines[k].productId].image
      && lines[k].quantity >= 1
  }

  /** Every kept line is a snapshot of the catalog record for its id. */
  lemma {:induction false} LinesSnapshotCatalog(items: seq<ItemRequest>, catalog: map<Id, Product>)
    ensures MirrorsCatalog(Lines(items, ProductMap(items, catalog)), catalog)
  {
    var products := ProductMap(items, catalog);
    LinesFollowIndices(items, products);
  }

  /** With the catalog's non-negative prices, the total of kept lines is non-negative. */
  lemma {:induction false} TotalNonNegative(lines: seq<LineItem>)
    requires forall k :: 0 <= k < |lines| ==> lines[k].price >= 0 && lines[k].quantity >= 1
    ensures Total(lines) >= 0
  {
    if lines != [] {
      TotalNonNegative(lines[..|lines| - 1]);
    }
  }

  /**
    The handler's loop over the request lines: walk them in order,
    skip those that do not survive, append the snapshot of the others and add
    price × quantity to the running total.
   */
  method AssembleCart(items: seq<ItemRequest>, products: map<Id, Product>) returns (lines: seq<LineItem>, total: int)
    ensures lines == Lines(items, products)
    ensures total == Total(lines)
  {
    lines := [];
    total := 0;
    for i := 0 to |items|
      invariant lines == Lines(items[..i], products)
      invariant total == Total(lines)
    {
      var item := items[i];
      var key := KeyOf(item.productId);
      var quantity := CoerceQuantity(item.quantity);
      assert items[..i + 1][..i] == items[..i];
      assert Survives(item, products) == (key in products && quantity >= 1);
      if key in products && quantity >= 1 {
        var product := products[key];
        lines := lines + [LineItem(key, product.name, product.price, quantity, product.image)];
        total := total + product.price * quantity;
        assert lines[..|lines| - 1] == Lines(items[..i], products);
      }
    }
    assert items[..|items|] == items;
  }

  /** The order a valid request creates, before it is stored. */
  function NewOrder(req: OrderRequest, lines: seq<LineItem>): Order
    requires CustomerPresent(req)
  {
    Order(req.customerName.value, NormalizeEmail(req.customerEmail), req.customerPhone.value,
          req.customerLocation.value, lines, Total(lines), Pending)
  }

  /**
    `POST /api/orders`: 400 for a missing customer field, then 400 for a
    missing or empty cart, then 400 when no line survives; otherwise a pending
    order with the normalised email, the kept lines and their total is stored
    under the new id.
   */
  function CreateOrder(req: OrderRequest, catalog: map<Id, Product>, orders: map<Id, Order>, newId: Id)
    : (r: (Result<Order, HttpError>, map<Id, Order>))
    ensures !CustomerPresent(req) ==> r == (Err(CustomerRequired), orders)
    ensures CustomerPresent(req) && !CartPresent(req) ==> r == (Err(CartRequired), orders)
    ensures CustomerPresent(req) && CartPresent(req) ==>
      var items := req.items.value;
      (r.0 == Err(NoValidProducts) <==> forall i :: 0 <= i < |items| ==> !Survives(items[i], ProductMap(items, catalog)))
    ensures r.0.Ok? <==>
      && CustomerPresent(req) && CartPresent(req)
      && exists i :: 0 <= i < |req.items.value| && Survives(req.items.value[i], ProductMap(req.items.value, catalog))
    ensures r.0.Err? ==> r.1 == orders
    ensures r.0.Ok? ==>
      && CustomerPresent(req) && CartPresent(req)
      && var o := r.0.value;
      && r.1 == orders[newId := o]
      && o.status == Pending
      && o.customerName == req.customerName.value
      && o.customerEmail == NormalizeEmail(req.customerEmail)
      && o.customerPhone == req.customerPhone.value
      && o.customerLocation == req.customerLocation.value
      && o.items == Lines(req.items.value, ProductMap(req.items.value, catalog))
      && o.items != []
      && o.totalAmount == Total(o.items)
  {
    if !CustomerPresent(req) then (Err(CustomerRequired), orders)
    else if !CartPresent(req) then (Err(CartRequired), orders)
    else
      var items := req.items.value;
      var lines := Lines(items, ProductMap(items, catalog));
      LinesEmptyIff(items, ProductMap(items, catalog));
      if lines == [] then (Err(NoValidProducts), orders)
      else
        var order := NewOrder(req, lines);
        (Ok(order), orders[newId := order])
  }

  /** The fields of a request line the handler reads: its product id and quantity. */
  predicate SameIdsAndQuantities(a: seq<ItemRequest>, b: seq<ItemRequest>) {
    |a| == |b| && forall i :: 0 <= i < |a| ==> a[i].productId == b[i].productId && a[i].quantity == b[i].quantity
  }

  lemma {:induction false} LinesIgnoreClientFields(a: seq<ItemRequest>, b: seq<ItemRequest>, products: map<Id, Product>)
    requires SameIdsAndQuantities(a, b)
    ensures Lines(a, products) == Lines(b, products)
  {
    if a != [] {
      var n := |a| - 1;
      assert SameIdsAndQuantities(a[..n], b[..n]);
      LinesIgnoreClientFields(a[..n], b[..n], products);
    }
  }

  /**
    The client's name and price fields never matter: requests whose lines agree
    on product id and quantity create the same order.
   */
  lemma ClientPricesIgnored(req: OrderRequest, forged: seq<ItemRequest>, catalog: map<Id, Product>,
                            orders: map<Id, Order>, newId: Id)
    requires req.items.Some? && SameIdsAndQuantities(req.items.value, forged)
    ensures CreateOrder(req, catalog, orders, newId) == CreateOrder(req.(items := Some(forged)), catalog, orders, newId)
  {
    var items := req.items.value;
    assert RequestedIds(items) == RequestedIds(forged) by {
      forall id ensures id in RequestedIds(items) <==> id in RequestedIds(forged) {
        if id in RequestedIds(items) {
          var i :| 0 <= i < |items| && items[i].productId == Some(id);
          assert forged[i].productId == Some(id);
        }
        if id in RequestedIds(forged) {
          var i :| 0 <= i < |forged| && forged[i].productId == Some(id);
          assert items[i].productId == Some(id);
        }
      }
    }
    LinesIgnoreClientFields(items, forged, ProductMap(items, catalog));
  }

  /** With the catalog's prices non-negative (the schema's minimum), the total of the kept lines is non-negative. */
  lemma KeptTotalNonNegative(items: seq<ItemRequest>, catalog: map<Id, Product>)
    requires forall id :: id in catalog ==> catalog[id].price >= 0
    ensures Total(Lines(items, ProductMap(items, catalog))) >= 0
  {
    var lines := Lines(items, ProductMap(items, catalog));
    LinesSnapshotCatalog(items, catalog);
    assert MirrorsCatalog(lines, catalog);
    forall k | 0 <= k < |lines|
      ensures lines[k].price >= 0 && lines[k].quantity >= 1
    {
      assert lines[k].price == catalog[lines[k].productId].price;
    }
    TotalNonNegative(lines);
  }

  /**
    The worked example: with product P1 priced 100, the request
    `[P1 × 2, "bogus" × 5]` creates one line, P1 at 100 × 2, totalling 200.
   */
  lemma WorkedExample(p1: Product, orders: map<Id, Order>)
    requires p1.price == 100
    ensures var item1 := ItemRequest(Some("P1"), Some(2), None, None);
      var item2 := ItemRequest(Some("bogus"), Some(5), None, None);
      var req := OrderRequest(Some("Ana"), Some("ana@example.com"), Some("0917"), Some("Manila"), Some([item1, item2]));
      var r := CreateOrder(req, map["P1" := p1], orders, "O1");
      && r.0.Ok?
      && r.0.value.items == [LineItem("P1", p1.name, 100, 2, p1.image)]
      && r.0.value.totalAmount == 200
  {
    var item1 := ItemRequest(Some("P1"), Some(2), None, None);
    var item2 := ItemRequest(Some("bogus"), Some(5), None, None);
    var req := OrderRequest(Some("Ana"), Some("ana@example.com"), Some("0917"), Some("Manila"), Some([item1, item2]));
    assert CustomerPresent(req) && CartPresent(req);
    ExampleLines(p1, item1, item2);
    var r := CreateOrder(req, map["P1" := p1], orders, "O1");
    assert r.0.Ok?;
  }

  lemma ExampleLines(p1: Product, item1: ItemRequest, item2: ItemRequest)
    requires p1.price == 100
    requires item1 == ItemRequest(Some("P1"), Some(2), None, None)
    requires item2 == ItemRequest(Some("bogus"), Some(5), None, None)
    ensures var lines := Lines([item1, item2], ProductMap([item1, item2], map["P1" := p1]));
      lines == [LineItem("P1", p1.name, 100, 2, p1.image)] && Total(lines) == 200
  {
    var items := [item1, item2];
    var products := ProductMap(items, map["P1" := p1]);
    assert items[0] == item1;
    assert "P1" in products;
    assert items[..1] == [item1];
    assert [item1][..0] == [];
    assert Survives(item1, products) && !Survives(item2, products);
    assert Lines([item1], products) == [Snapshot(item1, products)];
    var lines := Lines(items, products);
    assert lines == [LineItem("P1", p1.name, 100, 2, p1.image)];
    assert lines[..0] == [];
  }

  /** `allowed.has(status)`: the order status a request's `status` names, if it names one. */
  function ParseStatus(status: Option<string>): (r: Option<OrderStatus>)
    ensures r.Some? ==> status == Some(StatusName(r.value))
  {
    match status
    case Some("pending") => Some(Pending)
    case Some("processing") => Some(Processing)
    case Some("completed") => Some(Completed)
    case Some("cancelled") => Some(Cancelled)
    case _ => None
  }

  /** Every status name is accepted, and parses back to its status. */
  lemma ParseStatusName(status: OrderStatus)
    ensures ParseStatus(Some(StatusName(status))) == Some(status)
  {
  }

  /**
    `PUT /api/orders/:id/status`: the guard's answer, then 400 for a status
    outside the four names (whatever the id), then 404 for an unknown id;
    otherwise only the order's status is overwritten.
   */
  function UpdateStatus(header: Option<string>, verify: Verifier, id: Id, status: Option<string>, orders: map<Id, Order>)
    : (r: (Result<Order, HttpError>, map<Id, Order>))
    ensures AdminGuard(header, verify).Err? ==> r == (Err(AdminGuard(header, verify).error), orders)
    ensures AdminGuard(header, verify).Ok? && ParseStatus(status).None? ==> r == (Err(InvalidStatus), orders)
    ensures AdminGuard(header, verify).Ok? && ParseStatus(status).Some? && id !in orders ==> r == (Err(OrderNotFound), orders)
    ensures r.0.Ok? <==> AdminGuard(header, verify).Ok? && ParseStatus(status).Some? && id in orders
    ensures r.0.Ok? ==>
      && status == Some(StatusName(r.0.value.status))
      && SameExceptStatus(orders[id], r.0.value)
      && r.1 == orders[id := r.0.value]
    ensures r.0.Err? ==> r.1 == orders
  {
    var guard := AdminGuard(header, verify);
    if guard.Err? then (Err(guard.error), orders)
    else
      match ParseStatus(status)
      case None => (Err(InvalidStatus), orders)
      case Some(st) =>
        if id !in orders then (Err(OrderNotFound), orders)
        else
          var updated := orders[id].(status := st);
          (Ok(updated), orders[id := updated])
  }

  /** There is no transition graph: an admin may move any existing order to any status, completed to pending included. */
  lemma AnyTransitionAllowed(header: Option<string>, verify: Verifier, id: Id, to: OrderStatus, orders: map<Id, Order>)
    requires AdminGuard(header, verify).Ok? && id in orders
    ensures var r := UpdateStatus(header, verify, id, Some(StatusName(to)), orders);
      r.0 == Ok(orders[id].(status := to))
  {
  }
}
