/**
  The shop's store and its request handlers. The three tables are fields of
  one `Shop` object that the handlers update in place; what a handler leaves
  in the fields is what the database holds once its request ends, so a
  change that was staged but never committed does not appear.
*/
module Store {
  import opened Models

  /** The product table after an order's items are staged, and the rows staged for it. */
  datatype Staged = Staged(products: map<int, Product>, lines: seq<OrderItem>)

  /** What a successful order creation answers with. */
  datatype Created = Created(id: int, totalPrice: Cents)

  datatype ProductRow = ProductRow(id: int, product: Product)

  /** An order together with its items, as the order queries return it. */
  datatype OrderRow = OrderRow(id: int, order: Order, items: seq<OrderItem>)

  /**
    The item loop of order creation, run against the product table as it
    stood when the loop began: each request in turn decrements its product's
    stock and stages a row capturing the product's current price. Nothing is
    committed here; on an error the caller commits nothing of what was staged.
  */
  method StageItems(products: map<int, Product>, orderId: int, requests: seq<ItemRequest>)
    returns (r: Result<Staged, Error>)
    ensures r.Err? <==> Rejection(products, requests).Some?
    ensures r.Err? ==> Rejection(products, requests) == Some(r.error)
    ensures r.Ok? ==> StockTaken(products, r.value.products, requests)
    ensures r.Ok? ==> LinesFor(orderId, products, requests, r.value.lines)
  {
    var staged := products;
    var lines: seq<OrderItem> := [];
    var i := 0;
    while i < |requests|
      invariant 0 <= i <= |requests|
      invariant Rejection(products, requests[..i]).None?
      invariant StockTaken(products, staged, requests[..i])
      invariant LinesFor(orderId, products, requests[..i], lines)
    {
      var productId, quantity := requests[i].productId, requests[i].quantity;
      NextRequest(products, staged, requests, i);
      if Named(requests[..i], productId) {
        // a second row with the same (order_id, product_id) breaks the primary key
        return Err(ServerError);
      }
      if productId !in staged {
        return Err(NotFound);
      }
      var product := staged[productId];
      if product.stockQuantity.None? {
        // None -= quantity raises
        return Err(ServerError);
      }
      assert requests[..i + 1] == requests[..i] + [requests[i]];
      var taken := product.(stockQuantity := Some(product.stockQuantity.value - quantity));
      StockTakenStep(products, staged, requests[..i], requests[i], taken);
      LinesForStep(orderId, products, requests[..i], lines, requests[i]);
      staged := staged[productId := taken];
      lines := lines + [OrderItem(orderId, productId, quantity, product.price)];
      i := i + 1;
    }
    assert requests[..i] == requests;
    r := Ok(Staged(staged, lines));
  }

  /**
    The accumulation of an order's total over its items; a None price makes
    the multiplication raise, which is answered with None.
  */
  method SumItems(items: seq<OrderItem>) returns (r: Option<Cents>)
    ensures r.Some? <==> Priced(items)
    ensures r.Some? ==> r.value == OrderTotal(items)
  {
    var total := 0;
    var i := 0;
    while i < |items|
      invariant 0 <= i <= |items|
      invariant Priced(items[..i])
      invariant total == OrderTotal(items[..i])
    {
      assert items[..i + 1][..i] == items[..i];
      if items[i].priceAtPurchase.None? {
        assert items[i] in items;
        return None;
      }
      total := total + items[i].quantity * items[i].priceAtPurchase.value;
      i := i + 1;
    }
    assert items[..i] == items;
    r := Some(total);
  }

  class Shop {
    var products: map<int, Product>
    var orders: map<int, Order>
    var items: seq<OrderItem>
    /** The ids the database sequences hand out next. */
    var nextProductId: int
    var nextOrderId: int

    /**
      Every id was handed out by its sequence, every row of order_items
      refers to an existing order and an existing product (the foreign keys),
      and no two rows share a primary key.
    */
    ghost predicate Valid()
      reads this
    {
      && 1 <= nextProductId
      && 1 <= nextOrderId
      && (forall id | id in products :: 1 <= id < nextProductId)
      && (forall id | id in orders :: 1 <= id < nextOrderId)
      && ReferencesHold(items, orders.Keys, products.Keys)
      && KeysUnique(items)
    }

    constructor ()
      ensures Valid()
      ensures products == map[] && orders == map[] && items == []
      ensures nextProductId == 1 && nextOrderId == 1
    {
      products, orders, items := map[], map[], [];
      nextProductId, nextOrderId := 1, 1;
    }

    // -------------------------------------------------------------------
    // Products
    // -------------------------------------------------------------------

    function GetProduct(id: int): (r: Result<Product, Error>)
      reads this
      ensures r.Ok? <==> id in products
      ensures r.Ok? ==> r.value == products[id]
      ensures r.Err? ==> r.error == NotFound
    {
      if id in products then Ok(products[id]) else Err(NotFound)
    }

    /** Every product, once each, in ascending id order. */
    method ListProducts() returns (rows: seq<ProductRow>)
      requires Valid()
      ensures forall k | 0 <= k < |rows| :: rows[k].id in products && rows[k].product == products[rows[k].id]
      ensures forall id | id in products :: ProductRow(id, products[id]) in rows
      ensures forall j, k | 0 <= j < k < |rows| :: rows[j].id < rows[k].id
    {
      rows := [];
      var id := 1;
      while id < nextProductId
        invariant 1 <= id <= nextProductId
        invariant forall k | 0 <= k < |rows| ::
                    rows[k].id in products && rows[k].product == products[rows[k].id] && rows[k].id < id
        invariant forall p | p in products && p < id :: ProductRow(p, products[p]) in rows
        invariant forall j, k | 0 <= j < k < |rows| :: rows[j].id < rows[k].id
      {
        if id in products {
          rows := rows + [ProductRow(id, products[id])];
        }
        id := id + 1;
      }
    }

    /** Inserts a product built from the given fields (None where the body left one out). */
    method CreateProduct(name: Option<string>, description: Option<string>, price: Option<Cents>,
                         stockQuantity: Option<int>)
      returns (id: int)
      requires Valid()
      modifies this
      ensures Valid()
      ensures id == old(nextProductId) && id !in old(products)
      ensures products == old(products)[id := Product(name, description, price, stockQuantity)]
      ensures nextProductId == old(nextProductId) + 1
      ensures orders == old(orders) && items == old(items) && nextOrderId == old(nextOrderId)
    {
      id := nextProductId;
      products := products[id := Product(name, description, price, stockQuantity)];
      nextProductId := nextProductId + 1;
    }

    /**
      A patch: each field the body gives is overwritten (a given null
      included), each field it leaves out keeps its value.
    */
    method UpdateProduct(id: int, patch: ProductPatch) returns (r: Outcome<Error>)
      requires Valid()
      modifies this
      ensures Valid()
      ensures r.Fail? <==> id !in old(products)
      ensures r.Fail? ==> r.error == NotFound && products == old(products)
      ensures r.Pass? ==>
        && products.Keys == old(products).Keys
        && (forall p | p in products && p != id :: products[p] == old(products)[p])
        && PatchedField(patch.name, old(products)[id].name, products[id].name)
        && PatchedField(patch.description, old(products)[id].description, products[id].description)
        && PatchedField(patch.price, old(products)[id].price, products[id].price)
        && PatchedField(patch.stockQuantity, old(products)[id].stockQuantity, products[id].stockQuantity)
      ensures orders == old(orders) && items == old(items)
      ensures nextProductId == old(nextProductId) && nextOrderId == old(nextOrderId)
    {
      if id !in products {
        return Fail(NotFound);
      }
      var p := products[id];
      var name := if patch.name.Set? then patch.name.value else p.name;
      var description := if patch.description.Set? then patch.description.value else p.description;
      var price := if patch.price.Set? then patch.price.value else p.price;
      var stock := if patch.stockQuantity.Set? then patch.stockQuantity.value else p.stockQuantity;
      products := products[id := Product(name, description, price, stock)];
      r := Pass;
    }

    /**
      Removes the product. A product that some order item still refers to
      cannot go: the foreign key order_items.product_id, which is also part
      of that table's primary key, makes the delete raise and nothing changes.
    */
    method DeleteProduct(id: int) returns (r: Outcome<Error>)
      requires Valid()
      modifies this
      ensures Valid()
      ensures id !in old(products) ==> r == Fail(NotFound)
      ensures id in old(products) && Referenced(old(items), id) ==> r == Fail(ServerError)
      ensures r.Fail? ==> products == old(products)
      ensures r.Pass? <==> id in old(products) && !Referenced(old(items), id)
      ensures r.Pass? ==> products == old(products) - {id}
      ensures orders == old(orders) && items == old(items)
      ensures nextProductId == old(nextProductId) && nextOrderId == old(nextOrderId)
    {
      if id !in products {
        return Fail(NotFound);
      }
      if Referenced(items, id) {
        return Fail(ServerError);
      }
      products := products - {id};
      r := Pass;
    }

    // -------------------------------------------------------------------
    // Orders
    // -------------------------------------------------------------------

    function GetOrder(id: int): (r: Result<OrderRow, Error>)
      reads this
      ensures r.Ok? <==> id in orders
      ensures r.Ok? ==> r.value == OrderRow(id, orders[id], ItemsOf(items, id))
      ensures r.Err? ==> r.error == NotFound
    {
      if id in orders then Ok(OrderRow(id, orders[id], ItemsOf(items, id))) else Err(NotFound)
    }

    /** Every order with its items, once each, in ascending id order. */
    method ListOrders() returns (rows: seq<OrderRow>)
      requires Valid()
      ensures forall k | 0 <= k < |rows| ::
                rows[k].id in orders && rows[k].order == orders[rows[k].id] && rows[k].items == ItemsOf(items, rows[k].id)
      ensures forall id | id in orders :: OrderRow(id, orders[id], ItemsOf(items, id)) in rows
      ensures forall j, k | 0 <= j < k < |rows| :: rows[j].id < rows[k].id
    {
      rows := [];
      var id := 1;
      while id < nextOrderId
        invariant 1 <= id <= nextOrderId
        invariant forall k | 0 <= k < |rows| ::
                    && rows[k].id in orders && rows[k].id < id
                    && rows[k].order == orders[rows[k].id] && rows[k].items == ItemsOf(items, rows[k].id)
        invariant forall o | o in orders && o < id :: OrderRow(o, orders[o], ItemsOf(items, o)) in rows
        invariant forall j, k | 0 <= j < k < |rows| :: rows[j].id < rows[k].id
      {
        if id in orders {
          rows := rows + [OrderRow(id, orders[id], ItemsOf(items, id))];
        }
        id := id + 1;
      }
    }

    /**
      Places an order. The order row (Pending, total 0, dated `now`) is
      committed first. Then the items are staged; if one cannot be placed the
      request ends with that error and only the order row remains. Otherwise
      the rows and stock decrements are committed, and the total is summed
      over the order's items and stored; a missing price makes that sum raise,
      leaving the committed rows with a total of 0.
    */
    method CreateOrder(customerName: Option<string>, now: Timestamp, requests: seq<ItemRequest>)
      returns (r: Result<Created, Error>)
      requires Valid()
      modifies this
      ensures Valid()
      ensures nextOrderId == old(nextOrderId) + 1 && nextProductId == old(nextProductId)
      ensures old(nextOrderId) !in old(orders)
      ensures orders.Keys == old(orders).Keys + {old(nextOrderId)}
      ensures forall o | o in old(orders) :: orders[o] == old(orders)[o]
      ensures var o := orders[old(nextOrderId)];
              o.customerName == customerName && o.orderDate == now && o.status == Some("Pending")
      // an item that cannot be placed: only the order row was committed
      ensures Rejection(old(products), requests).Some? ==>
        && r == Err(Rejection(old(products), requests).value)
        && products == old(products) && items == old(items)
        && orders[old(nextOrderId)].totalPrice == 0
      // every item placed: rows and stock decrements committed
      ensures Rejection(old(products), requests).None? ==>
        && StockTaken(old(products), products, requests)
        && items == old(items) + ItemsOf(items, old(nextOrderId))
        && LinesFor(old(nextOrderId), old(products), requests, ItemsOf(items, old(nextOrderId)))
      ensures r.Ok? <==> Rejection(old(products), requests).None? && Priced(ItemsOf(items, old(nextOrderId)))
      ensures r.Ok? ==>
        && r.value.id == old(nextOrderId)
        && r.value.totalPrice == orders[old(nextOrderId)].totalPrice
        && r.value.totalPrice == OrderTotal(ItemsOf(items, old(nextOrderId)))
      ensures Rejection(old(products), requests).None? && !Priced(ItemsOf(items, old(nextOrderId))) ==>
        r == Err(ServerError) && orders[old(nextOrderId)].totalPrice == 0
    {
      var id := InsertOrder(Order(customerName, now, 0, Some("Pending")));
      ghost var inserted := orders;
      assert orders.Keys == old(orders).Keys + {id};

      var staged := StageItems(products, id, requests);
      if staged.Err? {
        return Err(staged.error);
      }
      Commit(id, requests, staged.value);
      assert ItemsOf(items, id) == staged.value.lines;

      var total := SumItems(ItemsOf(items, id));
      if total.None? {
        return Err(ServerError);
      }
      StoreTotal(id, total.value);
      assert orders.Keys == inserted.Keys;
      assert forall o | o in old(orders) :: orders[o] == inserted[o];
      r := Ok(Created(id, total.value));
    }

    /** Inserts and commits an order row under a fresh id. */
    method InsertOrder(order: Order) returns (id: int)
      requires Valid()
      modifies this
      ensures Valid()
      ensures id == old(nextOrderId) && id !in old(orders)
      ensures orders == old(orders)[id := order]
      ensures nextOrderId == old(nextOrderId) + 1
      ensures forall i | 0 <= i < |items| :: items[i].orderId != id
      ensures products == old(products) && items == old(items) && nextProductId == old(nextProductId)
    {
      id := nextOrderId;
      orders := orders[id := order];
      nextOrderId := nextOrderId + 1;
      assert ReferencesHold(items, orders.Keys, products.Keys);
    }

    /**
      The commit after the item loop: the staged stock decrements and the
      staged rows of the new order `orderId` become part of the tables.
    */
    method Commit(orderId: int, ghost requests: seq<ItemRequest>, staged: Staged)
      requires Valid()
      requires orderId in orders
      requires forall i | 0 <= i < |items| :: items[i].orderId != orderId
      requires Placeable(products, requests)
      requires StockTaken(products, staged.products, requests)
      requires LinesFor(orderId, products, requests, staged.lines)
      modifies this
      ensures Valid()
      ensures products == staged.products
      ensures items == old(items) + staged.lines
      ensures ItemsOf(items, orderId) == staged.lines
      ensures orders == old(orders)
      ensures nextProductId == old(nextProductId) && nextOrderId == old(nextOrderId)
    {
      NewOrderLinesKeepKeys(items, staged.lines, orderId, orders.Keys, products, requests);
      ItemsOfNewOrder(items, staged.lines, orderId);
      assert staged.products.Keys == products.Keys;
      products := staged.products;
      items := items + staged.lines;
    }

    /** Writes an order's total_price and commits it. */
    method StoreTotal(id: int, total: Cents)
      requires Valid()
      requires id in orders
      modifies this
      ensures Valid()
      ensures orders == old(orders)[id := old(orders)[id].(totalPrice := total)]
      ensures products == old(products) && items == old(items)
      ensures nextProductId == old(nextProductId) && nextOrderId == old(nextOrderId)
    {
      orders := orders[id := orders[id].(totalPrice := total)];
      assert ReferencesHold(items, orders.Keys, products.Keys);
    }

    /** Overwrites the status with whatever was given, None included; nothing else changes. */
    method UpdateOrderStatus(id: int, status: Option<string>) returns (r: Outcome<Error>)
      requires Valid()
      modifies this
      ensures Valid()
      ensures r.Fail? <==> id !in old(orders)
      ensures r.Fail? ==> r.error == NotFound && orders == old(orders)
      ensures r.Pass? ==> orders == old(orders)[id := old(orders)[id].(status := status)]
      ensures products == old(products) && items == old(items)
      ensures nextProductId == old(nextProductId) && nextOrderId == old(nextOrderId)
    {
      if id !in orders {
        return Fail(NotFound);
      }
      orders := orders[id := orders[id].(status := status)];
      r := Pass;
    }
  }
}
