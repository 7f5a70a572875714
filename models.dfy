/**
  The rows of the shop's three tables (products, orders, order_items) and the
  pure facts about them that the handlers rely on: which rows belong to an
  order, what an order's items add up to, and which item requests an order
  cannot be placed with.

  Columns a handler can leave null are `Option`s: a request field that is
  left out is stored as None. Prices are whole cents.
*/
module Models {

  datatype Option<+T> = None | Some(value: T)

  datatype Result<+T, +E> = Ok(value: T) | Err(error: E)

  datatype Outcome<+E> = Pass | Fail(error: E)

  /** Money in cents. */
  type Cents = int

  /** The instant `order_date` records; the clock itself is not modelled. */
  type Timestamp = int

  /**
    Why a handler did not succeed: `NotFound` is the 404 of `get_or_404`;
    `ServerError` is an exception the handler does not catch (a `None` in
    arithmetic, a violated key constraint), answered with a 500.
  */
  datatype Error = NotFound | ServerError

  datatype Product = Product(
    name: Option<string>,
    description: Option<string>,
    price: Option<Cents>,
    stockQuantity: Option<int>)

  datatype Order = Order(
    customerName: Option<string>,
    orderDate: Timestamp,
    totalPrice: Cents,
    status: Option<string>)

  /** A row of order_items; (orderId, productId) is its primary key. */
  datatype OrderItem = OrderItem(
    orderId: int,
    productId: int,
    quantity: int,
    priceAtPurchase: Option<Cents>)

  /** One element of the `items` list of an order request. */
  datatype ItemRequest = ItemRequest(productId: int, quantity: int)

  /** One field of a product update: left out of the body, or given (possibly as null). */
  datatype Patch<+T> = Keep | Set(value: T)

  datatype ProductPatch = ProductPatch(
    name: Patch<Option<string>>,
    description: Patch<Option<string>>,
    price: Patch<Option<Cents>>,
    stockQuantity: Patch<Option<int>>)

  /** `after` is what a patch leaves in a field that held `before`. */
  predicate PatchedField<T(==)>(patch: Patch<T>, before: T, after: T)
  {
    match patch
    case Keep => after == before
    case Set(v) => after == v
  }

  // ---------------------------------------------------------------------
  // The order_items table
  // ---------------------------------------------------------------------

  /** No two rows share the composite primary key (order_id, product_id). */
  predicate KeysUnique(items: seq<OrderItem>)
  {
    forall i, j | 0 <= i < j < |items| ::
      items[i].orderId != items[j].orderId || items[i].productId != items[j].productId
  }

  /** Every row refers to an existing order and an existing product (the two foreign keys). */
  predicate ReferencesHold(items: seq<OrderItem>, orderIds: set<int>, productIds: set<int>)
  {
    forall i | 0 <= i < |items| :: items[i].orderId in orderIds && items[i].productId in productIds
  }

  /** Some row of the table refers to product `productId`. */
  predicate Referenced(items: seq<OrderItem>, productId: int)
  {
    exists i | 0 <= i < |items| :: items[i].productId == productId
  }

  /** The rows of order `orderId` (the `order.items` relationship), in table order. */
  function ItemsOf(items: seq<OrderItem>, orderId: int): (r: seq<OrderItem>)
    ensures |r| <= |items|
    ensures forall i | 0 <= i < |r| :: r[i].orderId == orderId && r[i] in items
  {
    if items == [] then []
    else
      var last := items[|items| - 1];
      ItemsOf(items[..|items| - 1], orderId) + (if last.orderId == orderId then [last] else [])
  }

  /** Every row of the order is among its items: nothing of the order is left out. */
  lemma {:induction false} ItemsOfComplete(items: seq<OrderItem>, orderId: int, k: nat)
    requires k < |items|
    requires items[k].orderId == orderId
    ensures items[k] in ItemsOf(items, orderId)
    decreases |items|
  {
    if k < |items| - 1 {
      ItemsOfComplete(items[..|items| - 1], orderId, k);
    }
  }

  lemma {:induction false} ItemsOfAppend(a: seq<OrderItem>, b: seq<OrderItem>, orderId: int)
    ensures ItemsOf(a + b, orderId) == ItemsOf(a, orderId) + ItemsOf(b, orderId)
    decreases |b|
  {
    if b == [] {
      assert a + b == a;
    } else {
      var n := |b| - 1;
      assert (a + b)[..|a + b| - 1] == a + b[..n];
      assert (a + b)[|a + b| - 1] == b[n];
      ItemsOfAppend(a, b[..n], orderId);
    }
  }

  /** A table none of whose rows belong to `orderId` yields no items for it. */
  lemma ItemsOfNone(items: seq<OrderItem>, orderId: int)
    requires forall i | 0 <= i < |items| :: items[i].orderId != orderId
    ensures ItemsOf(items, orderId) == []
  {
  }

  /** Rows that all belong to `orderId` are exactly that order's items. */
  lemma {:induction false} ItemsOfOnly(items: seq<OrderItem>, orderId: int)
    requires forall i | 0 <= i < |items| :: items[i].orderId == orderId
    ensures ItemsOf(items, orderId) == items
    decreases |items|
  {
    if items != [] {
      ItemsOfOnly(items[..|items| - 1], orderId);
    }
  }

  /**
    Appending the rows of a brand-new order to a table that holds none of its
    rows makes exactly those rows the order's items.
  */
  lemma ItemsOfNewOrder(table: seq<OrderItem>, lines: seq<OrderItem>, orderId: int)
    requires forall i | 0 <= i < |table| :: table[i].orderId != orderId
    requires forall i | 0 <= i < |lines| :: lines[i].orderId == orderId
    ensures ItemsOf(table + lines, orderId) == lines
  {
    ItemsOfAppend(table, lines, orderId);
    ItemsOfNone(table, orderId);
    ItemsOfOnly(lines, orderId);
  }

  // ---------------------------------------------------------------------
  // Order totals
  // ---------------------------------------------------------------------

  /** Every item carries a price (a None price makes the total raise). */
  predicate Priced(items: seq<OrderItem>)
  {
    forall it | it in items :: it.priceAtPurchase.Some?
  }

  /** What one item adds to its order's total: quantity * price_at_purchase. */
  function Subtotal(it: OrderItem): Cents
    requires it.priceAtPurchase.Some?
  {
    it.quantity * it.priceAtPurchase.value
  }

  /** Sum of quantity * price_at_purchase over the items. */
  function OrderTotal(items: seq<OrderItem>): (r: Cents)
    requires Priced(items)
    ensures (forall it | it in items :: it.quantity >= 0 && it.priceAtPurchase.value >= 0) ==> r >= 0
    ensures items == [] ==> r == 0
  {
    if items == [] then 0
    else
      var last := items[|items| - 1];
      OrderTotal(items[..|items| - 1]) + Subtotal(last)
  }

  /** An order of one line costs that line's quantity * price_at_purchase. */
  lemma OrderTotalSingle(line: OrderItem)
    requires line.priceAtPurchase.Some?
    ensures Priced([line]) && OrderTotal([line]) == Subtotal(line)
  {
    assert [line][..0] == [];
  }

  lemma {:induction false} OrderTotalAppend(a: seq<OrderItem>, b: seq<OrderItem>)
    requires Priced(a + b)
    ensures Priced(a) && Priced(b)
    ensures OrderTotal(a + b) == OrderTotal(a) + OrderTotal(b)
    decreases |b|
  {
    assert forall it | it in a :: it in a + b;
    assert forall it | it in b :: it in a + b;
    if b == [] {
      assert a + b == a;
    } else {
      var n := |b| - 1;
      assert (a + b)[..|a + b| - 1] == a + b[..n];
      assert (a + b)[|a + b| - 1] == b[n];
      assert forall it | it in a + b[..n] :: it in a + b;
      OrderTotalAppend(a, b[..n]);
    }
  }

  /** Taking item `j` out of a priced list lowers its total by that item's quantity * price. */
  lemma OrderTotalRemove(items: seq<OrderItem>, j: nat)
    requires j < |items|
    requires Priced(items)
    ensures Priced(items[..j] + items[j + 1..])
    ensures OrderTotal(items) == OrderTotal(items[..j] + items[j + 1..]) + Subtotal(items[j])
  {
    var x, front, back := items[j], items[..j], items[j + 1..];
    assert items == (front + [x]) + back;
    OrderTotalAppend(front + [x], back);
    OrderTotalAppend(front, [x]);
    OrderTotalSingle(x);
    assert Priced(front + back) by {
      assert forall it | it in front + back :: it in items;
    }
    OrderTotalAppend(front, back);
    assert OrderTotal(items) == OrderTotal(front) + Subtotal(x) + OrderTotal(back);
  }

  /** Whether every item carries a price depends only on which items there are. */
  lemma PricedSameItems(a: seq<OrderItem>, b: seq<OrderItem>)
    requires multiset(a) == multiset(b)
    requires Priced(a)
    ensures Priced(b)
  {
    forall it | it in b ensures it.priceAtPurchase.Some? {
      assert it in multiset(b);
      assert it in a;
    }
  }

  /**
    The last item of `a` also occurs in `b` when the two hold the same items,
    and what is left of each after taking it out again holds the same items.
  */
  lemma MatchLast(a: seq<OrderItem>, b: seq<OrderItem>) returns (j: nat)
    requires multiset(a) == multiset(b)
    requires a != []
    ensures j < |b| && b[j] == a[|a| - 1]
    ensures multiset(a[..|a| - 1]) == multiset(b[..j] + b[j + 1..])
  {
    var n := |a| - 1;
    assert a == a[..n] + [a[n]];
    assert a[n] in multiset(b);
    j :| 0 <= j < |b| && b[j] == a[n];
    assert b == b[..j] + [b[j]] + b[j + 1..];
    calc {
      multiset(b[..j] + b[j + 1..]);
      multiset(b[..j]) + multiset(b[j + 1..]);
      multiset(b) - multiset{a[n]};
      multiset(a) - multiset{a[n]};
      multiset(a[..n]);
    }
  }

  /**
    The total does not depend on the order in which an order's items are
    visited: `order.items` is loaded without an ORDER BY.
  */
  lemma {:induction false} OrderTotalPermutation(a: seq<OrderItem>, b: seq<OrderItem>)
    requires multiset(a) == multiset(b)
    requires Priced(a)
    ensures Priced(b)
    ensures OrderTotal(a) == OrderTotal(b)
    decreases |a|
  {
    PricedSameItems(a, b);
    if a == [] {
      assert |multiset(b)| == 0;
    } else {
      var j := MatchLast(a, b);
      var n := |a| - 1;
      assert Priced(a[..n]) by {
        assert forall it | it in a[..n] :: it in a;
      }
      OrderTotalPermutation(a[..n], b[..j] + b[j + 1..]);
      OrderTotalRemove(b, j);
    }
  }

  // ---------------------------------------------------------------------
  // Placing an order's items
  // ---------------------------------------------------------------------

  /** Some request names product `productId`. */
  predicate Named(requests: seq<ItemRequest>, productId: int)
  {
    exists k | 0 <= k < |requests| :: requests[k].productId == productId
  }

  /** No product is requested twice. */
  predicate DistinctProducts(requests: seq<ItemRequest>)
  {
    forall j, k | 0 <= j < k < |requests| :: requests[j].productId != requests[k].productId
  }

  /**
    The requests can all be placed: each names a distinct existing product
    whose stock is not null.
  */
  predicate Placeable(products: map<int, Product>, requests: seq<ItemRequest>)
  {
    && DistinctProducts(requests)
    && forall k | 0 <= k < |requests| ::
         requests[k].productId in products && products[requests[k].productId].stockQuantity.Some?
  }

  /**
    How the item loop of order creation ends, decided by the first request
    that cannot be placed: a product already requested (the second row breaks
    the composite key), a missing product (404), or a product whose stock is
    null (the decrement raises). None when every request can be placed.
  */
  function Rejection(products: map<int, Product>, requests: seq<ItemRequest>): (r: Option<Error>)
    ensures r.None? <==> Placeable(products, requests)
    ensures r == Some(NotFound) ==> exists k | 0 <= k < |requests| :: requests[k].productId !in products
  {
    if requests == [] then None
    else
      var init := requests[..|requests| - 1];
      var last := requests[|requests| - 1];
      match Rejection(products, init)
      case Some(e) => Some(e)
      case None =>
        if Named(init, last.productId) then Some(ServerError)
        else if last.productId !in products then Some(NotFound)
        else if products[last.productId].stockQuantity.None? then Some(ServerError)
        else None
  }

  /** Once a prefix of the requests is rejected, the whole list is, for the same reason. */
  lemma {:induction false} RejectionPrefix(products: map<int, Product>, requests: seq<ItemRequest>, n: nat)
    requires n <= |requests|
    requires Rejection(products, requests[..n]).Some?
    ensures Rejection(products, requests) == Rejection(products, requests[..n])
    decreases |requests| - n
  {
    if n < |requests| {
      assert requests[..n + 1][..n] == requests[..n];
      RejectionPrefix(products, requests, n + 1);
    } else {
      assert requests[..n] == requests;
    }
  }

  /**
    A request for a missing product, preceded only by requests that can be
    placed, makes order creation answer not-found.
  */
  lemma MissingProductRejected(products: map<int, Product>, requests: seq<ItemRequest>, k: nat)
    requires k < |requests|
    requires requests[k].productId !in products
    requires Placeable(products, requests[..k])
    ensures Rejection(products, requests) == Some(NotFound)
  {
    var prefix := requests[..k + 1];
    assert prefix[..k] == requests[..k];
    assert !Named(requests[..k], requests[k].productId);
    assert Rejection(products, prefix) == Some(NotFound);
    RejectionPrefix(products, requests, k + 1);
  }

  /**
    The staged product table `after` is `before` with, for each request, the
    requested product's stock lowered by exactly the requested quantity (no
    floor) and nothing else changed.
  */
  predicate StockTaken(before: map<int, Product>, after: map<int, Product>, requests: seq<ItemRequest>)
  {
    && after.Keys == before.Keys
    && (forall k | 0 <= k < |requests| ::
          && requests[k].productId in before
          && before[requests[k].productId].stockQuantity.Some?
          && after[requests[k].productId].stockQuantity
             == Some(before[requests[k].productId].stockQuantity.value - requests[k].quantity)
          && after[requests[k].productId]
             == before[requests[k].productId].(stockQuantity := after[requests[k].productId].stockQuantity))
    && (forall p | p in before && !Named(requests, p) :: after[p] == before[p])
  }

  /**
    `lines` holds one row per request, in request order, belonging to order
    `orderId`, with the requested product and quantity and the product's
    price at that moment.
  */
  predicate LinesFor(orderId: int, products: map<int, Product>, requests: seq<ItemRequest>, lines: seq<OrderItem>)
  {
    && |lines| == |requests|
    && forall k | 0 <= k < |requests| ::
         && requests[k].productId in products
         && lines[k] == OrderItem(orderId, requests[k].productId, requests[k].quantity,
                                  products[requests[k].productId].price)
  }

  /** One more placeable request keeps the requests placeable. */
  lemma RejectionStep(products: map<int, Product>, requests: seq<ItemRequest>, next: ItemRequest)
    requires Rejection(products, requests).None?
    requires !Named(requests, next.productId)
    requires next.productId in products && products[next.productId].stockQuantity.Some?
    ensures Rejection(products, requests + [next]).None?
  {
    assert (requests + [next])[..|requests|] == requests;
  }

  /**
    What the item loop's next request `requests[i]` does, seen from the
    staged product table: a product already requested, a product missing
    from the table, or one with a null stock decides the loop's outcome;
    otherwise the request is placeable and its product is still as stored.
  */
  lemma NextRequest(products: map<int, Product>, staged: map<int, Product>, requests: seq<ItemRequest>, i: nat)
    requires i < |requests|
    requires Rejection(products, requests[..i]).None?
    requires StockTaken(products, staged, requests[..i])
    ensures var p := requests[i].productId;
      && (Named(requests[..i], p) ==> Rejection(products, requests) == Some(ServerError))
      && (!Named(requests[..i], p) && p !in staged ==> Rejection(products, requests) == Some(NotFound))
      && (!Named(requests[..i], p) && p in staged && staged[p].stockQuantity.None? ==>
            Rejection(products, requests) == Some(ServerError))
      && (!Named(requests[..i], p) && p in staged && staged[p].stockQuantity.Some? ==>
            && Rejection(products, requests[..i + 1]).None?
            && p in products && staged[p] == products[p])
  {
    var p := requests[i].productId;
    assert requests[..i + 1][..i] == requests[..i];
    assert requests[..i + 1] == requests[..i] + [requests[i]];
    if Rejection(products, requests[..i + 1]).Some? {
      RejectionPrefix(products, requests, i + 1);
    }
    if !Named(requests[..i], p) && p in staged && staged[p].stockQuantity.Some? {
      RejectionStep(products, requests[..i], requests[i]);
    }
  }

  /** Staging one more request lowers only its product's stock, by its quantity. */
  lemma StockTakenStep(before: map<int, Product>, after: map<int, Product>, requests: seq<ItemRequest>,
                       next: ItemRequest, taken: Product)
    requires StockTaken(before, after, requests)
    requires !Named(requests, next.productId)
    requires next.productId in before && before[next.productId].stockQuantity.Some?
    requires taken == after[next.productId].(stockQuantity := Some(after[next.productId].stockQuantity.value - next.quantity))
    ensures StockTaken(before, after[next.productId := taken], requests + [next])
  {
    var after' := after[next.productId := taken];
    var requests' := requests + [next];
    assert after[next.productId] == before[next.productId];
    forall k | 0 <= k < |requests'|
      ensures requests'[k].productId in before
      ensures after'[requests'[k].productId]
              == before[requests'[k].productId].(stockQuantity := Some(before[requests'[k].productId].stockQuantity.value - requests'[k].quantity))
    {
      if k < |requests| {
        assert requests'[k] == requests[k];
        assert requests[k].productId != next.productId;
      }
    }
    forall q | q in before && !Named(requests', q)
      ensures after'[q] == before[q]
    {
      assert !Named(requests, q) by {
        forall k | 0 <= k < |requests| ensures requests[k].productId != q {
          assert requests'[k] == requests[k];
        }
      }
      assert q != next.productId by {
        assert requests'[|requests|].productId == next.productId;
      }
    }
  }

  /**
    Committing the rows of a new order that names each product once keeps
    the primary key unique and both foreign keys satisfied.
  */
  lemma NewOrderLinesKeepKeys(table: seq<OrderItem>, lines: seq<OrderItem>, orderId: int,
                              orderIds: set<int>, products: map<int, Product>, requests: seq<ItemRequest>)
    requires KeysUnique(table)
    requires ReferencesHold(table, orderIds, products.Keys)
    requires orderId in orderIds
    requires forall i | 0 <= i < |table| :: table[i].orderId != orderId
    requires Placeable(products, requests)
    requires LinesFor(orderId, products, requests, lines)
    ensures KeysUnique(table + lines)
    ensures ReferencesHold(table + lines, orderIds, products.Keys)
  {
    var all := table + lines;
    forall i, j | 0 <= i < j < |all|
      ensures all[i].orderId != all[j].orderId || all[i].productId != all[j].productId
    {
      if j >= |table| && i >= |table| {
        assert all[i] == lines[i - |table|] && all[j] == lines[j - |table|];
      } else if j >= |table| {
        assert all[i] == table[i] && all[j] == lines[j - |table|];
      }
    }
    forall i | 0 <= i < |all|
      ensures all[i].orderId in orderIds && all[i].productId in products.Keys
    {
      if i >= |table| {
        assert all[i] == lines[i - |table|];
      }
    }
  }

  /** Staging one more request adds its row at the end. */
  lemma LinesForStep(orderId: int, products: map<int, Product>, requests: seq<ItemRequest>,
                     lines: seq<OrderItem>, next: ItemRequest)
    requires LinesFor(orderId, products, requests, lines)
    requires next.productId in products
    ensures LinesFor(orderId, products, requests + [next],
                     lines + [OrderItem(orderId, next.productId, next.quantity, products[next.productId].price)])
  {
  }
}
