/**
  Clients of the store that follow a product through the order workflow and
  check, from the handlers' contracts alone, what each step leaves behind.
  Each step is its own method so that the facts one step needs are exactly
  the ones the previous step states.
*/
module Walkthrough {
  import opened Models
  import opened Store

  /** A fresh store holding one product, a mug at 9.99, as id 1. */
  method MugShop(stock: int) returns (shop: Shop)
    ensures fresh(shop) && shop.Valid()
    ensures shop.products == map[1 := Product(Some("Mug"), None, Some(999), Some(stock))]
    ensures shop.orders == map[] && shop.items == []
    ensures shop.nextProductId == 2 && shop.nextOrderId == 1
  {
    shop := new Shop();
    var mug := shop.CreateProduct(Some("Mug"), None, Some(999), Some(stock));
  }

  /** Two mugs at 9.99 from a stock of 10: the stock drops to 8 and the total is 19.98. */
  method PlaceTwoMugs() returns (shop: Shop)
    ensures fresh(shop) && shop.Valid()
    ensures 1 in shop.products && 1 in shop.orders
    ensures shop.products[1] == Product(Some("Mug"), None, Some(999), Some(8))
    ensures shop.orders[1] == Order(Some("Ada"), 0, 1998, Some("Pending"))
    ensures ItemsOf(shop.items, 1) == [OrderItem(1, 1, 2, Some(999))]
  {
    shop := MugShop(10);
    var requests := [ItemRequest(1, 2)];
    assert Rejection(shop.products, requests).None?;

    var placed := shop.CreateOrder(Some("Ada"), 0, requests);
    var line := OrderItem(1, 1, 2, Some(999));
    var lines := ItemsOf(shop.items, 1);
    assert |lines| == 1 && lines[0] == line;
    assert lines == [line];
    OrderTotalSingle(line);
    assert placed == Ok(Created(1, 1998));
  }

  /** A later price change leaves the order's lines and total as they were. */
  method Reprice() returns (view: Result<OrderRow, Error>)
    ensures view == Ok(OrderRow(1, Order(Some("Ada"), 0, 1998, Some("Pending")), [OrderItem(1, 1, 2, Some(999))]))
  {
    var shop := PlaceTwoMugs();
    var repriced := shop.UpdateProduct(1, ProductPatch(Keep, Keep, Set(Some(1500)), Keep));
    assert shop.products[1] == Product(Some("Mug"), None, Some(1500), Some(8));
    view := shop.GetOrder(1);
  }

  /** An unknown product answers 404, yet the order row stays, Pending with total 0 and no items. */
  method UnknownProduct() returns (missing: Result<Created, Error>, view: Result<OrderRow, Error>,
                                   stock: Option<int>)
    ensures missing == Err(NotFound)
    ensures view == Ok(OrderRow(1, Order(Some("Bob"), 1, 0, Some("Pending")), []))
    ensures stock == Some(10)
  {
    var shop := MugShop(10);
    var requests := [ItemRequest(1, 1), ItemRequest(2, 1)];
    MissingProductRejected(shop.products, requests, 1);

    missing := shop.CreateOrder(Some("Bob"), 1, requests);
    assert shop.items == [];
    view := shop.GetOrder(1);
    stock := shop.products[1].stockQuantity;
  }

  /** There is no availability check: twelve mugs from a stock of ten leave -2. */
  method Oversell() returns (stock: Option<int>)
    ensures stock == Some(-2)
  {
    var shop := MugShop(10);
    var requests := [ItemRequest(1, 12)];
    assert Rejection(shop.products, requests).None?;

    var oversold := shop.CreateOrder(Some("Cy"), 2, requests);
    stock := shop.products[1].stockQuantity;
  }

  /** A store with the mug as id 1, a spare product as id 2, and one order for a mug. */
  method MugOrdered() returns (shop: Shop)
    ensures fresh(shop) && shop.Valid()
    ensures shop.products.Keys == {1, 2}
    ensures shop.items == [OrderItem(1, 1, 1, Some(999))]
  {
    shop := MugShop(10);
    var spare := shop.CreateProduct(Some("Spare"), None, None, None);
    assert shop.products.Keys == {1, 2};
    var requests := [ItemRequest(1, 1)];
    assert Rejection(shop.products, requests).None?;

    var placed := shop.CreateOrder(Some("Di"), 3, requests);
    var lines := ItemsOf(shop.items, 1);
    assert |lines| == 1 && lines[0] == OrderItem(1, 1, 1, Some(999));
  }

  /** A product that an order item refers to cannot be deleted; one that none refers to can. */
  method Delete() returns (refused: Outcome<Error>, deleted: Outcome<Error>, lookup: Result<Product, Error>)
    ensures refused == Fail(ServerError)
    ensures deleted == Pass && lookup == Err(NotFound)
  {
    var shop := MugOrdered();
    assert |shop.items| == 1 && shop.items[0].productId == 1;
    assert Referenced(shop.items, 1) && !Referenced(shop.items, 2);

    refused := shop.DeleteProduct(1);
    deleted := shop.DeleteProduct(2);
    lookup := shop.GetProduct(2);
  }
}
