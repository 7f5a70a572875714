# Shop store: a Dafny model of the catalog/order backend

This project models the store behind the shop's REST handlers in
`ecommerce-backend/app.py`. The store has three tables:

- `products`: name, description, price and stock_quantity;
- `orders`: customer_name, order_date, total_price and status;
- `order_items`: keyed by the composite (order_id, product_id), with quantity
  and price_at_purchase.

The model also covers the handlers that change the tables and the queries
that read them.

- `models.dfy`, module `Models`, holds the rows as datatypes and the pure
  facts the handlers rely on:
  - `ItemsOf` gives the rows of one order. It stands for the `order.items`
    relationship.
  - `OrderTotal` is the sum of quantity × price_at_purchase.
  - `Rejection` decides how order creation's item loop ends.
  - `StockTaken` and `LinesFor` describe what a successful loop stages.
  - Lemmas about all of these.
- `store.dfy`, module `Store`, holds class `Shop`.
  - Its fields are the three tables and the two id sequences.
  - Each handler is a method that updates the fields in place (`modifies
    this`). The fields hold what the database holds once the request ends.
  - Every handler preserves `Valid()`:
    - ids come from their sequences;
    - both foreign keys of `order_items` hold;
    - its composite primary key is unique.
  - The item loop of `create_order` is the method `StageItems`. The total
    accumulation is the method `SumItems`.
- `walkthrough.dfy`, module `Walkthrough`, holds short client scenarios. They
  derive concrete outcomes from the handlers' contracts alone: a sale, a
  later re-pricing, a missing product, an oversell and the two kinds of
  delete.

How the request loop of `create_order` ends (app.py:152-168):

- The first request that cannot be placed decides the outcome:
  - a product id named twice gives a 500, because the second row breaks the
    composite primary key;
  - an unknown product gives a 404 from `get_or_404`;
  - a product whose stock is null gives a 500, because `None -= quantity`
    raises.
- The order row was committed at line 150 and stays, Pending with total 0.
- Nothing staged in the loop is committed: neither the stock decrements nor
  the rows.

If every request can be placed:

- The rows and decrements are committed at line 168.
- The total is summed over the order's items and stored.
- If an item has a null price, the sum raises (a 500). The rows stay
  committed and the total stays 0.

Money is in whole cents. Columns a handler can leave null are `Option`s: a
field that the request body leaves out is stored as None.

Deleting a product that order items refer to fails. `Product.order_items`
(app.py:36) has no delete cascade, so the flush tries to set
`order_items.product_id` to null. That column is part of the primary key
(app.py:54-55), so the flush raises, the request answers 500, and nothing
changes. `Shop.DeleteProduct` answers a server error in that case and leaves
every table as it was.

## Model

| member | source | states |
|---|---|---|
| Models.ItemsOf | ecommerce-backend/app.py:48-60 | the items of an order are rows of the table that belong to that order, and there are no more of them than rows |
| Models.ItemsOfComplete | ecommerce-backend/app.py:48-60 | every row carrying the order's id is among the order's items |
| Models.ItemsOfAppend | ecommerce-backend/app.py:48-60 | the items of an order in a concatenated table are its items in each part, in table order |
| Models.ItemsOfNone | ecommerce-backend/app.py:48-60 | an order with no rows in the table has no items |
| Models.ItemsOfOnly | ecommerce-backend/app.py:48-60 | rows that all belong to one order are exactly that order's items |
| Models.ItemsOfNewOrder | ecommerce-backend/app.py:166-172 | once the rows of a fresh order are committed, `order.items` is exactly those rows |
| Models.OrderTotal | ecommerce-backend/app.py:170-175 | the total is 0 for no items and is non-negative when every quantity and price is |
| Models.OrderTotalSingle | ecommerce-backend/app.py:171-173 | an order of one line costs that line's quantity × price_at_purchase |
| Models.OrderTotalAppend | ecommerce-backend/app.py:171-173 | the total of two lists of items is the sum of their totals |
| Models.OrderTotalRemove | ecommerce-backend/app.py:171-173 | removing one item lowers the total by exactly that item's quantity × price |
| Models.PricedSameItems | ecommerce-backend/app.py:173 | whether every item is priced depends only on which items there are |
| Models.MatchLast | ecommerce-backend/app.py:172 | an item of one arrangement of the items is found in any other arrangement, and the rest still match |
| Models.OrderTotalPermutation | ecommerce-backend/app.py:172-173 | the total does not depend on the order in which `order.items` is loaded |
| Models.Rejection | ecommerce-backend/app.py:152-168 | the item loop fails exactly when some request names a product twice, names a missing product, or names one with null stock; a not-found answer implies that a requested id is absent |
| Models.RejectionPrefix | ecommerce-backend/app.py:152-156 | the loop's outcome is decided by the first request that fails; later requests do not change it |
| Models.MissingProductRejected | ecommerce-backend/app.py:156 | an unknown product id after placeable requests makes order creation answer not-found |
| Models.RejectionStep | ecommerce-backend/app.py:152-157 | a further request for a new product with a stock keeps the loop successful |
| Models.NextRequest | ecommerce-backend/app.py:152-157 | the next request of the loop decides the outcome when its product was already requested (server error), is missing (not-found) or has a null stock (server error); otherwise the requests so far stay placeable and the product is still as stored |
| Models.StockTakenStep | ecommerce-backend/app.py:157 | one more iteration lowers only the named product's stock, by exactly the requested quantity, with no floor |
| Models.LinesForStep | ecommerce-backend/app.py:159-166 | one more iteration stages the row (order id, product id, quantity, the product's current price) |
| Models.NewOrderLinesKeepKeys | ecommerce-backend/app.py:54-55 | committing the rows of a fresh order whose products are distinct and present keeps the primary key unique and both foreign keys satisfied |
| Store.StageItems | ecommerce-backend/app.py:152-166 | the loop fails with exactly the error `Rejection` names; otherwise each named product's stock drops by its quantity, other products are unchanged, and one row per request captures the price at that moment |
| Store.SumItems | ecommerce-backend/app.py:171-173 | the accumulator loop yields `OrderTotal` of the items, and raises exactly when some item has no price |
| Store.Shop.constructor | ecommerce-backend/app.py:62-64 | the tables start empty and both id sequences start at 1 |
| Store.Shop.GetProduct | ecommerce-backend/app.py:86-95 | a stored product is returned as stored; an absent id gives not-found |
| Store.Shop.ListProducts | ecommerce-backend/app.py:71-83 | every product appears, each row matches the table, and ids strictly ascend, so none is repeated |
| Store.Shop.CreateProduct | ecommerce-backend/app.py:98-109 | the product is stored under a fresh id from the sequence, with the given fields; nothing else changes |
| Store.Shop.UpdateProduct | ecommerce-backend/app.py:112-123 | an unknown id gives not-found with no change; otherwise each given field is overwritten, each left-out field keeps its value, and no other product changes |
| Store.Shop.DeleteProduct | ecommerce-backend/app.py:126-131 | an unknown id gives not-found; a product some order item refers to gives a server error; otherwise exactly that product is removed; orders and order items never change |
| Store.Shop.GetOrder | ecommerce-backend/app.py:208-224 | a stored order is returned with exactly its items; an absent id gives not-found |
| Store.Shop.ListOrders | ecommerce-backend/app.py:185-205 | every order appears with exactly its items, each row matches the table, and ids strictly ascend |
| Store.Shop.CreateOrder | ecommerce-backend/app.py:138-182 | a Pending row dated `now` is always added under a fresh id; a rejected request answers its error with stock and items unchanged and total 0; otherwise stock is taken, one row per request is committed at the current price, and success holds exactly when every item is priced, the stored and returned totals then being `OrderTotal` of the order's items |
| Store.Shop.InsertOrder | ecommerce-backend/app.py:143-150 | the order row is committed under a fresh id that no existing item refers to |
| Store.Shop.Commit | ecommerce-backend/app.py:166-168 | the staged stock and rows become part of the tables, and the new rows are exactly the order's items |
| Store.Shop.StoreTotal | ecommerce-backend/app.py:175-176 | only the order's total_price changes |
| Store.Shop.UpdateOrderStatus | ecommerce-backend/app.py:227-236 | an unknown id gives not-found; otherwise the status becomes the given value, None included, and nothing else changes |
| Walkthrough.MugShop | ecommerce-backend/app.py:98-109 | a fresh store with one product gets id 1 and holds exactly that product |
| Walkthrough.PlaceTwoMugs | ecommerce-backend/app.py:138-182 | two mugs at 9.99 from a stock of 10 leave a stock of 8, one line at 9.99, and a stored total of 19.98 |
| Walkthrough.Reprice | ecommerce-backend/app.py:159-164 | re-pricing a product later leaves a placed order's lines and total unchanged |
| Walkthrough.UnknownProduct | ecommerce-backend/app.py:150-168 | an unknown product answers not-found; the order stays, Pending with total 0 and no items, and the stock is untouched |
| Walkthrough.Oversell | ecommerce-backend/app.py:157 | ordering more than the stock drives it negative |
| Walkthrough.MugOrdered | ecommerce-backend/app.py:138-168 | an order for one mug leaves exactly one row in order_items |
| Walkthrough.Delete | ecommerce-backend/app.py:126-131 | deleting a product an order refers to fails with a server error; deleting an unreferenced one succeeds, and it is then not found |

## Left out

- Flask routing, JSON parsing and rendering, `jsonify`, CORS and HTTP status
  codes (app.py:3-21). Handlers take their arguments as values.
  `Shop.CreateProduct` answers the new id, the queries answer a `Result` or a
  list of rows, and the other handlers answer a `Result` or `Outcome`.
  `NotFound` stands for the 404 and `ServerError` for an uncaught exception
  (500).
- SQLAlchemy session mechanics, `db.create_all` and dotenv. Only their
  observable effect is kept: what a request committed, and that a request
  ending in an exception commits nothing after its last commit.
- Floating point. `price`, `price_at_purchase` and `total_price` are integer
  cents, so totals are exact.
- The clock. `datetime.utcnow()` is the parameter `now`.
- Concurrent requests. Each handler runs alone, so two orders racing on one
  product's stock are not modelled.
- Malformed request bodies: `items` given as null, an item missing
  `product_id` or `quantity`, a non-integer quantity or id, or a body that is
  not JSON. Most of these raise before or during the loop. A fractional
  quantity does not: the loop subtracts it as a float, and the database
  converts the stock and the row's quantity when it stores them. Requests are
  modelled as (product id, integer quantity) pairs.
- Store.Shop.CreateOrder: a product id repeated in one request is answered
  with a server error at that request. In the code, the duplicate row raises
  at the next flush. That is either the next query for a product not yet
  loaded, or the commit at line 168. Every earlier request has already
  succeeded by then, and the outcome is the same: a 500 with only the order
  row committed. The exact moment of the flush is not modelled.
- Store.Shop.GetOrder: returns the whole order row. The handler's response
  leaves out `order_date`, and the JSON shape is not modelled. The order's
  items are given in table order, but `o.items` (app.py:222) has no
  `order_by`, so the database decides their order.
- Store.Shop.ListOrders: lists orders in ascending id order and each order's
  items in table order. `Query.all()` and `o.items` (app.py:187, 202) have
  no ORDER BY, so the database decides both orders.
- Store.Shop.ListProducts: `Query.all()` (app.py:73) has no ORDER BY, so
  its row order is up to the database. The model lists rows in ascending id
  order.
- Column ranges are not modelled. `stock_quantity`, `quantity` and the ids
  are `db.Integer` (app.py:30, 34, 42, 54-56), which PostgreSQL stores in 32
  bits. In the model they are unbounded. A decrement that leaves the 32-bit
  range (app.py:157) makes the next flush (a later product lookup or the
  commit at line 168) raise a 500, with nothing from the loop committed. Store.StageItems and Store.Shop.CreateOrder
  instead succeed with the out-of-range stock.
- `ecommerce-backend/models.py` repeats the schema and has no operations.
  The React front end (`ecommerce-frontend/`) only issues requests. Neither is
  part of this model.
