/** The shared store as an object whose tables the mutating tools update in place, step by step
    as the source does; each method is proved to leave exactly the state its function in module
    Tools describes. */
module StoreImpl {
  import opened Wrappers
  import opened Schema
  import Tools
  import ToolLemmas

  class Store {
    var books: seq<Book>
    var customers: map<int, Customer>
    var orders: seq<Order>
    var orderItems: seq<OrderItem>
    var nextOrderId: int

    /** The tables as one value. */
    function Snapshot(): Db
      reads this
    {
      Db(books, customers, orders, orderItems, nextOrderId)
    }

    ghost predicate Valid()
      reads this
    {
      Schema.Valid(Snapshot())
    }

    constructor (db: Db)
      requires Schema.Valid(db)
      ensures Valid() && Snapshot() == db
    {
      books := db.books;
      customers := db.customers;
      orders := db.orders;
      orderItems := db.orderItems;
      nextOrderId := db.nextOrderId;
    }

    /** The first loop of `create_order`: resolve each item in turn against the current books,
        stopping at the first that names no book or asks for more than its stock. */
    method ResolveItems(items: seq<Tools.ItemRequest>) returns (res: Result<seq<Tools.Resolved>, ToolError>)
      ensures res == Tools.ResolveAll(books, items)
    {
      var processed: seq<Tools.Resolved> := [];
      var i := 0;
      while i < |items|
        invariant 0 <= i <= |items| && |processed| == i
        invariant forall j :: 0 <= j < i ==> Tools.ResolveItem(books, items[j]) == Ok(processed[j])
      {
        var item := Tools.ResolveItem(books, items[i]);
        if item.Err? {
          var all := Tools.ResolveAll(books, items);
          assert all.Err?;
          var i' :| 0 <= i' < |items| && Tools.ResolveItem(books, items[i']) == Err(all.error)
                    && forall j :: 0 <= j < i' ==> Tools.ResolveItem(books, items[j]).Ok?;
          assert i' == i;
          return Err(item.error);
        }
        processed := processed + [item.value];
        i := i + 1;
      }
      var all := Tools.ResolveAll(books, items);
      assert all.Ok? && |all.value| == |processed|;
      assert all.value == processed;
      res := Ok(processed);
    }

    /** The second loop of `create_order`: insert the order, then for each resolved item insert
        its row at the captured price and take its quantity from the book's stock. */
    method Commit(customerId: int, processed: seq<Tools.Resolved>) returns (orderId: int)
      modifies this
      ensures orderId == old(nextOrderId) && nextOrderId == orderId + 1
      ensures customers == old(customers)
      ensures orders == old(orders) + [Order(orderId, customerId, Tools.Pending)]
      ensures orderItems == old(orderItems) + Tools.OrderRows(orderId, processed)
      ensures books == Tools.TakeStock(old(books), processed)
    {
      orderId := nextOrderId;
      orders := orders + [Order(orderId, customerId, Tools.Pending)];
      nextOrderId := nextOrderId + 1;
      var k := 0;
      while k < |processed|
        invariant 0 <= k <= |processed|
        invariant Tools.TakeStock(old(books), processed) == Tools.TakeStock(books, processed[k..])
        invariant orderItems == old(orderItems) + Tools.OrderRows(orderId, processed[..k])
        invariant customers == old(customers) && orders == old(orders) + [Order(orderId, customerId, Tools.Pending)]
        invariant nextOrderId == orderId + 1
      {
        var p := processed[k];
        orderItems := orderItems + [OrderItem(orderId, p.isbn, p.qty, p.price)];
        assert Tools.OrderRows(orderId, processed[..k + 1])
               == Tools.OrderRows(orderId, processed[..k]) + [OrderItem(orderId, p.isbn, p.qty, p.price)];
        assert processed[k..][0] == p && processed[k..][1..] == processed[k + 1..];
        books := Tools.AddStock(books, p.isbn, -p.qty);
        k := k + 1;
      }
      assert processed[..k] == processed;
    }

    /** `create_order`: check the customer, resolve every item against the stock as it is on
        entry, and only then insert the order, its items and the stock updates. */
    method CreateOrder(customerId: int, items: seq<Tools.ItemRequest>) returns (r: ToolResult)
      requires Valid()
      modifies this
      ensures Valid()
      ensures Step(r, Snapshot()) == Tools.CreateOrder(old(Snapshot()), customerId, items)
      ensures r.Failure? ==> Snapshot() == old(Snapshot())
    {
      ToolLemmas.CreateOrderKeepsValid(Snapshot(), customerId, items);
      if customerId !in customers {
        return Failure(CustomerNotFound);
      }
      var resolved := ResolveItems(items);
      if resolved.Err? {
        return Failure(resolved.error);
      }
      var orderId := Commit(customerId, resolved.value);
      r := OrderCreated(orderId, customerId, Tools.Lines(resolved.value));
    }

    /** `restock_book`: check the ISBN, add to its stock, and read the row back. */
    method RestockBook(isbn: string, qty: int) returns (r: ToolResult)
      requires Valid()
      modifies this
      ensures Valid()
      ensures Step(r, Snapshot()) == Tools.RestockBook(old(Snapshot()), isbn, qty)
    {
      ToolLemmas.BookUpdatesKeepValid(Snapshot(), isbn, qty, 0);
      var found := Tools.IsbnIndex(books, isbn);
      if found.None? {
        return Failure(BookNotFound);
      }
      Tools.RestockedRow(books, isbn, found.value, qty);
      books := Tools.AddStock(books, isbn, qty);
      var updated := books[Tools.IsbnIndex(books, isbn).value];
      r := Restocked(updated.title, updated.stock);
    }

    /** `update_price`: check the ISBN, remember the old price, and set the new one. */
    method UpdatePrice(isbn: string, price: int) returns (r: ToolResult)
      requires Valid()
      modifies this
      ensures Valid()
      ensures Step(r, Snapshot()) == Tools.UpdatePrice(old(Snapshot()), isbn, price)
    {
      ToolLemmas.BookUpdatesKeepValid(Snapshot(), isbn, 0, price);
      var found := Tools.IsbnIndex(books, isbn);
      if found.None? {
        return Failure(BookNotFound);
      }
      var book := books[found.value];
      var oldPrice := book.price;
      books := Tools.SetPrice(books, isbn, price);
      r := PriceUpdated(book.title, oldPrice, price);
    }

    /** `order_status`: find the order with its customer, join its items with their books, and
        add up `price_at_purchase * qty` in a loop. */
    method OrderStatus(orderId: int) returns (r: ToolResult)
      ensures r == Tools.OrderStatus(Snapshot(), orderId)
    {
      var found := Tools.OrderIndex(orders, customers, orderId);
      if found.None? {
        return Failure(OrderNotFound);
      }
      var order := orders[found.value];
      var customer := customers[order.customerId];
      var lines := Tools.StatusLines(orderItems, books, orderId);
      var total := 0;
      var i := 0;
      while i < |lines|
        invariant 0 <= i <= |lines|
        invariant total + Tools.LinesTotal(lines[i..]) == Tools.LinesTotal(lines)
      {
        assert lines[i..][1..] == lines[i + 1..];
        total := total + lines[i].item.priceAtPurchase * lines[i].item.qty;
        i := i + 1;
      }
      r := StatusReport(order.id, customer.name, customer.email, order.status, lines, total);
    }
  }
}
