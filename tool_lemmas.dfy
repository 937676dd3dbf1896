/** What the tools promise, stated over the specification functions of module Tools. */
module ToolLemmas {
  import opened Wrappers
  import opened Schema
  import opened Tools

  // ---------------------------------------------------------------- create_order

  /** Total quantity the resolved items take from the book with this ISBN. */
  function QtyFor(ps: seq<Resolved>, isbn: string): int
  {
    if ps == [] then 0 else (if ps[0].isbn == isbn then ps[0].qty else 0) + QtyFor(ps[1..], isbn)
  }

  /** The stock updates of a committed order: each book loses the sum of the quantities resolved
      to its ISBN, and nothing else about any book changes. */
  lemma {:induction false} TakeStockEffect(books: seq<Book>, ps: seq<Resolved>)
    ensures |TakeStock(books, ps)| == |books|
    ensures forall k :: 0 <= k < |books| ==>
              TakeStock(books, ps)[k] == books[k].(stock := books[k].stock - QtyFor(ps, books[k].isbn))
    decreases ps
  {
    if ps != [] {
      var next := AddStock(books, ps[0].isbn, -ps[0].qty);
      TakeStockEffect(next, ps[1..]);
    }
  }

  /** The resolved items of a request list that passes every check. */
  function Resolution(books: seq<Book>, reqs: seq<ItemRequest>): seq<Resolved>
    requires ResolveAll(books, reqs).Ok?
  {
    ResolveAll(books, reqs).value
  }

  /** A successful `create_order` adds exactly one 'pending' order with the next id, one
      order item per requested item carrying the price the book had at call time, and takes
      each resolved quantity from its book's stock; customers are untouched. */
  lemma {:induction false} CreateOrderEffect(db: Db, customerId: int, reqs: seq<ItemRequest>)
    requires CreateOrder(db, customerId, reqs).result.OrderCreated?
    ensures customerId in db.customers && ResolveAll(db.books, reqs).Ok?
    ensures var s := CreateOrder(db, customerId, reqs);
            var id := db.nextOrderId;
            var n := |db.orderItems|;
            && s.result.orderId == id
            && s.db.customers == db.customers
            && s.db.nextOrderId == id + 1
            && s.db.orders == db.orders + [Order(id, customerId, Pending)]
            && |s.db.orderItems| == n + |reqs|
            && s.db.orderItems[..n] == db.orderItems
            && (forall i :: 0 <= i < |reqs| ==>
                  exists k :: Selects(db.books, reqs[i], k) && reqs[i].qty <= db.books[k].stock
                    && s.db.orderItems[n + i] == OrderItem(id, db.books[k].isbn, reqs[i].qty, db.books[k].price)
                    && s.result.lines[i] == OrderLine(db.books[k].title, reqs[i].qty, db.books[k].price))
            && |s.db.books| == |db.books|
            && forall k :: 0 <= k < |db.books| ==>
                 s.db.books[k] == db.books[k].(stock := db.books[k].stock
                                               - QtyFor(Resolution(db.books, reqs), db.books[k].isbn))
  {
    var s := CreateOrder(db, customerId, reqs);
    var ps := ResolveAll(db.books, reqs).value;
    var id := db.nextOrderId;
    assert s == Step(OrderCreated(id, customerId, Lines(ps)),
                     Db(TakeStock(db.books, ps), db.customers, db.orders + [Order(id, customerId, Pending)],
                        db.orderItems + OrderRows(id, ps), id + 1));
    TakeStockEffect(db.books, ps);
    CommittedRows(db, customerId, reqs);
  }

  /** Each requested item of a committed order becomes one order item and one line, both
      carrying the book the item selects. */
  lemma {:induction false} CommittedRows(db: Db, customerId: int, reqs: seq<ItemRequest>)
    requires CreateOrder(db, customerId, reqs).result.OrderCreated?
    ensures var s := CreateOrder(db, customerId, reqs);
            var n := |db.orderItems|;
            forall i :: 0 <= i < |reqs| ==>
              exists k :: Selects(db.books, reqs[i], k) && reqs[i].qty <= db.books[k].stock
                && s.db.orderItems[n + i] == OrderItem(db.nextOrderId, db.books[k].isbn, reqs[i].qty, db.books[k].price)
                && s.result.lines[i] == OrderLine(db.books[k].title, reqs[i].qty, db.books[k].price)
  {
    var s := CreateOrder(db, customerId, reqs);
    assert customerId in db.customers && ResolveAll(db.books, reqs).Ok?;
    var ps := ResolveAll(db.books, reqs).value;
    var id := db.nextOrderId;
    var n := |db.orderItems|;
    assert s.db.orderItems == db.orderItems + OrderRows(id, ps) && s.result.lines == Lines(ps);
    forall i | 0 <= i < |reqs|
      ensures exists k :: Selects(db.books, reqs[i], k) && reqs[i].qty <= db.books[k].stock
                && s.db.orderItems[n + i] == OrderItem(id, db.books[k].isbn, reqs[i].qty, db.books[k].price)
                && s.result.lines[i] == OrderLine(db.books[k].title, reqs[i].qty, db.books[k].price)
    {
      ResolvedRow(db.books, reqs[i], ps[i]);
      assert s.db.orderItems[n + i] == OrderRows(id, ps)[i];
    }
  }

  /** An item that passes its checks resolves to the book `Selects` picks, with enough stock. */
  lemma {:induction false} ResolvedRow(books: seq<Book>, req: ItemRequest, p: Resolved)
    requires ResolveItem(books, req) == Ok(p)
    ensures exists k :: Selects(books, req, k) && req.qty <= books[k].stock
              && p == Resolved(books[k].isbn, req.qty, books[k].price, books[k].title)
  {
    ResolveItemMeaning(books, req);
    var k := Lookup(books, req).value;
    assert Selects(books, req, k);
  }

  ghost predicate DistinctIsbns(ps: seq<Resolved>)
  {
    forall i, j :: 0 <= i < j < |ps| ==> ps[i].isbn != ps[j].isbn
  }

  lemma {:induction false} QtyForAbsent(ps: seq<Resolved>, isbn: string)
    requires forall i :: 0 <= i < |ps| ==> ps[i].isbn != isbn
    ensures QtyFor(ps, isbn) == 0
  {
    if ps != [] { QtyForAbsent(ps[1..], isbn); }
  }

  lemma {:induction false} QtyForSingle(ps: seq<Resolved>, i: nat)
    requires DistinctIsbns(ps) && i < |ps|
    ensures QtyFor(ps, ps[i].isbn) == ps[i].qty
  {
    if i == 0 {
      QtyForAbsent(ps[1..], ps[0].isbn);
    } else {
      QtyForSingle(ps[1..], i - 1);
    }
  }

  /** When the requested items resolve to distinct books, a committed order never drives a
      non-negative stock below zero: each book loses at most the one quantity checked against it. */
  lemma {:induction false} DistinctOrderKeepsStock(db: Db, customerId: int, reqs: seq<ItemRequest>)
    requires UniqueIsbns(db.books)
    requires forall k :: 0 <= k < |db.books| ==> db.books[k].stock >= 0
    requires ResolveAll(db.books, reqs).Ok?
    requires DistinctIsbns(Resolution(db.books, reqs))
    ensures var s := CreateOrder(db, customerId, reqs);
            forall k :: 0 <= k < |s.db.books| ==> s.db.books[k].stock >= 0
  {
    var s := CreateOrder(db, customerId, reqs);
    if customerId in db.customers {
      var ps := Resolution(db.books, reqs);
      TakeStockEffect(db.books, ps);
      forall k | 0 <= k < |db.books| ensures db.books[k].stock - QtyFor(ps, db.books[k].isbn) >= 0 {
        DistinctQtyWithinStock(db.books, reqs, k);
      }
    }
  }

  /** Under distinct resolved ISBNs, a book loses at most the one quantity checked against its
      stock. */
  lemma {:induction false} DistinctQtyWithinStock(books: seq<Book>, reqs: seq<ItemRequest>, k: nat)
    requires UniqueIsbns(books) && k < |books| && books[k].stock >= 0
    requires ResolveAll(books, reqs).Ok? && DistinctIsbns(Resolution(books, reqs))
    ensures books[k].stock - QtyFor(Resolution(books, reqs), books[k].isbn) >= 0
  {
    var ps := Resolution(books, reqs);
    var isbn := books[k].isbn;
    if i :| 0 <= i < |ps| && ps[i].isbn == isbn {
      QtyForSingle(ps, i);
      ResolvedRow(books, reqs[i], ps[i]);
      var k' :| Selects(books, reqs[i], k') && reqs[i].qty <= books[k'].stock
                && ps[i] == Resolved(books[k'].isbn, reqs[i].qty, books[k'].price, books[k'].title);
      assert k' == k;
    } else {
      QtyForAbsent(ps, isbn);
    }
  }

  /** The same ISBN twice in one order passes both stock checks against the unchanged stock and
      then takes the stock below zero: one copy in stock, two ordered. */
  lemma {:induction false} DuplicateIsbnOversells()
    ensures var db := Db([Book("1", "T", "A", 100, 1)], map[7 := Customer("N", "E")], [], [], 1);
            var reqs := [ItemRequest(Some("1"), None, 1), ItemRequest(Some("1"), None, 1)];
            var s := CreateOrder(db, 7, reqs);
            s.result.OrderCreated? && s.db.books[0].stock == -1
  {
    var b := Book("1", "T", "A", 100, 1);
    var db := Db([b], map[7 := Customer("N", "E")], [], [], 1);
    var req := ItemRequest(Some("1"), None, 1);
    assert IsbnIndex([b], "1") == Some(0);
    assert ResolveItem([b], req) == Ok(Resolved("1", 1, 100, "T"));
    var ps := [Resolved("1", 1, 100, "T"), Resolved("1", 1, 100, "T")];
    var reqs := [req, req];
    assert forall i :: 0 <= i < |reqs| ==> ResolveItem([b], reqs[i]) == Ok(ps[i]);
    var r := ResolveAll([b], reqs);
    assert r.Ok? && |r.value| == 2;
    assert r.value == ps;
    TakeStockEffect([b], ps);
    assert QtyFor(ps[1..], "1") == 1;
  }

  // ---------------------------------------------------------------- store integrity

  lemma {:induction false} TakeStockKeepsKeys(books: seq<Book>, ps: seq<Resolved>)
    ensures SameKeys(books, TakeStock(books, ps))
  {
    TakeStockEffect(books, ps);
  }

  lemma {:induction false} SameKeysKeepValidBooks(a: seq<Book>, b: seq<Book>)
    requires SameKeys(a, b)
    ensures UniqueIsbns(a) ==> UniqueIsbns(b)
    ensures forall isbn :: HasIsbn(a, isbn) ==> HasIsbn(b, isbn)
  {
    forall isbn | HasIsbn(a, isbn) ensures HasIsbn(b, isbn) {
      var k :| 0 <= k < |a| && a[k].isbn == isbn;
      assert b[k].isbn == isbn;
    }
  }

  lemma {:induction false} ResolvedBooksExist(books: seq<Book>, reqs: seq<ItemRequest>)
    requires ResolveAll(books, reqs).Ok?
    ensures forall j :: 0 <= j < |Resolution(books, reqs)| ==> HasIsbn(books, Resolution(books, reqs)[j].isbn)
  {
    var ps := Resolution(books, reqs);
    forall j | 0 <= j < |ps| ensures HasIsbn(books, ps[j].isbn) {
      ResolveItemMeaning(books, reqs[j]);
      var k :| Selects(books, reqs[j], k);
      assert ps[j].isbn == books[k].isbn;
    }
  }

  lemma {:induction false} CommittedItemsReferToRows(db: Db, customerId: int, reqs: seq<ItemRequest>)
    requires Valid(db)
    requires customerId in db.customers && ResolveAll(db.books, reqs).Ok?
    ensures var s := CreateOrder(db, customerId, reqs);
            forall i :: 0 <= i < |s.db.orderItems| ==>
              HasIsbn(s.db.books, s.db.orderItems[i].isbn) && HasOrder(s.db.orders, s.db.orderItems[i].orderId)
  {
    var s := CreateOrder(db, customerId, reqs);
    var ps := Resolution(db.books, reqs);
    var id := db.nextOrderId;
    var n := |db.orderItems|;
    assert s.db.orderItems == db.orderItems + OrderRows(id, ps);
    assert s.db.orders == db.orders + [Order(id, customerId, Pending)];
    TakeStockKeepsKeys(db.books, ps);
    SameKeysKeepValidBooks(db.books, s.db.books);
    ResolvedBooksExist(db.books, reqs);
    AppendedItemsRefer(db.books, s.db.books, db.orders, Order(id, customerId, Pending), db.orderItems, ps);
  }

  /** Rows that referred to existing books and orders still do once the books keep their keys
      and an order is appended, and the appended order's rows refer to it and to known books. */
  lemma {:induction false} AppendedItemsRefer(books: seq<Book>, books': seq<Book>, orders: seq<Order>, o: Order,
                           items: seq<OrderItem>, ps: seq<Resolved>)
    requires forall isbn :: HasIsbn(books, isbn) ==> HasIsbn(books', isbn)
    requires forall i :: 0 <= i < |items| ==> HasIsbn(books, items[i].isbn) && HasOrder(orders, items[i].orderId)
    requires forall j :: 0 <= j < |ps| ==> HasIsbn(books, ps[j].isbn)
    ensures var all := items + OrderRows(o.id, ps);
            forall i :: 0 <= i < |all| ==> HasIsbn(books', all[i].isbn) && HasOrder(orders + [o], all[i].orderId)
  {
    var all := items + OrderRows(o.id, ps);
    var n := |items|;
    assert HasOrder(orders + [o], o.id) by { assert (orders + [o])[|orders|] == o; }
    forall i | 0 <= i < |all| ensures HasIsbn(books', all[i].isbn) && HasOrder(orders + [o], all[i].orderId) {
      if i < n {
        assert all[i] == items[i];
        var k :| 0 <= k < |orders| && orders[k].id == items[i].orderId;
        assert (orders + [o])[k] == orders[k];
      } else {
        assert all[i] == OrderRows(o.id, ps)[i - n];
        assert HasIsbn(books, ps[i - n].isbn);
      }
    }
  }

  /** `create_order` keeps the store's integrity constraints. */
  lemma {:induction false} CreateOrderKeepsValid(db: Db, customerId: int, reqs: seq<ItemRequest>)
    requires Valid(db)
    ensures Valid(CreateOrder(db, customerId, reqs).db)
  {
    var s := CreateOrder(db, customerId, reqs);
    if s.result.OrderCreated? {
      assert customerId in db.customers && ResolveAll(db.books, reqs).Ok?;
      var ps := Resolution(db.books, reqs);
      assert s.db.books == TakeStock(db.books, ps);
      assert s.db.orders == db.orders + [Order(db.nextOrderId, customerId, Pending)];
      assert s.db.nextOrderId == db.nextOrderId + 1;
      TakeStockKeepsKeys(db.books, ps);
      SameKeysKeepValidBooks(db.books, s.db.books);
      CommittedItemsReferToRows(db, customerId, reqs);
      AppendedOrderKeepsIds(db.orders, db.customers, db.nextOrderId, Order(db.nextOrderId, customerId, Pending));
    }
  }

  /** An order appended with the counter's id, for a known customer, keeps the ids increasing,
      below the advanced counter and pointing at known customers. */
  lemma {:induction false} AppendedOrderKeepsIds(orders: seq<Order>, customers: map<int, Customer>, next: int, o: Order)
    requires forall i, j :: 0 <= i < j < |orders| ==> orders[i].id < orders[j].id
    requires forall i :: 0 <= i < |orders| ==> orders[i].id < next && orders[i].customerId in customers
    requires o.id == next && o.customerId in customers
    ensures var all := orders + [o];
            && (forall i, j :: 0 <= i < j < |all| ==> all[i].id < all[j].id)
            && (forall i :: 0 <= i < |all| ==> all[i].id < next + 1 && all[i].customerId in customers)
  {
  }

  /** `restock_book` and `update_price` keep the store's integrity constraints. */
  lemma {:induction false} BookUpdatesKeepValid(db: Db, isbn: string, qty: int, price: int)
    requires Valid(db)
    ensures Valid(RestockBook(db, isbn, qty).db)
    ensures Valid(UpdatePrice(db, isbn, price).db)
  {
    UpdatesKeepKeys(db.books, isbn, qty, price);
    SameKeysKeepValid(db, AddStock(db.books, isbn, qty));
    SameKeysKeepValid(db, SetPrice(db.books, isbn, price));
  }

  /** Replacing the books by rows with the same ISBNs keeps the store consistent. */
  lemma {:induction false} SameKeysKeepValid(db: Db, books: seq<Book>)
    requires Valid(db) && SameKeys(db.books, books)
    ensures Valid(db.(books := books))
  {
    SameKeysKeepValidBooks(db.books, books);
  }

  // ---------------------------------------------------------------- total stock

  /** Replacing one row changes the stock total by exactly that row's change of stock. */
  lemma {:induction false} StockSumUpdate(books: seq<Book>, k: nat, b: Book)
    requires k < |books|
    ensures StockSum(books[k := b]) == StockSum(books) - books[k].stock + b.stock
    decreases |books|
  {
    if k == 0 {
      assert books[k := b][1..] == books[1..];
    } else {
      assert books[k := b][1..] == books[1..][k - 1 := b];
      StockSumUpdate(books[1..], k - 1, b);
    }
  }

  /** A successful `restock_book` raises the total stock of `inventory_summary` by `qty`. */
  lemma {:induction false} RestockRaisesTotalStock(db: Db, isbn: string, qty: int)
    requires UniqueIsbns(db.books)
    requires RestockBook(db, isbn, qty).result.Restocked?
    ensures StockSum(RestockBook(db, isbn, qty).db.books) == StockSum(db.books) + qty
  {
    var k := IsbnIndex(db.books, isbn).value;
    StockSumUpdate(db.books, k, db.books[k].(stock := db.books[k].stock + qty));
  }

  /** `update_price` leaves the total stock as it was. */
  lemma {:induction false} PriceUpdateKeepsTotalStock(db: Db, isbn: string, price: int)
    requires UniqueIsbns(db.books)
    ensures StockSum(UpdatePrice(db, isbn, price).db.books) == StockSum(db.books)
  {
    var s := UpdatePrice(db, isbn, price);
    if !s.result.Failure? {
      var k := IsbnIndex(db.books, isbn).value;
      StockSumUpdate(db.books, k, db.books[k].(price := price));
    }
  }

  /** The quantities of the resolved items, summed. */
  function QtySum(ps: seq<Resolved>): int
  {
    if ps == [] then 0 else ps[0].qty + QtySum(ps[1..])
  }

  /** The quantities of the requested items, summed. */
  function Ordered(reqs: seq<ItemRequest>): int
  {
    if reqs == [] then 0 else reqs[0].qty + Ordered(reqs[1..])
  }

  lemma {:induction false} SameQtys(ps: seq<Resolved>, reqs: seq<ItemRequest>)
    requires |ps| == |reqs| && forall i :: 0 <= i < |ps| ==> ps[i].qty == reqs[i].qty
    ensures QtySum(ps) == Ordered(reqs)
  {
    if ps != [] { SameQtys(ps[1..], reqs[1..]); }
  }

  /** One stock update on an existing ISBN moves the stock total by `delta`, and keeps the
      ISBNs unique and every ISBN present. */
  lemma {:induction false} AddStockSum(books: seq<Book>, isbn: string, delta: int)
    requires UniqueIsbns(books) && HasIsbn(books, isbn)
    ensures StockSum(AddStock(books, isbn, delta)) == StockSum(books) + delta
    ensures UniqueIsbns(AddStock(books, isbn, delta))
    ensures forall x :: HasIsbn(books, x) ==> HasIsbn(AddStock(books, isbn, delta), x)
  {
    var k :| 0 <= k < |books| && books[k].isbn == isbn;
    UpdateOneRow(books, isbn, k, delta, 0);
    StockSumUpdate(books, k, books[k].(stock := books[k].stock + delta));
    UpdatesKeepKeys(books, isbn, delta, 0);
    SameKeysKeepValidBooks(books, AddStock(books, isbn, delta));
  }

  /** Taking the resolved items' quantities from rows that all exist under unique ISBNs lowers
      the stock total by the sum of those quantities. */
  lemma {:induction false} TakeStockSum(books: seq<Book>, ps: seq<Resolved>)
    requires UniqueIsbns(books)
    requires forall j :: 0 <= j < |ps| ==> HasIsbn(books, ps[j].isbn)
    ensures StockSum(TakeStock(books, ps)) == StockSum(books) - QtySum(ps)
    decreases ps
  {
    if ps != [] {
      var next := AddStock(books, ps[0].isbn, -ps[0].qty);
      AddStockSum(books, ps[0].isbn, -ps[0].qty);
      RestStillExist(books, next, ps);
      TakeStockSum(next, ps[1..]);
      assert TakeStock(books, ps) == TakeStock(next, ps[1..]);
    }
  }

  /** The items after the first still name existing books once the first one is applied. */
  lemma {:induction false} RestStillExist(books: seq<Book>, next: seq<Book>, ps: seq<Resolved>)
    requires ps != []
    requires forall x :: HasIsbn(books, x) ==> HasIsbn(next, x)
    requires forall j :: 0 <= j < |ps| ==> HasIsbn(books, ps[j].isbn)
    ensures forall j :: 0 <= j < |ps[1..]| ==> HasIsbn(next, ps[1..][j].isbn)
  {
    forall j | 0 <= j < |ps[1..]| ensures HasIsbn(next, ps[1..][j].isbn) {
      assert ps[1..][j] == ps[j + 1];
    }
  }

  /** A committed `create_order` lowers the total stock by exactly the quantities ordered. */
  lemma {:induction false} CommittedOrderLowersTotalStock(db: Db, customerId: int, reqs: seq<ItemRequest>)
    requires UniqueIsbns(db.books)
    requires CreateOrder(db, customerId, reqs).result.OrderCreated?
    ensures StockSum(CreateOrder(db, customerId, reqs).db.books) == StockSum(db.books) - Ordered(reqs)
  {
    assert customerId in db.customers && ResolveAll(db.books, reqs).Ok?;
    var ps := Resolution(db.books, reqs);
    assert CreateOrder(db, customerId, reqs).db.books == TakeStock(db.books, ps);
    ResolvedBooksExist(db.books, reqs);
    TakeStockSum(db.books, ps);
    SameQtys(ps, reqs);
  }

  // ---------------------------------------------------------------- order_status

  /** The items of one order, in table order. */
  function ItemsOf(items: seq<OrderItem>, orderId: int): seq<OrderItem>
  {
    if items == [] then []
    else (if items[0].orderId == orderId then [items[0]] else []) + ItemsOf(items[1..], orderId)
  }

  /** Sum of `price_at_purchase * qty`. */
  function ItemsCost(items: seq<OrderItem>): int
  {
    if items == [] then 0 else items[0].priceAtPurchase * items[0].qty + ItemsCost(items[1..])
  }

  function ItemsOfLines(lines: seq<StatusLine>): seq<OrderItem>
  {
    seq(|lines|, i requires 0 <= i < |lines| => lines[i].item)
  }

  lemma {:induction false} JoinKeepsEveryItem(items: seq<OrderItem>, books: seq<Book>, orderId: int)
    requires forall i :: 0 <= i < |items| ==> HasIsbn(books, items[i].isbn)
    ensures ItemsOfLines(StatusLines(items, books, orderId)) == ItemsOf(items, orderId)
    ensures LinesTotal(StatusLines(items, books, orderId)) == ItemsCost(ItemsOf(items, orderId))
  {
    if items != [] {
      assert forall i :: 0 <= i < |items[1..]| ==> items[1..][i] == items[i + 1];
      JoinKeepsEveryItem(items[1..], books, orderId);
      var rest := StatusLines(items[1..], books, orderId);
      if items[0].orderId == orderId {
        var j :| 0 <= j < |books| && books[j].isbn == items[0].isbn;
        assert IsbnIndex(books, items[0].isbn).Some?;
        var k := IsbnIndex(books, items[0].isbn).value;
        var line := StatusLine(items[0], books[k].title, books[k].author);
        assert StatusLines(items, books, orderId) == [line] + rest;
        assert ItemsOf(items, orderId) == [items[0]] + ItemsOf(items[1..], orderId);
        ConsLine(line, rest);
        ConsItem(items[0], ItemsOf(items[1..], orderId));
      } else {
        assert StatusLines(items, books, orderId) == rest;
      }
    }
  }

  /** The items and the total of a joined line put in front of others. */
  lemma {:induction false} ConsLine(line: StatusLine, rest: seq<StatusLine>)
    ensures ItemsOfLines([line] + rest) == [line.item] + ItemsOfLines(rest)
    ensures LinesTotal([line] + rest) == LineCost(line) + LinesTotal(rest)
  {
    assert ([line] + rest)[1..] == rest;
  }

  /** The cost of an item put in front of others. */
  lemma {:induction false} ConsItem(x: OrderItem, rest: seq<OrderItem>)
    ensures ItemsCost([x] + rest) == x.priceAtPurchase * x.qty + ItemsCost(rest)
  {
    assert ([x] + rest)[1..] == rest;
  }

  /** In a valid store every order item joins with its book, so `order_status` lists exactly the
      order's items and its total is the sum of `price_at_purchase * qty` over them. */
  lemma {:induction false} StatusTotalIsOrderCost(db: Db, orderId: int)
    requires Valid(db)
    requires OrderStatus(db, orderId).StatusReport?
    ensures ItemsOfLines(OrderStatus(db, orderId).statusItems) == ItemsOf(db.orderItems, orderId)
    ensures OrderStatus(db, orderId).total == ItemsCost(ItemsOf(db.orderItems, orderId))
  {
    JoinKeepsEveryItem(db.orderItems, db.books, orderId);
  }

  lemma {:induction false} StatusLinesSameBooks(items: seq<OrderItem>, a: seq<Book>, b: seq<Book>, orderId: int)
    requires SameKeys(a, b)
    requires forall i :: 0 <= i < |a| ==> a[i].title == b[i].title && a[i].author == b[i].author
    ensures StatusLines(items, a, orderId) == StatusLines(items, b, orderId)
  {
    if items != [] {
      IsbnIndexSameKeys(a, b, items[0].isbn);
      StatusLinesSameBooks(items[1..], a, b, orderId);
    }
  }

  /** `order_status` reads neither a book's current price nor its stock: a later `update_price`
      or `restock_book` leaves every order's report, and so its total, as it was. */
  lemma {:induction false} StatusIgnoresBookUpdates(db: Db, orderId: int, isbn: string, price: int, qty: int)
    ensures OrderStatus(UpdatePrice(db, isbn, price).db, orderId) == OrderStatus(db, orderId)
    ensures OrderStatus(RestockBook(db, isbn, qty).db, orderId) == OrderStatus(db, orderId)
  {
    UpdatesKeepKeys(db.books, isbn, qty, price);
    StatusLinesSameBooks(db.orderItems, db.books, SetPrice(db.books, isbn, price), orderId);
    StatusLinesSameBooks(db.orderItems, db.books, AddStock(db.books, isbn, qty), orderId);
  }

  lemma {:induction false} ItemsOfAppend(a: seq<OrderItem>, b: seq<OrderItem>, orderId: int)
    ensures ItemsOf(a + b, orderId) == ItemsOf(a, orderId) + ItemsOf(b, orderId)
  {
    if a != [] {
      assert (a + b)[1..] == a[1..] + b;
      ItemsOfAppend(a[1..], b, orderId);
    } else {
      assert a + b == b;
    }
  }

  lemma {:induction false} ItemsOfSelectsAll(a: seq<OrderItem>, orderId: int)
    ensures (forall i :: 0 <= i < |a| ==> a[i].orderId != orderId) ==> ItemsOf(a, orderId) == []
    ensures (forall i :: 0 <= i < |a| ==> a[i].orderId == orderId) ==> ItemsOf(a, orderId) == a
  {
    if a != [] {
      ItemsOfSelectsAll(a[1..], orderId);
    }
  }

  lemma {:induction false} OnlyNewRowsCarryNewId(before: seq<OrderItem>, rows: seq<OrderItem>, orderId: int)
    requires forall i :: 0 <= i < |before| ==> before[i].orderId != orderId
    requires forall i :: 0 <= i < |rows| ==> rows[i].orderId == orderId
    ensures ItemsOf(before + rows, orderId) == rows
  {
    ItemsOfAppend(before, rows, orderId);
    ItemsOfSelectsAll(before, orderId);
    ItemsOfSelectsAll(rows, orderId);
  }

  /** In a valid store every order item belongs to an order whose id is below the counter. */
  lemma {:induction false} ItemsPrecedeCounter(db: Db)
    requires Valid(db)
    ensures forall i :: 0 <= i < |db.orderItems| ==> db.orderItems[i].orderId != db.nextOrderId
  {
    forall i | 0 <= i < |db.orderItems| ensures db.orderItems[i].orderId != db.nextOrderId {
      assert HasOrder(db.orders, db.orderItems[i].orderId);
      var o :| 0 <= o < |db.orders| && db.orders[o].id == db.orderItems[i].orderId;
    }
  }

  /** Creating an order and then asking for its status reports the order with a total that is
      the sum of `qty * price` at the prices the books had when the order was created. */
  lemma {:induction false} NewOrderTotalUsesOrderTimePrices(db: Db, customerId: int, reqs: seq<ItemRequest>)
    requires Valid(db)
    requires CreateOrder(db, customerId, reqs).result.OrderCreated?
    ensures var s := CreateOrder(db, customerId, reqs);
            var r := OrderStatus(s.db, db.nextOrderId);
            && r.StatusReport?
            && r.status == Pending
            && r.customerName == db.customers[customerId].name
            && r.customerEmail == db.customers[customerId].email
            && r.total == ItemsCost(OrderRows(db.nextOrderId, Resolution(db.books, reqs)))
  {
    var id := db.nextOrderId;
    assert customerId in db.customers && ResolveAll(db.books, reqs).Ok?;
    var rows := OrderRows(id, Resolution(db.books, reqs));
    var after := CreateOrder(db, customerId, reqs).db;
    assert after.orderItems == db.orderItems + rows;
    assert after.orders[|db.orders|] == Order(id, customerId, Pending);
    assert after.customers == db.customers;
    ItemsPrecedeCounter(db);
    OnlyNewRowsCarryNewId(db.orderItems, rows, id);
    CreateOrderKeepsValid(db, customerId, reqs);
    assert OrderStatus(after, id).StatusReport?;
    StatusTotalIsOrderCost(after, id);
    var k :| 0 <= k < |after.orders| && after.orders[k].id == id
             && after.orders[k].customerId in after.customers
             && OrderStatus(after, id).status == after.orders[k].status
             && OrderStatus(after, id).customerName == after.customers[after.orders[k].customerId].name
             && OrderStatus(after, id).customerEmail == after.customers[after.orders[k].customerId].email;
    assert k == |db.orders|;
  }
}
