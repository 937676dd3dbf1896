/** The six tools as functions from the store to a result and the store they leave behind.
    The class in module StoreImpl runs the same tools step by step and is proved against these. */
module Tools {
  import opened Wrappers
  import opened Text
  import opened Schema

  /** `inventory_summary` lists the books whose stock is below this. */
  const LowStockThreshold := 10

  /** The status every new order starts with. */
  const Pending := "pending"

  // ---------------------------------------------------------------- find_books

  /** `by || 'title'` compared with 'title': absent or empty means title, anything else author. */
  predicate SearchesTitle(searchBy: Option<string>)
  {
    searchBy.None? || searchBy.value == "" || searchBy.value == "title"
  }

  predicate Matches(b: Book, q: string, byTitle: bool)
  {
    ContainsFolded(if byTitle then b.title else b.author, q)
  }

  /** `SELECT * FROM books WHERE <field> LIKE '%q%'`, rows in table order. */
  function FindBooks(books: seq<Book>, q: string, searchBy: Option<string>): (r: seq<Book>)
    ensures forall b :: b in r <==> b in books && Matches(b, q, SearchesTitle(searchBy))
    ensures multiset(r) <= multiset(books)
  {
    if books == [] then []
    else
      var rest := FindBooks(books[1..], q, searchBy);
      assert books == [books[0]] + books[1..];
      assert forall b :: b in books <==> b == books[0] || b in books[1..];
      if Matches(books[0], q, SearchesTitle(searchBy)) then [books[0]] + rest else rest
  }

  // ---------------------------------------------------------------- lookups

  /** `SELECT * FROM books WHERE isbn = ?`: the first row with that ISBN. */
  function IsbnIndex(books: seq<Book>, isbn: string): (r: Option<nat>)
    ensures r.Some? ==> r.value < |books| && books[r.value].isbn == isbn
                        && forall j :: 0 <= j < r.value ==> books[j].isbn != isbn
    ensures r.None? <==> forall j :: 0 <= j < |books| ==> books[j].isbn != isbn
  {
    if books == [] then None
    else if books[0].isbn == isbn then Some(0)
    else match IsbnIndex(books[1..], isbn)
      case None => None
      case Some(k) => Some(k + 1)
  }

  /** `SELECT * FROM books WHERE title LIKE '%title%'` with `.get()`: the first matching row. */
  function TitleIndex(books: seq<Book>, title: string): (r: Option<nat>)
    ensures r.Some? ==> r.value < |books| && ContainsFolded(books[r.value].title, title)
                        && forall j :: 0 <= j < r.value ==> !ContainsFolded(books[j].title, title)
    ensures r.None? <==> forall j :: 0 <= j < |books| ==> !ContainsFolded(books[j].title, title)
  {
    if books == [] then None
    else if ContainsFolded(books[0].title, title) then Some(0)
    else match TitleIndex(books[1..], title)
      case None => None
      case Some(k) => Some(k + 1)
  }

  // ---------------------------------------------------------------- create_order

  /** One requested item: `isbn` and `title` may be absent; `qty` is taken as given. */
  datatype ItemRequest = ItemRequest(isbn: Option<string>, title: Option<string>, qty: int)

  /** An entry of `processedItems`: the resolved book's ISBN, title and current price. */
  datatype Resolved = Resolved(isbn: string, qty: int, price: int, title: string)

  /** JavaScript truthiness of an optional string field. */
  predicate Given(s: Option<string>)
  {
    s.Some? && s.value != ""
  }

  /** `item.isbn || item.title || 'unknown'`: how a missing book is named in the error. */
  function Identifier(req: ItemRequest): string
  {
    if Given(req.isbn) then req.isbn.value
    else if Given(req.title) then req.title.value
    else "unknown"
  }

  /** Book `k` is the one the item resolves to: the first exact ISBN match when an ISBN is
      given, otherwise the first book whose title contains the requested title. */
  ghost predicate Selects(books: seq<Book>, req: ItemRequest, k: int)
  {
    && 0 <= k < |books|
    && if Given(req.isbn) then
         books[k].isbn == req.isbn.value && forall j :: 0 <= j < k ==> books[j].isbn != req.isbn.value
       else
         Given(req.title) && ContainsFolded(books[k].title, req.title.value)
         && forall j :: 0 <= j < k ==> !ContainsFolded(books[j].title, req.title.value)
  }

  function Lookup(books: seq<Book>, req: ItemRequest): Option<nat>
  {
    if Given(req.isbn) then IsbnIndex(books, req.isbn.value)
    else if Given(req.title) then TitleIndex(books, req.title.value)
    else None
  }

  /** One pass of the item loop: resolve the book, then check its stock against `qty`. */
  function ResolveItem(books: seq<Book>, req: ItemRequest): (r: Result<Resolved, ToolError>)
    ensures r.Ok? ==> r.value.qty == req.qty
    ensures r == Err(BookNotInInventory(Identifier(req))) <==> Lookup(books, req).None?
  {
    match Lookup(books, req)
    case None => Err(BookNotInInventory(Identifier(req)))
    case Some(k) =>
      var b := books[k];
      if b.stock < req.qty then Err(InsufficientStock(b.title, b.stock, req.qty))
      else Ok(Resolved(b.isbn, req.qty, b.price, b.title))
  }

  /** What one item resolves to: the book `Selects` picks, failing when its stock is below the
      requested quantity; with no such book, the error names the item's identifier. */
  lemma {:induction false} ResolveItemMeaning(books: seq<Book>, req: ItemRequest)
    ensures forall k :: Selects(books, req, k) ==>
              ResolveItem(books, req)
                == if books[k].stock < req.qty
                   then Err(InsufficientStock(books[k].title, books[k].stock, req.qty))
                   else Ok(Resolved(books[k].isbn, req.qty, books[k].price, books[k].title))
    ensures (forall k :: !Selects(books, req, k)) ==>
              ResolveItem(books, req) == Err(BookNotInInventory(Identifier(req)))
  {
    var found := Lookup(books, req);
    assert found.Some? ==> Selects(books, req, found.value);
    assert forall k :: Selects(books, req, k) ==> found == Some(k);
  }

  /** The whole item loop: every item is checked against the stock as it was on entry, and the
      first failing item decides the error. */
  function ResolveAll(books: seq<Book>, reqs: seq<ItemRequest>): (r: Result<seq<Resolved>, ToolError>)
    ensures r.Ok? <==> forall i :: 0 <= i < |reqs| ==> ResolveItem(books, reqs[i]).Ok?
    ensures r.Ok? ==> |r.value| == |reqs|
                      && forall i :: 0 <= i < |reqs| ==> ResolveItem(books, reqs[i]) == Ok(r.value[i])
    ensures r.Err? ==> exists i :: 0 <= i < |reqs| && ResolveItem(books, reqs[i]) == Err(r.error)
                                   && forall j :: 0 <= j < i ==> ResolveItem(books, reqs[j]).Ok?
  {
    if reqs == [] then Ok([])
    else
      var first := ResolveItem(books, reqs[0]);
      if first.Err? then
        assert ResolveItem(books, reqs[0]) == Err(first.error);
        Err(first.error)
      else
        var rest := ResolveAll(books, reqs[1..]);
        assert forall i :: 1 <= i < |reqs| ==> reqs[1..][i - 1] == reqs[i];
        if rest.Err? then
          assert exists i :: 0 <= i < |reqs| && ResolveItem(books, reqs[i]) == Err(rest.error)
                             && forall j :: 0 <= j < i ==> ResolveItem(books, reqs[j]).Ok? by {
            var i :| 0 <= i < |reqs[1..]| && ResolveItem(books, reqs[1..][i]) == Err(rest.error)
                     && forall j :: 0 <= j < i ==> ResolveItem(books, reqs[1..][j]).Ok?;
            assert ResolveItem(books, reqs[i + 1]) == Err(rest.error);
            assert forall j :: 0 <= j < i + 1 ==> ResolveItem(books, reqs[j]).Ok?;
          }
          Err(rest.error)
        else
          Ok([first.value] + rest.value)
  }

  /** `UPDATE books SET stock = stock + delta WHERE isbn = ?` */
  function AddStock(books: seq<Book>, isbn: string, delta: int): seq<Book>
  {
    seq(|books|, i requires 0 <= i < |books| =>
      if books[i].isbn == isbn then books[i].(stock := books[i].stock + delta) else books[i])
  }

  /** The second loop's stock updates, one resolved item after the other. */
  function TakeStock(books: seq<Book>, ps: seq<Resolved>): seq<Book>
    decreases ps
  {
    if ps == [] then books else TakeStock(AddStock(books, ps[0].isbn, -ps[0].qty), ps[1..])
  }

  /** The second loop's `order_items` rows, with `price_at_purchase` the price seen by the first loop. */
  function OrderRows(orderId: int, ps: seq<Resolved>): seq<OrderItem>
  {
    seq(|ps|, i requires 0 <= i < |ps| => OrderItem(orderId, ps[i].isbn, ps[i].qty, ps[i].price))
  }

  /** `processedItems.map(i => ({title, qty, price}))` */
  function Lines(ps: seq<Resolved>): seq<OrderLine>
  {
    seq(|ps|, i requires 0 <= i < |ps| => OrderLine(ps[i].title, ps[i].qty, ps[i].price))
  }

  /** `create_order`: every check runs before anything is written, so a failure leaves the store
      as it was. */
  function CreateOrder(db: Db, customerId: int, reqs: seq<ItemRequest>): (s: Step)
    ensures s.result.Failure? ==> s.db == db
    ensures customerId !in db.customers ==> s.result == Failure(CustomerNotFound)
    ensures customerId in db.customers ==>
              (s.result.Failure? <==> exists i :: 0 <= i < |reqs| && ResolveItem(db.books, reqs[i]).Err?)
    ensures customerId in db.customers && s.result.Failure? ==>
              exists i :: 0 <= i < |reqs| && ResolveItem(db.books, reqs[i]) == Err(s.result.error)
                && forall j :: 0 <= j < i ==> ResolveItem(db.books, reqs[j]).Ok?
    ensures !s.result.Failure? ==> s.result.OrderCreated? && s.result.customerId == customerId
                                   && |s.result.lines| == |reqs|
  {
    if customerId !in db.customers then Step(Failure(CustomerNotFound), db)
    else match ResolveAll(db.books, reqs)
      case Err(e) => Step(Failure(e), db)
      case Ok(ps) =>
        var id := db.nextOrderId;
        Step(OrderCreated(id, customerId, Lines(ps)),
             Db(TakeStock(db.books, ps), db.customers, db.orders + [Order(id, customerId, Pending)],
                db.orderItems + OrderRows(id, ps), id + 1))
  }

  // ---------------------------------------------------------------- restock_book, update_price

  /** `UPDATE books SET price = ? WHERE isbn = ?` */
  function SetPrice(books: seq<Book>, isbn: string, price: int): seq<Book>
  {
    seq(|books|, i requires 0 <= i < |books| =>
      if books[i].isbn == isbn then books[i].(price := price) else books[i])
  }

  /** Under a unique ISBN, the row-wise update touches exactly the one row with that ISBN. */
  lemma {:induction false} UpdateOneRow(books: seq<Book>, isbn: string, k: nat, delta: int, price: int)
    requires UniqueIsbns(books) && k < |books| && books[k].isbn == isbn
    ensures AddStock(books, isbn, delta) == books[k := books[k].(stock := books[k].stock + delta)]
    ensures SetPrice(books, isbn, price) == books[k := books[k].(price := price)]
  {
    assert forall i :: 0 <= i < |books| && i != k ==> books[i].isbn != isbn;
  }

  ghost predicate SameKeys(a: seq<Book>, b: seq<Book>)
  {
    |a| == |b| && forall i :: 0 <= i < |a| ==> a[i].isbn == b[i].isbn
  }

  /** Row-wise updates keep every row's ISBN, title and author. */
  lemma {:induction false} UpdatesKeepKeys(books: seq<Book>, isbn: string, delta: int, price: int)
    ensures SameKeys(books, AddStock(books, isbn, delta)) && SameKeys(books, SetPrice(books, isbn, price))
    ensures forall i :: 0 <= i < |books| ==>
              AddStock(books, isbn, delta)[i].title == books[i].title
              && AddStock(books, isbn, delta)[i].author == books[i].author
              && SetPrice(books, isbn, price)[i].title == books[i].title
              && SetPrice(books, isbn, price)[i].author == books[i].author
  {
  }

  lemma {:induction false} IsbnIndexSameKeys(a: seq<Book>, b: seq<Book>, isbn: string)
    requires SameKeys(a, b)
    ensures IsbnIndex(a, isbn) == IsbnIndex(b, isbn)
  {
    if a != [] { IsbnIndexSameKeys(a[1..], b[1..], isbn); }
  }

  /** `restock_book`: on a known ISBN the first book with that ISBN (the row `UPDATE` and the
      read-back `SELECT` both reach) has its stock grown by exactly `qty`, `new_stock` is the
      stock read back afterwards, and with unique ISBNs nothing else changes. */
  function RestockBook(db: Db, isbn: string, qty: int): (s: Step)
    ensures s.result.Failure? <==> forall j :: 0 <= j < |db.books| ==> db.books[j].isbn != isbn
    ensures s.result.Failure? ==> s == Step(Failure(BookNotFound), db)
    ensures !s.result.Failure? ==>
              var k := IsbnIndex(db.books, isbn).value;
              s.result == Restocked(db.books[k].title, db.books[k].stock + qty)
              && (UniqueIsbns(db.books) ==>
                    s.db == db.(books := db.books[k := db.books[k].(stock := db.books[k].stock + qty)]))
  {
    match IsbnIndex(db.books, isbn)
    case None => Step(Failure(BookNotFound), db)
    case Some(k) =>
      var books' := AddStock(db.books, isbn, qty);
      var row := db.books[k].(stock := db.books[k].stock + qty);
      assert books'[k] == row && (UniqueIsbns(db.books) ==> books' == db.books[k := row]) by {
        RestockedRow(db.books, isbn, k, qty);
      }
      Step(Restocked(books'[k].title, books'[k].stock), db.(books := books'))
  }

  /** Reading the row back after a restock finds the same row, with its stock raised, so the
      reported title and stock are those of row `k`. */
  lemma {:induction false} RestockedRow(books: seq<Book>, isbn: string, k: nat, qty: int)
    requires IsbnIndex(books, isbn) == Some(k)
    ensures IsbnIndex(AddStock(books, isbn, qty), isbn) == Some(k)
    ensures AddStock(books, isbn, qty)[k] == books[k].(stock := books[k].stock + qty)
    ensures UniqueIsbns(books) ==>
              AddStock(books, isbn, qty) == books[k := books[k].(stock := books[k].stock + qty)]
  {
    UpdatesKeepKeys(books, isbn, qty, 0);
    IsbnIndexSameKeys(books, AddStock(books, isbn, qty), isbn);
    if UniqueIsbns(books) { UpdateOneRow(books, isbn, k, qty, 0); }
  }

  /** `update_price`: on a known ISBN only that book's price becomes `price`, and `old_price`
      is the price it had before. */
  function UpdatePrice(db: Db, isbn: string, price: int): (s: Step)
    ensures s.result.Failure? <==> forall j :: 0 <= j < |db.books| ==> db.books[j].isbn != isbn
    ensures s.result.Failure? ==> s == Step(Failure(BookNotFound), db)
    ensures !s.result.Failure? ==>
              var k := IsbnIndex(db.books, isbn).value;
              s.result == PriceUpdated(db.books[k].title, db.books[k].price, price)
              && (UniqueIsbns(db.books) ==> s.db == db.(books := db.books[k := db.books[k].(price := price)]))
  {
    match IsbnIndex(db.books, isbn)
    case None => Step(Failure(BookNotFound), db)
    case Some(k) =>
      assert UniqueIsbns(db.books) ==>
               SetPrice(db.books, isbn, price) == db.books[k := db.books[k].(price := price)] by {
        if UniqueIsbns(db.books) { UpdateOneRow(db.books, isbn, k, 0, price); }
      }
      Step(PriceUpdated(db.books[k].title, db.books[k].price, price),
           db.(books := SetPrice(db.books, isbn, price)))
  }

  // ---------------------------------------------------------------- order_status

  /** The first row of `orders JOIN customers ... WHERE o.id = ?`. */
  function OrderIndex(orders: seq<Order>, customers: map<int, Customer>, id: int): (r: Option<nat>)
    ensures r.Some? ==> r.value < |orders| && orders[r.value].id == id
                        && orders[r.value].customerId in customers
                        && forall j :: 0 <= j < r.value ==> orders[j].id != id || orders[j].customerId !in customers
    ensures r.None? <==> forall j :: 0 <= j < |orders| ==> orders[j].id != id || orders[j].customerId !in customers
  {
    if orders == [] then None
    else if orders[0].id == id && orders[0].customerId in customers then Some(0)
    else match OrderIndex(orders[1..], customers, id)
      case None => None
      case Some(k) => Some(k + 1)
  }

  /** `order_items JOIN books ... WHERE oi.order_id = ?`, in `order_items` order; ISBN is the key
      of `books`, so each item joins with at most one book. */
  function StatusLines(items: seq<OrderItem>, books: seq<Book>, orderId: int): (r: seq<StatusLine>)
    ensures |r| <= |items|
    ensures forall i :: 0 <= i < |r| ==>
              IsbnIndex(books, r[i].item.isbn).Some?
              && r[i].title == books[IsbnIndex(books, r[i].item.isbn).value].title
              && r[i].author == books[IsbnIndex(books, r[i].item.isbn).value].author
  {
    if items == [] then []
    else
      var here :=
        if items[0].orderId != orderId then []
        else match IsbnIndex(books, items[0].isbn)
          case None => []
          case Some(k) => [StatusLine(items[0], books[k].title, books[k].author)];
      here + StatusLines(items[1..], books, orderId)
  }

  function LineCost(l: StatusLine): int
  {
    l.item.priceAtPurchase * l.item.qty
  }

  /** `total += item.price_at_purchase * item.qty` over the joined rows. */
  function LinesTotal(lines: seq<StatusLine>): int
  {
    if lines == [] then 0 else LineCost(lines[0]) + LinesTotal(lines[1..])
  }

  /** `order_status`: the order, its customer, its items and their total (an exact number of
      cents; the two-decimal formatting is not modelled). */
  function OrderStatus(db: Db, orderId: int): (r: ToolResult)
    ensures r.Failure? <==> forall j :: 0 <= j < |db.orders| ==>
                              db.orders[j].id != orderId || db.orders[j].customerId !in db.customers
    ensures r.Failure? ==> r == Failure(OrderNotFound)
    ensures !r.Failure? ==> r.StatusReport? && r.orderId == orderId
                            && r.total == LinesTotal(r.statusItems)
                            && forall i :: 0 <= i < |r.statusItems| ==> r.statusItems[i].item.orderId == orderId
    ensures !r.Failure? ==>
              forall i :: 0 <= i < |r.statusItems| ==>
                IsbnIndex(db.books, r.statusItems[i].item.isbn).Some?
                && r.statusItems[i].title == db.books[IsbnIndex(db.books, r.statusItems[i].item.isbn).value].title
                && r.statusItems[i].author == db.books[IsbnIndex(db.books, r.statusItems[i].item.isbn).value].author
    ensures !r.Failure? ==>
              exists k :: 0 <= k < |db.orders| && db.orders[k].id == orderId
                && db.orders[k].customerId in db.customers
                && (forall j :: 0 <= j < k ==>
                      db.orders[j].id != orderId || db.orders[j].customerId !in db.customers)
                && r.status == db.orders[k].status
                && r.customerName == db.customers[db.orders[k].customerId].name
                && r.customerEmail == db.customers[db.orders[k].customerId].email
  {
    match OrderIndex(db.orders, db.customers, orderId)
    case None => Failure(OrderNotFound)
    case Some(k) =>
      var o := db.orders[k];
      var c := db.customers[o.customerId];
      var lines := StatusLines(db.orderItems, db.books, orderId);
      StatusLinesOfOrder(db.orderItems, db.books, orderId);
      StatusReport(o.id, c.name, c.email, o.status, lines, LinesTotal(lines))
  }

  lemma {:induction false} StatusLinesOfOrder(items: seq<OrderItem>, books: seq<Book>, orderId: int)
    ensures forall i :: 0 <= i < |StatusLines(items, books, orderId)| ==>
              StatusLines(items, books, orderId)[i].item.orderId == orderId
  {
    if items != [] { StatusLinesOfOrder(items[1..], books, orderId); }
  }

  // ---------------------------------------------------------------- inventory_summary

  ghost predicate SortedByStock(s: seq<Book>)
  {
    forall i, j :: 0 <= i < j < |s| ==> s[i].stock <= s[j].stock
  }

  /** `WHERE stock < 10`, in table order. */
  function LowStock(books: seq<Book>): (r: seq<Book>)
    ensures forall b :: b in r <==> b in books && b.stock < LowStockThreshold
    ensures multiset(r) <= multiset(books)
  {
    if books == [] then []
    else
      assert books == [books[0]] + books[1..];
      assert forall b :: b in books <==> b == books[0] || b in books[1..];
      (if books[0].stock < LowStockThreshold then [books[0]] else []) + LowStock(books[1..])
  }

  /** Puts `b` in front of the first book whose stock is not smaller, so that `b` comes before
      the books of equal stock. */
  function InsertByStock(b: Book, sorted: seq<Book>): (r: seq<Book>)
    requires SortedByStock(sorted)
    ensures SortedByStock(r)
    ensures multiset(r) == multiset(sorted) + multiset{b}
    ensures forall x :: x in r ==> x == b || x in sorted
  {
    if sorted == [] then [b]
    else if b.stock <= sorted[0].stock then [b] + sorted
    else
      var rest := InsertByStock(b, sorted[1..]);
      assert sorted == [sorted[0]] + sorted[1..];
      assert forall x :: x in [sorted[0]] + rest ==> x == sorted[0] || x in rest;
      ConsSorted(sorted[0], rest, sorted[1..], b);
      [sorted[0]] + rest
  }

  /** A book no larger in stock than `b` and than every book of `tail` can go in front of a
      sorted list drawn from `b` and `tail`. */
  lemma {:induction false} ConsSorted(x: Book, rest: seq<Book>, tail: seq<Book>, b: Book)
    requires SortedByStock(rest) && x.stock <= b.stock
    requires forall y :: y in rest ==> y == b || y in tail
    requires forall y :: y in tail ==> x.stock <= y.stock
    ensures SortedByStock([x] + rest)
  {
    var r := [x] + rest;
    forall i, j | 0 <= i < j < |r| ensures r[i].stock <= r[j].stock {
      assert r[j] == rest[j - 1];
      if i == 0 {
        assert rest[j - 1] in rest;
      } else {
        assert r[i] == rest[i - 1];
      }
    }
  }

  /** `ORDER BY stock ASC`, as an insertion sort from the back of the table: books of equal
      stock keep their table order. */
  function SortByStock(s: seq<Book>): (r: seq<Book>)
    ensures SortedByStock(r)
    ensures multiset(r) == multiset(s)
  {
    if s == [] then []
    else
      assert s == [s[0]] + s[1..];
      InsertByStock(s[0], SortByStock(s[1..]))
  }

  /** `SUM(stock)` over a non-empty table. */
  function StockSum(books: seq<Book>): int
  {
    if books == [] then 0 else books[0].stock + StockSum(books[1..])
  }

  /** `inventory_summary`: exactly the books under the threshold, ascending by stock, the number
      of titles, and the total stock, which SQL's SUM reports as NULL on an empty table. */
  function InventorySummary(books: seq<Book>): (r: ToolResult)
    ensures r.InventoryReport?
    ensures SortedByStock(r.lowStockBooks)
    ensures multiset(r.lowStockBooks) == multiset(LowStock(books))
    ensures forall b :: b in r.lowStockBooks <==> b in books && b.stock < LowStockThreshold
    ensures r.totalTitles == |books|
    ensures r.totalStock.None? <==> books == []
    ensures books != [] ==> r.totalStock == Some(StockSum(books))
  {
    var low := SortByStock(LowStock(books));
    assert forall b :: b in low <==> b in multiset(low);
    InventoryReport(low, |books|, if books == [] then None else Some(StockSum(books)))
  }
}
