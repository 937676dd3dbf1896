/** The library's tables and the values the tools return. */
module Schema {
  import opened Wrappers

  /** A row of `books`; prices are integer cents. */
  datatype Book = Book(isbn: string, title: string, author: string, price: int, stock: int)

  /** A row of `customers`, keyed by its id in `Db.customers`. */
  datatype Customer = Customer(name: string, email: string)

  /** A row of `orders` (its `created_at` timestamp is not modelled). */
  datatype Order = Order(id: int, customerId: int, status: string)

  /** A row of `order_items`. */
  datatype OrderItem = OrderItem(orderId: int, isbn: string, qty: int, priceAtPurchase: int)

  /** The whole store; `nextOrderId` stands for the autoincrement counter of `orders`. */
  datatype Db = Db(
    books: seq<Book>,
    customers: map<int, Customer>,
    orders: seq<Order>,
    orderItems: seq<OrderItem>,
    nextOrderId: int)

  /** The `error` of a `{success: false, error}` result. */
  datatype ToolError =
    | CustomerNotFound
    | BookNotInInventory(identifier: string)
    | InsufficientStock(title: string, available: int, requested: int)
    | BookNotFound
    | OrderNotFound

  /** One entry of `create_order`'s `items`. */
  datatype OrderLine = OrderLine(title: string, qty: int, price: int)

  /** One row of `order_status`'s `items`: the order item joined with its book's title and author. */
  datatype StatusLine = StatusLine(item: OrderItem, title: string, author: string)

  /** What a tool returns (the human-readable `message` strings are not modelled). */
  datatype ToolResult =
    | Failure(error: ToolError)
    | BooksFound(books: seq<Book>)
    | OrderCreated(orderId: int, customerId: int, lines: seq<OrderLine>)
    | Restocked(title: string, newStock: int)
    | PriceUpdated(title: string, oldPrice: int, newPrice: int)
    | StatusReport(orderId: int, customerName: string, customerEmail: string, status: string,
                   statusItems: seq<StatusLine>, total: int)
    | InventoryReport(lowStockBooks: seq<Book>, totalTitles: nat, totalStock: Option<int>)

  /** The result of a tool together with the store it leaves behind. */
  datatype Step = Step(result: ToolResult, db: Db)

  ghost predicate UniqueIsbns(books: seq<Book>)
  {
    forall i, j :: 0 <= i < j < |books| ==> books[i].isbn != books[j].isbn
  }

  ghost predicate HasIsbn(books: seq<Book>, isbn: string)
  {
    exists k :: 0 <= k < |books| && books[k].isbn == isbn
  }

  ghost predicate HasOrder(orders: seq<Order>, id: int)
  {
    exists k :: 0 <= k < |orders| && orders[k].id == id
  }

  /** The store's integrity constraints: ISBN is the primary key of `books`, order ids increase
      and stay below the counter, and every row refers to rows that exist. Non-negative stock is
      NOT among them: the tools do not maintain it. */
  ghost predicate Valid(db: Db)
  {
    && UniqueIsbns(db.books)
    && (forall i, j :: 0 <= i < j < |db.orders| ==> db.orders[i].id < db.orders[j].id)
    && (forall i :: 0 <= i < |db.orders| ==>
          db.orders[i].id < db.nextOrderId && db.orders[i].customerId in db.customers)
    && (forall i :: 0 <= i < |db.orderItems| ==>
          HasIsbn(db.books, db.orderItems[i].isbn) && HasOrder(db.orders, db.orderItems[i].orderId))
  }
}
