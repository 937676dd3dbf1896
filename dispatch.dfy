/** How `processMessage` runs a tool: `tools[toolName](args)`, where `tools` is the object that
    server/tools.js exports and each tool destructures the fields it needs from `args`. */
module Dispatch {
  import opened Wrappers
  import opened JsonValues
  import opened Schema
  import Tools
  import ToolLemmas
  import StoreImpl

  /** The six tools. */
  datatype Tool =
    | FindBooksTool
    | CreateOrderTool
    | RestockBookTool
    | UpdatePriceTool
    | OrderStatusTool
    | InventorySummaryTool

  /** What the exported object holds: the six tools, and also `getDB`. */
  datatype Export = ToolExport(tool: Tool) | DbExport

  function ExportName(e: Export): string
  {
    match e
    case ToolExport(FindBooksTool) => "find_books"
    case ToolExport(CreateOrderTool) => "create_order"
    case ToolExport(RestockBookTool) => "restock_book"
    case ToolExport(UpdatePriceTool) => "update_price"
    case ToolExport(OrderStatusTool) => "order_status"
    case ToolExport(InventorySummaryTool) => "inventory_summary"
    case DbExport => "getDB"
  }

  /** `tools[toolName]`: the export whose name is the string `name`, and nothing otherwise. */
  function Registry(name: Json): (r: Option<Export>)
    ensures forall e :: r == Some(e) <==> name == JStr(ExportName(e))
  {
    if !name.JStr? then None
    else if name.s == "find_books" then Some(ToolExport(FindBooksTool))
    else if name.s == "create_order" then Some(ToolExport(CreateOrderTool))
    else if name.s == "restock_book" then Some(ToolExport(RestockBookTool))
    else if name.s == "update_price" then Some(ToolExport(UpdatePriceTool))
    else if name.s == "order_status" then Some(ToolExport(OrderStatusTool))
    else if name.s == "inventory_summary" then Some(ToolExport(InventorySummaryTool))
    else if name.s == "getDB" then Some(DbExport)
    else None
  }

  // ---------------------------------------------------------------- arguments

  /** A tool call with its arguments read out of the JSON `args`. */
  datatype Call =
    | FindBooksCall(q: string, searchBy: Option<string>)
    | CreateOrderCall(customerId: int, items: seq<Tools.ItemRequest>)
    | RestockCall(isbn: string, qty: int)
    | UpdatePriceCall(isbn: string, price: int)
    | OrderStatusCall(orderId: int)
    | InventorySummaryCall

  function ToolOf(c: Call): Tool
  {
    match c
    case FindBooksCall(_, _) => FindBooksTool
    case CreateOrderCall(_, _) => CreateOrderTool
    case RestockCall(_, _) => RestockBookTool
    case UpdatePriceCall(_, _) => UpdatePriceTool
    case OrderStatusCall(_) => OrderStatusTool
    case InventorySummaryCall => InventorySummaryTool
  }

  function TextArg(v: Json): Option<string>
  {
    if v.JStr? then Some(v.s) else None
  }

  function IntArg(v: Json): Option<int>
  {
    if v.JNum? then Some(v.n) else None
  }

  /** A field the tool only tests for truthiness first (`by`, `item.isbn`, `item.title`):
      a string is kept, a falsy value is absent, anything else is not accepted. */
  function OptionalText(v: Json): Option<Option<string>>
  {
    if v.JStr? then Some(Some(v.s))
    else if !Truthy(v) then Some(None)
    else None
  }

  /** One element of `items`; reading a field of null throws, any other value has fields. */
  function DecodeItem(v: Json): Option<Tools.ItemRequest>
  {
    if v.JNull? then None
    else match (OptionalText(Field(v, "isbn")), OptionalText(Field(v, "title")), IntArg(Field(v, "qty")))
      case (Some(isbn), Some(title), Some(qty)) => Some(Tools.ItemRequest(isbn, title, qty))
      case _ => None
  }

  /** The `items` array of `create_order`: accepted when every element is. */
  function DecodeItems(vs: seq<Json>): (r: Option<seq<Tools.ItemRequest>>)
    ensures r.Some? <==> forall i :: 0 <= i < |vs| ==> DecodeItem(vs[i]).Some?
    ensures r.Some? ==> |r.value| == |vs|
                        && forall i :: 0 <= i < |vs| ==> DecodeItem(vs[i]) == Some(r.value[i])
  {
    if vs == [] then Some([])
    else match (DecodeItem(vs[0]), DecodeItems(vs[1..]))
      case (Some(item), Some(rest)) =>
        assert forall i :: 1 <= i < |vs| ==> vs[i] == vs[1..][i - 1];
        Some([item] + rest)
      case (None, _) => None
      case (_, None) =>
        assert forall i :: 1 <= i < |vs| ==> vs[i] == vs[1..][i - 1];
        None
  }

  /** `for (const item of items)` over a string walks its characters; a character has neither
      `isbn` nor `title`, so its quantity is never read. */
  function CharItems(s: string): (r: seq<Tools.ItemRequest>)
    ensures |r| == |s|
    ensures forall i, books :: 0 <= i < |r| ==> Tools.Lookup(books, r[i]).None?
    ensures forall i :: 0 <= i < |r| ==> Tools.Identifier(r[i]) == "unknown"
  {
    seq(|s|, _ => Tools.ItemRequest(None, None, 0))
  }

  /** The destructuring each tool does: the fields it reads, with the types it needs. */
  function Decode(t: Tool, args: Json): (r: Option<Call>)
    ensures r.Some? ==> ToolOf(r.value) == t
  {
    match t
    case FindBooksTool =>
      (match (TextArg(Field(args, "q")), OptionalText(Field(args, "by")))
       case (Some(q), Some(searchBy)) => Some(FindBooksCall(q, searchBy))
       case _ => None)
    case CreateOrderTool =>
      var items := Field(args, "items");
      var reqs := if items.JArr? then DecodeItems(items.elems)
                  else if items.JStr? then Some(CharItems(items.s))
                  else None;
      (match (IntArg(Field(args, "customer_id")), reqs)
       case (Some(customerId), Some(reqs)) => Some(CreateOrderCall(customerId, reqs))
       case _ => None)
    case RestockBookTool =>
      (match (TextArg(Field(args, "isbn")), IntArg(Field(args, "qty")))
       case (Some(isbn), Some(qty)) => Some(RestockCall(isbn, qty))
       case _ => None)
    case UpdatePriceTool =>
      (match (TextArg(Field(args, "isbn")), IntArg(Field(args, "price")))
       case (Some(isbn), Some(price)) => Some(UpdatePriceCall(isbn, price))
       case _ => None)
    case OrderStatusTool =>
      (match IntArg(Field(args, "order_id"))
       case Some(orderId) => Some(OrderStatusCall(orderId))
       case None => None)
    case InventorySummaryTool => Some(InventorySummaryCall)
  }

  function EncodeOptional(o: Option<string>): Json
  {
    match o
    case None => JNull
    case Some(s) => JStr(s)
  }

  function EncodeItem(req: Tools.ItemRequest): Json
  {
    JObj(map["isbn" := EncodeOptional(req.isbn), "title" := EncodeOptional(req.title),
             "qty" := JNum(req.qty)])
  }

  /** The `args` object a caller writes for a call. */
  function Encode(c: Call): (r: Json)
    ensures r.JObj?
  {
    match c
    case FindBooksCall(q, searchBy) => JObj(map["q" := JStr(q), "by" := EncodeOptional(searchBy)])
    case CreateOrderCall(customerId, items) =>
      JObj(map["customer_id" := JNum(customerId),
               "items" := JArr(seq(|items|, i requires 0 <= i < |items| => EncodeItem(items[i])))])
    case RestockCall(isbn, qty) => JObj(map["isbn" := JStr(isbn), "qty" := JNum(qty)])
    case UpdatePriceCall(isbn, price) => JObj(map["isbn" := JStr(isbn), "price" := JNum(price)])
    case OrderStatusCall(orderId) => JObj(map["order_id" := JNum(orderId)])
    case InventorySummaryCall => JObj(map[])
  }

  lemma {:induction false} DecodeEncodeItem(req: Tools.ItemRequest)
    ensures DecodeItem(EncodeItem(req)) == Some(req)
  {
    var v := EncodeItem(req);
    assert Field(v, "isbn") == EncodeOptional(req.isbn);
    assert Field(v, "title") == EncodeOptional(req.title);
    assert Field(v, "qty") == JNum(req.qty);
  }

  /** Every call survives being written as `args` and read back by its tool. */
  lemma {:induction false} DecodeEncode(c: Call)
    ensures Decode(ToolOf(c), Encode(c)) == Some(c)
  {
    match c
    case CreateOrderCall(customerId, items) =>
      var vs := seq(|items|, i requires 0 <= i < |items| => EncodeItem(items[i]));
      forall i | 0 <= i < |items| ensures DecodeItem(vs[i]) == Some(items[i]) {
        DecodeEncodeItem(items[i]);
      }
      var args := Encode(c);
      assert Field(args, "items") == JArr(vs);
      assert Field(args, "customer_id") == JNum(customerId);
      assert DecodeItems(vs).value == items;
    case FindBooksCall(q, searchBy) =>
      assert Field(Encode(c), "by") == EncodeOptional(searchBy);
    case _ =>
  }

  // ---------------------------------------------------------------- running a tool

  /** What `tools[toolName](args)` gives back: a tool's result, the `Tool ... not found` object,
      the database handle `getDB` returns, or arguments of a type the tool cannot use. */
  datatype Outcome = Ran(result: ToolResult) | NotFound(name: Json) | DbHandle | BadArgs

  datatype Dispatched = Dispatched(out: Outcome, db: Db)

  /** A decoded call run against the store. */
  function RunSpec(c: Call, db: Db): Step
  {
    match c
    case FindBooksCall(q, searchBy) => Step(BooksFound(Tools.FindBooks(db.books, q, searchBy)), db)
    case CreateOrderCall(customerId, items) => Tools.CreateOrder(db, customerId, items)
    case RestockCall(isbn, qty) => Tools.RestockBook(db, isbn, qty)
    case UpdatePriceCall(isbn, price) => Tools.UpdatePrice(db, isbn, price)
    case OrderStatusCall(orderId) => Step(Tools.OrderStatus(db, orderId), db)
    case InventorySummaryCall => Step(Tools.InventorySummary(db.books), db)
  }

  /** The lookup in `tools`, then the call. A name the exports do not have gives the
      `not found` outcome, and only a tool that ran can have changed the store. */
  function DispatchSpec(db: Db, name: Json, args: Json): (r: Dispatched)
    ensures r == Dispatched(NotFound(name), db) <==> forall e :: name != JStr(ExportName(e))
    ensures !r.out.Ran? ==> r.db == db
  {
    match Registry(name)
    case None => Dispatched(NotFound(name), db)
    case Some(DbExport) => Dispatched(DbHandle, db)
    case Some(ToolExport(t)) =>
      match Decode(t, args)
      case None => Dispatched(BadArgs, db)
      case Some(c) =>
        var s := RunSpec(c, db);
        Dispatched(Ran(s.result), s.db)
  }

  /** A call written out as its tool's name and `args` runs exactly that call. */
  lemma {:induction false} DispatchEncoded(db: Db, c: Call)
    ensures DispatchSpec(db, JStr(ExportName(ToolExport(ToolOf(c)))), Encode(c))
            == Dispatched(Ran(RunSpec(c, db).result), RunSpec(c, db).db)
  {
    DecodeEncode(c);
  }

  /** `items` given as a string: with a known customer, a non-empty string fails on its first
      character as the book "unknown", and the empty string creates an order with no items. */
  lemma {:induction false} StringItems(db: Db, customerId: int, s: string)
    requires customerId in db.customers
    ensures var args := JObj(map["customer_id" := JNum(customerId), "items" := JStr(s)]);
            var r := DispatchSpec(db, JStr("create_order"), args);
            && (s != [] ==> r == Dispatched(Ran(Failure(BookNotInInventory("unknown"))), db))
            && (s == [] ==> r.out.Ran? && r.out.result.OrderCreated? && r.out.result.lines == []
                            && r.db.orders == db.orders + [Order(db.nextOrderId, customerId, Tools.Pending)])
  {
    var args := JObj(map["customer_id" := JNum(customerId), "items" := JStr(s)]);
    assert Registry(JStr("create_order")) == Some(ToolExport(CreateOrderTool));
    assert Field(args, "items") == JStr(s) && Field(args, "customer_id") == JNum(customerId);
    var reqs := CharItems(s);
    assert Decode(CreateOrderTool, args) == Some(CreateOrderCall(customerId, reqs));
    if s != [] {
      assert Tools.ResolveItem(db.books, reqs[0]) == Err(BookNotInInventory("unknown"));
    } else {
      assert reqs == [];
    }
  }

  /** Only `create_order`, `restock_book` and `update_price` ever change the store. */
  lemma {:induction false} OnlyWritersChangeStore(db: Db, name: Json, args: Json)
    ensures DispatchSpec(db, name, args).db != db ==>
              exists t :: name == JStr(ExportName(ToolExport(t)))
                && t in {CreateOrderTool, RestockBookTool, UpdatePriceTool}
  {
    if DispatchSpec(db, name, args).db != db {
      var t := Registry(name).value.tool;
      assert name == JStr(ExportName(ToolExport(t)));
    }
  }

  /** Every call keeps a consistent store consistent. */
  lemma {:induction false} RunKeepsValid(c: Call, db: Db)
    requires Schema.Valid(db)
    ensures Schema.Valid(RunSpec(c, db).db)
  {
    match c
    case CreateOrderCall(customerId, items) =>
      ToolLemmas.CreateOrderKeepsValid(db, customerId, items);
    case RestockCall(isbn, qty) =>
      ToolLemmas.BookUpdatesKeepValid(db, isbn, qty, 0);
    case UpdatePriceCall(isbn, price) =>
      ToolLemmas.BookUpdatesKeepValid(db, isbn, 0, price);
    case _ =>
  }

  /** Whatever the model asks for, a consistent store stays consistent. */
  lemma {:induction false} DispatchKeepsValid(db: Db, name: Json, args: Json)
    requires Schema.Valid(db)
    ensures Schema.Valid(DispatchSpec(db, name, args).db)
  {
    if Registry(name).Some? && Registry(name).value.ToolExport? {
      var c := Decode(Registry(name).value.tool, args);
      if c.Some? {
        RunKeepsValid(c.value, db);
      }
    }
  }

  /** One decoded call against the live store. */
  method Execute(store: StoreImpl.Store, c: Call) returns (r: ToolResult)
    requires store.Valid()
    modifies store
    ensures store.Valid()
    ensures Step(r, store.Snapshot()) == RunSpec(c, old(store.Snapshot()))
  {
    match c
    case FindBooksCall(q, searchBy) =>
      r := BooksFound(Tools.FindBooks(store.books, q, searchBy));
    case CreateOrderCall(customerId, items) =>
      r := store.CreateOrder(customerId, items);
    case RestockCall(isbn, qty) =>
      r := store.RestockBook(isbn, qty);
    case UpdatePriceCall(isbn, price) =>
      r := store.UpdatePrice(isbn, price);
    case OrderStatusCall(orderId) =>
      r := store.OrderStatus(orderId);
    case InventorySummaryCall =>
      r := Tools.InventorySummary(store.books);
  }

  /** `tools[toolName](args)` against the live store. */
  method Run(store: StoreImpl.Store, name: Json, args: Json) returns (out: Outcome)
    requires store.Valid()
    modifies store
    ensures store.Valid()
    ensures Dispatched(out, store.Snapshot()) == DispatchSpec(old(store.Snapshot()), name, args)
  {
    var found := Registry(name);
    if found.None? {
      return NotFound(name);
    }
    if found.value.DbExport? {
      return DbHandle;
    }
    var c := Decode(found.value.tool, args);
    if c.None? {
      return BadArgs;
    }
    var r := Execute(store, c.value);
    out := Ran(r);
  }
}
