# Library chat assistant: tools and message processing, in Dafny

The system is a chat assistant for a small bookstore. A language model reads the user's
message and answers either in plain text or with a JSON request such as
`{"tool": "create_order", "args": {...}}`. The server parses that answer and runs the named
tool against the store's SQLite database. It then asks the model to summarise the result and
returns `{content, toolCalls, toolResults}` to the client.

This project models the two core files:

- **server/tools.js**: the six tools over the store.
  - `find_books` searches by title or author.
  - `create_order` checks every item against stock, then inserts the order and its items and
    takes the quantities from stock.
  - `restock_book` and `update_price` change one book.
  - `order_status` joins an order with its customer, items and books, and adds up the total.
  - `inventory_summary` lists the low-stock books and the totals.
- **server/agent.js**:
  - `extractJSON`: a strict parse of the trimmed reply, then a parse of the first `{...}` span.
  - The brace-stripping clean-up of the model's text.
  - `processMessage`: decide between tool and plain reply, look the tool up in the exports,
    call it, and assemble the reply.

Modules:

| module | file | content |
|---|---|---|
| `Wrappers` | wrappers.dfy | `Option` and `Result` |
| `Text` | text.dfy | ASCII case folding, substring search (SQL `LIKE '%q%'`), JavaScript `trim` |
| `JsonValues` | json.dfy | JSON values, JavaScript truthiness and property access |
| `Schema` | schema.dfy | the tables (books, customers, orders, order items), tool results, store integrity |
| `Tools` | tools.dfy | each tool as a function from the store to its result and the new store |
| `ToolLemmas` | tool_lemmas.dfy | what the tools promise, over those functions |
| `StoreImpl` | store.dfy | the store as a class whose methods update it step by step, proved equal to `Tools` |
| `ResponseParser` | parser.dfy | `extractJSON` and the non-greedy brace pattern |
| `Dispatch` | dispatch.dfy | the export table, reading each tool's arguments, running a tool |
| `Agent` | agent.dfy | `processMessage` |

Modelling choices:

- Prices are integers in cents.
- The model's two replies are parameters: `aiResponse` and `summarize(toolName, toolResult)`.
- `JSON.parse` is a parameter `parse`; `None` means it throws.
- An order id is the store's `nextOrderId` counter, which stands for SQLite's row id.
- Two behaviours of server/tools.js and server/agent.js are modelled as written:
  - Stock can go negative. `create_order` checks every item against the stock as it was before
    the order, so an order that names the same book twice passes both checks and takes both
    quantities. `ToolLemmas.DuplicateIsbnOversells` shows one copy in stock ending at -1, and
    `ToolLemmas.DistinctOrderKeepsStock` proves stock stays non-negative when the items name
    different books.
  - JSON objects are found with the non-greedy pattern `/\{[\s\S]*?\}/`, which stops at
    the first `}`, not with a balanced-brace scan. `ResponseParser.NestedObjectIsCut` shows how
    this cuts an object that holds another object.

## Model

| member | source | states |
|---|---|---|
| Tools.FindBooks | server/tools.js:20-36 | a book is returned iff it is in the table and its title (its author when `by` is set to anything but `title`) contains `q`, ignoring ASCII case; the result is a sub-multiset of the table |
| Tools.IsbnIndex | server/tools.js:55 | the first row with the ISBN; none iff no row has it |
| Tools.TitleIndex | server/tools.js:58-59 | the first row whose title contains the text, ignoring case; none iff no title does |
| Tools.ResolveItemMeaning | server/tools.js:53-71 | an item is looked up by ISBN when it has one, else by title. It resolves to that book's ISBN, price and title with its own quantity. It fails with the insufficient-stock error when stock < qty, and with `not found` (named by isbn, title or "unknown") when no book matches |
| Tools.ResolveItem | server/tools.js:53-69 | a resolved item keeps its requested quantity; the `not found` error, named by `isbn`, `title` or "unknown", comes exactly when the lookup finds no book |
| ToolLemmas.ResolvedRow | server/tools.js:53-71 | an item that passes its checks resolves to the book its lookup selects, whose stock covers the quantity |
| Tools.ResolveAll | server/tools.js:48-72 | the item loop succeeds iff every item resolves, giving the items' resolutions in order; otherwise it gives the error of the first item that fails |
| Tools.CreateOrder | server/tools.js:39-95 | a missing customer answers `Customer not found`; otherwise the order fails iff some item fails, with the error of the first failing item, and a failure leaves the store unchanged; a success is an `OrderCreated` for that customer with one line per item |
| ToolLemmas.CreateOrderEffect | server/tools.js:74-94 | a committed order adds exactly one `pending` order with the next id. Each item is added with the price at the time of the order and the quantity asked. Each book's stock drops by the total quantity taken from it, and nothing else changes |
| ToolLemmas.CommittedRows | server/tools.js:80-92 | each requested item of a committed order becomes one order item and one returned line, carrying the selected book's ISBN, title and price at call time |
| ToolLemmas.TakeStockEffect | server/tools.js:81-86 | the stock updates leave every book's key, title, author and price, and lower its stock by the sum of the quantities resolved to it |
| ToolLemmas.DistinctOrderKeepsStock | server/tools.js:62-86 | when the resolved items name different books, an order never drives a stock below zero |
| ToolLemmas.DuplicateIsbnOversells | server/tools.js:50-86 | one copy in stock, and the same ISBN ordered twice with quantity 1: the order succeeds and leaves stock -1 |
| ToolLemmas.CreateOrderKeepsValid | server/tools.js:74-86 | `create_order` keeps ISBNs unique, order ids increasing and below the counter, and every order item pointing at an existing book and order |
| Tools.UpdatesKeepKeys | server/tools.js:107-109 | adding stock or setting a price changes no ISBN, title or author |
| Tools.RestockBook | server/tools.js:98-120 | fails with `Book not found` iff no book has the ISBN, store unchanged; otherwise the result reports the title and the stock plus `qty` of the first row with that ISBN, and with unique ISBNs exactly that row's stock grows by `qty` |
| Tools.UpdatePrice | server/tools.js:123-145 | fails with `Book not found` iff no book has the ISBN, store unchanged; otherwise the result reports the title, old price and new price of the first row with that ISBN, and with unique ISBNs exactly that row's price is replaced |
| ToolLemmas.RestockRaisesTotalStock | server/tools.js:108-109 | a successful `restock_book` raises the `total_stock` of `inventory_summary` by exactly `qty` |
| ToolLemmas.PriceUpdateKeepsTotalStock | server/tools.js:135-136 | `update_price` leaves the total stock as it was |
| ToolLemmas.TakeStockSum | server/tools.js:81-86 | the stock updates of the second loop lower the total stock by the sum of the resolved quantities |
| ToolLemmas.CommittedOrderLowersTotalStock | server/tools.js:74-86 | a committed `create_order` lowers the total stock by exactly the sum of the quantities ordered |
| ToolLemmas.BookUpdatesKeepValid | server/tools.js:98-145 | `restock_book` and `update_price` keep the store's integrity constraints |
| Tools.OrderStatus | server/tools.js:148-187 | `Order not found` iff no order has the id with an existing customer; otherwise the first such order: its status, its customer's name and email, and items each belonging to the order and carrying the title and author of the book its ISBN finds, with the total of `price_at_purchase * qty` |
| Tools.StatusLines | server/tools.js:164-169 | the join yields at most one line per order item, and each line carries the title and author of the book its ISBN finds |
| Tools.StatusLinesOfOrder | server/tools.js:164-169 | every joined line belongs to the requested order |
| ToolLemmas.StatusTotalIsOrderCost | server/tools.js:164-175 | in a consistent store, the report lists exactly that order's items in table order and the total is their cost |
| ToolLemmas.StatusIgnoresBookUpdates | server/tools.js:164-175 | a later `update_price` or `restock_book` does not change any order's status report |
| ToolLemmas.NewOrderTotalUsesOrderTimePrices | server/tools.js:71-86 | after an order is created, its status report shows `pending`, the ordering customer's name and email, and a total equal to the cost of its items at the prices captured when it was placed |
| Tools.LowStock | server/tools.js:194 | a book is listed iff it is in the table with stock below 10; the list is a sub-multiset of the table |
| Tools.SortByStock | server/tools.js:194 | `ORDER BY stock ASC`: ascending by stock and a permutation of its input |
| Tools.InventorySummary | server/tools.js:190-207 | the low-stock list is sorted ascending, holds exactly the books with stock < 10 as a multiset, `total_titles` is the number of books, and `total_stock` is absent (SQL NULL) iff there are no books and otherwise the sum of all stocks |
| StoreImpl.Store.ResolveItems | server/tools.js:48-72 | the first loop over the live store gives exactly `Tools.ResolveAll` |
| StoreImpl.Store.Commit | server/tools.js:74-86 | the insert and the second loop: next id taken, one order appended, the item rows appended, stock reduced as `Tools.TakeStock` says, customers unchanged |
| StoreImpl.Store.CreateOrder | server/tools.js:39-95 | result and new state equal `Tools.CreateOrder` on the old state; the store stays consistent; a failure changes nothing |
| StoreImpl.Store.RestockBook | server/tools.js:98-120 | result and new state equal `Tools.RestockBook`; the store stays consistent |
| StoreImpl.Store.UpdatePrice | server/tools.js:123-145 | result and new state equal `Tools.UpdatePrice`; the store stays consistent |
| StoreImpl.Store.OrderStatus | server/tools.js:148-187 | the report with the total added up in a loop equals `Tools.OrderStatus` |
| Text.Trim | server/agent.js:102 | the result is a slice of the input with only JavaScript white space cut from both ends, and starts and ends with something else |
| ResponseParser.FirstSpan | server/agent.js:104-105 | no match iff no `{` is followed by a `}`; otherwise the slice from the first `{` to the nearest `}` after it |
| ResponseParser.ExtractJson | server/agent.js:100-114 | the strict parse of the trimmed text when it succeeds; else null when there is no brace span; else the parse of the first span, or null when that fails |
| ResponseParser.SpanOfWrappedObject | server/agent.js:104 | commentary without `{` before a flat object: the span found is exactly the object |
| ResponseParser.SpanOfWrappedReply | server/agent.js:104 | `Sure! {"response":"ok"} thanks` yields `{"response":"ok"}` |
| ResponseParser.NestedObjectIsCut | server/agent.js:104 | an object holding another object is matched only up to the inner `}`, one `}` short of the whole |
| ResponseParser.StripBraces | server/agent.js:152 | the replace never lengthens the text and adds no character that was not in it |
| ResponseParser.StripSpan | server/agent.js:152 | text before the first `{` stays, the span from that `{` to the nearest `}` is deleted, and the replace carries on after it |
| ResponseParser.StripNestedObject | server/agent.js:152 | `{a{b}c}` becomes `c}`: a nested object loses only its first lazy span |
| ResponseParser.StripLeavesNoPair | server/agent.js:152 | after the global replace, no `{` is followed by a `}` |
| ResponseParser.StripKeepsPairFree | server/agent.js:159 | text with no `{`-then-`}` pair is left as it is |
| ResponseParser.StripIdempotent | server/agent.js:152 | replacing twice is replacing once |
| ResponseParser.StripWithoutOpenBrace | server/agent.js:159 | text with no `{` is left as it is |
| Dispatch.Registry | server/tools.js:210-218 | a name gives an export iff it is the string naming it (the six tools and `getDB`) |
| Dispatch.Decode | server/tools.js:20-148 | a call read from `args` is always a call of the tool it was read for |
| Dispatch.CharItems | server/tools.js:50-66 | a string `items` gives one item per character, each found in no table and named "unknown" |
| Dispatch.StringItems | server/tools.js:43-76 | with a known customer, a non-empty string `items` fails with `Book "unknown" not found in inventory` and changes nothing; `items: ""` creates a `pending` order with no items |
| Dispatch.DecodeItems | server/tools.js:50-59 | the `items` array is accepted iff every element is, and each element gives its own request |
| Dispatch.DecodeEncode | server/agent.js:138-139 | every call written as the `args` object its tool destructures is read back as that call |
| Dispatch.DispatchSpec | server/agent.js:138-142 | `Tool ... not found` with the store unchanged iff the name is none of the exports; only a tool that ran can change the store |
| Dispatch.DispatchEncoded | server/agent.js:138-139 | a tool's name with an encoded call runs exactly that call |
| Dispatch.OnlyWritersChangeStore | server/tools.js:210-218 | only `create_order`, `restock_book` and `update_price` ever change the store |
| Dispatch.RunKeepsValid | server/agent.js:139 | every tool call keeps a consistent store consistent |
| Dispatch.DispatchKeepsValid | server/agent.js:138-142 | whatever name and arguments the model sends, the store stays consistent |
| Dispatch.Execute | server/agent.js:139 | a decoded call run on the live store gives the result and store its function gives |
| Dispatch.Run | server/agent.js:137-142 | lookup and call on the live store equal `Dispatch.DispatchSpec` |
| Agent.ArgsOf | server/agent.js:133 | the arguments passed to a tool are `parsed.args` when that is truthy and `{}` otherwise, so always truthy |
| Agent.CleanText | server/agent.js:152 | the text with its brace spans removed and then trimmed, or the text itself when that leaves nothing; so it is empty iff the text was, and when it differs from the text it has no brace pair and no outer white space |
| Agent.CleanTextIdempotent | server/agent.js:152 | cleaning clean text changes nothing |
| Agent.PlainContent | server/agent.js:159 | a truthy `response` is the content as it is; otherwise `CleanText` of the reply, as a string, which is empty only when the reply is; so the content is truthy unless both are empty |
| Agent.Respond | server/agent.js:117-171 | at most one tool call, with exactly one result per call; no call leaves the store unchanged; the content is text or the parsed `response` |
| Agent.RespondShape | server/agent.js:129-165 | a tool request gives exactly one call and one result: the dispatch of `parsed.tool` with `parsed.args \|\| {}`, and the summary cleaned as content. Anything else gives no calls, `response` or the cleaned text as content, and an unchanged store. The store stays consistent |
| Agent.ToolRequestRunsCall | server/agent.js:129-142 | a reply that parses to `{"tool": name, "args": args}` runs exactly that call |
| Agent.PlainTextPassesThrough | server/agent.js:159 | a reply that is not JSON and has no brace pair comes back trimmed (or as it was, if only white space) with no tool call |
| Agent.ProcessMessage | server/agent.js:117-171 | reply and new store equal `Agent.Respond` on the old store; the store stays consistent |

## Left out

- server/index.js (HTTP routes, sessions, message history) and db/setup.js (schema creation, seed data) are not part of this model.
- `callOllama`, the system prompt and the message list sent to the model are left out. The model's two replies are parameters. A failed model call, which makes `processMessage` throw, is not modelled.
- `JSON.parse` and `JSON.stringify` are not modelled. Parsing is a parameter, and results are datatypes, not JSON text.
- Log lines and the `message` strings the tools build for the user are left out; results carry their fields.
- Prices are integer cents. Floating point and `total.toFixed(2)` (the total as a string) are not modelled.
- Tools.Matches: SQL `LIKE` is modelled as ASCII-case-insensitive substring search. `%` and `_` inside the query act as wildcards in SQLite but not here.
- Timestamps (`created_at`) and the database's concurrency are left out.
- SQLite's row id is modelled by the `nextOrderId` counter.
- Dispatch.Decode: the arguments are read in one step, before the tool runs. Arguments of a JSON type the model does not follow give `BadArgs` and leave the store unchanged. This covers a missing `q`, a non-numeric `qty` or `price`, a `customer_id` that is not a number, `items` that is neither an array nor a string, and an item that is null or lacks a numeric `qty`. The source instead reads them as it goes:
  - It checks the customer first (server/tools.js:43-46), so an unknown customer with malformed `items` answers `Customer not found`.
  - It reads `items` one element at a time (server/tools.js:50-72). An earlier item that names no known book, or asks for more than the stock, returns its own error (server/tools.js:62-69) before a later null or malformed item is reached. For example, `[{"isbn":"nope","qty":1}, null]` with a known customer answers `Book "nope" not found in inventory`, where the model answers `BadArgs`.
  - A missing or string `qty` passes the stock check at server/tools.js:67 unless it is a numeric string greater than the stock: `stock < undefined` and `stock < "abc"` are false, and `stock < "2"` compares as numbers, so `"5"` against a stock of 3 gets the insufficient-stock error at server/tools.js:68. When it passes, the order row is written (server/tools.js:75-76), and the item and stock writes (server/tools.js:84-85) run with the value as SQLite reads it, so `"2"` orders 2 copies. What a missing `qty` does at those writes depends on the table definitions, which are not part of this model.
  - Other ill-typed values are coerced (`%undefined%` in a title search) or make it throw: `items` that is null or not iterable, and a null item once the loop reaches it.
  A string `items` is modelled as the source runs it (server/tools.js:50): one item per character, so a non-empty string fails as `Book "unknown" not found in inventory` and `""` creates an empty order.
- Dispatch.Registry: `tools[toolName]` also finds names inherited from `Object.prototype` (such as `toString`), and it turns non-string names into keys (a one-element array). Here only a string naming an export is found.
- `getDB` is reachable by name, as in the source, and gives the `DbHandle` outcome. The database handle itself is not modelled.
- JavaScript `null` and `undefined` are one value, `JNull`: the agent only tests such values for truthiness.
