# Order lifecycle of the Lumen orders service, in Dafny

This project models the core of the orders service of a small book-shop
microservice mesh (`LumenOrdersApi`), and proves properties of that model:

- **The order aggregate** (`order.dfy`, module `OrderModel`, from `app/Order.php`).
  It holds the five statuses and the transition table behind `canTransitionTo`.
  It also holds `canBeCancelled` and `calculateTotal`, and the order record.
- **The inventory validator** (`book_service.dfy`, module `BookService`, from
  `app/Services/BookService.php`). It covers `checkBookAvailability` and the
  `validateInventory` loop. The remote catalog fetch (`obtainBook`) is an
  oracle `int -> Option<Book>`, and `None` means the request threw.
- **The order operations** (`order_controller.dfy`, module `OrderController`, from
  `app/Http/Controllers/OrderController.php`):
  - `store`, `update` and `destroy` are methods of a class `OrderStore`. Its
    `orders: map<int, Order>` field is the orders table.
  - `show`, the status filter of `index`, `getUserOrders` and `statistics`
    are pure queries over that map.
  - The user service (`userExists`) and the catalog are parameters.
  - The answer of the cart service is a parameter that the store ignores,
    because `clearCart` never throws.
  - The outbound calls are recorded in `userLookups`, `catalogLookups` and
    `cartClears`, so "no further call is made" can be stated.
- `wrappers.dfy` holds `Option`, which stands for a PHP key that may be absent or null.
- `text.dfy` (module `Text`) renders integers in decimal, as PHP's string
  interpolation does in the error texts, and reads them back.

Money is kept as non-negative integer cents, so `round(…, 2)` is the identity
and the total invariant is exact. Every response is a `Response` value: either
`Success(code, body)` or `Failure(error)`, where `error.Code()` gives the HTTP code
(400, 404 or 422).

## Behaviour worth noting

- **Delete removes the row.** The comments at
  `app/Http/Controllers/OrderController.php:264` and `:267` call the deletion a
  soft delete, but `SoftDeletes` is commented out (`app/Order.php:10`, and
  `$table->softDeletes()` at line 30 of the orders migration). So `destroy` sets
  the status to `cancelled`, saves, and then deletes the row. The model removes the
  order from the map, and the response carries the order with status `cancelled`.
- **Consequence.** Update refuses `cancelled`, and the only other way to reach that
  status deletes the row. So the store invariant `OrderStore.Valid` includes "no
  stored order is cancelled", and `CancelledNeverCounted` shows that the `cancelled`
  statistic is always 0.
- **User check.** A failed user check is any exception from the user service, not
  only "not found". The model's `userExists` oracle is simply a boolean.
- **Notes stay editable.** `update` guards only the status (lines 205-222) and the
  shipping address (lines 225-231). A patch of the notes alone therefore succeeds on
  an order in any status, shipped and delivered included, whenever the new note
  differs from the stored one (`NotesEditableInAnyStatus`); an unchanged note is
  refused as "nothing changed" (lines 235-239).

## Model

| member | source | states |
|---|---|---|
| `OrderModel.Parse` | LumenOrdersApi/app/Order.php:15-19 | A string reads as a status only if it is one of the five status names, and then as the status of that name |
| `OrderModel.NameRoundTrip` | LumenOrdersApi/app/Order.php:15-19 | Each status name reads back as its own status; no two statuses share a name |
| `OrderModel.ValidStatuses` | LumenOrdersApi/app/Order.php:61-70 | `getValidStatuses` lists five distinct names, and a string is in the list iff it names a status |
| `OrderModel.CanTransition` | LumenOrdersApi/app/Order.php:93-99 | Status-level reading of the transition table. No status moves to itself. Delivered and cancelled have no successor. Cancelled is reachable in one step exactly from pending and processing. Every other step moves exactly one place along pending→processing→shipped→delivered |
| `OrderModel.CanTransitionTo` | LumenOrdersApi/app/Order.php:91-102 | On the stored strings: true iff both strings name statuses and the target is in the current status's table row. A current status outside the table has no legal transition (`?? []`) |
| `OrderModel.CanBeCancelled` | LumenOrdersApi/app/Order.php:77-83 | True iff the status is pending or processing. This coincides with the table allowing a move to cancelled, both on statuses and on their names |
| `OrderModel.CalculateTotal` | LumenOrdersApi/app/Order.php:109-121 | 0 for no items; the fold adds price×quantity per item, a missing key counting as 0; never negative when no price or quantity is negative |
| `OrderModel.CalculateTotalAppend` | LumenOrdersApi/app/Order.php:115-118 | The total of two item lists put together is the sum of their totals |
| `OrderModel.SubtotalsMatchCalculateTotal` | LumenOrdersApi/app/Order.php:109-121 | When every stored subtotal is price×quantity, the sum of subtotals equals `calculateTotal` |
| `OrderModel.RunAdvances` | LumenOrdersApi/app/Order.php:93-99 | Along any chain of legal transitions, each step strictly advances along the lifecycle |
| `OrderModel.RunNeverRepeats` | LumenOrdersApi/app/Order.php:93-99 | A chain of legal transitions never revisits a status: the lifecycle has no cycle |
| `OrderModel.RunsAreShort` | LumenOrdersApi/app/Order.php:93-99 | A chain of legal transitions holds at most four statuses |
| `OrderModel.TerminalEndsRun` | LumenOrdersApi/app/Order.php:97-98 | A chain that reaches delivered or cancelled ends there |
| `OrderModel.EveryStatusReachable` | LumenOrdersApi/app/Order.php:93-99 | Every status is reachable from pending through legal transitions |
| `BookService.CheckBookAvailability` | LumenOrdersApi/app/Services/BookService.php:61-83 | A failed fetch gives exists=false, hasStock=false, no book. Otherwise exists holds and the book is the fetched one. hasStock holds iff the stock is absent or at least the quantity |
| `BookService.Evaluate` | LumenOrdersApi/app/Services/BookService.php:96-118 | One line gives exactly one outcome. A missing or zero id gives "Missing book_id". Otherwise a failed fetch gives "does not exist" for that id. A known stock below the quantity (default 1) gives the insufficient-stock error naming the id, the stock and the quantity. Otherwise the line is accepted with the catalog's book |
| `BookService.QueriedIds` | LumenOrdersApi/app/Services/BookService.php:96-106 | The catalog is asked about the id of every line that has one, and about nothing else: each asked id is the id of some line, never 0, and the number of lookups is the number of lines minus those without an id |
| `BookService.QueriedIdsSingle` | LumenOrdersApi/app/Services/BookService.php:96-106 | A single line is looked up once under its id when it has one, and not at all when its id is missing or 0 |
| `BookService.QueriedIdsAppend` | LumenOrdersApi/app/Services/BookService.php:96-106 | The lookups of two runs of lines put together are the first run's lookups followed by the second's; with `QueriedIdsSingle` this fixes the lookups as the ids of the lines that have one, in line order, repeats included |
| `BookService.MessageNamesItsNumbers` | LumenOrdersApi/app/Services/BookService.php:101-113 | The missing-id text is fixed. The not-found text contains the id, and the insufficient-stock text contains the id, the stock and the quantity, each rendered in decimal |
| `Text.IntToString` | LumenOrdersApi/app/Services/BookService.php:109-113 | PHP's decimal rendering of an integer: a leading minus exactly for negative numbers, followed by decimal digits only, with no leading zero except for 0 itself, and it parses back to the number |
| `Text.NatToString` | LumenOrdersApi/app/Services/BookService.php:109-113 | The digits of a natural number: decimal digits only, no leading zero except for 0 itself, and they parse back to the number |
| `BookService.ValidateInventory` | LumenOrdersApi/app/Services/BookService.php:90-125 | The loop computes exactly the fold `Validate` over all items, in order and without an early exit. It also returns the ids it looked up |
| `BookService.ValidIffNoErrors` | LumenOrdersApi/app/Services/BookService.php:92-124 | `valid` is true iff no error was recorded |
| `BookService.EachItemContributesOnce` | LumenOrdersApi/app/Services/BookService.php:96-118 | The errors are those of the rejected lines, in line order. Errors plus accepted lines number exactly the items |
| `BookService.BooksAreAcceptedLines` | LumenOrdersApi/app/Services/BookService.php:115-117 | `books` is keyed by the ids of accepted lines and by nothing else. Each entry is the catalog's book for that id, and the id is never 0 |
| `BookService.ValidMeansEveryLineStored` | LumenOrdersApi/app/Services/BookService.php:90-125 | If the result is valid, every line has an id, is in `books` with the catalog's book, and has stock enough |
| `OrderController.CreateRulesHold` | LumenOrdersApi/app/Http/Controllers/OrderController.php:99-109 | The rules of store: user_id at least 1; at least one item; each item with book_id and quantity at least 1 and price at least 0; a shipping address that is not blank and at most 500 characters; notes at most 1000 characters unless blank. A request that passes has an id and a sent quantity on every line, so the inventory check never reports a missing book_id |
| `OrderController.ValidatedLinesAllLookedUp` | LumenOrdersApi/app/Http/Controllers/OrderController.php:109-117 | After store's item rules pass, the inventory check looks up every line, in order, under that line's id |
| `OrderController.UpdateRulesHold` | LumenOrdersApi/app/Http/Controllers/OrderController.php:192-202 | The rules of update: a present status is one of the listed status names and may not be null; a present address may not be null and is at most 500 characters unless blank; notes may be null and are at most 1000 characters unless blank |
| `OrderController.ApiError.Code` | LumenOrdersApi/app/Http/Controllers/OrderController.php:113-260 | 404 exactly for a missing order or user, 400 exactly for a cancel through update, 422 for every other refusal |
| `OrderController.ErrorTextNamesStatuses` | LumenOrdersApi/app/Http/Controllers/OrderController.php:211-259 | Only framework errors carry no controller text. The illegal-transition text contains both status names, and the cannot-cancel text contains the order's status |
| `OrderController.PriceItems` | LumenOrdersApi/app/Http/Controllers/OrderController.php:126-147 | One line per item, in order. Each line has the caller's price and quantity, subtotal = price×quantity, and the validated book's title or 'Unknown'. The running total equals the sum of subtotals, equals `calculateTotal` of the lines, and is never negative |
| `OrderController.TitlesComeFromCatalog` | LumenOrdersApi/app/Http/Controllers/OrderController.php:138-142 | After a valid inventory check, each line's title is the catalog's title for its book, or 'Unknown' |
| `OrderController.Patched` | LumenOrdersApi/app/Http/Controllers/OrderController.php:233 | `fill` overwrites status, shipping address and notes where the request has them (a null note clears it). The id, user, items and total never change |
| `OrderController.NotesEditableInAnyStatus` | LumenOrdersApi/app/Http/Controllers/OrderController.php:205-233 | A patch of the notes alone passes the field rules and both guards in every status, delivered included, and changes only the notes |
| `OrderController.OrderStore.Store` | LumenOrdersApi/app/Http/Controllers/OrderController.php:96-170 | Field rules come first (422, no call made). A missing user gives 404, with no catalog call and no order. An invalid inventory gives 422 with the full error list, and the table is unchanged. Otherwise exactly one new pending order is inserted under a fresh id: its items are priced per `PriceItems`, its total is `calculateTotal` of them, and the cart is cleared. The response is 201 whatever the cart service answers |
| `OrderController.OrderStore.Update` | LumenOrdersApi/app/Http/Controllers/OrderController.php:188-245 | Guards run in order: missing order 404, field rules 422, `cancelled` 400, illegal transition 422 naming both statuses, address on a non-pending order 422, nothing changed 422. Any rejection leaves the table unchanged. A success stores `Patched`, answers 200, keeps user, items and total, and changes the status only along the table. Afterwards show answers 200 with the patched order, the owner's list holds it, and other users' lists are unchanged |
| `OrderController.OrderStore.Destroy` | LumenOrdersApi/app/Http/Controllers/OrderController.php:252-273 | A missing order gives 404. A status other than pending or processing gives 422 naming it, with the table unchanged. Otherwise the answer is 200 with the order set to cancelled, and the row is removed. After a success show answers 404 for the id, and the order leaves its owner's list only |
| `OrderController.Show` | LumenOrdersApi/app/Http/Controllers/OrderController.php:177-181 | 200 with the stored order iff the id is in the table, else 404; `Update` and `Destroy` state what it answers afterwards |
| `OrderController.ShowAfterPut` | LumenOrdersApi/app/Http/Controllers/OrderController.php:149-169 | Once `store` or `update` writes an order under its id, show answers 200 with that order, and answers as before for every other id |
| `OrderController.ShowAfterRemove` | LumenOrdersApi/app/Http/Controllers/OrderController.php:264-267 | Once `destroy` deletes a row, show answers 404 for that id, and as before for every other id |
| `OrderController.Index` | LumenOrdersApi/app/Http/Controllers/OrderController.php:56-69 | With no status, all orders. With a status string, exactly the orders whose status has that name, unchanged |
| `OrderController.UnknownStatusMatchesNothing` | LumenOrdersApi/app/Http/Controllers/OrderController.php:61-63 | In the model, whose filter compares strings exactly, a status filter that names no status returns nothing |
| `OrderController.UserOrders` | LumenOrdersApi/app/Http/Controllers/OrderController.php:76-88 | Exactly the orders of the given user, unchanged; `Update` and `Destroy` state how it changes |
| `OrderController.UserOrdersAfterPut` | LumenOrdersApi/app/Http/Controllers/OrderController.php:149-159 | Writing a new order, or one that keeps its owner, adds or replaces it in its owner's list; every other user's list is unchanged |
| `OrderController.UserOrdersAfterRemove` | LumenOrdersApi/app/Http/Controllers/OrderController.php:264-267 | Deleting a row removes it from its owner's list; every other user's list is unchanged |
| `OrderController.IndexByStatus` | LumenOrdersApi/app/Http/Controllers/OrderController.php:284-288 | Each per-status count is the number of orders in that status |
| `OrderController.CountsPartition` | LumenOrdersApi/app/Http/Controllers/OrderController.php:282-288 | The five per-status counts add up to the number of orders |
| `OrderController.Statistics` | LumenOrdersApi/app/Http/Controllers/OrderController.php:280-296 | `total_orders` is the sum of the five per-status counts. `total_revenue` is the sum of `total` over shipped and delivered orders, so it is never negative when no total is |
| `OrderController.InsertPendingKeepsRevenue` | LumenOrdersApi/app/Http/Controllers/OrderController.php:149-159 | Inserting the new pending order raises the pending count by one and leaves the revenue unchanged |
| `OrderController.DeleteCancellableKeepsRevenue` | LumenOrdersApi/app/Http/Controllers/OrderController.php:264-267 | Removing a cancellable order lowers the order count by one and leaves the revenue unchanged |
| `OrderController.CancelledNeverCounted` | LumenOrdersApi/app/Http/Controllers/OrderController.php:288 | In a table with no cancelled row (what the store invariant keeps), the `cancelled` statistic is 0 |

## Left out

- The route table (`routes/web.php`) and the migration are left out. The migration's status default is captured by `Store` creating pending orders.
- `UserService` and `CartService` are oracles. `userExists` is a boolean per user id. The cart reply is a parameter that no outcome depends on.
- The HTTP requests of `ConsumesExternalService` are not part of this model.
- `env()` configuration is left out, and so is the constructors' `RuntimeException` on a missing base URL. `\Log` calls are left out too.
- Eloquent persistence is replaced by a `map<int, Order>` with ids from a counter. Timestamps, JSON casting and ordering by `created_at` are not modelled.
- `findOrFail` is modelled as an `OrderNotFound` (404) result.
- The framework's validation-error response carries no per-field messages here: `ValidationFailed` (422).
- The `integer`, `numeric` and `string` type rules are left out because the request types are already typed. Presence, null, blank strings and bounds are modelled.
- Request reading assumes `has` and `only` test whether a key is present, as current Laravel request objects do.
- Floating-point prices and `round(…, 2)` are replaced by integer cents.
- `obtainBooks` is unused by the core.
- `OrderStore.Destroy`: the response's "Order cancelled successfully" text is not carried, only the order.
- `BookService.BooksAreAcceptedLines`: repeated lookups of one id return the same book, because the catalog is a function. A later accepted duplicate rewrites the identical book, so last-write-wins is not observable. An id stays in `books` even when a later line with that id is rejected. Books changing between two lookups in one request are not modelled.
- `OrderStore.Store`: its contract gives the new table as the old one with the new order written under its id; that show and the user's list then include it follows from `ShowAfterPut` and `UserOrdersAfterPut`, which are not repeated in `Store`'s own ensures.
- `OrderController.Index`: the status and user filters compare values exactly; the database's collation, which may ignore case or trailing spaces, is not modelled.
- `OrderController.Statistics`: it is a ghost function, since the revenue is a sum over a set of ids taken in no particular order.
- Concurrent updates of one order are not modelled.
