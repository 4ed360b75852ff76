# Food-order service: menu, orders and the delivery-status sweep

This project models the core of a small in-memory food-ordering service
(`index.js`). The service keeps two tables:

- the **menu**, a map from item id to `{id, name, price, category}`, filled by
  an upsert that first runs an all-or-nothing validation (non-empty id and
  name, a numeric price above zero, a category among `Appetizer`,
  `Main Course`, `Dessert`), and read back by a listing of all values;
- the **orders**, a map from order id to `{id, items, status, createdAt}`.
  Placing an order checks that `items` is an array of menu ids (the empty
  array passes) and stores a `Preparing` record under a clock-derived id.
  A lookup returns the record or not-found.

A once-a-minute job sweeps every order one step along the lifecycle
`Preparing` → `Out for Delivery` → `Delivered`, where `Delivered` is terminal.

The Dafny modules follow that structure:

- `Outcomes`: `Option` and the `Response` of a handler (`Ok`, `Invalid`, `NotFound`).
- `Menu` (pure): the item record, the request body, `CheckMenuItem` and the stored-item invariant `ValidItem`.
- `Lifecycle` (pure): `Status`, `Order`, the one-step transition `Advance`, the whole-table sweep `SweepAll`, and lemmas about repeated sweeps.
- `Service` (imperative): the class `Store` holding `menu` and `orders` as maps that its methods reassign. Each handler is a method. `Store.Valid()` is the invariant every method keeps: a menu key is its item's id and every stored item passes validation; an order key is its order's id and every item id an order references is on the menu. The second half holds because menu items are never deleted. `ExampleSession` replays the example interaction: add `m1`, list it, order it, then follow the order through three sweeps. Then an order for an unknown item is rejected.

The clock is a parameter. `PlaceOrder` takes the generated id (`freshId`) and the creation time (`now`) from its caller. Two orders placed in the same millisecond get the same id. The code then replaces the earlier order with the later one, and the model does the same. A collision-free id generator is not part of the code, so it is not part of the model.

## Model

| member | source | states |
|---|---|---|
| `Menu.CheckMenuItem` | index.js:16-21 | a submission yields a record exactly when its price is a number and the record satisfies the stored-item invariant (non-empty id and name, price > 0, one of the three categories); the record carries the submitted fields unchanged |
| `Menu.RejectionReasons` | index.js:19-20 | an empty id, an empty name, a non-numeric price, a price <= 0 or an unknown category each rejects the submission on its own |
| `Service.AnyMissing` | index.js:38 | the `.some(!menu.has)` scan is true exactly when some submitted id is not a menu key |
| `Service.AcceptsItems` | index.js:38-40 | an `items` field is accepted exactly when it is an array and every id in it is on the menu; the empty array is accepted |
| `Lifecycle.Advance` | index.js:60-64 | a non-terminal status moves exactly one stage on; a status is left unchanged exactly when it is `Delivered` |
| `Lifecycle.AdvanceN` | index.js:59-65 | after n sweeps an order's stage is its old stage plus n, capped at the terminal stage |
| `Lifecycle.DeliveredAfterTwo` | index.js:59-65 | two or more sweeps bring any status to `Delivered`, and a further sweep leaves it there |
| `Lifecycle.SweepAll` | index.js:59-65 | one sweep keeps the key set and every order's id, items and creation time, and advances every status by one step |
| `Lifecycle.SweepNEffect` | index.js:59-65 | n sweeps keep the key set and give each order the same record with its status advanced n steps |
| `Lifecycle.SweepFixpoint` | index.js:59-65 | a sweep leaves the order table unchanged if and only if every order is already `Delivered` |
| `Lifecycle.SweepsSettle` | index.js:57-65 | after two or more sweeps every order is `Delivered` and every further sweep is a no-op |
| `Service.Store.constructor` | index.js:8-9 | both tables start empty and the store invariant holds |
| `Service.Store.AddMenuItem` | index.js:15-26 | an accepted submission sets `menu[id]` to exactly the submitted record (overwriting any earlier one) and changes no other key; a rejected one returns `Invalid` and leaves the menu unchanged; orders are never touched; the invariant that every stored item is valid is kept |
| `Service.Store.ListMenu` | index.js:29-31 | the listing holds exactly the stored values, as many as there are ids, with no id repeated |
| `Service.Store.PlaceOrder` | index.js:34-47 | placement succeeds exactly when the items are accepted against the menu; on success it returns `freshId` and the orders table becomes the old one with `freshId` mapped to a `Preparing` order of exactly the submitted items created at `now`; on failure it returns `Invalid` and the orders are unchanged; the menu is never changed |
| `Service.Store.GetOrder` | index.js:50-54 | the lookup returns the stored record (whose id is the requested id) exactly when the id is present, and `NotFound` otherwise |
| `Service.Store.Sweep` | index.js:59-65 | the loop over all orders leaves the table equal to `SweepAll` of the old table; the menu is unchanged and the store invariant is kept |

## Left out

- HTTP routing, JSON body parsing, status codes and response texts: each handler returns a `Response` instead.
- The cron schedule (once a minute) and the log lines: `Sweep` is a method the caller invokes.
- `Date.now()` and `new Date()`: the order id and the creation time are the `freshId` and `now` parameters of `PlaceOrder`.
- JavaScript truthiness and `typeof` on arbitrary JSON: ids, names and categories are strings, and an id or name is rejected exactly when it is empty. A request field of another JSON type is modelled only for `price` (`NotANumber`) and `items` (`NotArray`). The items of an array are taken to be strings.
- Floating point: the price is a `real`. Non-finite numbers, which pass a `typeof` check, are not modelled.
- The order in which the menu is listed: a JavaScript `Map` lists in insertion order, and `ListMenu` promises no order.
- Concurrency between the timer and the handlers: Node runs them one at a time, and the model is sequential.
- In-place mutation of the order objects: the sweep replaces each order's map entry with an updated record. Callers only see orders serialised as JSON, so this is not observable.
