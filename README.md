# Product catalog store (`ProductManajer`), modelled in Dafny

This project models the in-memory product catalog of a small real-time
catalog server: the `ProductManajer` class and its `Product` constructor in
`src/productManajer.js`. The manager keeps an ordered list of products, an id
counter and a JSON file that the whole list is rewritten to after every
change. It offers `init` (load the file), `addProduct` (refuse a duplicate
code, assign the next id, default the status, append), `updProduct` (merge
fields into the product with a given id), `delProduct` (splice it out),
`getAll` and `getById`.

Layout:

- `js_values.dfy` (module `JsValues`): the JavaScript values a product field
  can hold, JavaScript truthiness, `===` and `a || b`.
- `product.dfy` (module `ProductRecord`): the `Product` record, the
  constructor (`NewProduct`) and the update merge (`Merge`), with lemmas about
  the merge.
- `catalog.dfy` (module `Catalog`): the searches over the list
  (`IndexOfId`), `splice` (`RemoveAt`), what loading the file does
  (`LoadInto`), the invariants "ids increase and stay at or below the
  counter" and "codes are unique", and lemmas on how appending, replacing,
  removing and reloading affect them.
- `store.dfy` (module `Store`): the class `ProductManajer` with the fields
  `products`, `lastId` (the static counter, as an instance field) and `file`
  (the persisted list), and one method per operation. Each mutating method
  states its whole new state in terms of the old one, including the error
  paths. `AddProduct`, `UpdProduct` and `DelProduct` preserve `Valid()` (ids
  increasing and bounded by the counter); `Init` establishes it only when it
  loads a file whose ids increase into an empty manager, and a file whose ids
  do not increase breaks it. `AddProduct` and `DelProduct` also preserve code
  uniqueness.
- `scenarios.dfy` (module `Scenarios`): client methods that go through a
  few end-to-end scenarios (add to an empty store, duplicate code, update with
  `status: false`, delete then add) relying only on the contracts.

Modelling choices:

- A field value is `Undefined`, `Null`, a boolean, an integer, a string or an
  array of strings, so that every falsy value (`undefined`, `null`, `false`,
  `0`, `""`) can be written down.
- `===` between two arrays is false: arrays arrive as separately decoded
  objects and are compared by reference.
- The file is a field holding `None` (missing or not a parseable list) or the
  decoded list. `#writefile` takes the outcome of the write as a parameter
  `ioOk`. A successful write stores the current list. A failed write leaves the
  file as it was.
- In `addProduct` a failed write is caught: the product stays appended, the
  counter stays incremented and an error result is returned. In `updProduct`
  and `delProduct` it propagates as a rejected promise after the list has
  changed. The model returns `Err(WriteFailed)` / `Failed(WriteFailed)` with
  the changed list in both cases.
- `updProduct` and `delProduct` throw on an unknown id; the model returns
  `Err(NotFound(id))` / `Failed(NotFound(id))` and changes nothing.

The code has a few behaviours a reader might not expect; the model keeps them as written:

- `init` appends the loaded entries to the list it already has; it does not
  replace the list.
- On a missing, unreadable or empty file, `init` leaves the list and the
  counter as they are (on a fresh manager they are empty and 0).
- The counter becomes the id of the last entry in the file, not the largest
  id. `LastEntryCounterCanCollide` shows that this can hand out an id that is
  already in use. `ReloadAfterDeletingNewestReissuesId` shows that after the
  newest product is deleted, a reload never sets the next id past the deleted
  one, and when the two newest ids were consecutive it hands that id out
  again, so a reload can hand out an id that was already used.
- Code uniqueness is enforced only by `addProduct`. `UpdateCanDuplicateCode`
  shows that an update can create two products with the same code.
- An update with a falsy `status`, `false` included, sets status to `true`.
  The model keeps this behaviour (`Merge`, `MergeFalsyInput`).

## Model

| member | source | states |
|---|---|---|
| `JsValues.Or` | src/productManajer.js:124 | JavaScript's or-operator: the result is the first operand when that is truthy and the second operand otherwise, and it is truthy exactly when one operand is |
| `ProductRecord.NewProduct` | src/productManajer.js:117-128 | the new product has the given id and copies every requested field; its status is the requested status when that is truthy and `true` otherwise, so it is always truthy |
| `ProductRecord.Merge` | src/productManajer.js:53-63 | the updated record keeps the id; each of title, description, code, price, stock, category and thumbnails is the input's value when truthy and the old one otherwise; status is the input's status when truthy and `true` otherwise (the old status is never kept) |
| `ProductRecord.MergeIdempotent` | src/productManajer.js:53-63 | applying the same update twice gives the same record as applying it once |
| `ProductRecord.MergeNeverClears` | src/productManajer.js:55-62 | no update can turn a truthy field falsy |
| `ProductRecord.MergeFalsyInput` | src/productManajer.js:53-63 | an update whose fields are all falsy (e.g. `{status: false}`) only sets status to `true` |
| `Catalog.IndexOfId` | src/productManajer.js:50 | `findIndex` by id: -1 exactly when no product has the id; otherwise the position of the first product that has it |
| `Catalog.LoadInto` | src/productManajer.js:16-19 | what `init` does with the file: a missing or empty file leaves list and counter as they were; otherwise the old list is kept as a prefix, followed by exactly the file's entries in file order, and the counter is the id of the resulting list's last entry |
| `Catalog.RemoveAt` | src/productManajer.js:75 | `splice(i, 1)` shortens the list by one and removes exactly one copy of the i-th entry from the multiset of entries |
| `Catalog.RemoveAtKeepsOrder` | src/productManajer.js:75 | after `splice(i, 1)` the entries before i keep their positions and those after it move down by one, in order |
| `Catalog.IndexOfIdIsOnlyMatch` | src/productManajer.js:93 | when ids are distinct, the first product with an id is the only one with it |
| `Catalog.AppendFreshKeepsIds` | src/productManajer.js:119 | appending a product with id counter + 1 to a list whose ids increase and are at most the counter: the id was unused, and ids still increase and are at most the new counter |
| `Catalog.AppendKeepsCodesUnique` | src/productManajer.js:32-35 | appending a product whose code no entry has `===` keeps codes unique |
| `Catalog.RemoveKeepsInvariants` | src/productManajer.js:75 | splicing out an entry keeps ids increasing, keeps them under any bound they were under, and keeps codes unique |
| `Catalog.RemoveFoundLeavesNoMatch` | src/productManajer.js:73-75 | with distinct ids, splicing out the entry found for an id leaves no entry with that id |
| `Catalog.RemoveFoundKeepsInvariants` | src/productManajer.js:73-75 | splicing out the entry found for an id keeps ids increasing and bounded, leaves no entry with that id, and keeps codes unique |
| `Catalog.ReplaceKeepsIds` | src/productManajer.js:53-54 | replacing an entry by one with the same id keeps ids increasing and bounded |
| `Catalog.UpdateCanDuplicateCode` | src/productManajer.js:57 | an update giving one product the truthy code of another breaks code uniqueness: the update path has no code check |
| `Catalog.ReloadRoundTrip` | src/productManajer.js:17-19 | loading any written list into an empty manager gives back exactly that list; if its ids increased, the loaded counter bounds them all; if the list is non-empty and its ids were under a bound, the loaded counter is under it too |
| `Catalog.LastEntryCounterCanCollide` | src/productManajer.js:19 | when an earlier entry's id is one more than the last entry's, the loaded counter's next id is already in use |
| `Catalog.ReloadAfterDeletingNewestReissuesId` | src/productManajer.js:19 | for a list with at least two entries and increasing ids, after the newest product is deleted, reloading the file makes the next id at most the deleted product's id, and equal to it when the two newest ids were consecutive |
| `Store.ProductManajer.constructor` | src/productManajer.js:5-8 | a new manager has an empty list, counter 0 and the given file, and is `Valid()` |
| `Store.ProductManajer.Init` | src/productManajer.js:13-24 | leaves the file alone. A non-empty file's entries are appended in file order and the counter becomes the last entry's id. A missing or empty file changes nothing. Loading an increasing file into an empty manager yields `Valid()` |
| `Store.ProductManajer.WriteFile` | src/productManajer.js:100-102 | a successful write stores the current list in the file; a failed one leaves the file as it was |
| `Store.ProductManajer.CodeCheck` | src/productManajer.js:114 | finds a product exactly when some product's code is `===` to the argument, and what it finds is the first such product in the list, as `find` returns |
| `Store.ProductManajer.FindIndex` | src/productManajer.js:50 | the loop returns the `findIndex` result `IndexOfId` |
| `Store.ProductManajer.AddProduct` | src/productManajer.js:30-41 | a taken code gives `DuplicateCode` and changes nothing. Otherwise the counter grows by one and exactly the new product is appended. Then `Ok` with the product when the write succeeds, or `WriteFailed` with the append kept. `Valid()` and code uniqueness are preserved, and the new id was unused |
| `Store.ProductManajer.UpdProduct` | src/productManajer.js:49-66 | an unknown id gives `NotFound` and changes nothing. Otherwise only the first match is replaced by its merge with the input, so the length and the other entries are unchanged. Then `Ok` with the new record, or `WriteFailed`. The counter is unchanged and `Valid()` is preserved |
| `Store.ProductManajer.DelProduct` | src/productManajer.js:72-77 | an unknown id gives `NotFound` and changes nothing. Otherwise the first match is spliced out, then `Done`, or `WriteFailed`. The counter is unchanged. `Valid()` and code uniqueness are preserved, and with `Valid()` no product with that id remains |
| `Store.ProductManajer.GetAll` | src/productManajer.js:83-85 | returns the current list |
| `Store.ProductManajer.GetById` | src/productManajer.js:92-95 | nothing exactly when no product has the id; otherwise the first product with it, which under `Valid()` is the only one |

## Left out

- File I/O, `JSON.parse`/`JSON.stringify` and the configured path (src/productManajer.js:100-111) are not modelled as such. The file is a decoded list (`None` when missing or unparseable), and the write outcome is a parameter.
- A write that fails halfway and corrupts the file is not modelled: a failed write leaves the file unchanged.
- A file that parses to something other than a list of products (a JSON object, entries without an integer id) is not modelled beyond `None`.
- `async`/`await` and the interleaving of concurrent requests are left out. Every method runs to completion, one at a time.
- The `console.log` reports in `init` are output only and left out.
- `parseInt(id)` on the id argument is left out. Ids are integers.
- `Catalog.AppendFreshKeepsIds`: the counter `ProductManajer.id` (src/productManajer.js:119) is a JavaScript number, and past 2^53 `++` stops producing new values; the model's counter is an unbounded integer, so the freshness of the next id does not account for that limit.
- Every numeric field (price, stock, and any number a client puts in another field) is an integer. The store only tests numbers for truthiness and `===`, so floating point and `NaN` (which is falsy and never `===` to itself) are left out.
- A field value that is a plain object (for instance `{}` sent as a title) is not representable: `Value` has no object case. Such a value is truthy and never `===` to a decoded code, so it would behave like an array here.
- A request body that is not an object (`undefined` or `null` as `prod`) is not representable as a `ProductInput`. In the original, `prod.code` then throws inside `addProduct` (src/productManajer.js:32) and the error record is returned with nothing changed; in `updProduct` reading `prod.title` (src/productManajer.js:55) throws and the call rejects before the list is assigned. The model has no such path.
- `ProductManajer.id` is a static field shared by every manager in the process. The model gives each manager its own counter.
- `Store.ProductManajer.GetAll`: returns the list as a value. That the original hands out its live array, which a caller could mutate, is not captured.
- `src/main.js` (Express, Handlebars and socket.io wiring) and `static/js/script.js` (browser form handling and rendering) are not part of this model.
