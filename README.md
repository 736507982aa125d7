# Bookstore cart engine

A model of the cart engine of the WessBooks app (`App.js`). The app keeps one SQLite
table, `cart(id, title, quantity)`, behind a module-level handle `db`. Two
screens use it:

- the book list, which adds titles and shows a badge with the total quantity;
- the cart screen, which lists the rows, raises, lowers or deletes one row, and
  checks out.

The model has four modules:

- `CartTable` is the table as a value. It holds the rows and the next key, the SQL
  statements the app issues as pure functions (`FindTitle`, `DeleteById`,
  `SetQuantityById`, `Sum`, `CartTotal`), and the effect of one add (`Add`) and of
  one quantity change (`Update`) on the table.
- `CartProperties` holds the lemmas about those functions. They cover how each
  operation moves the total, which rows it touches, and that together the
  operations keep one positive row per title.
- `CartStore` is the handle, as the class `CartDb`. It has a `ready` flag (the
  handle has been assigned), the rows and the next key, and one method per SQL
  statement.
- `CartScreens` has the two screens as classes that share one `CartDb`, with
  their React state: the badge `cartCount` and the cached rows `cartItems`. It
  also holds one whole session (`FillCart`, `RemoveAndCheckout`, `ShopAndCheckout`).

Three behaviours of the code are worth stating:

- The badge is refreshed only when the book list mounts and after each add
  (`App.js:77-79`, `App.js:92`). Deleting, changing a quantity or checking out
  on the cart screen leaves the badge at the value it last fetched.
  `ShopAndCheckout` shows it reading 3 over an empty table.
- Before the handle is assigned, `addToCart`, `fetchCartCount` and
  `fetchCartItems` return silently (`App.js:83`, `97`, `151`); they do not fail.
  `deleteCartItem` and `updateQuantity` use the handle unguarded. The model gives
  them the outcome `StoreNotReady` and leaves everything unchanged.
- Checkout tests the rows the cart screen last fetched (`cartItems`), not a
  fresh query of the table (`App.js:174`).

## Model

| member | source | states |
|---|---|---|
| CartTable.Sum | App.js:98 | the sum of the quantities; it is at least the number of rows when every quantity is positive |
| CartTable.CartTotal | App.js:98-99 | `SUM(quantity) ?? 0`, with `SqlSum` the SQL sum that is NULL over no rows, is the sum of the quantities for every table; it is 0 for the empty table (never NULL) and positive for a non-empty cart |
| CartTable.FindTitle | App.js:84-86 | the first row with the title, with no earlier row carrying it; None exactly when no row has the title |
| CartTable.DeleteById | App.js:158 | a row survives the delete exactly when it was in the table and carries another id; nothing is added |
| CartTable.SetQuantityById | App.js:88 | same length; rows with the id get the new quantity, every other row is unchanged |
| CartTable.Add | App.js:82-91 | the whole effect of `addToCart` on the table. Its own contract says the next key never goes back and the table grows by one row exactly when no row has the title; what the add does to each row and to the total is stated by `AddExisting`, `AddNew`, `AddPreserves` and `AddQty` |
| CartTable.Update | App.js:163-168 | the delete-or-set branch of `updateQuantity`. Its own contract says no row is added, a positive quantity keeps every row, and any row left with the id holds the positive quantity asked for; the invariants and the total are stated by `UpdateKeeps` and `UpdateSum` |
| CartTable.AddAll | App.js:82-91 | a sequence of adds, one after another: the table grows by at most one row per add and never shrinks, and the next key never goes back; what it holds is stated by `AddAllSpec` and `AddsFromEmpty` |
| CartProperties.SumAppend | App.js:98 | the total of two row lists joined is the sum of their totals |
| CartProperties.SumUpdate | App.js:88 | replacing one row moves the total by the difference in quantity |
| CartProperties.DeleteMissing | App.js:158 | deleting an id that no row carries leaves the table as it was |
| CartProperties.DeleteAt | App.js:157-158 | with unique keys, deleting a row's id removes exactly that row, and the rest keep their order |
| CartProperties.DeleteSum | App.js:157-158 | deleting a row takes exactly its quantity off the total |
| CartProperties.DeleteKeeps | App.js:158 | after a delete, every key is still below the next key and every quantity is still positive |
| CartProperties.DeleteKeepsUniqueIds | App.js:158 | after a delete, the keys are still distinct |
| CartProperties.DeleteKeepsUniqueTitles | App.js:158 | after a delete, the titles are still distinct |
| CartProperties.SetQuantityAt | App.js:88 | with unique keys, setting a row's id changes exactly that row's quantity |
| CartProperties.SetQuantityKeeps | App.js:88 | setting a quantity keeps keys and titles distinct and below the next key; quantities stay positive when the new one is |
| CartProperties.UpdateKeeps | App.js:163-168 | whatever the id, updating never leaves a row with quantity zero or less and keeps titles and keys distinct; a quantity of zero or less leaves no row with that id |
| CartProperties.UpdateSum | App.js:163-168 | updating a row to zero or less takes its quantity off the total; any other quantity moves the total by the change to that row |
| CartProperties.AddExisting | App.js:84-88 | adding a title the cart holds raises its row by exactly one, adds no row, changes no other row and keeps the next key |
| CartProperties.FoundAt | App.js:84-86 | with one row per title, the lookup finds the row carrying the title |
| CartProperties.AddNew | App.js:89-90 | adding a new title appends `(fresh key, title, 1)` and leaves the existing rows alone; the fresh key is not in use |
| CartProperties.AddPreserves | App.js:82-91 | an add keeps the keys sound, keeps one positive row per title, and adds exactly one to the total |
| CartProperties.RaisePreserves | App.js:85-88 | the same as `AddPreserves` when the title is already in the cart |
| CartProperties.InsertPreserves | App.js:89-90 | the same as `AddPreserves` when the title is new |
| CartProperties.AppendKeeps | App.js:90 | appending a row under the next key, with a title not yet held and a positive quantity, keeps the keys and the cart invariant |
| CartProperties.AddTitles | App.js:82-91 | after an add, the cart holds a row for exactly the titles it held before plus the title added |
| CartProperties.AddQty | App.js:82-91 | an add raises the quantity held for the added title by one and leaves every other title's quantity alone |
| CartProperties.AppendFind | App.js:84-90 | after a row is appended, a lookup by title still finds an earlier row first, then the new row, else nothing |
| CartProperties.SameTitlesSameFind | App.js:84-88 | a lookup by title depends only on the titles, so a quantity update does not move it |
| CartProperties.AddAllSpec | App.js:82-91 | after any sequence of adds the invariants hold. Each title's quantity grew by the number of times it was added, the titles held are the old ones plus those added, and the total grew by the number of adds |
| CartProperties.AddsFromEmpty | App.js:82-91 | from an empty cart, a sequence of adds leaves exactly one row per distinct title added, and each row's quantity is the number of times its title was added |
| CartProperties.AddsFromEmptyTotal | App.js:82-99 | from an empty cart, the total after a sequence of adds is the number of adds |
| CartStore.CartDb.constructor | App.js:22 | the handle starts unassigned over the rows already stored |
| CartStore.CartDb.Setup | App.js:61-70 | setting up assigns the handle and keeps the stored rows and keys |
| CartStore.CartDb.FirstWithTitle | App.js:84-86 | the first row with the title, or None exactly when no row has it |
| CartStore.CartDb.SumQuantity | App.js:98 | `SUM(quantity)` is NULL exactly for the empty table and is the sum of the quantities otherwise |
| CartStore.CartDb.SelectAll | App.js:152 | every row, in order |
| CartStore.CartDb.InsertOne | App.js:90 | appends `(next key, title, 1)`, advances the key and keeps the keys sound |
| CartStore.CartDb.SetQuantityWhereId | App.js:167 | the rows with the id get the quantity; the keys stay sound |
| CartStore.CartDb.DeleteWhereId | App.js:158 | the rows with the id go; the keys stay sound |
| CartStore.CartDb.DeleteAll | App.js:179 | one statement empties the table |
| CartScreens.BookListScreen.constructor | App.js:74 | over a sound handle the screen starts valid, with the badge at 0 |
| CartScreens.BookListScreen.Mount | App.js:77-79 | after mounting, the handle is assigned and the badge equals the cart total |
| CartScreens.BookListScreen.FetchCartCount | App.js:96-101 | does nothing before the handle is assigned; otherwise the badge becomes the sum of the quantities, and 0 for an empty cart |
| CartScreens.BookListScreen.AddToCart | App.js:82-93 | does nothing before the handle is assigned. Otherwise the table becomes `Add` of the old table and the badge becomes the new total; on a cart with one positive row per title that invariant holds after, and the badge is the old total plus one |
| CartScreens.CartScreen.constructor | App.js:139 | over a sound handle the screen starts valid, with no rows shown |
| CartScreens.CartScreen.FetchCartItems | App.js:150-154 | does nothing before the handle is assigned; otherwise shows every row |
| CartScreens.CartScreen.DeleteCartItem | App.js:157-160 | before the handle is assigned, reports `StoreNotReady` and changes nothing. Otherwise it deletes the id's rows, shows the rest, and keeps one positive row per title |
| CartScreens.CartScreen.UpdateQuantity | App.js:163-170 | before the handle is assigned, reports `StoreNotReady` and changes nothing. A quantity of zero or less deletes exactly as `deleteCartItem` does; any other sets the id's rows. The rows are shown again, and one positive row per title is kept |
| CartScreens.CartScreen.DecreaseShown | App.js:199 | the `-` button sends the shown quantity minus one, so it lowers the row or deletes it at 1; the rows are shown again and one positive row per title is kept |
| CartScreens.CartScreen.IncreaseShown | App.js:203 | the `+` button sends the shown quantity plus one; the rows are shown again and one positive row per title is kept |
| CartScreens.CartScreen.HandleCheckout | App.js:173-183 | reports an empty cart exactly when no rows are shown, and then changes nothing; otherwise the table and the shown rows are emptied and the total is 0 |
| CartScreens.SessionAdds | App.js:82-91 | on a fresh table, adding "Noli Me Tangere" inserts `(1, Noli, 1)`, adding it again raises that row to 2, and adding "Ibong Adarna" appends `(2, Ibong, 1)` |
| CartScreens.FillCart | App.js:77-93 | mounting, then adding "Noli Me Tangere" twice and "Ibong Adarna" once, gives rows `(1, Noli, 2)`, `(2, Ibong, 1)` and a badge of 3 |
| CartScreens.SessionDelete | App.js:157-158 | on the two rows of that session, deleting id 2 leaves `(1, Noli, 2)` and takes the total from 3 to 2 |
| CartScreens.RemoveAndCheckout | App.js:150-183 | on those two rows, deleting the second row shown leaves a total of 2, checkout leaves 0 with the table and the shown rows empty, and the badge on the book list is not touched |
| CartScreens.ShopAndCheckout | App.js:157-183 | in that session, deleting the second row leaves a total of 2. Checkout leaves a total of 0, while the badge still reads 3 |

## Left out

- Rendering, styles, images, alerts, `navigation.goBack()` and the focus listener's registration are left out. The model has the operations the focus event triggers, not the event itself.
- The static catalogue `books` is left out; titles are arbitrary strings.
- Asynchrony is not modelled. Each awaited statement is one atomic step, and operations never interleave.
- The `expo-sqlite` driver, the file `cart.db` and SQL parsing are not modelled. Each statement is modelled by its effect on the rows.
- `CartStore.CartDb.Setup` is one atomic step. The handle is assigned before `CREATE TABLE` finishes; that window is not modelled.
- The `INTEGER PRIMARY KEY` key is modelled as a counter that always exceeds every key in use. SQLite's rowid reuse is not modelled. The column constraint is misspelled `UATOINCREMENT` (`App.js:65`); SQLite's grammar likely rejects it, so the `CREATE TABLE` at `App.js:63-69` may fail after `db` is assigned at `App.js:62`. The model assumes the table is created as intended, with distinct, fresh keys.
- CartProperties.AddPreserves, CartProperties.AddAllSpec, CartProperties.AddsFromEmpty and CartScreens.BookListScreen.AddToCart hold only when adds do not overlap. `addToCart` is asynchronous and the button has no debounce (`App.js:111`). Two quick taps on a new title can both see no row at `App.js:84` and both insert at `App.js:90`, leaving two rows with that title. Two taps on a title already in the cart can both read quantity q and both write q + 1 at `App.js:88`, so one add is lost. The model runs each add to completion before the next starts.
- Row order: the model's rows are in insertion order, and `FindTitle` and `SelectAll` return the first row in that order. `SELECT * FROM cart` (`App.js:84`, `App.js:152`) has no `ORDER BY` and scans in rowid order. The two agree only when the stored keys ascend, as keys handed out by the counter do; rows already stored out of key order are not modelled.
- Integer width: quantities are JavaScript numbers stored as 64-bit SQLite integers, and SQLite's `SUM` fails with "integer overflow" beyond that range. The model uses unbounded integers, so neither the overflow error nor 64-bit limits are modelled.
- Failed statements, errors the driver raises and database corruption are not modelled.
- Login, registration, the session and the `users` table are not part of `App.js`. They are not part of this model.
