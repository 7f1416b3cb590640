# MyDrugs storefront store, modelled in Dafny

The storefront is a single React page (`src/app/page.tsx`). Its only logic
beyond rendering lives in the `MyDrugs` component's store. The store holds the
session user, the cart and the order history. It offers these handlers:

- `addToCart` and `updateQuantity` change the cart.
- `getTotalPrice` prices the cart.
- `handleCheckout` turns the cart into an order.
- `handleLogin`, `handleRegister` and `handleLogout` manage the session.
- An effect narrows the catalog by a search term and a category.

The model reads every React setter call as "return the new state". Each
handler becomes a pure function, either over the cart or over
`Store.State(user, cart, orders)`.

Modules, one per concern:

- `Types` (`types.dfy`): `Product`, `CartItem`, `User`, `Order` and `OrderStatus`.
  Prices are natural numbers of cents and ratings are tenths of a star.
  A cart line's quantity is an unbounded integer. `IsSubsequence` (order-preserving
  subsequence) is defined here, because both the cart and the filter use it.
- `Cart` (`cart.dfy`): adding, updating, removing and totalling cart lines.
  It also proves the one-line-per-product invariant.
- `Session` (`session.dfy`): login and registration. Logout lives in `Store`.
- `Search` (`search.dfy`): the product filter, with ASCII lower-casing and a
  substring scan. Both are checked against declarative definitions.
- `Store` (`store.dfy`): the state record, checkout, logout, an `Action` type
  with `Step` and `Run`, and the store invariant `Valid`.

Clock readings are parameters. This covers the `Date.now()` ids of users and
orders, and the ISO date of an order.

Behaviour worth noting:

- `updateQuantity` removes a line only when the new quantity is exactly 0
  (`page.tsx:215`). A negative quantity is stored as given.
  `Cart.NegativeQuantityIsKept` shows this. The cart view only ever passes a
  line's quantity plus or minus one (`page.tsx:680`, `page.tsx:687`). So from
  a valid cart no negative quantity arises, and `Store.StepKeepsValid`
  assumes exactly that (`Store.Admissible`).
- `handleRegister` names the user after the name field (`page.tsx:184`). It
  requires the password to equal its confirmation (`page.tsx:181`).
- The search looks at the name and the description only (`page.tsx:151-152`).
- Checkout tests only that a user object is present (`!user`, `page.tsx:230`).

## Model

| member | source | states |
|---|---|---|
| `Cart.Find` | src/app/page.tsx:202 | Finds a line exactly when some line has the id. The line found is the first one with that id. |
| `Cart.MapQuantity` | src/app/page.tsx:204-208 | Keeps the cart's length, order and products. It rewrites only the quantities of lines with the id. With no such line the cart is unchanged. |
| `Cart.RemoveId` | src/app/page.tsx:216 | The result is an order-preserving subsequence of the cart. It holds no line with the id. Every other line keeps the number of times it occurs, so repeated lines are kept. An absent id leaves the cart unchanged. Unique ids stay unique. |
| `Cart.AddToCart` | src/app/page.tsx:201-212 | For a known id, the length and all other lines stay the same and that line gains one unit. For a new id, exactly `CartItem(p, 1)` is appended. The product is then in the cart, and unique ids stay unique. |
| `Cart.UpdateQuantity` | src/app/page.tsx:214-222 | Quantity 0 removes every line with the id and keeps all others, in order and with their multiplicity. Any other quantity is written into that id's lines only, with length, order and products unchanged. An absent id is a no-op. Unique ids stay unique. |
| `Cart.RemoveIdAt` | src/app/page.tsx:216 | On a cart with unique ids, removing the id at index k equals `cart[..k] + cart[k+1..]`. |
| `Cart.UpdateToZeroRemovesLine` | src/app/page.tsx:215-216 | With unique ids, `updateQuantity(id, 0)` takes out exactly that id's line and keeps the rest in order. |
| `Cart.TotalAppend` | src/app/page.tsx:224-226 | The cart total is additive over concatenation. |
| `Cart.TotalNonNegative` | src/app/page.tsx:224-226 | A cart whose lines all hold at least one unit never totals below zero. |
| `Cart.GetTotalPrice` | src/app/page.tsx:224-226 | The left-to-right reduce from 0 equals the sum of price times quantity over the cart. An empty cart gives 0. |
| `Cart.TotalAfterAddKnown` | src/app/page.tsx:201-226 | With unique ids, adding a product that already has a line raises the total by that line's unit price. |
| `Cart.TotalAfterAddNew` | src/app/page.tsx:209-226 | Adding a product with no line raises the total by the product's own unit price. |
| `Cart.TotalAfterUpdate` | src/app/page.tsx:214-226 | With unique ids, a non-zero new quantity changes the total by the line's price times the change in quantity. |
| `Cart.AddTwiceMerges` | src/app/page.tsx:201-211 | Adding a new product twice gives one line of two units appended to the cart, never two lines. |
| `Cart.AddKeepsPositive` | src/app/page.tsx:201-211 | Adding a product keeps every line at one unit or more. |
| `Cart.UpdateKeepsPositive` | src/app/page.tsx:214-222 | A non-negative new quantity keeps every line at one unit or more. |
| `Cart.NegativeQuantityIsKept` | src/app/page.tsx:215-220 | Setting a one-unit line to -1 stores -1 instead of removing the line. |
| `Session.LocalPart` | src/app/page.tsx:169 | The result is a prefix of the email and contains no `@`. It ends at the email's first `@`, or at the end of the email. |
| `Session.LocalPartOfAddress` | src/app/page.tsx:169 | For `local` without `@`, splitting `local@domain` gives back `local`. |
| `Session.Login` | src/app/page.tsx:164-177 | Non-empty email and password give a logged-in user with the given id and email, named after the part of the email before the first `@`. Otherwise the session is unchanged. |
| `Session.LoginNamesUserByLocalPart` | src/app/page.tsx:166-172 | Logging in as `local@domain` with a password gives exactly the user `(now, local, local@domain, logged in)`. |
| `Session.Register` | src/app/page.tsx:179-192 | A non-empty name and email and a password equal to its confirmation give a logged-in user with that name and email. Otherwise the session is unchanged. |
| `Search.LowerChar` | src/app/page.tsx:151-152 | Upper-case ASCII letters map to the matching lower-case letter. Every other character is kept. |
| `Search.Lower` | src/app/page.tsx:151-152 | Lower-casing keeps the length and lower-cases each character in place. |
| `Search.LowerIdempotent` | src/app/page.tsx:151-152 | Lower-casing twice is the same as lower-casing once. |
| `Search.Includes` | src/app/page.tsx:151-152 | The scan answers true iff the needle occurs at some position of the haystack. |
| `Search.MatchesSearch` | src/app/page.tsx:150-153 | The callback keeps a product iff the lower-cased term is a substring of the lower-cased name or of the lower-cased description. |
| `Search.FilterBySearch` | src/app/page.tsx:149-154 | The result is an order-preserving subsequence of the catalog. It holds exactly the products whose lower-cased name or description includes the lower-cased term. Each kept product occurs as often as in the catalog. |
| `Search.FilterByCategory` | src/app/page.tsx:156-158 | The result is an order-preserving subsequence holding exactly the products of the category. Each occurs as often as in the catalog. |
| `Search.FilterProducts` | src/app/page.tsx:146-161 | The result is an order-preserving subsequence of the catalog. A product is in it iff two things hold. First, the term is empty or is a substring of the name or description, ignoring case. Second, the category is `Todos` or equals the product's category. Each visible product occurs as often as in the catalog. |
| `Types.SubsequenceTransitive` | src/app/page.tsx:147-158 | Being an order-preserving subsequence is transitive. So the two filter passes in a row keep catalog order. |
| `Search.EmptyTermKeepsAll` | src/app/page.tsx:149 | The search pass with an empty term keeps the whole catalog. So the `if (searchTerm)` guard changes nothing. |
| `Search.SearchIgnoresCase` | src/app/page.tsx:151-152 | A term and its lower-cased form match the same products. |
| `Search.CategoryNarrowsSearch` | src/app/page.tsx:146-161 | "VITAMINA" finds the vitamin product under `Vitaminas` and under `Todos`, and finds nothing under `Digestivos`. |
| `Store.Checkout` | src/app/page.tsx:229-245 | With an empty cart or no user, nothing changes. Otherwise the cart empties and the user stays. The history grows by one, the old orders follow unchanged, and a new order sits at index 0. That order is pending, carries the given id, date and payment method, snapshots the cart and totals it. |
| `Store.Logout` | src/app/page.tsx:194-198 | The user becomes absent. Cart and orders are unchanged. |
| `Store.InitialValid` | src/app/page.tsx:107-111 | The initial state (no user, empty cart, no orders) satisfies the store invariant. |
| `Store.StepKeepsValid` | src/app/page.tsx:164-245 | Every handler keeps the invariant when given a non-negative quantity. The invariant: one line per product id, every line at least one unit, and every order pending, non-empty and priced at its items' total. |
| `Store.OnlyCheckoutWritesOrders` | src/app/page.tsx:164-245 | Every handler except checkout leaves the order history exactly as it was. So later cart changes never reach a placed order. |
| `Store.HistoryOnlyGrows` | src/app/page.tsx:241 | After any run of events, the earlier history is a suffix of the new one. Orders are only ever prepended. |
| `Store.RunKeepsValid` | src/app/page.tsx:164-245 | Every run of admissible events from a valid state ends in a valid state. |
| `Store.CheckoutExample` | src/app/page.tsx:229-242 | Checking out two units at 12.99 with Bitcoin places one pending order of 25.98 holding that line, and empties the cart. |

## Left out

- The JSX views, the header, the payment modal and view switching (`setCurrentView`, `showPayment`). They are presentation with no state contract.
- The form state (`loginForm`, `registerForm`) and its reset after a login. The handlers take the field values as parameters instead.
- The `localStorage` hydration and mirroring effects (`page.tsx:122-143`) and the key removal in `handleLogout` (`page.tsx:196`). They are browser I/O plus `JSON.parse`/`JSON.stringify`. `Store.InitialValid` covers the default state that hydration starts from.
- `Date.now()` and `new Date().toISOString()`. These clock reads become the `now`, `orderId` and `date` parameters.
- The mock catalog and category list (`page.tsx:39-102`) are data, not logic. `Search.CategoryNarrowsSearch` uses one of their entries.
- Cart.Total: prices are integer cents, not floating-point reais, and `toFixed(2)` display rounding is not modelled. So the model has no floating-point rounding in totals.
- Search.Lower: lower-cases ASCII `A`-`Z` only. Full Unicode `toLowerCase` (accented capitals such as `É`) needs Unicode tables that are not modelled.
- The disabled "add" button for out-of-stock products is a view guard. `addToCart` itself does not check `inStock`, and neither does `Cart.AddToCart`.
