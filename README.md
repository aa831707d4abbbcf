# User wishlist and cart model

A Dafny model of the User document of a small e-commerce backend, restricted to the part
with real logic: the wishlist and cart operations, the two getters and the public JSON view
of a user (`app/models/user.js`).

- `catalog.dfy`, module `Catalog`: products, and the catalog lookup `Product.findById` as a
  function parameter `find: ProductId -> Lookup`. The lookup answers `Found(product)`,
  `NotFound`, or `Malformed`. `Malformed` stands for the exception that a badly formed
  identifier raises. The module also holds the first-match and last-match searches over a
  list of product identifiers.
- `errors.dfy`, module `Errors`: `CustomError(code, message)` with the exact codes and
  messages the methods raise, and `Result<T> = Ok(value) | Err(error)`.
- `wishlist.dfy` and `cart.dfy`, modules `Wishlist` and `Cart`: each operation as a function
  from the list before the call to the outcome of the call. An error carries no list, so a
  failing call cannot change anything. The invariants are stated and proved about these
  functions: no repeated product in the wishlist; at most one cart line per product; no
  negative quantity; every quantity at least 1 as long as only positive quantities are
  added. Other lemmas show that removal undoes an add, and how many items of each product
  the cart holds after each call. Two induction proofs show that the invariants survive any
  sequence of calls.
- `user.dfy`, module `Users`: the class `User`. Its `wishlist` and `cart` are `seq` fields
  that the methods reassign in place. Each method keeps the source's loop: the wishlist
  lookup that stops at the first match; the splice loops with `break`; the cart scan that
  visits every line. Each method's postcondition ties the outcome and the new state to the
  function above. `save()` is modelled by copying the lists to `savedWishlist` and
  `savedCart` and counting saves in a ghost field. Every failing call leaves the whole
  object unchanged (`unchanged(this)`), so nothing is modified or saved.

`addProductToCart` picks the line to increase with a callback that never returns `true`.
Its scan therefore ends on the LAST line of the product, while `removeProductFromCart` and
`removeProductFromWhishlist` act on the FIRST one. The model keeps both behaviours
(`LastIndex` and `FirstIndex`). `Catalog.LastIndexIsFirstIndex` proves that the two agree
whenever no product has two lines. `Cart.DuplicateLinesDisagree` shows that they differ
when one does: with two lines for one product, the cart add increases the last one
(`app/models/user.js:166-173`) while both removals act on the first
(`app/models/user.js:130-135`, `app/models/user.js:182-190`).

## Model

| member | source | states |
|---|---|---|
| Catalog.FirstIndex | app/models/user.js:130-135 | The index of the first entry with the identifier: it matches, no earlier entry matches, and -1 means no entry matches. |
| Catalog.LastIndex | app/models/user.js:166-171 | The index the cart scan keeps: the last entry with the identifier, no later entry matches, and -1 (the `undefined` the scan leaves) means none does. |
| Catalog.RemoveAt | app/models/user.js:133 | `splice(i, 1)`: one element shorter; the elements before `i` stay, the ones after shift down by one; exactly that element is lost (multiset). |
| Catalog.DistinctWithout | app/models/user.js:133 | Removing one identifier from a list without repeats leaves a list without repeats that no longer holds that identifier. |
| Catalog.FirstIndexAt | app/models/user.js:130-135 | A match with no match before it is the index the first-match search returns. |
| Catalog.LastIndexIsFirstIndex | app/models/user.js:166-171 | Without repeated identifiers, the last-match scan and the first-match search find the same line. |
| Wishlist.Add | app/models/user.js:104-126 | An identifier already present fails with 409 whatever the catalog answers. Otherwise a malformed id fails with 400 'Invalid ID' and an unknown one with 400 'not found'. Success exactly when the id is absent and found: the found product is appended after the unchanged entries, and the list stays free of repeats when the catalog answers with that id. |
| Wishlist.Remove | app/models/user.js:128-141 | Fails with 400 'Product does not exist in your whishlist' exactly when no entry has the id. Otherwise it splices out the first entry with the id and nothing else. A list without repeats keeps none and no longer holds the id. |
| Wishlist.RemoveUndoesAdd | app/models/user.js:122 | Removing the product that a successful add just appended gives back the original wishlist. |
| Wishlist.RemoveTwiceFails | app/models/user.js:137-139 | In a wishlist without repeats, a second removal of the same product fails with 400. |
| Wishlist.RunKeepsUnique | app/models/user.js:104-141 | After any sequence of adds and removes, successful or not, the wishlist still has no repeated product. |
| Cart.Bump | app/models/user.js:173 | Changing one line's quantity keeps the length, the identifiers and every other line. |
| Cart.DropKeepsUnique | app/models/user.js:187 | Splicing out a line keeps one line per product, and that line's product is no longer in the cart. |
| Cart.Add | app/models/user.js:147-179 | A negative quantity fails with 400 before any lookup. Otherwise a malformed id fails with 400 'Invalid ID' and an unknown one with 400 'Product not found'. On success, an existing product's last line grows by `qty` and every other line is unchanged; a new product gets `{qty, product}` appended. One line per product, no negative quantity, and (for `qty >= 1`) all-positive quantities are kept. |
| Cart.Remove | app/models/user.js:181-193 | A product not in the cart leaves it unchanged, with no error. On the first line of the product, the quantity drops by 1 when `all` is false and it is above 1; otherwise that line alone is removed. One line per product, no negative quantity and all-positive quantities are kept. |
| Cart.QtyOfLine | app/models/user.js:44-54 | With one line per product, a product's quantity is the quantity on its line. |
| Cart.AddChangesOnlyItsProduct | app/models/user.js:162-177 | A successful add raises the product's quantity by exactly `qty` and leaves every other product's quantity as it was. |
| Cart.RemoveLowersItsProduct | app/models/user.js:182-190 | With one line per product and no negative quantity, a remove sets the product's quantity to 0 when `all` is set or it holds at most one item (a zero-quantity line is removed, absent stays 0), otherwise lowers it by one. |
| Cart.BumpKeepsOtherProducts | app/models/user.js:185 | Decrementing one line, with one line per product, leaves every other product's quantity as it was. |
| Cart.DropKeepsOtherProducts | app/models/user.js:187 | Splicing out one line, with one line per product, leaves every other product's quantity as it was. |
| Cart.RemoveKeepsOtherProducts | app/models/user.js:182-190 | With one line per product, a remove changes no other product's quantity. |
| Cart.RunKeepsInvariants | app/models/user.js:147-193 | After any sequence of adds and removes, one line per product and no negative quantity still hold; if every add asks for at least one item, every quantity stays at least 1. |
| Cart.ZeroQuantityMakesEmptyLine | app/models/user.js:148-176 | Adding quantity 0 of a product not yet in the cart is accepted and creates a line of quantity 0. |
| Cart.DuplicateLinesDisagree | app/models/user.js:166-190 | With two lines for one product, an add increases the second line and a remove decreases the first. |
| Cart.AddThenRemoveScenario | app/models/user.js:147-193 | Add 2 of P to an empty cart, then 3: one line of 5. Remove one: 4. Remove all: empty cart. |
| Users.User.constructor | app/models/user.js:40-54 | A new user has an empty wishlist and cart, keeps the invariants, and has not been saved. |
| Users.User.GetWishlist | app/models/user.js:100-102 | Returns the stored wishlist, which has no repeated product for a valid user. |
| Users.User.GetCart | app/models/user.js:143-145 | Returns the stored cart: one line per product and no negative quantity for a valid user. |
| Users.User.Save | app/models/user.js:123 | Persists the current wishlist and cart, one save per call. |
| Users.User.FindInWishlist | app/models/user.js:105-107 | The wishlist's `find` stops at the first match and reports whether some entry has the identifier. |
| Users.User.ScanCart | app/models/user.js:166-171 | The cart's `find` whose callback never returns true: it visits every line and returns the index of the last line of the product, or -1 (`undefined`) when there is none. |
| Users.User.AddProductToWishlist | app/models/user.js:104-126 | The outcome is that of `Wishlist.Add` on the old wishlist. On success the wishlist is the new list and was saved once; on failure nothing changed and nothing was saved. The invariants are kept. |
| Users.User.RemoveProductFromWishlist | app/models/user.js:128-141 | The outcome is that of `Wishlist.Remove`. On success the wishlist is the new list, saved once; on failure nothing changed and nothing was saved. The invariants are kept. |
| Users.User.AddProductToCart | app/models/user.js:147-179 | The outcome is that of `Cart.Add`; the scan keeps the last matching index. On success the cart is the new list, saved once; on failure nothing changed and nothing was saved. The invariants are kept, and with `qty >= 1` so are positive quantities. |
| Users.User.RemoveProductFromCart | app/models/user.js:181-193 | The cart becomes `Cart.Remove` of the old cart and is always saved, even when nothing matched. The invariants and positive quantities are kept. |
| Users.User.AsJson | app/models/user.js:91-98 | The public view carries the id, email, first and last name of the user; its type has no password field. |
| Wishlist.OtherSpellingAddsRepeat | app/models/user.js:104-123 | If the catalog resolves `"A"` to the product `"a"` already in the wishlist, the string comparison misses the entry already there and a second copy is appended, breaking the no-repeat invariant. |
| Cart.OtherSpellingAddsSecondLine | app/models/user.js:162-176 | If the catalog resolves `"A"` to the product `"a"` already in the cart, the scan finds no line and a second line for the same product is appended, breaking one line per product. |
| Users.AsJsonHidesPassword | app/models/user.js:91-98 | The public view holds only id, email, first and last name: users that agree on those have the same view, whatever their password, wishlist or cart. |

## Left out

- The catalog (`Product.findById`) is a function parameter and may answer any product. The no-repeat results (`Wishlist.Add`, `Cart.Add`, `Wishlist.RunKeepsUnique`, `Cart.RunKeepsInvariants`, the methods' `Valid()` clauses) hold only when the catalog answers a lookup of `id` with a product whose identifier is `id` (`AnswersWithId`, `Consistent`). For an identifier that the database resolves but that compares unequal as a string to the stored one (for instance a differently cased spelling), the source itself breaks its invariants: the comparisons at `app/models/user.js:106` and `app/models/user.js:168` miss the existing entry and lines 122 or 176 push a second copy (`Wishlist.OtherSpellingAddsRepeat`, `Cart.OtherSpellingAddsSecondLine`).
- The `|| []` in `getWhishlist`/`getCart` and the `if (!this.cart)` in `addProductToCart` are not modelled: array paths of the document always hold an array, so these branches cannot be taken. The fields are plain sequences.
- Cart lines are values in a sequence. Updating a line's quantity replaces that element; no other object refers to a line, so no aliasing is lost.
- Quantities are unbounded integers. The number coercions are not modelled: `parseInt` of a quantity after the sign check (a fractional or non-numeric quantity) and the truthiness of the query string `all`. `qty` is an `int`, `all` a `bool`, and identifiers are compared as strings (a non-string `productId` never matches).
- Persistence is reduced to `Save`. Database I/O, schema validators run on save (`min: 0`, `minlength`, the email pattern), the password-hashing pre-save hook, `comparePassword`, registration and authentication are not part of this model. They are library or database calls.
- Concurrent requests on the same user (lost updates) are not modelled; every call runs alone.
- The HTTP handlers, routes, product model, seeds and tests are not part of this model.
