# Storefront state model

A Dafny model of the state logic of a browser storefront (the `App`
component of `src/App.js`). The component loads a product catalog, which is
a list of categories each holding a list of products. It shows either the
whole catalog or a view of it. A category filter (`showProducts`) keeps the
categories with a given name, or all of them for "all". A text search
(`searchProducts`) keeps every category in which some product's vendor or
title contains the input, ignoring case. It also keeps an append-only cart
(`addToCart`) and a flag saying whether the cart is shown (`toggleCart`).

The project has four modules:

- `Text` (text.dfy): `Lower`, standing in for `toLowerCase` (ASCII case
  folding), and `Contains`, standing in for `includes` (substring search).
- `Seqs` (seqs.dfy): `Filter` and `Any`, standing in for the array methods
  `filter` and `some`, and `IsSubsequence`, the in-order subsequence
  relation used to describe what a filter keeps.
- `Catalog` (catalog.dfy): the `Product` and `Category` records of the
  catalog document (the fields read at src/App.js:31, 38-40 and 81-89),
  and the two views as pure functions of the full catalog:
  `FilterByCategory` and `Search`. Lemmas give their characterising
  properties, and concrete lemmas work through a two-category sample catalog.
- `App` (app.dfy): the class `Storefront`. Its fields are the component's
  state: `products`, `filteredProducts`, `cartItems` and `isCartOpen`. It has
  one method per handler, and each method reassigns the fields its handler
  sets. The object invariant `Valid()` says that the shown categories are an
  in-order subsequence of the full catalog. The filter and search methods
  re-establish it whatever the prior state. Client methods at the end show
  what callers can derive from the contracts alone.

The network request is not modelled as I/O. `Load` takes the request's
outcome as a parameter: either the fetched `categories` or a failure.

Since the empty string occurs in every string, one might expect an empty
search to show every category. The code keeps a category only when `some` finds a matching product, and
`some` is false on an empty list. So an empty search drops categories that
have no products. The model follows the code (`SearchEmptyInput`). The full
catalog is shown only when no category is empty (`SearchEmptyInputKeepsAll`).

## Model

| member | source | states |
|---|---|---|
| `Text.LowerChar` | src/App.js:28 | The folded character is never an ASCII capital. A character that is not a capital is unchanged. A capital becomes the lower-case letter at the same alphabet position. |
| `Text.Lower` | src/App.js:31 | The lower-cased string has the input's length, and each position is the folded input character. |
| `Text.LowerOfLowercase` | src/App.js:31 | A string with no ASCII capitals is its own lower-case form. |
| `Text.LowerIdempotent` | src/App.js:39-40 | Lower-casing twice is the same as lower-casing once. |
| `Text.Contains` | src/App.js:39-40 | A string contains only strings no longer than itself, and a non-empty contained string's first character occurs in it. Its full meaning is `ContainsIff`. |
| `Text.ContainsIff` | src/App.js:39-40 | `Contains(s, t)` holds if and only if `t` occurs in `s` at some index `i`, that is, `s[i..i+|t|] == t`. |
| `Text.ShorterContainsNothing` | src/App.js:39-40 | A string never contains a longer one. |
| `Text.ContainsEmpty` | src/App.js:39-40 | Every string, the empty one included, contains the empty string. |
| `Text.EmptyContainsOnlyEmpty` | src/App.js:39-40 | The empty string contains only the empty string. |
| `Seqs.Filter` | src/App.js:31 | The result is no longer than the input. Every kept element passes the test and comes from the input. Every input element that passes the test is kept. |
| `Seqs.Any` | src/App.js:38 | `Any` holds if and only if some element passes the test, so it is false on an empty sequence. |
| `Seqs.SubsequenceReflexive` | src/App.js:17-18 | A sequence is a subsequence of itself. |
| `Seqs.IsSubsequence` | src/App.js:29-43 | A subsequence is no longer than the whole, and each of its elements is an element of the whole. |
| `Seqs.FilterIsSubsequence` | src/App.js:31 | A filter's result is an in-order subsequence of its input. |
| `Seqs.FilterAppend` | src/App.js:37 | Filtering `a + b` gives the filter of `a` followed by the filter of `b`. |
| `Seqs.FilterCongruent` | src/App.js:37-42 | Two tests that agree on every element of the input filter it the same way. |
| `Seqs.FilterKeepsAll` | src/App.js:37-42 | A test that every element passes gives back the whole input. |
| `Seqs.FilterKeepsNone` | src/App.js:31 | A test that no element passes gives the empty sequence. |
| `Catalog.IsAll` | src/App.js:28 | An argument means "all" exactly when it has three characters, `a` or `A`, then `l` or `L` twice. |
| `Catalog.HasName` | src/App.js:31 | A category can match only an argument of its name's length. A category always matches its own name. |
| `Catalog.FilterByCategory` | src/App.js:27-34 | For an argument whose lower-case form is "all", the result is the whole catalog. Otherwise the result holds exactly the catalog's categories whose lower-cased name equals the lower-cased argument. |
| `Catalog.FilterByCategoryInOrder` | src/App.js:28-32 | The filtered view is an in-order subsequence of the catalog. |
| `Catalog.FilterByCategoryAppend` | src/App.js:31 | The filter of a concatenated catalog is the concatenation of the two filters. |
| `Catalog.FilterByCategoryOne` | src/App.js:28-31 | A single category is kept exactly when the argument is "all" or names that category, ignoring case. With the Append lemma, this fixes the result on every catalog. |
| `Catalog.FilterByCategoryNoMatch` | src/App.js:31-32 | A name that matches no category gives an empty view, not an error. |
| `Catalog.FilterByCategoryCaseInsensitive` | src/App.js:28-31 | Two arguments with the same lower-case form give the same view. |
| `Catalog.ProductMatches` | src/App.js:39-40 | Every product matches the empty input. A matching input is no longer than the product's vendor or its title. |
| `Catalog.CategoryMatches` | src/App.js:38-41 | A category matches exactly when one of its products matches, as `some` decides. |
| `Catalog.Search` | src/App.js:36-44 | The result holds exactly the catalog's categories with at least one product whose lower-cased vendor or title contains the lower-cased input. Each kept category is the catalog's own value, with all its products. |
| `Catalog.SearchInOrder` | src/App.js:37 | The search result is an in-order subsequence of the full catalog. |
| `Catalog.SearchAppend` | src/App.js:37 | The search of a concatenated catalog is the concatenation of the two searches. |
| `Catalog.SearchOne` | src/App.js:37-42 | A single category is kept, whole and unchanged, exactly when one of its products matches. Otherwise it is dropped. |
| `Catalog.CategoryMatchesEmptyInput` | src/App.js:38-41 | With the empty input, a category matches if and only if it has at least one product. |
| `Catalog.SearchEmptyInput` | src/App.js:37-43 | Searching for the empty input keeps exactly the categories with at least one product, in catalog order. |
| `Catalog.SearchEmptyInputKeepsAll` | src/App.js:37-43 | When no category is empty, searching for the empty input gives the whole catalog. |
| `Catalog.SearchCaseInsensitive` | src/App.js:39-40 | Two inputs with the same lower-case form find the same categories. |
| `Catalog.FilterWomenExample` | src/App.js:31 | On the sample catalog [Men, Women], filtering by "Women" gives [Women]. |
| `Catalog.ShirtMatchesAcme` | src/App.js:39 | The sample product with vendor "Acme" matches the input "acme". |
| `Catalog.DressMissesAcme` | src/App.js:39-40 | The sample product with vendor "Zeta" and title "Dress" does not match "acme". |
| `Catalog.SearchAcmeExample` | src/App.js:37-43 | On the sample catalog, searching for "acme" gives [Men]. |
| `Catalog.SearchKeepsNonMatchingExample` | src/App.js:37-43 | A category holding one matching and one non-matching product is shown with both. |
| `App.Storefront.constructor` | src/App.js:6-10 | The initial state has an empty catalog, an empty view and an empty cart, and the cart is closed. |
| `App.Storefront.Valid` | src/App.js:17-43 | The invariant that the shown list is an in-order subsequence of the catalog. It implies the shown list is no longer than the catalog and every shown category is a catalog category. |
| `App.Storefront.Load` | src/App.js:12-25 | A successful load sets both the catalog and the view to the fetched categories. A failed load changes nothing. The cart is untouched either way. |
| `App.Storefront.ShowProducts` | src/App.js:27-34 | The view becomes `FilterByCategory` of the full catalog, whatever the previous view. The catalog, cart and cart flag are unchanged. |
| `App.Storefront.SearchProducts` | src/App.js:36-44 | The view becomes `Search` of the full catalog and the input. It never depends on the current view. The catalog, cart and cart flag are unchanged. |
| `App.Storefront.AddToCart` | src/App.js:46-48 | The cart becomes the old cart followed by the product, with no de-duplication. The catalog, view and cart flag are unchanged. |
| `App.Storefront.ToggleCart` | src/App.js:55-57 | The cart flag is negated. Nothing else changes. |
| `App.FilterThenSearchEmpty` | src/App.js:27-44 | Filtering by "Men" and then searching for "" shows every category that has products, not only Men. When no category is empty, it shows the whole catalog. The catalog, cart and cart flag are unchanged. |
| `App.ToggleTwice` | src/App.js:55-57 | Two toggles restore the cart flag and leave the rest of the state as it was. |
| `App.AddSameProductTwice` | src/App.js:46-48 | Adding one product twice appends two equal entries. The cart grows by exactly two, and its earlier entries are untouched. The catalog, view and cart flag are unchanged. |
| `App.SampleBrowse` | src/App.js:17-43 | Loading [Men, Women], filtering by "Women" and then searching for "acme" leaves the view at [Men] and the cart empty and closed. |
| `App.SampleCart` | src/App.js:46-48 | Adding the two sample products to an empty cart leaves exactly those two, in order. The catalog, view and cart flag are unchanged. |

## Left out

- The request itself (axios `get`, `async`/`await`, `useEffect`, and `console.error` in the failure branch, src/App.js:12-25). This is network I/O in a foreign library. `Load` receives the outcome as a parameter.
- `totalAmount` (src/App.js:9 and 50-52). The running total uses `parseFloat`, IEEE addition and `toFixed(2)`, and an unparseable price gives NaN. This is floating-point arithmetic, so the model keeps `price` as an uninterpreted string and has no total field.
- `Text.Lower`: ASCII case folding only. JavaScript's `toLowerCase` also maps non-ASCII letters, and some of them change the string's length.
- `Text.Contains`: compares Dafny characters, which are Unicode scalar values. JavaScript compares UTF-16 code units, so the two differ only on strings with unpaired surrogates, which a Dafny string cannot hold (`"😀".includes("\uD83D")` is true in JavaScript).
- Malformed catalog documents. `FetchOutcome.Fetched` carries a well-formed list of categories, so the model cannot express these cases:
  - A response whose `categories` is absent or not an array is not a caught failure. Both lists take that value (`undefined` when it is absent), and the render throws at `filteredProducts.map` (line 81). A `null` body throws at line 17 inside the `try`, so it is the logged failure that `FetchFailed` models.
  - A category without `category_products` makes `searchProducts` throw (line 38) and the render throw (line 82).
  - An absent or non-string `vendor`, `title` or `category_name` throws a TypeError only when it is read. `||` skips `title` once the vendor matches (lines 39-40), `some` stops at the first match, and `showProducts("all")` never reads `category_name` (lines 28-29).
- `Product.id` is modelled as an integer. The catalog document's type is not fixed by the code, which only uses the id as a rendering key.
- Rendering, the button wiring, CSS, React keys and re-render timing (src/App.js:59-115). These are UI only.
- React batches state updates and handlers capture the state of their render. The model applies each handler atomically to the current state, which matches one event per render.
