# Cart and blog stores, in Dafny

This project models the two state stores of a small React demo.

- The **cart provider** (`src/CartDemo.js`) keeps one state cell, the list of cart lines. A line is a product id, name, price and quantity. Three mutators replace that list with a new one computed from the previous one:
  - `addToCart` bumps the existing line's quantity or appends a new line of quantity 1.
  - `removeFromCart` filters out an id.
  - `updateQuantity` sets a quantity, and removes the line when the quantity is 0 or less.

  Two queries fold over the list: `getCartTotal` counts the units and `getCartValue` adds up price × quantity.
- The **blog provider** (`src/BlogDemo.js`) keeps lists of categories and tags that only grow by appending (`addCategory`, `addTag`). It also keeps a fixed list of posts with two exact-match filters, `getPostsByCategory` and `getPostsByTag`. Besides these, the categories screen's confirm action `handleAddCategory` trims the typed name and adds it only if something is left.

Layout:

- `seqs.dfy`
  - `Options`: the `Option` wrapper.
  - `Seqs`: the JavaScript array combinators the stores are written with. `map` is `Map`, `filter` is `Filter`, and the summing `reduce` is `SumBy`, a left fold. It also holds the facts about them.
- `text.dfy`, module `Text`: `String.prototype.trim`, over the whitespace and line-terminator characters of sections 12.2 and 12.3 of ECMA-262.
- `cart.dfy`, module `Cart`:
  - Each transition as a pure function on the list of lines, with the lemmas about it.
  - `Cart.CartStore`, a class whose `items` field each mutator reassigns.
- `blog.dfy`, module `Blog`:
  - The seed data and the two queries.
  - The append updates, with their lemmas.
  - `Blog.BlogStore`, with `categories`/`tags` fields and a constant `posts`, because the source binds no setter for posts.
  - `Blog.HandleAddCategory`.

The store invariant is `Cart.WellFormed`: ids are pairwise distinct and every quantity is at least 1. It holds for the seed cart, and every mutator preserves it. `Cart.ReachableWellFormed` therefore states it for every cart reachable from the seed.

The code does not de-duplicate category or tag names, and `count` is a static number for new entries (0). The model follows that.

## Model

| member | source | states |
|---|---|---|
| Seqs.SumBy | src/CartDemo.js:66 | the `reduce((acc, x) => acc + f(x), 0)` fold, from the left; characterised by `SumByAppend`, `SumByUpdate` and `SumByDelete`, and by `GetCartTotal`/`GetCartValue`, whose loops compute it |
| Seqs.Map | src/CartDemo.js:37-41 | `map` keeps the length, and element i of the result is `f` applied to element i |
| Seqs.Filter | src/CartDemo.js:48 | `filter` never lengthens the list, and every kept element satisfies the predicate |
| Seqs.FilterExact | src/BlogDemo.js:84 | the filtered list is a subsequence of the input (order kept), holding every occurrence of each element that passes and none of any element that fails |
| Seqs.FilterUnique | src/BlogDemo.js:88 | any subsequence with that occurrence count is the filtered list, so `FilterExact` determines `filter` completely |
| Seqs.SubsequenceMultiset | src/BlogDemo.js:84 | a subsequence holds no element more often than the list it comes from |
| Seqs.FilterKeepsAll | src/CartDemo.js:48 | filtering with a predicate everything passes returns the list unchanged |
| Seqs.FilterAppend | src/CartDemo.js:48 | filtering distributes over concatenation |
| Seqs.FilterDropsOne | src/CartDemo.js:48 | when exactly one element fails the predicate, filtering deletes just that element and closes the gap |
| Seqs.SumByAppend | src/CartDemo.js:66 | the left-fold sum of a concatenation is the sum of the two sums |
| Seqs.SumByUpdate | src/CartDemo.js:70 | replacing one element changes the sum by the difference of the old and new summands |
| Seqs.SumByDelete | src/CartDemo.js:70 | deleting one element lowers the sum by that element's summand |
| Text.IsWhitespace | src/BlogDemo.js:212 | the characters `trim` strips: the white space and line terminators of ECMA-262 (tab, vertical tab, form feed, space, no-break space, byte order mark, the Zs space separators, LF, CR, LS, PS); used by `Trim`'s contract |
| Text.LeadingWhitespace | src/BlogDemo.js:212 | the length of the longest whitespace prefix: everything before it is whitespace, and the character at it is not |
| Text.TrailingWhitespaceStart | src/BlogDemo.js:212 | where the longest whitespace suffix begins: everything from it on is whitespace, and the character before it is not |
| Text.Trim | src/BlogDemo.js:212 | `trim` returns the empty string exactly when the input is all whitespace. Otherwise it returns a contiguous piece of the input with only whitespace on either side, whose first and last characters are not whitespace |
| Text.TrimIdempotent | src/BlogDemo.js:212 | trim is idempotent: trimming a trimmed string changes nothing |
| Cart.Seed | src/CartDemo.js:29-31 | the one-line starting cart, a Gaming PC at 1299 with quantity 1; `ReachableWellFormed` and `SeedScenario` start from it |
| Cart.FindIndex | src/CartDemo.js:35 | `find` fails exactly when no line has the id. Otherwise it yields the first line with that id |
| Cart.NewItem | src/CartDemo.js:43 | the line appended for a new product: its id, name and price with quantity 1; see `AddNew` |
| Cart.Increment | src/CartDemo.js:37-41 | every line with the id gets one more unit; every other line, the length and the order stay |
| Cart.Add | src/CartDemo.js:34-44 | the `addToCart` updater; characterised by `AddExisting`/`AddNew`, with `AddRepeated`, `AddTotal`, `AddValue` and `AddPreserves` |
| Cart.AddExisting | src/CartDemo.js:35-42 | with one line per id, adding a product already in the cart raises that line's quantity by exactly 1 and changes nothing else |
| Cart.AddNew | src/CartDemo.js:43 | adding a product not in the cart appends one line with its id, name and price and quantity 1 |
| Cart.AddToLast | src/CartDemo.js:35-42 | adding a product whose only line is the last one bumps that line only |
| Cart.AddRepeated | src/CartDemo.js:33-45 | adding a new product k ≥ 1 times leaves exactly one line for it, at the end, with quantity k. No earlier line carries its id |
| Cart.AddTotal | src/CartDemo.js:33-45 | with one line per id, every `addToCart` raises the unit count (`getCartTotal`) by exactly 1 |
| Cart.AddValueExisting | src/CartDemo.js:37-41 | adding a product already in the cart raises the value by that line's price |
| Cart.AddValueNew | src/CartDemo.js:43 | adding a product not in the cart raises the value by the product's price |
| Cart.AddValue | src/CartDemo.js:33-45 | `addToCart` raises the value by the existing line's price if there is one, else by the product's |
| Cart.AddPreserves | src/CartDemo.js:33-45 | `addToCart` keeps ids distinct and quantities ≥ 1 |
| Cart.Remove | src/CartDemo.js:48 | no line with the removed id is left |
| Cart.RemoveExact | src/CartDemo.js:47-49 | the result is a subsequence of the cart (order kept). It holds every line with a different id, as often as before, and nothing else |
| Cart.RemoveAbsent | src/CartDemo.js:47-49 | removing an id that no line carries is a no-op |
| Cart.RemoveIdempotent | src/CartDemo.js:47-49 | removing twice is removing once |
| Cart.RemoveAt | src/CartDemo.js:47-49 | with one line per id, removing an id deletes exactly its line and keeps all others in place |
| Cart.RemoveTotals | src/CartDemo.js:47-49 | removing a line lowers the unit count by its quantity and the value by its price × quantity |
| Cart.RemovePreserves | src/CartDemo.js:47-49 | `removeFromCart` keeps ids distinct and quantities ≥ 1 |
| Cart.Update | src/CartDemo.js:51-63 | the `updateQuantity` update; characterised by `UpdateNonPositive`, `UpdateExisting` and `UpdateAbsent`, with `UpdateTotals` and `UpdatePreserves` |
| Cart.SetQuantity | src/CartDemo.js:56-62 | every line with the id gets quantity exactly q; every other line, the length and the order stay |
| Cart.UpdateNonPositive | src/CartDemo.js:52-55 | a quantity ≤ 0 gives exactly the list `removeFromCart` gives |
| Cart.UpdateExisting | src/CartDemo.js:56-62 | with one line per id and q > 0, only that line changes, and it holds quantity q |
| Cart.UpdateAbsent | src/CartDemo.js:51-63 | updating an id that no line carries is a no-op, whatever the quantity |
| Cart.UpdateTotals | src/CartDemo.js:56-62 | with q > 0 the unit count moves from the old quantity to q, and the value by price × the difference |
| Cart.UpdatePreserves | src/CartDemo.js:51-63 | `updateQuantity` keeps ids distinct and quantities ≥ 1 |
| Cart.Total | src/CartDemo.js:65-67 | `getCartTotal`: the left-fold sum of the quantities; see `EmptyCart`, `AddTotal`, `RemoveTotals`, `UpdateTotals`, `TotalAtLeastLines` and `CartStore.GetCartTotal` |
| Cart.Value | src/CartDemo.js:69-71 | `getCartValue`: the left-fold sum of price × quantity; see `EmptyCart`, `AddValue`, `RemoveTotals`, `UpdateTotals`, `ValueNonNegative` and `CartStore.GetCartValue` |
| Cart.EmptyCart | src/CartDemo.js:65-71 | both aggregates are 0 on the empty cart |
| Cart.TotalAtLeastLines | src/CartDemo.js:65-67 | a well-formed cart has at least as many units as lines |
| Cart.ValueNonNegative | src/CartDemo.js:69-71 | a well-formed cart with no negative prices has a value ≥ 0 |
| Cart.RunPreserves | src/CartDemo.js:33-63 | any sequence of the three mutators keeps the invariant |
| Cart.ReachableWellFormed | src/CartDemo.js:29-31 | every cart reachable from the seed cart is well formed |
| Cart.SeedScenario | src/CartDemo.js:29-31 | from the seed cart, adding the office PC (src/CartDemo.js:122) gives 2 units worth 1998. Then setting the gaming PC to 3 gives 4 units worth 4596 |
| Cart.CartStore.constructor | src/CartDemo.js:29-31 | the store starts with the one-line seed cart, which is well formed |
| Cart.CartStore.AddToCart | src/CartDemo.js:33-45 | the new list is `Add` of the old one, and the invariant is kept |
| Cart.CartStore.RemoveFromCart | src/CartDemo.js:47-49 | the new list is `Remove` of the old one, and the invariant is kept |
| Cart.CartStore.UpdateQuantity | src/CartDemo.js:51-63 | the new list is `Update` of the old one: a removal for q ≤ 0, otherwise the map. The invariant is kept |
| Cart.CartStore.GetCartTotal | src/CartDemo.js:65-67 | the accumulating loop returns the left-fold sum of the quantities |
| Cart.CartStore.GetCartValue | src/CartDemo.js:69-71 | the accumulating loop returns the left-fold sum of price × quantity |
| Blog.SeedCategories | src/BlogDemo.js:28-32 | Technology 15, Design 8, Programming 12, with ids 1-3; the store's initial categories |
| Blog.SeedTags | src/BlogDemo.js:34-39 | React 10, JavaScript 18, CSS 7, UI/UX 5, with ids 1-4; the store's initial tags |
| Blog.SeedPosts | src/BlogDemo.js:41-63 | the three posts with their categories and tags; see `SeedTechnologyPosts` and `SeedJavaScriptPosts` |
| Blog.PostsByCategory | src/BlogDemo.js:83-85 | a subsequence of the posts (order kept) whose every post has the category; every post with the category is in it, as often as in the posts |
| Blog.PostsByTag | src/BlogDemo.js:87-89 | a subsequence of the posts (order kept) whose every post lists the tag; every post listing the tag is in it, as often as in the posts |
| Blog.QueriesDetermined | src/BlogDemo.js:83-89 | those contracts have only one solution each: the queries' results |
| Blog.SeedTechnologyPosts | src/BlogDemo.js:41-85 | on the seed posts, the Technology query returns exactly post 1, "Getting Started with React Context API" |
| Blog.SeedJavaScriptPosts | src/BlogDemo.js:41-89 | on the seed posts, the JavaScript tag query returns exactly posts 1 and 3, in that order |
| Blog.AppendCategory | src/BlogDemo.js:65-72 | the `addCategory` update; characterised by `AppendCategoryFrame` and `AppendCategoryDuplicates` |
| Blog.AppendTag | src/BlogDemo.js:74-81 | the `addTag` update; characterised by `AppendTagFrame` and `AppendTagDuplicates` |
| Blog.AppendCategoryFrame | src/BlogDemo.js:65-72 | `addCategory` adds exactly one category, at the end, with the name, the given id and count 0. Every earlier one keeps its value and place |
| Blog.AppendCategoryDuplicates | src/BlogDemo.js:71 | there is no de-duplication: a name already present still lengthens the list, which then holds two categories of that name |
| Blog.AppendTagFrame | src/BlogDemo.js:74-81 | `addTag` adds exactly one tag, at the end, with the name, the given id and count 0. Every earlier one keeps its value and place |
| Blog.AppendTagDuplicates | src/BlogDemo.js:80 | there is no de-duplication of tag names either |
| Blog.ConfirmCategory | src/BlogDemo.js:211-217 | the effect of `handleAddCategory` on the categories; characterised by `ConfirmCategoryGuard` |
| Blog.ConfirmCategoryGuard | src/BlogDemo.js:211-217 | blank input leaves the categories as they were. For anything else, exactly the trimmed name is appended, and it has no whitespace at either end |
| Blog.BlogStore.constructor | src/BlogDemo.js:28-63 | the store starts with the three seed categories, the four seed tags and the three seed posts |
| Blog.BlogStore.AddCategory | src/BlogDemo.js:65-72 | the categories become `AppendCategory` of the old ones, and the tags stay |
| Blog.BlogStore.AddTag | src/BlogDemo.js:74-81 | the tags become `AppendTag` of the old ones, and the categories stay |
| Blog.HandleAddCategory | src/BlogDemo.js:211-217 | it adds exactly when the input is not all whitespace, and the categories become `ConfirmCategory` of the old ones. The tags stay, and the posts are a constant of the store |

## Left out

- All JSX/MUI rendering and the product cards are presentation only. So are the dialog's `open` flag and the clearing of its text field in `handleAddCategory` (src/BlogDemo.js:214-215). The model keeps only the list update.
- The `useCart`/`useBlog` guards that throw outside a provider (src/CartDemo.js:88-94, src/BlogDemo.js:107-113) are React context plumbing with no logic of their own.
- `Date.now()` as a category or tag id (src/BlogDemo.js:67, 77) reads the clock. The id is a parameter, and nothing is claimed about ids being unique (two adds within one millisecond collide).
- The `count` of categories and tags is a static seed number, never recomputed from the posts. New entries get 0, and no invariant ties counts to posts.
- Prices and quantities are unbounded integers, not JavaScript numbers (IEEE-754 doubles). This matches the seed data; rounding and precision loss on huge or fractional values are not modelled.
- `Cart.NewItem` keeps a product's id, name and price. The spread `{...product, quantity: 1}` also copies any other field the caller passes, such as the product cards' `description` (src/CartDemo.js:121-122).
- React's batching, re-rendering and subscriptions are not modelled. Each store is a sequential object whose field each operation replaces. In the source, `updateQuantity` with q ≤ 0 routes through `removeFromCart`'s updater; in the model it calls the store's own `RemoveFromCart`.
- `Text.Trim` works on Unicode scalar values. JavaScript strings are UTF-16 code units; every whitespace character `trim` strips is a single code unit, so the difference does not show in the guard.
- `getPostsByCategory` and `getPostsByTag` are module functions over a posts list rather than store methods. The store's `posts` is a constant, so passing `store.posts` gives the source's behaviour.
- src/App.js (a view toggle) and src/App.test.js (a DOM render test) are not part of this model.
