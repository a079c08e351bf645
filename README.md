# Teaching-page state rules, modelled in Dafny

The repository is a set of instructional Next.js pages about when an effect hook is
and is not needed. Four of the pages hold small, sequential state-update rules and
render-time derivations; this project models those and proves what they promise.

- `ButtonClickState` (`button_click_state.dfy`): the button-click page as a class
  whose fields are the page state (`count`, `name`, `items`, `newItem`,
  `isVisible`) and whose methods are the event handlers. The class invariant says
  that every stored item is non-blank and trimmed.
- `PropsCalculation` (`props_calculation.dfy`): the user-card derivations (full
  name, initials, adult flag, email domain) as functions; the shopping cart as a
  class whose `cartItems` sequence is replaced by `updateQuantity` and
  `removeItem`; item count, total and the guarded average price as functions.
- `RenderLogic` (`render_logic.dfy`): the filter, then sort, then stats pipeline.
  Both filters are pure `filter` expressions. The sort runs in place on a fresh
  array, as `Array.prototype.sort` does. The statistics and the stock badge are
  functions.
- `UseOptimistic` (`use_optimistic.dfy`): the `submitTitle` validator as a function
  returning a `Result`, and the page as a class. `handleSubmit` is split at its
  `await` into `StartSubmit` and `FinishSubmit`, so the pending state between the
  two can be observed. `HandleSubmit` runs both.
- Shared modules: `Text` (`trim`, `toLowerCase`, `toUpperCase`, `includes`,
  `split`), `Lists` (`filter` by a predicate and by index), `Averages` (the
  `n > 0 ? sum / n : 0` guard as an exact fraction) and `Wrappers` (Option and
  Result).

Numbers are unbounded integers. Prices are whole cents in the cart and whole dollars
in the product list. Ratings are tenths of a star (4.8 is 48). Averages are exact
fractions `num / den`, so no float rounding is modelled.

## Model

| member | source | states |
|---|---|---|
| `ButtonClickState.ButtonClickPage.constructor` | app/useeffect-showcase/button-click-state/page.tsx:7-11 | initial state: count 0, empty name, list and input, hidden; the item invariant holds |
| `ButtonClickState.ButtonClickPage.Increment` | app/useeffect-showcase/button-click-state/page.tsx:19-21 | count goes up by exactly 1; the frame `this`count` says no other field changes |
| `ButtonClickState.ButtonClickPage.Decrement` | app/useeffect-showcase/button-click-state/page.tsx:23-25 | count goes down by exactly 1, also below zero; no other field changes |
| `ButtonClickState.ButtonClickPage.Reset` | app/useeffect-showcase/button-click-state/page.tsx:27-29 | count becomes 0 from any state; no other field changes |
| `ButtonClickState.ButtonClickPage.HandleNameChange` | app/useeffect-showcase/button-click-state/page.tsx:32-34 | name becomes the typed text unchanged; nothing else changes |
| `ButtonClickState.ButtonClickPage.ClearName` | app/useeffect-showcase/button-click-state/page.tsx:36-38 | name becomes "" and nothing else changes |
| `ButtonClickState.ButtonClickPage.SetNewItem` | app/useeffect-showcase/button-click-state/page.tsx:165 | the item input holds the typed text, untrimmed; nothing else changes |
| `ButtonClickState.ButtonClickPage.AddItem` | app/useeffect-showcase/button-click-state/page.tsx:41-46 | input not all whitespace: its trim is appended after the earlier items, in order, and the input is cleared; otherwise list and input are unchanged; the trimmed non-blank invariant is kept |
| `ButtonClickState.ButtonClickPage.RemoveItem` | app/useeffect-showcase/button-click-state/page.tsx:48-50 | the list becomes `RemoveAt(old list, index)`: exactly that position deleted, or nothing for an out-of-range index; the invariant is kept |
| `ButtonClickState.ButtonClickPage.ToggleVisibility` | app/useeffect-showcase/button-click-state/page.tsx:52-54 | visibility is negated; no other field changes |
| `ButtonClickState.IncrementThenDecrement` | app/useeffect-showcase/button-click-state/page.tsx:19-25 | "+1" then "-1" restores the count and leaves every other field unchanged |
| `ButtonClickState.ToggleTwice` | app/useeffect-showcase/button-click-state/page.tsx:52-54 | toggling twice is the identity on the page state |
| `ButtonClickState.StoredItemIsOwnTrim` | app/useeffect-showcase/button-click-state/page.tsx:42-43 | a stored item is not blank and trimming it gives it back, so `addItem` stores fixed points of `trim` |
| `Text.Trim` | app/useeffect-showcase/button-click-state/page.tsx:42-43 | the result is a slice of the input with only whitespace cut off either end; it is empty iff the input is all whitespace; otherwise both its ends are non-whitespace |
| `Text.TrimOfTrimmed` | app/useeffect-showcase/button-click-state/page.tsx:43 | trimming text with no whitespace at either end gives it back |
| `Text.TrimIdempotent` | app/useeffect-showcase/button-click-state/page.tsx:42-43 | `trim(trim(s)) == trim(s)` |
| `Text.LeadingEnd` | app/useeffect-showcase/button-click-state/page.tsx:42 | the index where leading whitespace ends: everything before it is whitespace and the character at it is not |
| `Text.TrailingStart` | app/useeffect-showcase/button-click-state/page.tsx:42 | the index where trailing whitespace starts: everything from it is whitespace and the character before it is not |
| `Text.ToLower` | app/useeffect-showcase/render-logic/page.tsx:51 | same length; each upper-case ASCII letter becomes its lower-case letter (code + 32); every other character is kept |
| `Text.ToUpper` | app/useeffect-showcase/props-calculation/page.tsx:25 | same length; each lower-case ASCII letter becomes its upper-case letter (code - 32); every other character is kept |
| `Text.LowerOfUpper` | app/useeffect-showcase/render-logic/page.tsx:51 | lower-casing after upper-casing is the same as lower-casing alone, so case is lost on both sides of the search |
| `Text.Includes` | app/useeffect-showcase/render-logic/page.tsx:51 | `includes`: a string occurs only in one at least as long, and the empty string occurs in every string |
| `Text.Split` | app/useeffect-showcase/props-calculation/page.tsx:27 | at least one piece; no piece holds the separator; joining the pieces gives back the input; a single piece iff the input has no separator |
| `Text.SplitJoin` | app/useeffect-showcase/props-calculation/page.tsx:27 | splitting the join of separator-free pieces gives back those pieces (the other half of the round trip) |
| `Text.SplitAfterFirst` | app/useeffect-showcase/props-calculation/page.tsx:27 | a separator-free head followed by the separator splits off as the first piece |
| `Text.SplitFirstPiece` | app/useeffect-showcase/props-calculation/page.tsx:27 | the first piece ends at the first separator or at the end |
| `Text.JoinShape` | app/useeffect-showcase/props-calculation/page.tsx:27 | the join of the pieces begins with the first piece; it runs past it, with the separator next, exactly when there is more than one piece |
| `Lists.Filter` | app/useeffect-showcase/render-logic/page.tsx:50-57 | every kept element passes; each element that passes is kept exactly as often as it occurs, every other is dropped |
| `Lists.FilterConcat` | app/useeffect-showcase/render-logic/page.tsx:50-57 | filtering keeps the order: the filter of two joined lists is the filter of the first followed by the filter of the second |
| `Lists.FilterLength` | app/useeffect-showcase/render-logic/page.tsx:77-78 | the filter has exactly one element per position whose element passes |
| `Lists.FilterKeepsAll` | app/useeffect-showcase/render-logic/page.tsx:50-52 | a filter that every element passes returns the whole list |
| `Lists.FilterComplement` | app/useeffect-showcase/render-logic/page.tsx:77-78 | the lengths of the filter by a predicate and by its negation add up to the list length |
| `Lists.RemoveAt` | app/useeffect-showcase/props-calculation/page.tsx:124-126 | `filter((_, i) => i !== index)`: for an index in range, exactly that position is deleted and the order is kept; otherwise the list is unchanged |
| `Lists.RemoveAtSubset` | app/useeffect-showcase/button-click-state/page.tsx:48-50 | removal introduces no new element |
| `Averages.Average` | app/useeffect-showcase/props-calculation/page.tsx:69 | the denominator is never 0; the value is 0 when the count is 0; otherwise it equals sum / count |
| `PropsCalculation.FullName` | app/useeffect-showcase/props-calculation/page.tsx:24 | the first name, then one space, then the last name |
| `PropsCalculation.FullNameSplits` | app/useeffect-showcase/props-calculation/page.tsx:24 | for names without spaces, splitting the full name at the space gives back both names |
| `PropsCalculation.FirstOrUndefined` | app/useeffect-showcase/props-calculation/page.tsx:25 | `${s[0]}`: the first character of a non-empty name, the text "undefined" for an empty one |
| `PropsCalculation.Initials` | app/useeffect-showcase/props-calculation/page.tsx:25 | the whole result in all four cases: two non-empty names give their two upper-cased first letters; an empty name puts "UNDEFINED" in its place, before or after the other initial |
| `PropsCalculation.UpperOfFirst` | app/useeffect-showcase/props-calculation/page.tsx:25 | one name's share of the initials: its upper-cased first letter, or "UNDEFINED" for an empty name |
| `PropsCalculation.IsAdult` | app/useeffect-showcase/props-calculation/page.tsx:26 | adult iff age >= 18 |
| `PropsCalculation.EmailDomain` | app/useeffect-showcase/props-calculation/page.tsx:27 | absent iff the email has no '@'; a present domain contains no '@' |
| `PropsCalculation.EmailDomainOf` | app/useeffect-showcase/props-calculation/page.tsx:27 | the domain is the text after the first '@' up to the next '@' or the end |
| `PropsCalculation.ItemCount` | app/useeffect-showcase/props-calculation/page.tsx:68 | never negative when no quantity is negative; 0 for the empty cart |
| `PropsCalculation.ItemCountZero` | app/useeffect-showcase/props-calculation/page.tsx:68 | with no negative quantity, the count is 0 iff every quantity is 0 |
| `PropsCalculation.ItemCountConcat` | app/useeffect-showcase/props-calculation/page.tsx:68 | the count of two joined lists is the sum of their counts |
| `PropsCalculation.ItemCountAfterUpdate` | app/useeffect-showcase/props-calculation/page.tsx:118-122 | setting a line's quantity changes the count by the new quantity minus the old one |
| `PropsCalculation.ItemCountAfterRemove` | app/useeffect-showcase/props-calculation/page.tsx:124-126 | removing a line lowers the count by exactly its quantity |
| `PropsCalculation.Total` | app/useeffect-showcase/props-calculation/page.tsx:64-66 | 0 for the empty cart; never negative when no price or quantity is |
| `PropsCalculation.AveragePrice` | app/useeffect-showcase/props-calculation/page.tsx:64-69 | no division by zero; 0 when the count is 0; otherwise total / count |
| `PropsCalculation.WithQuantity` | app/useeffect-showcase/props-calculation/page.tsx:119-121 | same length; the chosen line keeps name and price and gets max(0, q); every other line is unchanged; an out-of-range index changes nothing |
| `PropsCalculation.CartPage.constructor` | app/useeffect-showcase/props-calculation/page.tsx:112-116 | the three sample lines, no negative quantity |
| `PropsCalculation.CartPage.UpdateQuantity` | app/useeffect-showcase/props-calculation/page.tsx:118-122 | the cart becomes `WithQuantity(old, index, q)` and stays free of negative quantities; an out-of-range index leaves it unchanged |
| `PropsCalculation.CartPage.RemoveItem` | app/useeffect-showcase/props-calculation/page.tsx:124-126 | the cart becomes `RemoveAt(old, index)` |
| `PropsCalculation.CartPage.DecreaseQuantity` | app/useeffect-showcase/props-calculation/page.tsx:236 | "-" is `updateQuantity(index, quantity - 1)`: the cart becomes `WithQuantity(old, index, old quantity - 1)`, so the quantity drops by one but not below 0, and a line at 0 stays in the cart unchanged |
| `PropsCalculation.CartPage.IncreaseQuantity` | app/useeffect-showcase/props-calculation/page.tsx:243 | "+" raises the quantity by exactly one |
| `RenderLogic.MatchesSearch` | app/useeffect-showcase/render-logic/page.tsx:50-52 | a match needs a name at least as long as the term; the empty term matches every product |
| `RenderLogic.SearchIgnoresCase` | app/useeffect-showcase/render-logic/page.tsx:51 | upper-casing the search term or the product name changes no match |
| `RenderLogic.Shown` | app/useeffect-showcase/render-logic/page.tsx:50-57 | with the switch off a product is shown iff it matches the term; with it on, iff it matches and is in stock |
| `RenderLogic.CompareNames` | app/useeffect-showcase/render-logic/page.tsx:63 | the result is -1, 0 or 1, and 0 iff the names are equal |
| `RenderLogic.CompareNamesFlip` | app/useeffect-showcase/render-logic/page.tsx:63 | swapping the names negates the comparison |
| `RenderLogic.CompareNamesTransitive` | app/useeffect-showcase/render-logic/page.tsx:63 | the name order is transitive |
| `RenderLogic.Compare` | app/useeffect-showcase/render-logic/page.tsx:60-71 | by price: `a` may precede `b` iff it is no dearer; by rating: iff it is rated no lower; by name: 0 iff the names are equal |
| `RenderLogic.CompareTotal` | app/useeffect-showcase/render-logic/page.tsx:60-71 | if `a` does not belong before `b`, then `b` belongs before `a` |
| `RenderLogic.CompareTransitive` | app/useeffect-showcase/render-logic/page.tsx:60-71 | the comparator's order is transitive for each sort key |
| `RenderLogic.SortedPairwise` | app/useeffect-showcase/render-logic/page.tsx:60-71 | sorted neighbour by neighbour implies in order between any two positions |
| `RenderLogic.SortedMeaning` | app/useeffect-showcase/render-logic/page.tsx:64-67 | by price: non-decreasing price; by rating: non-increasing rating; by name: names in order |
| `RenderLogic.SortInPlace` | app/useeffect-showcase/render-logic/page.tsx:60-71 | the array ends up sorted by the key, and it is a permutation of the array it started as |
| `RenderLogic.InsertIntoPrefix` | app/useeffect-showcase/render-logic/page.tsx:60 | one insertion step: a sorted prefix of length i becomes a sorted prefix of length i + 1, and the contents are a permutation of the old ones |
| `RenderLogic.SwapNeighbours` | app/useeffect-showcase/render-logic/page.tsx:60 | exchanges two neighbours and moves nothing else |
| `RenderLogic.FilteredAndSortedProducts` | app/useeffect-showcase/render-logic/page.tsx:48-72 | every result matches the term (and is in stock when the switch is on); every such product is kept, as often as it occurs; nothing else is kept; the result is sorted; no duplicates in, none out; an empty term without the switch keeps everything |
| `RenderLogic.SumPrices` | app/useeffect-showcase/render-logic/page.tsx:81 | 0 for no products; never negative when no price is |
| `RenderLogic.SumRatings` | app/useeffect-showcase/render-logic/page.tsx:86 | 0 for no products; never negative when no rating is |
| `RenderLogic.StockCounts` | app/useeffect-showcase/render-logic/page.tsx:77-78 | `filter(p => p.inStock).length` counts the positions holding a product in stock; likewise for out of stock |
| `RenderLogic.Stats` | app/useeffect-showcase/render-logic/page.tsx:75-89 | total is the length; in stock is the number of positions holding a product in stock and out of stock the number holding one out of stock, adding up to the total; both averages are 0 for an empty list and otherwise sum / total |
| `RenderLogic.StockBadgeClass` | app/useeffect-showcase/render-logic/page.tsx:92-96 | the green class iff in stock, the red class iff not |
| `UseOptimistic.SubmitTitle` | app/react-19-hooks/use-optimistic/page.tsx:6-14 | rejects exactly "error" (case-sensitive) with `Title cannot be "error"`; any other title, "" included, comes back unchanged |
| `UseOptimistic.OptimisticPage.constructor` | app/react-19-hooks/use-optimistic/page.tsx:17-20 | title and shown title "Title", no error, empty history |
| `UseOptimistic.OptimisticPage.Pending` | app/react-19-hooks/use-optimistic/page.tsx:21 | `pending` is true exactly while the shown title differs from the accepted one |
| `UseOptimistic.OptimisticPage.StartSubmit` | app/react-19-hooks/use-optimistic/page.tsx:21-26 | clears the error and shows the new title; pending iff the new title differs from the accepted one, so resubmitting the current title is never pending |
| `UseOptimistic.OptimisticPage.FinishSubmit` | app/react-19-hooks/use-optimistic/page.tsx:27-33 | success: title is the new value, prepended to the unchanged older history; failure: title and history unchanged, error holds the message; afterwards nothing is pending; history never holds "error" |
| `UseOptimistic.OptimisticPage.HandleSubmit` | app/react-19-hooks/use-optimistic/page.tsx:23-34 | success ends with no error, the new title, and history one longer; failure ends with the message and title and history unchanged |

## Left out

- The JSX markup, CSS class strings other than the stock badge, `toFixed` formatting, `formatPrice`, `formatRating`, links and headings are not modelled. They carry no state rule.
- Floating point is not modelled. Prices and ratings are integers in cents, dollars or tenths. Totals and averages are exact fractions, not rounded doubles.
- JavaScript numbers are doubles, but the counter and quantities are unbounded integers here. The loss of precision past 2^53 is not modelled.
- `Text.ToLower` and `Text.ToUpper` map ASCII letters only. The full Unicode case mapping of `toLowerCase`/`toUpperCase` is not modelled.
- `Text.Trim` uses the ECMAScript whitespace and line-terminator set on code points. JavaScript strings are UTF-16 code units, so surrogate pairs are not modelled.
- `RenderLogic.CompareNames` compares names code point by code point. `localeCompare`'s locale collation is not modelled.
- `RenderLogic.SortInPlace` is an insertion sort. It is proved sorted and a permutation. Stability, which `Array.prototype.sort` guarantees, is not stated.
- The user-form `onChange` handlers of the props-calculation page are not modelled, including `parseInt(...) || 0` for the age. `UserCard`'s inputs are taken as given.
- `PropsCalculation.Total` states only that it is 0 for an empty cart and never negative for non-negative prices and quantities, besides its use in `AveragePrice`. The `useMemo` caching is not modelled.
- React runtime semantics are not modelled: setState batching, render scheduling, and when exactly `useOptimistic` drops the optimistic value. `FinishSubmit` drops it as soon as the submission settles.
- The 1-second simulated server delay and the `await` are not modelled. The submission is modelled as the two steps around the `await`.
- The disabled state of the "Update" button while pending is not modelled as a precondition. Submissions are modelled from any state.
- `FormData.get('title')` returning null is not modelled. The form always has a `title` input, so the title is taken as a string.
- Pages other than these four are not part of this model: API fetching, browser events, subscriptions, external state, the index page and the footer link. They consist of network I/O, timers, DOM listeners, `localStorage` and URL sync, or static markup.
