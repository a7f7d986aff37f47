# Paginated content grid: a Dafny model of its loading and interaction core

The system is a single Next.js page that shows a grid of content cards. It fetches pages of
items from a backend one after another, as the user scrolls towards a sentinel element at the
bottom of the grid. It appends every fetched page to one growing list and stops asking for pages
once a fetched page reports that it is the last one. The user can filter the list by name with a
case-insensitive search, and can move between cards with the arrow keys.

The model has six modules:

- `Wrappers` (wrappers.dfy): `Option`. In this model `None` stands for a JavaScript NaN or
  infinity, and for "no load outstanding".
- `Interfaces` (interfaces.dfy): the records `ContentItem` and `PageItem` of
  `src/app/common/interfaces.ts`. The page document's two counts remain strings, as they are
  in the source.
- `JsBuiltins` (js_builtins.dfy): the JavaScript built-ins that the helpers call.
  - `ParseInt` follows the ECMAScript algorithm for `parseInt` with no radix. It skips leading
    white space, reads an optional sign and switches to radix 16 after a `0x` prefix. It then
    reads the longest run of digits, and gives `None` (NaN) when there are none.
  - `DecimalString` writes the plain decimal numeral of a number (what `String(n)` gives below
    10^21). `ParseInt` reads back every
    numeral that `DecimalString` writes; the converse does not hold, since `" 7"`, `"07"`,
    `"+7"` and `"7px"` all read as 7.
  - `ToLowerCase` and `Includes`. `Includes` is proved equal to "occurs at some position".
- `Utils` (utils.dfy): `getTotalPageCount`, `getFilteredItems` and `getNextIndex` from
  `src/app/common/utils.ts`.
  - `Math.ceil(a / b)` becomes the integer ceiling `CeilDiv`.
  - A NaN or infinite quotient becomes `None`. Neither can equal a page number.
- `Paging` (paging.dfy): the paging behaviour of `src/app/page.tsx` as a state machine over
  values.
  - The state holds `page`, `content`, `isFinalPage`, `title`, and the load the effect has
    started but not yet settled.
  - The events are: the sentinel triggers, the load succeeds with a page document, the load fails.
  - `Step` applies one event, then re-runs React's load effect if one of its dependencies
    (`page`, `isFinalPage`) changed.
  - `Run` applies a sequence of events. The lemmas about `Run` cover whole runs.
- `Page` (page.dfy):
  - the class `HomePage`, whose fields are the page's state variables. Each event handler is a
    method, and each paging method's contract ties the new state to `Paging.Step`.
  - the column-count rule, the keyboard handler and the scroll-to-top threshold.

A reader might expect the page number to follow successful loads, a failed page to be
retried, and a zero total to be final at once. The code does none of these, and the model
follows the code:

- `page` is advanced by the intersection trigger, not by a successful load.
- A failed load is not retried. The next trigger asks for the next page, so the failed page's
  items never arrive (`Paging.FailedPageIsNotRetried`).
- The title is taken over from every loaded page whose title differs, not only from page 1.
- A total of `"0"` items gives 0 pages. That never equals a page number, so the flag stays
  false (`Paging.ZeroTotalIsNeverFinal`).
- The code has no guard against a second load while one is in flight. This model settles loads
  one at a time (see "Left out").

## Model

| member | source | states |
|---|---|---|
| `JsBuiltins.ParseInt` | src/app/common/utils.ts:29 | `parseInt` with no radix; its contract is carried by `TrimStart`, `DigitRun`, `ParseIntOfDecimalString`, `ParseIntOfNegativeDecimalString`, `ParseIntSkipsWhiteSpace` and `ParseIntOfNoDigits` |
| `JsBuiltins.DecimalString` | src/app/common/utils.ts:29 | the numeral a count is written as in the page document: non-empty, digits only, no leading zero; `ParseIntOfDecimalString` reads it back |
| `JsBuiltins.ToLowerCase` | src/app/common/utils.ts:40 | `toLowerCase` on ASCII letters; see `ToLowerCaseIdempotent` and `ToLowerCaseOfUpperCase` |
| `JsBuiltins.Includes` | src/app/common/utils.ts:40 | `includes`; `IncludesIffOccurs` proves it equal to "occurs at some position", and `IncludesEmpty` covers the empty search string |
| `JsBuiltins.TrimStart` | src/app/common/utils.ts:29 | parseInt's first step drops exactly the leading white space: what remains is a suffix that starts with no white space, and everything dropped was white space |
| `JsBuiltins.DigitRun` | src/app/common/utils.ts:29 | the digits parseInt reads are the longest prefix made of radix digits: every character before the end is a digit, the one at the end is not |
| `JsBuiltins.ParseIntOfDecimalString` | src/app/common/utils.ts:29 | parseInt reads back every decimal numeral of a natural number: `ParseInt(DecimalString(n)) == Some(n)` |
| `JsBuiltins.ParseIntOfNegativeDecimalString` | src/app/common/utils.ts:29 | with a leading minus sign parseInt gives the negated number |
| `JsBuiltins.ParseIntSkipsWhiteSpace` | src/app/common/utils.ts:29 | leading white space does not change parseInt's result |
| `JsBuiltins.ParseIntOfNoDigits` | src/app/common/utils.ts:29 | a string with no decimal digit in it (so also no `0x` prefix) parses to NaN (`None`) |
| `JsBuiltins.DigitsValueOfDecimalString` | src/app/common/utils.ts:29 | the digits of `DecimalString(n)` denote `n` |
| `JsBuiltins.ToLowerCaseIdempotent` | src/app/common/utils.ts:40 | lower-casing twice is lower-casing once |
| `JsBuiltins.ToLowerCaseOfUpperCase` | src/app/common/utils.ts:40 | upper-casing a string first does not change its lower-case form |
| `JsBuiltins.IncludesIffOccurs` | src/app/common/utils.ts:40 | `includes` is true exactly when the search string occurs at some position: both directions |
| `JsBuiltins.IncludesEmpty` | src/app/common/utils.ts:40 | every string includes the empty string |
| `Utils.CeilDiv` | src/app/common/utils.ts:29 | `(q-1)*b < a <= q*b` for a positive divisor, and the mirror image for a negative one: the quotient rounded up |
| `Utils.CeilDivIsLeast` | src/app/common/utils.ts:29 | no integer below the rounded-up quotient reaches the total when multiplied by a positive divisor |
| `Utils.GetTotalPageCount` | src/app/common/utils.ts:25-30 | there is a count exactly when both strings parse and the page size is not zero; with a positive page size the count is the total divided by the page size, rounded up |
| `Utils.TotalPageCountOfNumerals` | src/app/common/utils.ts:25-30 | on decimal numerals with a positive page size the count is the least `n` with `n * perPage >= total` |
| `Utils.TotalPageCountOfZeroPageSize` | src/app/common/utils.ts:29 | a page size of `"0"` gives no count |
| `Utils.TotalPageCountOfZeroTotal` | src/app/common/utils.ts:29 | a total of `"0"` never gives a page number from 1 up |
| `Utils.TotalPageCountExample` | src/app/common/utils.ts:25-30 | `"45"` items at `"20"` per page give 3 pages |
| `Utils.Matches` | src/app/common/utils.ts:40 | the filter's callback: the lower-cased name includes the lower-cased key; its contract is carried by `GetFilteredItems` (kept exactly when it matches) and `FilteredItemsCaseInsensitive` |
| `Utils.GetFilteredItems` | src/app/common/utils.ts:39-40 | never more items than given; every kept item is one of the given items and matches; every given item that matches is kept |
| `Utils.FilteredItemsIsSubsequence` | src/app/common/utils.ts:39-40 | the result is a subsequence of the items, so the relative order is kept |
| `Utils.FilteredItemsAppend` | src/app/common/utils.ts:39-40 | filtering distributes over concatenation, so the result is fixed item by item and in order |
| `Utils.FilteredItemsEmptyKey` | src/app/common/utils.ts:40 | an empty search key returns the items unchanged |
| `Utils.FilteredItemsIdempotent` | src/app/common/utils.ts:39-40 | filtering the result again with the same key changes nothing |
| `Utils.FilteredItemsCaseInsensitive` | src/app/common/utils.ts:33-40 | two keys with the same lower-case form select the same items |
| `Utils.FilteredItemsIgnoresKeyCase` | src/app/common/utils.ts:33-40 | a key in capitals selects the same items as the key itself |
| `Utils.FilteredItemsExample` | src/app/common/utils.ts:39-40 | "aven" finds "Avengers" and "zzz" finds nothing |
| `Utils.GetNextIndex` | src/app/common/utils.ts:60-81 | the delta table of the switch: one right or left, one row down or up, otherwise unchanged; see `NextIndexOppositeArrows`, `NextIndexOtherKeys`, `NextIndexDelta` and `NextIndexExamples` |
| `Utils.NextIndexOppositeArrows` | src/app/common/utils.ts:66-79 | down then up, up then down, right then left and left then right each return to the start index |
| `Utils.NextIndexOtherKeys` | src/app/common/utils.ts:65-80 | a key other than the four arrows leaves the index unchanged |
| `Utils.NextIndexDelta` | src/app/common/utils.ts:65-80 | every key moves the index by 0, 1, -1, columnCount or -columnCount, and only an arrow key moves it |
| `Utils.NextIndexExamples` | src/app/common/utils.ts:60-81 | no clamping or wrap-around: down from 2 in three columns is 5; up from 2 and left from 0 give -1; Enter keeps 4 |
| `Paging.LoadEffect` | src/app/page.tsx:58-62 | the effect body: a load of the current page starts unless the final page was reached; see `InitialLoadsPageOne`, `TriggerStep` and `FinalPageIsAbsorbing` |
| `Paging.AfterRender` | src/app/page.tsx:62 | the effect runs again only when `page` or `isFinalPage` changed; so neither a success nor a failure starts another load (`SucceededStep`, `FailedStep`), while a trigger always does unless final (`TriggerStep`) |
| `Paging.IsFinalPageFor` | src/app/page.tsx:43-47 | `getTotalPageCount(...) === pageNum`; see `SucceededStep` (the new flag) and `ZeroTotalIsNeverFinal` (a "0" total is never final) |
| `Paging.Step` | src/app/page.tsx:35-73 | one event with the render after it: the setter sequences of `loadPage` and of the observer callback; its contract is carried by `StepKeepsInvariant`, `TriggerStep`, `SucceededStep`, `FailedStep` and `StepContent` |
| `Paging.Run` | src/app/page.tsx:35-73 | a sequence of events applied in order; see `RunKeepsInvariant`, `ContentIsLoadedItems`, `PageCountsTriggers`, `FinalPageIsAbsorbing`, `FailedPageIsNotRetried` and `ThreePageRun` |
| `Paging.Initial` | src/app/page.tsx:18-23 | the state after mounting satisfies the paging invariant |
| `Paging.InitialLoadsPageOne` | src/app/page.tsx:58-62 | after mounting, `page = 1`, `content = []`, `isFinalPage = false`, `title = ""`, and page 1 is being loaded |
| `Paging.StepKeepsInvariant` | src/app/page.tsx:35-73 | every event keeps the invariant: page numbers stay at or above 1, and an outstanding load is for the current page and was issued before the final page |
| `Paging.TriggerStep` | src/app/page.tsx:69-73 | a trigger increments `page` by exactly one, final or not; it loads the new page exactly when the final page has not been reached; nothing else changes |
| `Paging.SucceededStep` | src/app/page.tsx:40-48 | a successful load appends the page's items in order, so the length grows by the page's item count; it takes over the page's title; it sets `isFinalPage` to whether the page count equals the loaded page number; it starts no other load |
| `Paging.FailedStep` | src/app/page.tsx:49-51 | a failed load leaves `page`, `content`, `title` and `isFinalPage` as they were |
| `Paging.StepContent` | src/app/page.tsx:48 | a successful load adds its page's items to `content`; a trigger and a failure add nothing |
| `Paging.ZeroTotalIsNeverFinal` | src/app/page.tsx:43-47 | a page that reports `"0"` items in total does not set `isFinalPage` |
| `Paging.RunKeepsInvariant` | src/app/page.tsx:35-73 | every run of events keeps the invariant |
| `Paging.ContentIsLoadedItems` | src/app/page.tsx:48 | over any run, `content` is the old content followed by the items of each successful load in order: append-only |
| `Paging.PageCountsTriggers` | src/app/page.tsx:71 | over any run, `page` grows by the number of triggers and by nothing else |
| `Paging.FinalPageIsAbsorbing` | src/app/page.tsx:58-62 | once `isFinalPage` is true, no load is issued again, and `isFinalPage`, `content` and `title` keep their values under any further events |
| `Paging.FailedPageIsNotRetried` | src/app/page.tsx:49-71 | after a failed load of page n, `page` never falls below n, and every later load asks for a page after n |
| `Paging.NoLoadAtOrBelow` | src/app/page.tsx:58-71 | once every outstanding load is above n and `page` is at least n, this stays true for any run |
| `Paging.RunFirst` | src/app/page.tsx:35-73 | a run that starts with an enabled event is that event followed by the rest of the run |
| `Paging.ThreePageRun` | src/app/page.tsx:35-73 | with 20, 20 and 5 items on pages whose counts give 3 pages, pages 1 and 2 are not final, page 3 is, and the content is the 45 items in page order |
| `Page.ColumnCount` | src/app/page.tsx:91-92 | the count is positive; it is 3 exactly when the window is narrower than tall, and 5 otherwise |
| `Page.HandleKeyDown` | src/app/page.tsx:98-117 | focus moves only if a card had the focus and the next index lies within the focusable cards, and then it moves to that index; otherwise the key is ignored |
| `Page.KeyDownWithoutFocus` | src/app/page.tsx:102-107 | with no focused card every key is ignored |
| `Page.KeyDownMovesAreReversible` | src/app/page.tsx:109-113 | after a row down that was taken, a row up returns the focus to the starting card; after a step right that was taken, a step left does the same |
| `Page.KeyDownAtTheEdges` | src/app/page.tsx:109-114 | up or left from the first card and right from the last card are ignored, not clamped or wrapped |
| `Page.KeyDownOtherKeyOnCard` | src/app/page.tsx:109-114 | a non-arrow key pressed on a focused card keeps the focus there and suppresses the key's default action |
| `Page.HomePage.constructor` | src/app/page.tsx:18-25 | the initial state values, then the effect's first run asks for page 1; 5 columns; nothing shown yet |
| `Page.HomePage.RunLoadEffect` | src/app/page.tsx:58-62 | a load of the current page is started exactly when a dependency changed and the final page has not been reached |
| `Page.HomePage.Trigger` | src/app/page.tsx:69-73 | the new state is `Step(old, Triggered)`: `page` is one more, a load of the new page starts unless final, and nothing else changes |
| `Page.HomePage.LoadSucceeded` | src/app/page.tsx:35-48 | the new state is `Step(old, Succeeded(pageData))`: the title, the appended content and the recomputed final flag, with no further load |
| `Page.HomePage.LoadFailed` | src/app/page.tsx:49-51 | the new state is `Step(old, Failed)`: only the outstanding load is cleared |
| `Page.HomePage.FilteredContent` | src/app/page.tsx:90 | the items the grid shows: the loaded items that match the search key, with the properties of `Utils.GetFilteredItems` |
| `Page.HomePage.Columns` | src/app/page.tsx:91-92 | `columnCount` from the window size held in the fields; the constructor gives 5 and `Resize` gives 3 exactly when the new width is below the new height |
| `Page.HomePage.SetSearchKey` | src/app/page.tsx:21 | the grid then shows the loaded items that match the new key |
| `Page.HomePage.Resize` | src/app/page.tsx:81-88 | the window size is recorded and the column count follows it |
| `Page.HomePage.ToggleVisible` | src/app/page.tsx:122-129 | the scroll-to-top button is visible exactly when the scroll offset is above 300 |

## Left out

- Network and parsing. `fetch` and `res.json()` (src/app/page.tsx:37-39) are not modelled. A load is an abstract outcome: success with a `PageItem`, or failure.
- Page.HomePage.Trigger: requires that no load is outstanding. The model settles each load before the next event arrives. The code lets several `loadPage` calls be in flight, and they append in completion order; the model does not cover that. This is the usual case at mount: `observer.observe` (src/app/page.tsx:74) reports the sentinel's state at once, the grid is still empty so the sentinel is in view, and `setPage(2)` normally runs while page 1 is still loading. The page order of `Paging.ContentIsLoadedItems` and the "no load after the final page" of `Paging.FinalPageIsAbsorbing` hold only under the one-load-at-a-time rule.
- Listener plumbing. The model leaves out the registration and teardown of the IntersectionObserver, resize, keydown and scroll listeners (src/app/page.tsx:68-88, 134-142). It also leaves out the `isIntersecting` test: `Trigger` is the callback for an intersecting entry.
- DOM focus lookup. `querySelectorAll`, `document.activeElement` and `focus()` are replaced by values: the focused card's index (-1 for none) and the number of focusable cards go in, and a `KeyOutcome` comes out.
- `scrollToTop` is not modelled: it is a `window.scrollTo` call.
- `getPageURL` and `getImgURL` are not modelled: they depend on `API_BASE` from src/app/common/constants.ts, which is not part of this model.
- src/app/components/header.tsx is rendering only. The model does not include its rule that closing the search box clears the search key (header.tsx:53-56).
- src/app/components/contentCard.tsx (image fallback) and src/app/layout.tsx (fonts, metadata) are presentation only.
- JSX and CSS grid rendering, including the "No results found" message.
- Floating point. Division and `Math.ceil` are exact integer arithmetic, and every NaN or infinity becomes `None`. Two things are not modelled:
  - the rounding of numerals beyond 2^53;
  - the distinction of -0.
- JsBuiltins.ToLowerCase: lower-cases the ASCII letters only. Full Unicode case mapping, including mappings that change the length of a string, is not modelled.
- JsBuiltins.ParseInt: treats a string as a sequence of Unicode scalar values, where JavaScript uses UTF-16 code units. The difference cannot matter to the characters parseInt inspects.
- `title` in `loadPage` is compared with the value captured when the effect ran. Under the one-load-at-a-time model that is the current title.
