# Wishlist page: search, pagination, theme and site menu

This project models the browser script of a book wishlist page
(`script.js`). The page loads a JSON list of wishlist entries (author,
title, location, priority) and shows them as a table. A search box filters
the table, a page-size menu splits it into pages, and previous/next
buttons move between pages. Two small independent widgets sit beside the
table: a light/dark theme toggle and a site-switcher drop-down menu.

The model has these modules:

- `Optional` (`optional.dfy`): a value that may be missing, such as an
  absent property, DOM attribute or storage key.
- `Text` (`text.dfy`): the string primitives the page relies on.
  - `String.prototype.trim`, with the full ECMAScript white-space set.
  - Lower-casing, ASCII only.
  - `String.prototype.includes`.
  - The decimal numerals a template literal prints for an integer.
  - `Number()` applied to a form value.
- `Search` (`search.dfy`): the entry record and the query normalization.
  - The filter behind `getCurrentDataset`, proved order-preserving and exact.
  - The count label above the table.
- `Paging` (`paging.dfy`): the page-size setting, i.e. `'all'` or a number.
  - `Number(x) || 100` and `Math.ceil`.
  - The page count `max(1, ceil(n / size))`.
  - `Array.prototype.slice`, including negative indices.
  - `getPageItems`, with lemmas that pages cover the list, are never longer than the size, and are empty exactly past the last page.
- `Page` (`page.dfy`): the class `WishlistPage`.
  - It holds the shared `state` record: entries, page size, current page and search text.
  - It also holds the page elements the handlers write: count label, page indicator, button states, table, synchronisation line and status line.
  - It has one method per handler: `getCurrentDataset`, `updatePaginationControls`, `renderTables`, `onPrevPage`, `onNextPage`, the search input handler, `onPageSizeChange` and `loadData`.
  - `Settled()` states `1 <= currentPage <= totalPages` for the filtered list. Every handler keeps it, and it holds after a search, a page-size change or a successful load.
- `Theme` (`theme.dfy`): `applyTheme`, `toggleTheme` and `initTheme` over the root element's `data-theme` attribute and the stored choice.
- `Menu` (`menu.dfy`): the class `SiteSwitcher` with `openMenu`, `closeMenu` and `toggleMenu`.
  - It also covers the click and keydown handlers of the toggle and of the document.
  - `aria-expanded` mirrors `is-open` after every event that changes anything.
- `Scenarios` (`scenarios.dfy`): two worked scenarios on a two-entry list, one paging one entry at a time and one searching for an author.

`renderTables` keeps the order of the script. It takes the page's entries
with the current page as it stood on entry, and only afterwards do the
pagination controls lower the page if it is past the last one. So
`RenderTables` is specified by `RenderedFrom(old(currentPage))`. From a
settled state no lowering happens, and a non-empty list always shows a
non-empty page. Every handler keeps the state settled.

The page size is kept as the script keeps it. The menu offers a numeral
or `'all'`, and `Number(value) || 100` turns zero and NaN into 100. A
negative size is stored as it is. The script then shows the whole list on
one page, because `getPageItems` returns the whole dataset when the size
is not positive, and the page count is `max(1, ceil(n / size)) = 1`.

## Model

| member | source | states |
|---|---|---|
| `Text.Trim` | script.js:230 | the trimmed query is empty exactly when the text is all white space; otherwise it neither starts nor ends with white space |
| `Text.TrimStrips` | script.js:230 | what `trim` keeps is a run of the text with only white space before and after it, so it removes white space at the ends and nothing else |
| `Text.Lower` | script.js:242-244 | lower-casing keeps the length and maps every character through `LowerChar` |
| `Text.LowerChar` | script.js:230 | an upper-case ASCII letter becomes the lower-case letter at the same place in the alphabet; every other character is left as it is; no upper-case ASCII letter survives, and white space stays white space |
| `Text.Includes` | script.js:245 | `includes` is true exactly when the needle occurs at some position of the text |
| `Text.Decimal` | script.js:236 | the printed count is a non-empty run of digits, with a leading 0 only for 0 |
| `Text.ParseDecimalOfDecimal` | script.js:236 | reading the printed numeral back gives the number |
| `Text.DecimalInjective` | script.js:251 | different counts print differently |
| `Text.IntText` | script.js:359 | the printed integer is never empty and starts with a minus sign exactly when the integer is negative |
| `Text.IntTextDigits` | script.js:359 | apart from a leading minus sign for a negative integer, the printed integer is all digits |
| `Text.IntTextReadsBack` | script.js:359 | `Number()` of the printed integer gives that integer back, so the page indicator prints every page number faithfully |
| `Text.NumberValue` | script.js:370 | `Number()` of blank text is 0 |
| `Text.NumberValueOfDecimal` | script.js:370 | `Number()` of a printed non-negative numeral is that number |
| `Search.FieldText` | script.js:242-244 | a missing field reads as the empty text, a present one as its string |
| `Search.Normalize` | script.js:230 | the normalized query is empty exactly when the typed text is all white space; otherwise it has no white space at either end and no upper-case ASCII letter |
| `Search.NormalizeLowersTrimmedRun` | script.js:230 | the normalized query is a run of the typed text, flanked only by white space, with each character lower-cased |
| `Search.NormalizeFixes` | script.js:230 | a query already trimmed and lower-case normalizes to itself |
| `Search.NormalizeIdempotent` | script.js:230 | normalizing twice is normalizing once |
| `Search.Matches` | script.js:241-245 | an entry matches exactly when its lower-cased author, title or location contains the query; every entry matches the empty query |
| `Search.Filter` | script.js:241-246 | the filter is no longer than the list, and keeps only entries of the list whose lower-cased author, title or location contains the query |
| `Search.FilterIsSubsequence` | script.js:241-246 | the filter keeps the order of the entries it keeps |
| `Search.FilterCounts` | script.js:241-246 | every matching entry is kept as often as it occurs, and no other entry is kept |
| `Search.FilterMembership` | script.js:241-246 | an entry is in the filtered list exactly when it is in the list and matches |
| `Search.FilterByEmptyQuery` | script.js:232-238 | filtering by the empty query keeps the whole list, so the early return for a blank query agrees with the filter |
| `Search.FilterIdempotent` | script.js:241-246 | filtering twice by the same query equals filtering once |
| `Search.CurrentDataset` | script.js:227-255 | a blank query (empty once normalized) returns the stored list itself; any other query returns `Filter` of the list by the normalized query, which with `FilterCounts` fixes every entry's multiplicity |
| `Search.CurrentDatasetKeepsOrder` | script.js:227-255 | the returned list is a subsequence of the stored list, and equals the filter by the normalized query for every query, blank or not |
| `Search.CountLabelShape` | script.js:233-251 | the count label is the printed count, a space, then "livre" or "livre found" exactly when the count is 1, and "livres" or "livres found" for any other count |
| `Search.CountLabelFound` | script.js:248-251 | the count label ends in " found" exactly when a query is active |
| `Search.CountLabelInjective` | script.js:233-251 | the count label determines both the count and whether a query is active |
| `Paging.EffectiveSize` | script.js:262 | the size `Number(size)`, with 100 in place of zero: zero becomes exactly 100, any non-zero size is kept, and the result is never zero |
| `Paging.PageSizeFromValue` | script.js:370 | the stored size is 'all' exactly for the value "all"; any other value whose `Number()` is a number v stores `EffectiveSize(v)`; NaN stores 100; a stored number is never zero |
| `Paging.PageSizeZeroIsDefault` | script.js:370 | the value "0" and blank text both select a size of 100 |
| `Paging.PageSizeFromNumeral` | script.js:370 | the numeral of a positive size selects exactly that size |
| `Paging.CeilDiv` | script.js:353 | `Math.ceil(n / s)`, counted by repeated subtraction: 0 for no entries; for a positive divisor never negative and at least 1 for some entries; never positive for a negative divisor |
| `Paging.CeilDivIsCeiling` | script.js:353 | `Math.ceil(n / s)` is the least integer not below n / s, for both signs of s |
| `Paging.TotalPages` | script.js:353 | there is at least one page, and exactly one for 'all', for an empty list and for a negative size |
| `Paging.TotalPagesFewestHolding` | script.js:353 | for a positive size and a non-empty list, the page count is the fewest pages of that size that hold every entry |
| `Paging.ClampIndex` | script.js:269 | a slice index is resolved into [0, len], unchanged when it already lies there |
| `Paging.Slice` | script.js:269 | `slice(start, end)` with non-negative bounds is the run between the two bounds, each clipped to the length |
| `Paging.PageItems` | script.js:257-265 | with 'all' or a negative size the page is the whole list |
| `Paging.PageItemsSlice` | script.js:267-269 | with a positive size the page is the list from `min(n, (page-1)*size)` to `min(n, (page-1)*size + size)` |
| `Paging.PageItemsAt` | script.js:267-269 | a page holds at most `size` entries, and its position j is entry `(page-1)*size + j` of the list |
| `Paging.PageEmptyIffStartPastEnd` | script.js:267-269 | a page is empty exactly when its start `(page-1)*size` is at or past the end of the list |
| `Paging.EntryOnItsPage` | script.js:267-269 | every entry i appears on page `i / size + 1` at position `i % size`, so the pages cover the list |
| `Paging.PageEmptyIffPastLast` | script.js:352-355 | for a non-empty list a page is empty exactly when its number exceeds the page count |
| `Paging.PagesBeforeLastAreFull` | script.js:353 | every page before the last holds exactly `size` entries |
| `Page.RowOf` | script.js:303-322 | the row of an entry has the author, title and location cells in that order, a missing field giving an empty cell, and the priority mark exactly for a priority entry |
| `Page.Rows` | script.js:303-323 | the table has one row per entry of the page, in the page's order |
| `Page.PageLabel` | script.js:359 | the indicator is nine fixed characters longer than the printed page and count together; `PageLabelInjective` is what shows both numbers can be read back from it |
| `Page.PageLabelInjective` | script.js:359 | equal indicators come only from equal pages and equal counts |
| `Page.WishlistPage.constructor` | script.js:30-41 | the initial state is no entries, 100 per page, page 1 and no query; it is settled |
| `Page.WishlistPage.GetCurrentDataset` | script.js:227-255 | returns the filtered list and writes the count label for its length, with " found" exactly when the normalized query is non-empty |
| `Page.WishlistPage.UpdatePaginationControls` | script.js:344-362 | for 'all' or no entries: "Page 1 of 1", both buttons disabled, page kept. Otherwise: page lowered to the page count only if past it, label "Page p of t", previous disabled iff p <= 1, next disabled iff p >= t. The page never drops below 1 |
| `Page.WishlistPage.RenderTables` | script.js:272-342 | writes the count label and controls. Shows the placeholder without the synchronisation time for an empty list, and otherwise the rows of the page taken before clamping. From a settled state: no clamping, the state stays settled, and a non-empty list shows a non-empty page |
| `Page.WishlistPage.ShowPlaceholder` | script.js:276-285 | for an empty list: the placeholder, no synchronisation time, "Page 1 of 1" and both buttons disabled, the page kept |
| `Page.WishlistPage.ShowPage` | script.js:287-341 | for a non-empty list: the rows of the page taken before clamping, then the controls and the synchronisation time; from a valid state with a numeric size the result is settled, and from a settled state the page is kept and shows a non-empty table |
| `Page.WishlistPage.OnPrevPage` | script.js:375-380 | on a page above 1, goes back exactly one page and renders; on page 1, changes nothing; keeps the state settled |
| `Page.WishlistPage.OnNextPage` | script.js:382-392 | below the page count of the live filtered list (1 for 'all'), goes forward exactly one page and renders; otherwise only the count label is rewritten; keeps the state settled |
| `Page.WishlistPage.OnSearchInput` | script.js:405-409 | stores the text, goes to page 1 and renders; the result is settled and shown |
| `Page.WishlistPage.OnPageSizeChange` | script.js:368-373 | stores the size the value selects, goes to page 1 and renders; the result is settled and shown |
| `Page.WishlistPage.LoadData` | script.js:196-225 | a parsed body replaces the entries (none when it is not an array), goes to page 1, renders and clears the status. A bad status or a failure shows the matching error and leaves entries, page and table as they were |
| `Theme.AttributeFor` | script.js:4-10 | applying a theme sets `data-theme` to "dark" exactly for the dark theme and removes it otherwise |
| `Theme.NextTheme` | script.js:24-25 | the toggle picks light exactly when the attribute reads "dark", and dark otherwise |
| `Theme.ToggleFlips` | script.js:23-28 | one toggle flips whether the page is dark, and leaves an attribute value the page writes |
| `Theme.ToggleTwice` | script.js:23-28 | two toggles restore darkness from any attribute, and restore the attribute itself when the page wrote it |
| `Theme.InitialTheme` | script.js:12-21 | a stored "dark" or "light" wins; otherwise dark when the system prefers dark; otherwise nothing is applied |
| `Theme.StoredToggleRestored` | script.js:12-28 | the choice a toggle stores is applied again on the next load, whatever the system preference |
| `Theme.ThemeState.constructor` | script.js:12-13 | the root element's attribute and the stored choice start as the page finds them, before `initTheme` reads the choice |
| `Theme.ThemeState.ApplyTheme` | script.js:4-10 | the attribute becomes the one `AttributeFor` gives |
| `Theme.ThemeState.ToggleTheme` | script.js:23-28 | the attribute flips between dark and not dark, and the chosen theme is stored |
| `Theme.ThemeState.InitTheme` | script.js:12-21 | the attribute follows the initial theme, and is untouched when none is selected |
| `Menu.ExpandedText` | script.js:145-153 | `aria-expanded` reads "true" exactly when open and "false" when closed |
| `Menu.AfterClick` | script.js:163-181 | a click on the toggle flips the menu, a click outside closes it, and any other click leaves it |
| `Menu.AfterKey` | script.js:168-187 | Escape anywhere closes the menu, Enter or Space on the toggle flips it, and any other key leaves it |
| `Menu.DismissIsIdempotent` | script.js:168-187 | Escape and an outside click have the same effect, and repeating either keeps the menu closed |
| `Menu.ToggleTwiceRestores` | script.js:163-175 | activating the toggle twice by click or key restores the menu, and key activation equals a click |
| `Menu.SiteSwitcher.OpenMenu` | script.js:145-148 | opens the menu and marks the toggle expanded |
| `Menu.SiteSwitcher.CloseMenu` | script.js:150-153 | closes the menu and marks the toggle collapsed |
| `Menu.SiteSwitcher.ToggleMenu` | script.js:155-161 | flips the menu, with `aria-expanded` mirroring it |
| `Menu.SiteSwitcher.Click` | script.js:163-181 | the menu follows `AfterClick`; a click inside the switcher but off the toggle changes nothing |
| `Menu.SiteSwitcher.KeyDown` | script.js:168-187 | the menu follows `AfterKey`; the default action is prevented exactly for Enter or Space on the toggle; any other key changes nothing |
| `Scenarios.OnePerPage` | script.js:257-270 | with one entry per page, two entries make two pages, each showing its own entry and labelled "Page p of 2" |
| `Scenarios.SearchForOrwell` | script.js:241-246 | searching "orwell" in the two-entry list keeps only the Orwell entry |
| `Scenarios.OneFoundLabel` | script.js:248-251 | one entry under an active query is labelled "1 livre found" |

## Left out

- The network fetch, the JSON parser and `console.error` in `loadData`. Their outcome is a parameter of `LoadData`: a network error, a bad status, a malformed body, or a parsed value.
- The Loading… status is not kept: `LoadData` only states the final status.
- Array entries that are not objects, and fields that are not strings, are not modelled. The script would throw on them while filtering, or print them coerced. Every entry is an `Item` with optional string fields.
- `Page.WishlistPage.RenderTables` does not model the DOM construction of the table. This covers the header row, `createElement`, `innerHTML` and class names. The table is the list of rows with their three cell texts and the priority mark.
- `Page.WishlistPage.RenderTables` reduces the "last synchronised" line to whether it is shown. Its text depends on the wall clock and on `Intl.DateTimeFormat` for the fr-FR locale.
- The element lookups are not modelled. The script skips writing the count label, synchronisation line or status line when the element is missing; the model assumes every element exists.
- `Text.Trim`: its own ensures state the ends and the all-white-space case only. `Text.TrimStrips` states that it removes white space at the ends and nothing else; it is a separate lemma so that the many members that use `Trim` stay cheap to verify.
- `Search.Normalize`: its own ensures state the ends, the blank case and the absence of upper-case letters. `Search.NormalizeLowersTrimmedRun` states which characters it keeps and how it maps them, for the same reason.
- `Text.Lower` covers ASCII only. `toLowerCase` maps all of Unicode; the model lower-cases A-Z and leaves every other character in place.
- `Text.NumberValue` covers only blank text and optionally signed decimal integers surrounded by white space. Fractions, exponents, hexadecimal, binary and octal forms, and `Infinity` give NaN in the model, although `Number()` accepts them. The page-size menu offers only integer numerals and 'all'.
- `localStorage` and the `prefers-color-scheme` media query become the `stored` field of `ThemeState` and the `prefersDark` parameter of `InitTheme`. Storage exceptions are not modelled.
- `Menu.SiteSwitcher.constructor` starts the menu closed, with the `aria-expanded` value of the markup. The markup is not part of this model.
- Browser-synthesised clicks from key activation are not modelled. The script prevents them for Enter and Space.
- `setView`, `initView` and `setupViewSwitch` are not modelled. They always select the single 'wantlist' view.
- `setStatus`'s class toggling is modelled as the `statusIsError` flag.
- Event-listener registration and the `DOMContentLoaded` start-up sequence are not modelled.
