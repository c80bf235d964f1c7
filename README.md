# Paginator, modelled in Dafny

The Paginator library ships one class in three ports: JavaScript, PHP and Python. Each port stores:

- the total number of items, the page size and the current page;
- a cached page count;
- a budget of page numbers to show;
- a URL pattern with a placeholder;
- label texts.

From that state it derives:

- the page count;
- the previous and next page numbers and their URLs;
- the 1-based range of items on the current page;
- the page window: page 1, a sliding block of pages around the current one, the last page, and an ellipsis wherever numbers are skipped;
- the HTML of a pagination control.

This project models all three ports and proves properties of them.

## Layout

Shared, pure modules, one concern each:

- `optional.dfy` (`Optional`): `Option` for the ports' `null`/`None`, and `Outcome` for a setter that either returns or throws.
- `page_count.dfy` (`PageCount`): the page count as exact integer ceiling division.
  - `NumPagesGuarded` is the JavaScript guard: no pages when either input is not positive.
  - `NumPagesCeil` is the PHP and Python guard: no pages only when the page size is 0.
- `strings.dfy` (`Strings`):
  - decimal text of integers;
  - `Split`/`Join`/`ReplaceAll` with a non-empty separator, for JavaScript `split(..).join(..)`, PHP `str_replace` and Python `str.replace`;
  - ASCII lower-casing;
  - concatenation of a sequence of pieces.
- `html.dfy` (`Html`): the `htmlspecialchars` escaper of the JavaScript and Python ports, and an unescaper that inverts it.
- `page_window.dfy` (`PageWindow`): the windowing routine, in two forms.
  - `Window` follows the code of `pages()`/`getPages()` branch by branch.
  - `Marked(ShownPages(..))` states the result as rules: page 1, a contiguous block and the last page, with an ellipsis at every gap.
  - `WindowIsMarked` proves the two forms equal, and the window's properties are proved from the rules.
- `navigation.dfy` (`Navigation`):
  - page URLs;
  - previous/next pages and URLs, with the ports' truthiness of `0`, `''` and PHP's `'0'`;
  - the item range;
  - `createPage` and the entries of a window.

One module and one `Paginator` class per port:

- `js_paginator.dfy` (`JsPaginator`), src/js/Paginator.js;
- `php_paginator.dfy` (`PhpPaginator`), src/php/Paginator.php;
- `py_paginator.dfy` (`PyPaginator`), src/python/Paginator.py.

Each class has the source's fields, and its `Valid()` invariant states that:

- the cached page count is that port's function of the inputs;
- the budget is at least 3;
- the placeholder is not empty.

The setters update the fields under `modifies` frames. The pure getters are functions on `this`.

`pages()`/`getPages()` is a method that appends entries in loops, as the source does. It is proved equal to the entries of `Window`. `render()`/`renderer()` is a method that accumulates the markup piece by piece. It is proved equal to a markup function of the window's entries. Lemmas beside each markup function say:

- what every item of the markup is;
- when the output is empty;
- which items are disabled.

The `for` loops of the window routine and the loops of the renderer are separate methods (`PushPages`/`AppendPages`, `AppendListItems`, `AppendSelectOptions`), called where the source has the loop. The sliding-range computation is also a separate method, `SlidingRange`. Each of these methods has its own contract.

Three facts about what the code computes are worth knowing when reading the model:

- **Apostrophe.** The JavaScript and Python `htmlspecialchars` match `'` in the character class `/[&<>'"]/g` but return it unchanged, because their `switch` has no case for it (src/js/Paginator.js:24-37, src/python/Paginator.py:12-22). `Html.PlainTextUnchanged` and `Html.EscapeExamples` state this.
- **Windows for 20 pages and a budget of 10.**
  - For current page 10, `pages()` shows 1, an ellipsis, the block 7..14, an ellipsis and 20 (`PageWindow.WindowMiddleExample`).
  - For current page 1, it shows 1, the block 2..9, an ellipsis and 20 (`PageWindow.WindowFirstExample`).
  - For current page 20, it shows 1, an ellipsis, the block 12..19 and 20 (`PageWindow.WindowLastExample`).
- **Window near the end.** The block is cut at the page before the last without being moved left. So for 20 pages, a budget of 10 and current page 17, `pages()` shows only 8 numbers: 1 and 14..20 (`PageWindow.WindowNearEndExample`). The at-most-budget bound still holds.

## Model

| member | source | states |
|---|---|---|
| PageCount.CeilDiv | src/python/Paginator.py:49 | the exact ceiling of a / b for either sign of b: (c-1)·b < a ≤ c·b for b > 0 and the mirror bracketing for b < 0 |
| PageCount.NumPagesGuarded | src/js/Paginator.js:73-77 | 0 when items per page or total items is ≤ 0; otherwise n ≥ 1 and n is the least page count that holds every item: (n-1)·ipp < total ≤ n·ipp |
| PageCount.NumPagesCeil | src/php/Paginator.php:39-43 | 0 when items per page is 0; otherwise the exact ceiling of the quotient, with the bracketing reversed for a negative page size |
| PageCount.PageCountUnique | src/js/Paginator.js:75 | any n with (n-1)·ipp < total ≤ n·ipp is the JavaScript page count, so the ceiling is pinned down by that bracketing |
| PageCount.GuardsAgreeOnNaturals | src/php/Paginator.php:41 | for non-negative inputs the PHP/Python count equals the JavaScript count |
| PageCount.CeilSigns | src/python/Paginator.py:49 | without the JavaScript guard, a non-positive total or a negative page size alone gives a count ≤ 0, and both negative give a count ≥ 1 |
| PageCount.PageCountExamples | src/js/Paginator.js:75 | 100 items of 10 give 10 pages and 101 give 11; (-5, -2) gives 0 in JavaScript and 3 in PHP/Python; (7, -2) gives -3; (0, 10) gives 0 |
| Strings.DecimalString | src/js/Paginator.js:228 | `String(pageNum)`: non-empty; all digits for n ≥ 0; a leading '-' and then digits for n < 0 |
| Strings.DecimalRoundTrip | src/js/Paginator.js:228 | reading back the decimal text of any integer gives that integer, so distinct pages get distinct texts |
| Strings.Split | src/js/Paginator.js:228 | `split(placeholder)` gives at least one piece, and the first piece is a prefix of the text |
| Strings.SplitJoin | src/js/Paginator.js:228 | joining the split pieces with the separator gives back the text |
| Strings.SplitPiecesFree | src/js/Paginator.js:228 | no split piece contains the separator |
| Strings.SplitWithoutSeparator | src/js/Paginator.js:228 | a text without the separator splits into itself alone |
| Strings.ReplaceAllPieces | src/python/Paginator.py:101 | replacing every occurrence: the text is separator-free pieces joined by the separator, and the result is the same pieces joined by the replacement |
| Strings.FirstOccurrenceExists | src/js/Paginator.js:228 | a separator that occurs in a text has a first occurrence |
| Strings.SplitAtFirst | src/js/Paginator.js:228 | `split` cuts leftmost first: the first piece is the text before the first occurrence, that occurrence is consumed, and splitting goes on after it |
| Strings.ReplaceAllAtFirst | src/python/Paginator.py:101 | replacement works leftmost first without reusing matched characters: the text before the first occurrence, the replacement, then the replaced rest |
| Strings.ReplaceAllWithoutSeparator | src/php/Paginator.php:121 | a text without the placeholder is left as it is |
| Strings.ReplaceAllEmpty | src/php/Paginator.php:121 | with a non-empty replacement, the result is empty exactly when the text is |
| Strings.AsciiLower | src/js/Paginator.js:206 | same length; each upper-case ASCII letter becomes its lower-case letter (code + 32); every other character unchanged |
| Strings.AsciiLowerCaseBlind | src/js/Paginator.js:206 | strings that differ only in ASCII letter case lower-case to the same string |
| Html.HtmlSpecialChars | src/js/Paginator.js:24-37 | the escaper of the JavaScript and Python ports (also src/python/Paginator.py:12-22): each character mapped by its own entity or kept; its properties are `Html.EscapedIsSafe`, `Html.EscapeRoundTrip`, `Html.PlainTextUnchanged` and `Html.EscapeExamples` |
| Html.EscapedIsSafe | src/js/Paginator.js:24-37 | the escaped text contains no raw `<`, `>` or `"`, whatever the input |
| Html.EscapeRoundTrip | src/python/Paginator.py:12-22 | unescaping the escaped text gives the original, so escaping loses nothing |
| Html.PlainTextUnchanged | src/js/Paginator.js:24-37 | a text without `&`, `<`, `>` and `"` comes out unchanged (the apostrophe included) |
| Html.EscapeExamples | src/js/Paginator.js:28-35 | `a&b` becomes `a&amp;b`; `<"'>` becomes `&lt;&quot;'&gt;` |
| PageWindow.Run | src/js/Paginator.js:285-286 | the markers of pages lo..hi: hi-lo+1 of them (none when lo > hi), the k-th is page lo+k, flagged iff it is the current page |
| PageWindow.RunSnoc | src/js/Paginator.js:315-316 | one more loop step appends the marker of the next page |
| PageWindow.SlidingBounds | src/js/Paginator.js:290-304 | when pages do not fit: the block lies in [2, n-1], holds at most max-2 pages, is empty only when it would start at page n, and covers the current page whenever that is neither first nor last |
| PageWindow.Window | src/js/Paginator.js:275-326 | the markers `pages()` pushes, in order (also src/php/Paginator.php:198-240, src/python/Paginator.py:157-195); its properties are `PageWindow.WindowIsMarked`, `WindowShape`, `WindowNumbers`, `WindowEllipsisCount`, `WindowGaps`, `WindowCurrent` and the worked examples |
| PageWindow.WindowIsMarked | src/js/Paginator.js:281-323 | the code's window equals the rule-based one: the shown page numbers with an ellipsis between every two that are not consecutive |
| PageWindow.ShownPagesShape | src/js/Paginator.js:281-323 | the shown numbers strictly increase, lie in [1, n], are at most max many, run from 1 to n when n ≥ 2, and include the current page iff n ≥ 2 and 1 ≤ cur ≤ n |
| PageWindow.MarkedRange | src/js/Paginator.js:285-286 | marking a contiguous range inserts no ellipsis: it is the run of those pages |
| PageWindow.MarkedEnds | src/js/Paginator.js:309-322 | the marked sequence is empty iff the numbers are, begins with the first number's page and ends with the last one's |
| PageWindow.MarkedPages | src/js/Paginator.js:309-322 | every page marker carries a given number, flagged iff it is the current page, and every given number has its marker |
| PageWindow.MarkedOrdered | src/js/Paginator.js:309-322 | increasing numbers give page markers in increasing order |
| PageWindow.MarkedAdjacent | src/js/Paginator.js:311-319 | two neighbouring page markers are consecutive pages |
| PageWindow.MarkedEllipses | src/js/Paginator.js:311-319 | every ellipsis sits strictly inside, between two page markers whose numbers are not consecutive |
| PageWindow.MarkedNums | src/js/Paginator.js:309-322 | the page numbers of the marked sequence are exactly the given numbers |
| PageWindow.WindowAllPages | src/js/Paginator.js:283-287 | when 2 ≤ n ≤ max the window is pages 1..n in order, each flagged iff it is the current page |
| PageWindow.WindowShape | src/js/Paginator.js:281-323 | empty for n ≤ 1; otherwise it begins with page 1 and ends with page n, every number is in [1, n], and the numbers strictly increase |
| PageWindow.WindowNumbers | src/js/Paginator.js:291-322 | the window's numbers are the shown pages, and at most max of them |
| PageWindow.WindowEllipsisCount | src/js/Paginator.js:311-319 | at most two ellipses |
| PageWindow.WindowGaps | src/js/Paginator.js:311-319 | an ellipsis separates two page neighbours exactly when they are not consecutive, and never stands at either end |
| PageWindow.WindowCurrent | src/js/Paginator.js:285-322 | for any integer current page: each page marker is flagged iff it is the current page, the current page appears flagged iff n ≥ 2 and 1 ≤ cur ≤ n, and at most one marker is flagged |
| PageWindow.WindowMiddleExample | src/js/Paginator.js:290-322 | 20 pages, budget 10, page 10: 1, …, 7..14, …, 20 |
| PageWindow.WindowFirstExample | src/js/Paginator.js:290-322 | 20 pages, budget 10, page 1: 1..9, …, 20 with page 1 current |
| PageWindow.WindowLastExample | src/js/Paginator.js:290-322 | 20 pages, budget 10, page 20: 1, …, 12..20 with page 20 current |
| PageWindow.WindowNearEndExample | src/js/Paginator.js:291-304 | 20 pages, budget 10, page 17 shows only the numbers 1, 14..20 |
| PageWindow.WindowEdgeExamples | src/js/Paginator.js:281-322 | budget 3 on the last of 20 pages gives 1, …, 20; page 0 of 5 pages flags no page |
| Navigation.PageUrl | src/js/Paginator.js:227-229 | the page URL: every placeholder in the pattern replaced by the decimal page number (also src/php/Paginator.php:119-122, src/python/Paginator.py:100-101); its properties are `Navigation.PageUrlReplacesEvery`, `PageUrlEmptyIff`, `PageUrlWithoutPlaceholder` and the examples |
| Navigation.PageUrlReplacesEvery | src/js/Paginator.js:227-229 | the URL is the pattern's placeholder-free pieces joined by the page number; a pattern without the placeholder is its own URL; otherwise the URL is the text before the first placeholder, the number, and the URL of the text after it — which fixes the URL for every pattern, a self-overlapping placeholder included |
| Navigation.PageUrlEmptyIff | src/php/Paginator.php:119-122 | a page URL is empty exactly when the pattern is |
| Navigation.PageUrlWithoutPlaceholder | src/python/Paginator.py:100-101 | a pattern without the placeholder is every page's URL |
| Navigation.PageUrlExample | src/js/Paginator.js:228 | the pattern `(:page)` gives `7` for page 7 |
| Navigation.PageUrlOverlapExample | src/php/Paginator.php:121 | the placeholder `aa` in `aaa` for page 5 gives `5a`: the leftmost match is replaced and the rest kept |
| Navigation.PageUrlTwoPlaceholdersExample | src/python/Paginator.py:101 | the pattern `/p/(:page)/x/(:page)` for page 5 gives `/p/5/x/5`: both placeholders are replaced |
| Navigation.PrevNextInverse | src/js/Paginator.js:231-237 | inside [1, n] the next page of the previous page, and the previous page of the next page, is the page itself |
| Navigation.UrlPresence | src/js/Paginator.js:239-245 | a previous URL iff cur > 1, the previous page's URL; a next URL iff cur < n and cur ≠ -1 (page 0 is false), the next page's URL |
| Navigation.ItemRange | src/js/Paginator.js:247-257 | the first item exists iff (cur-1)·ipp+1 ≤ total, whatever the signs, and then it is that index; the last item exists iff the first does; the last is min(first+ipp-1, total) |
| Navigation.FirstItemPresentIff | src/php/Paginator.php:257-266 | with items and a positive page size, a first item exists iff cur ≤ the page count |
| Navigation.ItemsTile | src/python/Paginator.py:208-225 | every page but the last ends at cur·ipp and the next page starts right after it |
| Navigation.LastPageEndsAtTotal | src/js/Paginator.js:252-257 | the last page's last item is the total |
| Navigation.ItemRangeExample | src/js/Paginator.js:247-257 | 95 items of 10: page 10 holds 91..95, page 11 has none, page 3 holds 21..30 |
| Navigation.EntriesSnoc | src/js/Paginator.js:285-286 | pushing a marker's page appends its entry |
| Navigation.EntriesAppend | src/js/Paginator.js:309-322 | the entries of two marker runs in a row are their entries in a row |
| Navigation.SlidingWindowEntries | src/js/Paginator.js:306-322 | when pages do not fit, the entries are page 1, an optional ellipsis, the block, an optional ellipsis and page n, as the code pushes them |
| Navigation.CreatePage | src/js/Paginator.js:328-338 | `createPage`: no number gives the ellipsis entry without URL and not current; a number gives its label, its page URL and the flag (also src/php/Paginator.php:244-255, src/python/Paginator.py:197-206); stated per window entry by `Navigation.WindowEntries` |
| Navigation.EntryOf | src/js/Paginator.js:328-338 | the `createPage` call for one window marker; stated by `Navigation.WindowEntries` |
| Navigation.Entries | src/js/Paginator.js:286-322 | the entries pushed for the markers, one each, in order; stated by `Navigation.EntriesSnoc`, `EntriesAppend`, `SlidingWindowEntries`, `WindowEntries` and `DisabledEntries` |
| Navigation.WindowEntries | src/js/Paginator.js:328-338 | entry k has no URL iff marker k is an ellipsis; an ellipsis entry has the ellipsis text, no URL and is not current; a page entry has its number, its page URL and a flag set iff it is the current page |
| Navigation.DisabledEntries | src/js/Paginator.js:396-405 | an entry's URL is false (JavaScript/Python) exactly for the ellipses, or for every entry when the pattern is empty |
| JsPaginator.NormalizeView | src/js/Paginator.js:202-225 | the view switch: `mobile`, `selectbox` and `select` in any ASCII letter case choose the select box, anything else the list; stated by `JsPaginator.NormalizeViewStable`, `NormalizeViewCaseBlind` and `NormalizeViewExamples` |
| JsPaginator.NormalizeViewCaseBlind | src/js/Paginator.js:206 | two view names that differ only in ASCII letter case choose the same view |
| JsPaginator.NormalizeViewStable | src/js/Paginator.js:202-225 | a stored view name, set again, gives the same view; letter case never matters |
| JsPaginator.NormalizeViewExamples | src/js/Paginator.js:206-217 | `Mobile` and `SELECT` choose the select box; `grid` and `` choose the list |
| JsPaginator.RenderEmptyIff | src/js/Paginator.js:343 | both views render nothing exactly when there is at most one page |
| JsPaginator.ListItemsOfWindow | src/js/Paginator.js:393-406 | one list item per window marker: a disabled span for ellipses (and for all when the pattern is empty), otherwise a link to the escaped page URL labelled with the number, classed first/last/active on page 1, page n and the current page |
| JsPaginator.AppendListItems | src/js/Paginator.js:393-406 | the loop appends the items of all entries, in order |
| JsPaginator.ListMarkup | src/js/Paginator.js:384-414 | the list view: opening tag, previous link, one item per entry, next link, closing tag, or `''` for at most one page; stated by `JsPaginator.ListItemsOfWindow` and `RenderEmptyIff` |
| JsPaginator.RenderList | src/js/Paginator.js:384-414 | the list markup: opening tag, previous link, items, next link, closing tag |
| JsPaginator.AppendSelectOptions | src/js/Paginator.js:357-370 | the loop appends the options of all entries, in order |
| JsPaginator.SelectOptionsOfWindow | src/js/Paginator.js:357-370 | one option per window marker: a disabled option with the ellipsis text for ellipses, a disabled option with the number for every page when the pattern is empty, otherwise an option valued with the escaped page URL, labelled with the number and selected iff it is the current page |
| JsPaginator.SelectMarkup | src/js/Paginator.js:347-379 | the select-box view: wrapper, previous link, one option per entry inside a select, next link, or `''` for at most one page; stated by `JsPaginator.SelectOptionsOfWindow` and `RenderEmptyIff` |
| JsPaginator.RenderSelectbox | src/js/Paginator.js:347-379 | the select-box markup: wrapper, previous link, the options inside a select, next link |
| JsPaginator.Paginator.constructor | src/js/Paginator.js:39-56 | the invariant holds; a current page of 0 becomes 1; defaults are budget 10, `(:page)`, `?page=(:page)`, the two labels, `...` and the list view |
| JsPaginator.Paginator.ComputeNumPages | src/js/Paginator.js:73-77 | the cached count becomes the guarded ceiling |
| JsPaginator.Paginator.SetTotalItems | src/js/Paginator.js:83-94 | stores the total and recomputes the count |
| JsPaginator.Paginator.SetItemsPerPage | src/js/Paginator.js:96-107 | stores the page size and recomputes the count |
| JsPaginator.Paginator.SetCurrentPage | src/js/Paginator.js:109-120 | stores the page; the count is unchanged |
| JsPaginator.Paginator.SetMaxPagesToShow | src/js/Paginator.js:122-135 | below 3: TypeError `maxPagesToShow cannot be less than 3!` and the budget unchanged; otherwise stored |
| JsPaginator.Paginator.SetUrlPattern | src/js/Paginator.js:137-148 | stores the pattern; the invariant is kept |
| JsPaginator.Paginator.SetPlaceholder | src/js/Paginator.js:150-161 | stores a non-empty placeholder; the invariant is kept |
| JsPaginator.Paginator.SetPreviousText | src/js/Paginator.js:163-174 | stores the previous-link label |
| JsPaginator.Paginator.SetNextText | src/js/Paginator.js:176-187 | stores the next-link label |
| JsPaginator.Paginator.SetEllipsis | src/js/Paginator.js:189-200 | stores the ellipsis text |
| JsPaginator.Paginator.SetView | src/js/Paginator.js:202-225 | stores the normalised view |
| JsPaginator.Paginator.PageUrl | src/js/Paginator.js:227-229 | the URL `Navigation.PageUrl` gives for the stored pattern and placeholder (so `PageUrlReplacesEvery` applies), empty exactly when the pattern is |
| JsPaginator.Paginator.PrevPage | src/js/Paginator.js:231-233 | present iff cur > 1, and then cur - 1 |
| JsPaginator.Paginator.NextPage | src/js/Paginator.js:235-237 | present iff cur < n, and then cur + 1 |
| JsPaginator.Paginator.PrevUrl | src/js/Paginator.js:239-241 | present iff cur > 1, and then the previous page's URL |
| JsPaginator.Paginator.NextUrl | src/js/Paginator.js:243-245 | present iff cur < n and cur ≠ -1, and then the next page's URL |
| JsPaginator.Paginator.FirstItem | src/js/Paginator.js:247-250 | present iff (cur-1)·ipp+1 ≤ total, for any page size, total and page, and then it is that index; with items and a positive page size, present iff cur ≤ n |
| JsPaginator.Paginator.LastItem | src/js/Paginator.js:252-257 | present iff the first item is, and then min(first+ipp-1, total) |
| JsPaginator.Paginator.SlidingRange | src/js/Paginator.js:290-304 | the if-cascade computes the block bounds, which lie in [2, n-1] |
| JsPaginator.Paginator.PushPages | src/js/Paginator.js:315-316 | the loop appends the entries of pages lo..hi, each flagged iff current |
| JsPaginator.Paginator.Pages | src/js/Paginator.js:275-326 | `pages()` returns the entries of the window, so every window lemma applies to it |
| JsPaginator.Paginator.Render | src/js/Paginator.js:340-418 | `render()` returns the select-box or list markup of the window's entries with the previous and next URLs |
| PhpPaginator.Markup | src/php/Paginator.php:283-308 | what `renderer()` writes: the list, previous link, one item per entry and next link, or `''` for at most one page; stated by `PhpPaginator.ListItemsOfWindow`, `PhpDisabledEntries` and `MarkupEmptyIff` |
| PhpPaginator.MarkupEmptyIff | src/php/Paginator.php:285-287 | nothing is rendered exactly when there is at most one page |
| PhpPaginator.PhpDisabledEntries | src/php/Paginator.php:294-300 | an entry is drawn disabled exactly for the ellipses and for pages whose URL is `''` or `'0'`, which is every page when the pattern is empty |
| PhpPaginator.ListItemsOfWindow | src/php/Paginator.php:294-300 | one item per marker: ellipses give a disabled span with the escaped `...`; pages whose URL is `''` or `'0'` give a disabled span with the escaped number; linked pages give the escaped URL and number, classed active iff current |
| PhpPaginator.AppendListItems | src/php/Paginator.php:294-300 | the `foreach` appends the items of all entries, in order |
| PhpPaginator.Paginator.constructor | src/php/Paginator.php:27-37 | the invariant holds; the fields are stored; a placeholder of none, `''` or `'0'` keeps `(:page)`; the default pattern is `''`; budget 10 and labels `Previous`/`Next` |
| PhpPaginator.Paginator.ComputeNumPages | src/php/Paginator.php:39-43 | the cached count becomes the unguarded ceiling |
| PhpPaginator.Paginator.SetMaxPagesToShow | src/php/Paginator.php:45-52 | below 3: InvalidArgumentException `maxPagesToShow cannot be less than 3.` and the budget unchanged; otherwise stored |
| PhpPaginator.Paginator.SetCurrentPage | src/php/Paginator.php:59-63 | stores the page; the count is unchanged |
| PhpPaginator.Paginator.SetItemsPerPage | src/php/Paginator.php:70-74 | stores the page size and recomputes the count |
| PhpPaginator.Paginator.SetTotalItems | src/php/Paginator.php:81-85 | stores the total and recomputes the count |
| PhpPaginator.Paginator.SetUrlPattern | src/php/Paginator.php:97-101 | stores the pattern |
| PhpPaginator.Paginator.SetPlaceholder | src/php/Paginator.php:108-112 | stores a non-empty placeholder |
| PhpPaginator.Paginator.SetPreviousText | src/php/Paginator.php:160-164 | stores the previous label |
| PhpPaginator.Paginator.SetNextText | src/php/Paginator.php:171-175 | stores the next label |
| PhpPaginator.Paginator.GetPageUrl | src/php/Paginator.php:119-122 | the URL `Navigation.PageUrl` gives for the stored pattern and placeholder (so `PageUrlReplacesEvery` applies), empty exactly when the pattern is |
| PhpPaginator.Paginator.GetNextPage | src/php/Paginator.php:124-131 | present iff cur < n, and then cur + 1 |
| PhpPaginator.Paginator.GetPrevPage | src/php/Paginator.php:133-140 | present iff cur > 1, and then cur - 1 |
| PhpPaginator.Paginator.GetNextUrl | src/php/Paginator.php:142-149 | present iff cur < n and cur ≠ -1, and then the next page's URL |
| PhpPaginator.Paginator.GetPrevUrl | src/php/Paginator.php:151-158 | present iff cur > 1, and then the previous page's URL |
| PhpPaginator.Paginator.GetCurrentPageFirstItem | src/php/Paginator.php:257-266 | present iff (cur-1)·ipp+1 ≤ total, for any page size, total and page, and then it is that index; with items and a positive page size, present iff cur ≤ n |
| PhpPaginator.Paginator.GetCurrentPageLastItem | src/php/Paginator.php:268-281 | present iff the first item is, and then min(first+ipp-1, total) |
| PhpPaginator.Paginator.SlidingRange | src/php/Paginator.php:212-223 | the block bounds of the window, inside [2, n-1] |
| PhpPaginator.Paginator.AppendPages | src/php/Paginator.php:230-232 | the loop appends the entries of pages lo..hi, each flagged iff current |
| PhpPaginator.Paginator.GetPages | src/php/Paginator.php:198-241 | `getPages()` returns the entries of the window, with ellipsis text `...` |
| PhpPaginator.Paginator.Renderer | src/php/Paginator.php:283-308 | `renderer()` returns the list markup of the window's entries with the previous and next URLs |
| PyPaginator.Markup | src/python/Paginator.py:227-245 | what `renderer()` writes: the list, previous link, one item per entry and next link, or `''` for at most one page; stated by `PyPaginator.ListItemsOfWindow`, `LabelsUnescaped` and `MarkupEmptyIff` |
| PyPaginator.MarkupEmptyIff | src/python/Paginator.py:228-229 | nothing is rendered exactly when there is at most one page |
| PyPaginator.ListItemsOfWindow | src/python/Paginator.py:235-239 | one item per marker: a disabled span with the escaped label for ellipses and for all when the pattern is empty; otherwise a link to the escaped page URL with the escaped number, classed first/last/active |
| PyPaginator.LabelsUnescaped | src/python/Paginator.py:237-239 | escaping a page number or `...` changes nothing |
| PyPaginator.AppendListItems | src/python/Paginator.py:235-239 | the loop appends the items of all entries, in order |
| PyPaginator.Paginator.constructor | src/python/Paginator.py:28-46 | the invariant holds; the fields are stored; `(:page)` is kept only when no placeholder is given; the default pattern is `''`; budget 10 and the two labels |
| PyPaginator.Paginator.ComputeNumPages | src/python/Paginator.py:48-50 | the cached count becomes the unguarded ceiling |
| PyPaginator.Paginator.SetMaxPagesToShow | src/python/Paginator.py:52-57 | below 3: ValueError `maxPagesToShow cannot be less than 3.` and the budget unchanged; otherwise stored |
| PyPaginator.Paginator.SetCurrentPage | src/python/Paginator.py:62-64 | stores the page; the count is unchanged |
| PyPaginator.Paginator.SetItemsPerPage | src/python/Paginator.py:69-71 | stores the page size and recomputes the count |
| PyPaginator.Paginator.SetTotalItems | src/python/Paginator.py:76-78 | stores the total and recomputes the count |
| PyPaginator.Paginator.SetUrlPattern | src/python/Paginator.py:86-88 | stores the pattern |
| PyPaginator.Paginator.SetPlaceholder | src/python/Paginator.py:93-95 | stores a non-empty placeholder |
| PyPaginator.Paginator.GetPageUrl | src/python/Paginator.py:100-101 | the URL `Navigation.PageUrl` gives for the stored pattern and placeholder (so `PageUrlReplacesEvery` applies), empty exactly when the pattern is |
| PyPaginator.Paginator.GetNextPage | src/python/Paginator.py:103-107 | present iff cur < n, and then cur + 1 |
| PyPaginator.Paginator.GetPrevPage | src/python/Paginator.py:109-113 | present iff cur > 1, and then cur - 1 |
| PyPaginator.Paginator.GetNextUrl | src/python/Paginator.py:115-119 | present iff cur < n and cur ≠ -1, and then the next page's URL |
| PyPaginator.Paginator.GetPrevUrl | src/python/Paginator.py:121-125 | present iff cur > 1, and then the previous page's URL |
| PyPaginator.Paginator.GetCurrentPageFirstItem | src/python/Paginator.py:208-214 | present iff (cur-1)·ipp+1 ≤ total, for any page size, total and page, and then it is that index; with items and a positive page size, present iff cur ≤ n |
| PyPaginator.Paginator.GetCurrentPageLastItem | src/python/Paginator.py:216-225 | present iff the first item is, and then min(first+ipp-1, total) |
| PyPaginator.Paginator.SlidingRange | src/python/Paginator.py:168-179 | the block bounds of the window, inside [2, n-1] |
| PyPaginator.Paginator.AppendPages | src/python/Paginator.py:186-187 | the loop appends the entries of pages lo..hi, each flagged iff current |
| PyPaginator.Paginator.GetPages | src/python/Paginator.py:157-195 | `getPages()` returns the entries of the window, with ellipsis text `...` |
| PyPaginator.Paginator.Renderer | src/python/Paginator.py:227-245 | `renderer()` returns the list markup of the window's entries with the previous and next URLs |

## Left out

- Module registration (UMD/AMD/CommonJS/XPCOM) of the JavaScript file: packaging, no behaviour.
- Getters (`numPages()`, `getTotalItems()`, `getMaxPagesToShow()` and the rest): they read a field. The model's fields are readable directly.
- Floating point: `Math.ceil`, `math.ceil` and `ceil` of the quotient are modelled as the exact integer ceiling. `floor((max - 3) / 2)` is modelled as integer division, exact for a budget ≥ 3. Rounding of huge floats is not modelled.
- Input coercion (`parseInt`, `(int)`, `int()`, `String()`, `str()`), NaN and non-numeric strings: numbers are `int` and texts are strings.
- JsPaginator.NormalizeView: lower-cases ASCII letters only, not the whole of `toLowerCase`; no letter outside ASCII can turn a name into `mobile`, `select` or `selectbox`.
- JsPaginator.Paginator.SetPlaceholder, PhpPaginator.Paginator.SetPlaceholder, PyPaginator.Paginator.SetPlaceholder: require a non-empty placeholder. Splitting or replacing on the empty string behaves differently in each language and is not modelled.
- PyPaginator.Paginator.constructor: requires that a given placeholder is not empty, for the same reason.
- Python `setPreviousText`/`setNextText`: declared without `self`, so they cannot be called as methods. They are not modelled as setters, and the Python labels keep their defaults.
- PHP `htmlspecialchars` is a builtin of PHP whose escaping depends on PHP's version and flags. `PhpPaginator.Paginator.Renderer` takes it as a parameter `esc`.
- The caller-supplied renderer of `render($renderer)` / `render(renderer)`, and the delegation of `toString`/`__toString`/`__str__` to `render()`: a foreign call and a one-line alias. The model's `render()` is the built-in renderer.
- The fluent `return this` of the setters: the model's setters return nothing, or the outcome of the validation for `maxPagesToShow`.
- Exceptions are values: `SetMaxPagesToShow` returns `Raise(name, message)` instead of unwinding.
