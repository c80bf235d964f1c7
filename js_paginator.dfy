/** The JavaScript port: a `Paginator` object whose fluent setters update its
    fields and recompute the page count, `pages()` building the entries of
    the page window with `push` in loops, and `render()` writing the list or
    select-box markup with `+=`. */
module JsPaginator {
  import opened Optional
  import opened Strings
  import opened Html
  import opened PageCount
  import opened PageWindow
  import opened Navigation

  // ---------------------------------------------------------------------------
  // Views

  datatype View = List | Selectbox

  /** The name `view()` reads back. */
  function ViewName(v: View): string {
    match v
    case List => "list"
    case Selectbox => "selectbox"
  }

  /** `view(v)`: 'mobile', 'selectbox' and 'select' in any letter case choose
      the select box; anything else the list. */
  function NormalizeView(v: string): View {
    var name := AsciiLower(v);
    if name == "mobile" || name == "selectbox" || name == "select" then Selectbox else List
  }

  /** A stored view name, set again, gives back the same view; and letter case
      never matters. */
  lemma NormalizeViewStable(v: View, s: string)
    ensures NormalizeView(ViewName(v)) == v
    ensures NormalizeView(AsciiLower(s)) == NormalizeView(s)
  {
    AsciiLowerIdempotent(s);
    assert AsciiLower("list") == "list";
    assert AsciiLower("selectbox") == "selectbox";
  }

  /** Two view names that differ only in letter case choose the same view. */
  lemma NormalizeViewCaseBlind(a: string, b: string)
    requires SameIgnoringAsciiCase(a, b)
    ensures NormalizeView(a) == NormalizeView(b)
  {
    AsciiLowerCaseBlind(a, b);
  }

  lemma NormalizeViewExamples()
    ensures NormalizeView("Mobile") == Selectbox && NormalizeView("SELECT") == Selectbox
    ensures NormalizeView("grid") == List && NormalizeView("") == List
  {
    assert AsciiLower("Mobile") == "mobile";
    assert AsciiLower("SELECT") == "select";
    assert AsciiLower("grid") == "grid";
  }

  // ---------------------------------------------------------------------------
  // Markup

  /** The extra classes of a list item: first, last and active. */
  function ItemClasses(e: PageEntry, numPages: int): string {
    (if e.num == Number(1) then " first" else "")
    + (if e.num == Number(numPages) then " last" else "")
    + (if e.isCurrent then " active" else "")
  }

  /** The list view's item for one entry: a link when it has a URL,
      otherwise a disabled span. */
  function ListItem(e: PageEntry, numPages: int): string {
    if UrlTruthy(e.url) then
      "<li class=\"page-item" + ItemClasses(e, numPages)
      + "\"><a href=\"" + HtmlSpecialChars(e.url.value) + "\">" + LabelString(e.num) + "</a></li>"
    else
      "<li class=\"page-item disabled\"><span>" + LabelString(e.num) + "</span></li>"
  }

  /** The select-box view's option for one entry: selectable with its URL as
      value, otherwise disabled. */
  function SelectOption(e: PageEntry): string {
    if UrlTruthy(e.url) then
      "<option value=\"" + HtmlSpecialChars(e.url.value) + "\"" + (if e.isCurrent then " selected" else "")
      + ">" + LabelString(e.num) + "</option>"
    else
      "<option disabled>" + LabelString(e.num) + "</option>"
  }

  function ListItems(es: seq<PageEntry>, numPages: int): seq<string> {
    seq(|es|, k requires 0 <= k < |es| => ListItem(es[k], numPages))
  }

  function SelectOptions(es: seq<PageEntry>): seq<string> {
    seq(|es|, k requires 0 <= k < |es| => SelectOption(es[k]))
  }

  /** The previous and next links of the two views, present when the URL
      is true. */
  function ListPrev(url: Option<string>, text: string): string {
    if UrlTruthy(url) then
      "<li class=\"page-previous\"><a href=\"" + HtmlSpecialChars(url.value) + "\">" + text + "</a></li>"
    else ""
  }

  function ListNext(url: Option<string>, text: string): string {
    if UrlTruthy(url) then
      "<li class=\"page-next\"><a href=\"" + HtmlSpecialChars(url.value) + "\">" + text + "</a></li>"
    else ""
  }

  function SelectPrev(url: Option<string>, text: string): string {
    if UrlTruthy(url) then
      "<span class=\"page-previous\"><a href=\"" + HtmlSpecialChars(url.value) + "\">" + text + "</a></span>"
    else ""
  }

  function SelectNext(url: Option<string>, text: string): string {
    if UrlTruthy(url) then
      "<span class=\"page-next\"><a href=\"" + HtmlSpecialChars(url.value) + "\">" + text + "</a></span>"
    else ""
  }

  /** What `render()` writes in the list view. */
  function ListMarkup(numPages: int, prevUrl: Option<string>, nextUrl: Option<string>,
                      previousText: string, nextText: string, es: seq<PageEntry>): string {
    if numPages <= 1 then ""
    else
      "<ul class=\"pagination\">" + ListPrev(prevUrl, previousText)
      + Concat(ListItems(es, numPages))
      + ListNext(nextUrl, nextText)
      + "</ul>"
  }

  /** What `render()` writes in the select-box view. */
  function SelectMarkup(numPages: int, prevUrl: Option<string>, nextUrl: Option<string>,
                        previousText: string, nextText: string, es: seq<PageEntry>): string {
    if numPages <= 1 then ""
    else
      "<div class=\"pagination\">" + SelectPrev(prevUrl, previousText) + "<select class=\"page-select\">"
      + Concat(SelectOptions(es))
      + "</select>"
      + SelectNext(nextUrl, nextText)
      + "</div>"
  }

  /** Nothing is rendered exactly when there is at most one page. */
  lemma RenderEmptyIff(numPages: int, prevUrl: Option<string>, nextUrl: Option<string>,
                       previousText: string, nextText: string, es: seq<PageEntry>)
    ensures ListMarkup(numPages, prevUrl, nextUrl, previousText, nextText, es) == "" <==> numPages <= 1
    ensures SelectMarkup(numPages, prevUrl, nextUrl, previousText, nextText, es) == "" <==> numPages <= 1
  {
  }

  /** The list view draws one item per window marker: a disabled span for
      each ellipsis (and for every marker when the pattern is empty), and for
      each page a link to that page's escaped URL, labelled with its number,
      with the class first on page 1, last on the last page and active on the
      current page. */
  lemma ListItemsOfWindow(numPages: int, currentPage: int, maxPagesToShow: int,
                          urlPattern: string, placeholder: string, ellipsis: string)
    requires maxPagesToShow >= 3 && |placeholder| > 0
    ensures var w := Window(numPages, currentPage, maxPagesToShow);
      var es := Entries(w, urlPattern, placeholder, ellipsis);
      var items := ListItems(es, numPages);
      && |items| == |w|
      && (forall k :: 0 <= k < |w| && (w[k].Ellipsis? || urlPattern == "") ==>
            items[k] == "<li class=\"page-item disabled\"><span>" + LabelString(es[k].num) + "</span></li>")
      && (forall k :: 0 <= k < |w| && w[k].Page? && urlPattern != "" ==>
            items[k] == "<li class=\"page-item" + ItemClasses(es[k], numPages) + "\"><a href=\""
                        + HtmlSpecialChars(PageUrl(urlPattern, placeholder, w[k].num)) + "\">"
                        + DecimalString(w[k].num) + "</a></li>")
      && (forall k :: 0 <= k < |w| && w[k].Page? ==>
            ItemClasses(es[k], numPages)
              == (if w[k].num == 1 then " first" else "")
                 + (if w[k].num == numPages then " last" else "")
                 + (if w[k].num == currentPage then " active" else ""))
  {
    DisabledEntries(numPages, currentPage, maxPagesToShow, urlPattern, placeholder, ellipsis);
    WindowEntries(numPages, currentPage, maxPagesToShow, urlPattern, placeholder, ellipsis);
  }

  /** The select-box view draws one option per window marker: a disabled
      option labelled with the ellipsis text for each ellipsis, a disabled
      option labelled with the page number for every page when the pattern is
      empty, and otherwise an option whose value is the page's escaped URL,
      labelled with its number and selected exactly on the current page. */
  lemma SelectOptionsOfWindow(numPages: int, currentPage: int, maxPagesToShow: int,
                              urlPattern: string, placeholder: string, ellipsis: string)
    requires maxPagesToShow >= 3 && |placeholder| > 0
    ensures var w := Window(numPages, currentPage, maxPagesToShow);
      var es := Entries(w, urlPattern, placeholder, ellipsis);
      var options := SelectOptions(es);
      && |options| == |w|
      && (forall k :: 0 <= k < |w| && w[k].Ellipsis? ==>
            options[k] == "<option disabled>" + ellipsis + "</option>")
      && (forall k :: 0 <= k < |w| && w[k].Page? && urlPattern == "" ==>
            options[k] == "<option disabled>" + DecimalString(w[k].num) + "</option>")
      && (forall k :: 0 <= k < |w| && w[k].Page? && urlPattern != "" ==>
            options[k] == "<option value=\"" + HtmlSpecialChars(PageUrl(urlPattern, placeholder, w[k].num)) + "\""
                          + (if w[k].num == currentPage then " selected" else "")
                          + ">" + DecimalString(w[k].num) + "</option>")
  {
    DisabledEntries(numPages, currentPage, maxPagesToShow, urlPattern, placeholder, ellipsis);
    WindowEntries(numPages, currentPage, maxPagesToShow, urlPattern, placeholder, ellipsis);
  }

  /** The loop of the list branch: one item per entry, appended in order. */
  method AppendListItems(html: string, pages: seq<PageEntry>, numPages: int) returns (html': string)
    ensures html' == html + Concat(ListItems(pages, numPages))
  {
    html' := html;
    ghost var parts := ListItems(pages, numPages);
    var i := 0;
    while i < |pages|
      invariant 0 <= i <= |pages|
      invariant html' == html + Concat(parts[..i])
    {
      var item := ListItem(pages[i], numPages);
      AppendPiece(html, parts, i);
      html' := html' + item;
      i := i + 1;
    }
    assert parts[..|pages|] == parts;
  }

  /** The list branch of `render()`: the opening tag, the previous link, the
      items, the next link, the closing tag. */
  method RenderList(numPages: int, prevUrl: Option<string>, nextUrl: Option<string>,
                    previousText: string, nextText: string, pages: seq<PageEntry>) returns (html: string)
    requires numPages > 1
    ensures html == ListMarkup(numPages, prevUrl, nextUrl, previousText, nextText, pages)
  {
    html := "<ul class=\"pagination\">";
    // previous link
    if UrlTruthy(prevUrl) {
      var href := HtmlSpecialChars(prevUrl.value);
      html := html + ("<li class=\"page-previous\"><a href=\"" + href + "\">" + previousText + "</a></li>");
    }
    // shown pages by number including first and last
    assert html == "<ul class=\"pagination\">" + ListPrev(prevUrl, previousText);
    html := AppendListItems(html, pages, numPages);
    ghost var body := html;
    // next link
    if UrlTruthy(nextUrl) {
      var href := HtmlSpecialChars(nextUrl.value);
      html := html + ("<li class=\"page-next\"><a href=\"" + href + "\">" + nextText + "</a></li>");
    }
    assert html == body + ListNext(nextUrl, nextText);
    html := html + "</ul>";
  }

  /** The loop of the select-box branch: one option per entry, in order. */
  method AppendSelectOptions(html: string, pages: seq<PageEntry>) returns (html': string)
    ensures html' == html + Concat(SelectOptions(pages))
  {
    html' := html;
    ghost var parts := SelectOptions(pages);
    var i := 0;
    while i < |pages|
      invariant 0 <= i <= |pages|
      invariant html' == html + Concat(parts[..i])
    {
      var option := SelectOption(pages[i]);
      AppendPiece(html, parts, i);
      html' := html' + option;
      i := i + 1;
    }
    assert parts[..|pages|] == parts;
  }

  /** The select-box branch of `render()`: the previous link, the options
      inside a select, the next link. */
  method RenderSelectbox(numPages: int, prevUrl: Option<string>, nextUrl: Option<string>,
                         previousText: string, nextText: string, pages: seq<PageEntry>) returns (html: string)
    requires numPages > 1
    ensures html == SelectMarkup(numPages, prevUrl, nextUrl, previousText, nextText, pages)
  {
    html := "<div class=\"pagination\">";
    // previous link
    if UrlTruthy(prevUrl) {
      var href := HtmlSpecialChars(prevUrl.value);
      html := html + ("<span class=\"page-previous\"><a href=\"" + href + "\">" + previousText + "</a></span>");
    }
    html := html + "<select class=\"page-select\">";
    assert html == "<div class=\"pagination\">" + SelectPrev(prevUrl, previousText) + "<select class=\"page-select\">";
    // shown pages by number including first and last
    html := AppendSelectOptions(html, pages);
    html := html + "</select>";
    ghost var body := html;
    // next link
    if UrlTruthy(nextUrl) {
      var href := HtmlSpecialChars(nextUrl.value);
      html := html + ("<span class=\"page-next\"><a href=\"" + href + "\">" + nextText + "</a></span>");
    }
    assert html == body + SelectNext(nextUrl, nextText);
    html := html + "</div>";
  }

  // ---------------------------------------------------------------------------
  // The object

  class Paginator {
    var totalItems: int
    var itemsPerPage: int
    var currentPage: int
    var numPages: int
    var maxPagesToShow: int
    var placeholder: string
    var urlPattern: string
    var previousText: string
    var nextText: string
    var ellipsis: string
    var view: View

    /** The cached page count is the guarded ceiling of the inputs, the budget
        is at least 3, and the placeholder is not empty. */
    ghost predicate Valid()
      reads this
    {
      && numPages == NumPagesGuarded(totalItems, itemsPerPage)
      && maxPagesToShow >= 3
      && |placeholder| > 0
    }

    /** `new Paginator(totalItems, itemsPerPage, currentPage)`; a current page
        of 0 (or none) becomes 1. */
    constructor(totalItems: int, itemsPerPage: int, currentPage: int)
      ensures Valid()
      ensures this.totalItems == totalItems && this.itemsPerPage == itemsPerPage
      ensures this.currentPage == if currentPage == 0 then 1 else currentPage
      ensures numPages == NumPagesGuarded(totalItems, itemsPerPage)
      ensures maxPagesToShow == 10 && placeholder == "(:page)" && urlPattern == "?page=(:page)"
      ensures previousText == "&laquo; Previous" && nextText == "Next &raquo;"
      ensures ellipsis == "..." && view == List
    {
      maxPagesToShow := 10;
      placeholder := "(:page)";
      urlPattern := "?page=" + "(:page)";
      previousText := "&laquo; Previous";
      nextText := "Next &raquo;";
      ellipsis := "...";
      view := List;
      numPages := 0;
      this.totalItems := totalItems;
      this.itemsPerPage := itemsPerPage;
      this.currentPage := if currentPage == 0 then 1 else currentPage;
      new;
      ComputeNumPages();
    }

    /** `computeNumPages()`: no pages unless both inputs are positive,
        otherwise the ceiling of their quotient. */
    method ComputeNumPages()
      modifies this`numPages
      ensures numPages == NumPagesGuarded(totalItems, itemsPerPage)
    {
      numPages := if 0 >= itemsPerPage || 0 >= totalItems then 0 else CeilDiv(totalItems, itemsPerPage);
    }

    method SetTotalItems(totalItems: int)
      requires Valid()
      modifies this`totalItems, this`numPages
      ensures Valid()
      ensures this.totalItems == totalItems
      ensures numPages == NumPagesGuarded(totalItems, itemsPerPage)
    {
      this.totalItems := totalItems;
      ComputeNumPages();
    }

    method SetItemsPerPage(itemsPerPage: int)
      requires Valid()
      modifies this`itemsPerPage, this`numPages
      ensures Valid()
      ensures this.itemsPerPage == itemsPerPage
      ensures numPages == NumPagesGuarded(totalItems, itemsPerPage)
    {
      this.itemsPerPage := itemsPerPage;
      ComputeNumPages();
    }

    /** Moving to another page leaves the page count as it was. */
    method SetCurrentPage(currentPage: int)
      requires Valid()
      modifies this`currentPage
      ensures Valid()
      ensures this.currentPage == currentPage && numPages == old(numPages)
    {
      this.currentPage := currentPage;
    }

    /** `maxPagesToShow(v)`: a TypeError for a budget below 3, which is then
        left as it was. */
    method SetMaxPagesToShow(maxPagesToShow: int) returns (r: Outcome)
      requires Valid()
      modifies this`maxPagesToShow
      ensures Valid()
      ensures maxPagesToShow < 3 ==>
        r == Raise("TypeError", "maxPagesToShow cannot be less than 3!")
        && this.maxPagesToShow == old(this.maxPagesToShow)
      ensures maxPagesToShow >= 3 ==> r == Pass && this.maxPagesToShow == maxPagesToShow
    {
      if maxPagesToShow < 3 {
        return Raise("TypeError", "maxPagesToShow cannot be less than 3!");
      }
      this.maxPagesToShow := maxPagesToShow;
      r := Pass;
    }

    method SetUrlPattern(urlPattern: string)
      requires Valid()
      modifies this`urlPattern
      ensures Valid() && this.urlPattern == urlPattern
    {
      this.urlPattern := urlPattern;
    }

    method SetPlaceholder(placeholder: string)
      requires Valid() && |placeholder| > 0
      modifies this`placeholder
      ensures Valid() && this.placeholder == placeholder
    {
      this.placeholder := placeholder;
    }

    method SetPreviousText(text: string)
      requires Valid()
      modifies this`previousText
      ensures Valid() && previousText == text
    {
      previousText := text;
    }

    method SetNextText(text: string)
      requires Valid()
      modifies this`nextText
      ensures Valid() && nextText == text
    {
      nextText := text;
    }

    method SetEllipsis(text: string)
      requires Valid()
      modifies this`ellipsis
      ensures Valid() && ellipsis == text
    {
      ellipsis := text;
    }

    method SetView(view: string)
      requires Valid()
      modifies this`view
      ensures Valid() && this.view == NormalizeView(view)
    {
      this.view := NormalizeView(view);
    }

    /** `pageUrl(n)`: empty exactly when the pattern is. */
    function PageUrl(pageNum: int): (url: string)
      reads this
      requires Valid()
      ensures url == Navigation.PageUrl(urlPattern, placeholder, pageNum)
      ensures url == "" <==> urlPattern == ""
    {
      PageUrlEmptyIff(urlPattern, placeholder, pageNum);
      Navigation.PageUrl(urlPattern, placeholder, pageNum)
    }

    /** `prevPage()`: the page before the current one, when there is one. */
    function PrevPage(): (p: Option<int>)
      reads this
      ensures p.Some? <==> currentPage > 1
      ensures p.Some? ==> p.value == currentPage - 1
    {
      Navigation.PrevPage(currentPage)
    }

    /** `nextPage()`: the page after the current one, when it is a page. */
    function NextPage(): (p: Option<int>)
      reads this
      ensures p.Some? <==> currentPage < numPages
      ensures p.Some? ==> p.value == currentPage + 1
    {
      Navigation.NextPage(currentPage, numPages)
    }

    /** `prevUrl()`: the previous page's URL exactly when the current page is
        past the first. */
    function PrevUrl(): (u: Option<string>)
      reads this
      requires Valid()
      ensures u.Some? <==> currentPage > 1
      ensures u.Some? ==> u.value == PageUrl(currentPage - 1)
    {
      UrlPresence(urlPattern, placeholder, currentPage, numPages);
      Navigation.PrevUrl(urlPattern, placeholder, currentPage)
    }

    /** `nextUrl()`: the next page's URL exactly when the current page is
        before the last, and not from page -1, whose next page 0 is false. */
    function NextUrl(): (u: Option<string>)
      reads this
      requires Valid()
      ensures u.Some? <==> currentPage < numPages && currentPage != -1
      ensures u.Some? ==> u.value == PageUrl(currentPage + 1)
    {
      UrlPresence(urlPattern, placeholder, currentPage, numPages);
      Navigation.NextUrl(urlPattern, placeholder, currentPage, numPages)
    }

    /** `currentPageFirstItem()`: the index of the page's first item, present exactly
        when it is not past the total; with items and a positive page size,
        that is when the current page is not past the last page. */
    function FirstItem(): (f: Option<int>)
      reads this
      requires Valid()
      ensures f.Some? ==> f.value == (currentPage - 1) * itemsPerPage + 1 <= totalItems
      ensures f.Some? <==> (currentPage - 1) * itemsPerPage + 1 <= totalItems
      ensures itemsPerPage > 0 && totalItems > 0 ==> (f.Some? <==> currentPage <= numPages)
    {
      if itemsPerPage > 0 && totalItems > 0 then
        FirstItemPresentIff(currentPage, itemsPerPage, totalItems);
        Navigation.FirstItem(currentPage, itemsPerPage, totalItems)
      else
        Navigation.FirstItem(currentPage, itemsPerPage, totalItems)
    }

    /** `currentPageLastItem()`: present exactly when the first item is, and
        then a full page after it, cut at the last item. */
    function LastItem(): (l: Option<int>)
      reads this
      requires Valid()
      ensures l.Some? <==> FirstItem().Some?
      ensures l.Some? ==> l.value == if FirstItem().value + itemsPerPage - 1 <= totalItems
                                     then FirstItem().value + itemsPerPage - 1 else totalItems
    {
      ItemRange(currentPage, itemsPerPage, totalItems);
      Navigation.LastItem(currentPage, itemsPerPage, totalItems)
    }

    /** The sliding block of `pages()`, centred on the current page when
        the pages do not all fit. */
    method SlidingRange() returns (slidingStart: int, slidingEnd: int)
      requires Valid() && numPages > maxPagesToShow
      ensures slidingStart == SlidingStart(numPages, currentPage, maxPagesToShow)
      ensures slidingEnd == SlidingEnd(numPages, currentPage, maxPagesToShow)
      ensures 2 <= slidingStart <= slidingEnd + 1 && slidingEnd <= numPages - 1
    {
      SlidingBounds(numPages, currentPage, maxPagesToShow);
      var numAdjacents := (maxPagesToShow - 3) / 2;
      if currentPage + numAdjacents > numPages {
        slidingStart := numPages - maxPagesToShow + 2;
      } else {
        slidingStart := currentPage - numAdjacents;
      }
      if slidingStart < 2 {
        slidingStart := 2;
      }
      slidingEnd := slidingStart + maxPagesToShow - 3;
      if slidingEnd >= numPages {
        slidingEnd := numPages - 1;
      }
    }

    /** The loop of `pages()` that pushes the entries of the pages lo..hi,
        each flagged when it is the current page. */
    method PushPages(pages: seq<PageEntry>, lo: int, hi: int) returns (pages': seq<PageEntry>)
      requires Valid() && lo <= hi + 1
      ensures pages' == pages + Entries(Run(lo, hi, currentPage), urlPattern, placeholder, ellipsis)
    {
      pages' := pages;
      ghost var marks: seq<Marker> := [];
      var i := lo;
      while i <= hi
        invariant lo <= i <= hi + 1
        invariant marks == Run(lo, i - 1, currentPage)
        invariant pages' == pages + Entries(marks, urlPattern, placeholder, ellipsis)
      {
        EntriesSnoc(marks, Page(i, i == currentPage), urlPattern, placeholder, ellipsis);
        RunSnoc(lo, i - 1, currentPage);
        pages' := pages' + [CreatePage(Some(i), i == currentPage, urlPattern, placeholder, ellipsis)];
        marks := marks + [Page(i, i == currentPage)];
        i := i + 1;
      }
    }

    /** `pages()`: the entries of the page window, built front to back. */
    method Pages() returns (pages: seq<PageEntry>)
      requires Valid()
      ensures pages == Entries(Window(numPages, currentPage, maxPagesToShow), urlPattern, placeholder, ellipsis)
    {
      var n, cur, m, pat, ph, ell := numPages, currentPage, maxPagesToShow, urlPattern, placeholder, ellipsis;
      pages := [];
      if 1 >= n {
        return;
      }
      if n <= m {
        pages := PushPages(pages, 1, n);
        assert pages == Entries(Run(1, n, cur), pat, ph, ell);
      } else {
        var slidingStart, slidingEnd := SlidingRange();
        ghost var dots := [CreatePage(None, false, pat, ph, ell)];
        ghost var pre := if slidingStart > 2 then dots else [];
        ghost var post := if slidingEnd < n - 1 then dots else [];
        // first
        pages := [CreatePage(Some(1), 1 == cur, pat, ph, ell)];
        ghost var first := pages;
        // ellipsis before the block
        if slidingStart > 2 {
          pages := pages + [CreatePage(None, false, pat, ph, ell)];
        }
        assert pages == first + pre;
        // the block
        pages := PushPages(pages, slidingStart, slidingEnd);
        ghost var body := pages;
        // ellipsis after the block
        if slidingEnd < n - 1 {
          pages := pages + [CreatePage(None, false, pat, ph, ell)];
        }
        assert pages == body + post;
        // last
        pages := pages + [CreatePage(Some(n), n == cur, pat, ph, ell)];
        SlidingWindowEntries(n, cur, m, pat, ph, ell);
      }
    }

    /** `render()`: the markup of the chosen view for the window's entries and
        the previous and next links. */
    method Render() returns (html: string)
      requires Valid()
      ensures var es := Entries(Window(numPages, currentPage, maxPagesToShow), urlPattern, placeholder, ellipsis);
        html == if view == Selectbox
                then SelectMarkup(numPages, PrevUrl(), NextUrl(), previousText, nextText, es)
                else ListMarkup(numPages, PrevUrl(), NextUrl(), previousText, nextText, es)
    {
      if 1 >= numPages {
        return "";
      }
      var pages := Pages();
      if view == Selectbox {
        html := RenderSelectbox(numPages, PrevUrl(), NextUrl(), previousText, nextText, pages);
      } else {
        html := RenderList(numPages, PrevUrl(), NextUrl(), previousText, nextText, pages);
      }
    }
  }
}
