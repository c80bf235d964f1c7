/** The Python port: a `Paginator` class whose setters update its instance
    attributes, `getPages()` appending entries in `for … in range` loops,
    and `renderer()` writing the list markup with `+=`, escaping URLs and
    labels with the module's `htmlspecialchars`. */
module PyPaginator {
  import opened Optional
  import opened Strings
  import opened Html
  import opened PageCount
  import opened PageWindow
  import opened Navigation

  /** The ellipsis text; the Python port has no setter for it. */
  const Dots: string := "..."

  // ---------------------------------------------------------------------------
  // Markup

  /** The extra classes of an item: first on page 1, last on the last page,
      active on the current page. */
  function ItemClasses(e: PageEntry, numPages: int): string {
    (if e.num == Number(1) then " first" else "")
    + (if e.num == Number(numPages) then " last" else "")
    + (if e.isCurrent then " active" else "")
  }

  /** The item `renderer()` draws for one entry: a link when the URL is
      true, otherwise a disabled span; the label is escaped either way. */
  function ListItem(e: PageEntry, numPages: int): string {
    if UrlTruthy(e.url) then
      "<li class=\"page-item" + ItemClasses(e, numPages)
      + "\"><a href=\"" + HtmlSpecialChars(e.url.value) + "\">" + HtmlSpecialChars(LabelString(e.num)) + "</a></li>"
    else
      "<li class=\"page-item disabled\"><span>" + HtmlSpecialChars(LabelString(e.num)) + "</span></li>"
  }

  function ListItems(es: seq<PageEntry>, numPages: int): seq<string> {
    seq(|es|, k requires 0 <= k < |es| => ListItem(es[k], numPages))
  }

  function PrevLink(url: Option<string>, text: string): string {
    if UrlTruthy(url) then
      "<li class=\"page-previous\"><a href=\"" + HtmlSpecialChars(url.value) + "\">" + text + "</a></li>"
    else ""
  }

  function NextLink(url: Option<string>, text: string): string {
    if UrlTruthy(url) then
      "<li class=\"page-next\"><a href=\"" + HtmlSpecialChars(url.value) + "\">" + text + "</a></li>"
    else ""
  }

  /** What `renderer()` writes. */
  function Markup(numPages: int, prevUrl: Option<string>, nextUrl: Option<string>,
                  previousText: string, nextText: string, es: seq<PageEntry>): string {
    if numPages <= 1 then ""
    else
      "<ul class=\"pagination\">" + PrevLink(prevUrl, previousText)
      + Concat(ListItems(es, numPages))
      + NextLink(nextUrl, nextText)
      + "</ul>"
  }

  /** Nothing is rendered exactly when there is at most one page. */
  lemma MarkupEmptyIff(numPages: int, prevUrl: Option<string>, nextUrl: Option<string>,
                       previousText: string, nextText: string, es: seq<PageEntry>)
    ensures Markup(numPages, prevUrl, nextUrl, previousText, nextText, es) == "" <==> numPages <= 1
  {
  }

  /** One item per window marker: a disabled span for each ellipsis (and for
      every marker when the pattern is empty), and for each page a link to
      that page's escaped URL, labelled with its number, with the class first
      on page 1, last on the last page and active on the current page. */
  lemma ListItemsOfWindow(numPages: int, currentPage: int, maxPagesToShow: int,
                          urlPattern: string, placeholder: string)
    requires maxPagesToShow >= 3 && |placeholder| > 0
    ensures var w := Window(numPages, currentPage, maxPagesToShow);
      var es := Entries(w, urlPattern, placeholder, Dots);
      var items := ListItems(es, numPages);
      && |items| == |w|
      && (forall k :: 0 <= k < |w| && w[k].Ellipsis? ==>
            items[k] == "<li class=\"page-item disabled\"><span>" + HtmlSpecialChars(Dots) + "</span></li>")
      && (forall k :: 0 <= k < |w| && w[k].Page? && urlPattern == "" ==>
            items[k] == "<li class=\"page-item disabled\"><span>"
                        + HtmlSpecialChars(DecimalString(w[k].num)) + "</span></li>")
      && (forall k :: 0 <= k < |w| && w[k].Page? && urlPattern != "" ==>
            items[k] == "<li class=\"page-item" + ItemClasses(es[k], numPages) + "\"><a href=\""
                        + HtmlSpecialChars(PageUrl(urlPattern, placeholder, w[k].num)) + "\">"
                        + HtmlSpecialChars(DecimalString(w[k].num)) + "</a></li>")
      && (forall k :: 0 <= k < |w| && w[k].Page? ==>
            ItemClasses(es[k], numPages)
              == (if w[k].num == 1 then " first" else "")
                 + (if w[k].num == numPages then " last" else "")
                 + (if w[k].num == currentPage then " active" else ""))
  {
    DisabledEntries(numPages, currentPage, maxPagesToShow, urlPattern, placeholder, Dots);
    WindowEntries(numPages, currentPage, maxPagesToShow, urlPattern, placeholder, Dots);
  }

  /** The labels need no escaping: a page number and the ellipsis come out
      of `htmlspecialchars` as they went in. */
  lemma LabelsUnescaped(n: int)
    ensures HtmlSpecialChars(DecimalString(n)) == DecimalString(n)
    ensures HtmlSpecialChars(Dots) == Dots
  {
    DigitsAreNotSpecial(DecimalString(n));
    DigitsAreNotSpecial(Dots);
  }

  lemma DigitsAreNotSpecial(s: string)
    requires forall i :: 0 <= i < |s| ==> IsDigit(s[i]) || s[i] == '-' || s[i] == '.'
    ensures HtmlSpecialChars(s) == s
  {
    PlainTextUnchanged(s);
  }

  /** The `for` loop of `renderer()`: one item per entry, appended in order. */
  method AppendListItems(html: string, pages: seq<PageEntry>, numPages: int) returns (html': string)
    ensures html' == html + Concat(ListItems(pages, numPages))
  {
    html' := html;
    ghost var parts := ListItems(pages, numPages);
    var i := 0;
    while i < |pages|
      invariant 0 <= i <= |pages|
      invariant html' == html + Concat(parts[..i])
    {
      var item := ListItem(pages[i], numPages);
      AppendPiece(html, parts, i);
      html' := html' + item;
      i := i + 1;
    }
    assert parts[..|pages|] == parts;
  }

  // ---------------------------------------------------------------------------
  // The object

  class Paginator {
    var totalItems: int
    var numPages: int
    var itemsPerPage: int
    var currentPage: int
    var urlPattern: string
    var maxPagesToShow: int
    var placeholder: string
    var previousText: string
    var nextText: string

    /** The cached page count is the unguarded ceiling of the inputs, the
        budget is at least 3, and the placeholder is not empty. */
    ghost predicate Valid()
      reads this
    {
      && numPages == NumPagesCeil(totalItems, itemsPerPage)
      && maxPagesToShow >= 3
      && |placeholder| > 0
    }

    /** `Paginator(totalItems, itemsPerPage, currentPage, urlPattern,
        placeholder)`: the default placeholder stays only when none is
        given. */
    constructor(totalItems: int, itemsPerPage: int, currentPage: int,
                urlPattern: string := "", placeholder: Option<string> := None)
      requires placeholder != Some("")
      ensures Valid()
      ensures this.totalItems == totalItems && this.itemsPerPage == itemsPerPage
      ensures this.currentPage == currentPage && this.urlPattern == urlPattern
      ensures this.placeholder == if placeholder.Some? then placeholder.value else "(:page)"
      ensures numPages == NumPagesCeil(totalItems, itemsPerPage)
      ensures maxPagesToShow == 10 && previousText == "&laquo; Previous" && nextText == "Next &raquo;"
    {
      this.numPages := 0;
      this.maxPagesToShow := 10;
      this.previousText := "&laquo; Previous";
      this.nextText := "Next &raquo;";
      this.totalItems := totalItems;
      this.itemsPerPage := itemsPerPage;
      this.currentPage := currentPage;
      this.urlPattern := urlPattern;
      this.placeholder := if placeholder.Some? then placeholder.value else "(:page)";
      new;
      ComputeNumPages();
    }

    /** `computeNumPages()`: no pages when the page size is 0, otherwise the
        ceiling of the quotient, negative inputs included. */
    method ComputeNumPages()
      modifies this`numPages
      ensures numPages == NumPagesCeil(totalItems, itemsPerPage)
    {
      numPages := if 0 == itemsPerPage then 0 else CeilDiv(totalItems, itemsPerPage);
    }

    /** `setMaxPagesToShow(v)`: a ValueError for a budget below 3, which is
        then left as it was. */
    method SetMaxPagesToShow(maxPagesToShow: int) returns (r: Outcome)
      requires Valid()
      modifies this`maxPagesToShow
      ensures Valid()
      ensures maxPagesToShow < 3 ==>
        r == Raise("ValueError", "maxPagesToShow cannot be less than 3.")
        && this.maxPagesToShow == old(this.maxPagesToShow)
      ensures maxPagesToShow >= 3 ==> r == Pass && this.maxPagesToShow == maxPagesToShow
    {
      if maxPagesToShow < 3 {
        return Raise("ValueError", "maxPagesToShow cannot be less than 3.");
      }
      this.maxPagesToShow := maxPagesToShow;
      r := Pass;
    }

    /** Moving to another page leaves the page count as it was. */
    method SetCurrentPage(currentPage: int)
      requires Valid()
      modifies this`currentPage
      ensures Valid()
      ensures this.currentPage == currentPage && numPages == old(numPages)
    {
      this.currentPage := currentPage;
    }

    method SetItemsPerPage(itemsPerPage: int)
      requires Valid()
      modifies this`itemsPerPage, this`numPages
      ensures Valid()
      ensures this.itemsPerPage == itemsPerPage
      ensures numPages == NumPagesCeil(totalItems, itemsPerPage)
    {
      this.itemsPerPage := itemsPerPage;
      ComputeNumPages();
    }

    method SetTotalItems(totalItems: int)
      requires Valid()
      modifies this`totalItems, this`numPages
      ensures Valid()
      ensures this.totalItems == totalItems
      ensures numPages == NumPagesCeil(totalItems, itemsPerPage)
    {
      this.totalItems := totalItems;
      ComputeNumPages();
    }

    method SetUrlPattern(urlPattern: string)
      requires Valid()
      modifies this`urlPattern
      ensures Valid() && this.urlPattern == urlPattern
    {
      this.urlPattern := urlPattern;
    }

    method SetPlaceholder(placeholder: string)
      requires Valid() && |placeholder| > 0
      modifies this`placeholder
      ensures Valid() && this.placeholder == placeholder
    {
      this.placeholder := placeholder;
    }

    /** `getPageUrl(n)`: empty exactly when the pattern is, which is the
        default. */
    function GetPageUrl(pageNum: int): (url: string)
      reads this
      requires Valid()
      ensures url == Navigation.PageUrl(urlPattern, placeholder, pageNum)
      ensures url == "" <==> urlPattern == ""
    {
      PageUrlEmptyIff(urlPattern, placeholder, pageNum);
      PageUrl(urlPattern, placeholder, pageNum)
    }

    /** `getNextPage()`: the page after the current one, when it is a page. */
    function GetNextPage(): (p: Option<int>)
      reads this
      ensures p.Some? <==> currentPage < numPages
      ensures p.Some? ==> p.value == currentPage + 1
    {
      NextPage(currentPage, numPages)
    }

    /** `getPrevPage()`: the page before the current one, when there is one. */
    function GetPrevPage(): (p: Option<int>)
      reads this
      ensures p.Some? <==> currentPage > 1
      ensures p.Some? ==> p.value == currentPage - 1
    {
      PrevPage(currentPage)
    }

    /** `getNextUrl()`: the next page's URL exactly when the current page is
        before the last, and not from page -1, whose next page 0 is false. */
    function GetNextUrl(): (u: Option<string>)
      reads this
      requires Valid()
      ensures u.Some? <==> currentPage < numPages && currentPage != -1
      ensures u.Some? ==> u.value == GetPageUrl(currentPage + 1)
    {
      UrlPresence(urlPattern, placeholder, currentPage, numPages);
      NextUrl(urlPattern, placeholder, currentPage, numPages)
    }

    /** `getPrevUrl()`: the previous page's URL exactly when the current page
        is past the first. */
    function GetPrevUrl(): (u: Option<string>)
      reads this
      requires Valid()
      ensures u.Some? <==> currentPage > 1
      ensures u.Some? ==> u.value == GetPageUrl(currentPage - 1)
    {
      UrlPresence(urlPattern, placeholder, currentPage, numPages);
      PrevUrl(urlPattern, placeholder, currentPage)
    }

    /** `getCurrentPageFirstItem()`: the index of the page's first item, present exactly
        when it is not past the total; with items and a positive page size,
        that is when the current page is not past the last page. */
    function GetCurrentPageFirstItem(): (f: Option<int>)
      reads this
      requires Valid()
      ensures f.Some? ==> f.value == (currentPage - 1) * itemsPerPage + 1 <= totalItems
      ensures f.Some? <==> (currentPage - 1) * itemsPerPage + 1 <= totalItems
      ensures itemsPerPage > 0 && totalItems > 0 ==> (f.Some? <==> currentPage <= numPages)
    {
      if itemsPerPage > 0 && totalItems > 0 then
        GuardsAgreeOnNaturals(totalItems, itemsPerPage);
        FirstItemPresentIff(currentPage, itemsPerPage, totalItems);
        FirstItem(currentPage, itemsPerPage, totalItems)
      else
        FirstItem(currentPage, itemsPerPage, totalItems)
    }

    /** `getCurrentPageLastItem()`: present exactly when the first item is,
        and then a full page after it, cut at the last item. */
    function GetCurrentPageLastItem(): (l: Option<int>)
      reads this
      requires Valid()
      ensures l.Some? <==> GetCurrentPageFirstItem().Some?
      ensures l.Some? ==> l.value == if GetCurrentPageFirstItem().value + itemsPerPage - 1 <= totalItems
                                     then GetCurrentPageFirstItem().value + itemsPerPage - 1 else totalItems
    {
      ItemRange(currentPage, itemsPerPage, totalItems);
      LastItem(currentPage, itemsPerPage, totalItems)
    }

    /** The sliding range of `getPages()`, centred on the current page. */
    method SlidingRange() returns (slidingStart: int, slidingEnd: int)
      requires Valid() && numPages > maxPagesToShow
      ensures slidingStart == SlidingStart(numPages, currentPage, maxPagesToShow)
      ensures slidingEnd == SlidingEnd(numPages, currentPage, maxPagesToShow)
      ensures 2 <= slidingStart <= slidingEnd + 1 && slidingEnd <= numPages - 1
    {
      SlidingBounds(numPages, currentPage, maxPagesToShow);
      var numAdjacents := (maxPagesToShow - 3) / 2;
      if currentPage + numAdjacents > numPages {
        slidingStart := numPages - maxPagesToShow + 2;
      } else {
        slidingStart := currentPage - numAdjacents;
      }
      if slidingStart < 2 {
        slidingStart := 2;
      }
      slidingEnd := slidingStart + maxPagesToShow - 3;
      if slidingEnd >= numPages {
        slidingEnd := numPages - 1;
      }
    }

    /** The `for i in range(lo, hi + 1)` loops of `getPages()`: the entries of
        the pages lo..hi, each flagged when it is the current page. */
    method AppendPages(pages: seq<PageEntry>, lo: int, hi: int) returns (pages': seq<PageEntry>)
      requires Valid() && lo <= hi + 1
      ensures pages' == pages + Entries(Run(lo, hi, currentPage), urlPattern, placeholder, Dots)
    {
      pages' := pages;
      ghost var marks: seq<Marker> := [];
      var i := lo;
      while i < hi + 1
        invariant lo <= i <= hi + 1
        invariant marks == Run(lo, i - 1, currentPage)
        invariant pages' == pages + Entries(marks, urlPattern, placeholder, Dots)
      {
        EntriesSnoc(marks, Page(i, i == currentPage), urlPattern, placeholder, Dots);
        RunSnoc(lo, i - 1, currentPage);
        pages' := pages' + [CreatePage(Some(i), i == currentPage, urlPattern, placeholder, Dots)];
        marks := marks + [Page(i, i == currentPage)];
        i := i + 1;
      }
    }

    /** `getPages()`: the entries of the page window, built front to back. */
    method GetPages() returns (pages: seq<PageEntry>)
      requires Valid()
      ensures pages == Entries(Window(numPages, currentPage, maxPagesToShow), urlPattern, placeholder, Dots)
    {
      var n, cur, m, pat, ph := numPages, currentPage, maxPagesToShow, urlPattern, placeholder;
      pages := [];
      if n <= 1 {
        return [];
      }
      if n <= m {
        pages := AppendPages(pages, 1, n);
        assert pages == Entries(Run(1, n, cur), pat, ph, Dots);
      } else {
        var slidingStart, slidingEnd := SlidingRange();
        ghost var dots := [CreatePage(None, false, pat, ph, Dots)];
        ghost var pre := if slidingStart > 2 then dots else [];
        ghost var post := if slidingEnd < n - 1 then dots else [];
        pages := [CreatePage(Some(1), 1 == cur, pat, ph, Dots)];
        ghost var first := pages;
        if slidingStart > 2 {
          pages := pages + [CreatePage(None, false, pat, ph, Dots)];
        }
        assert pages == first + pre;
        pages := AppendPages(pages, slidingStart, slidingEnd);
        ghost var body := pages;
        if slidingEnd < n - 1 {
          pages := pages + [CreatePage(None, false, pat, ph, Dots)];
        }
        assert pages == body + post;
        pages := pages + [CreatePage(Some(n), n == cur, pat, ph, Dots)];
        SlidingWindowEntries(n, cur, m, pat, ph, Dots);
      }
    }

    /** `renderer()`: the list markup for the window's entries and the
        previous and next links. */
    method Renderer() returns (html: string)
      requires Valid()
      ensures html == Markup(numPages, GetPrevUrl(), GetNextUrl(), previousText, nextText,
                             Entries(Window(numPages, currentPage, maxPagesToShow), urlPattern, placeholder, Dots))
    {
      if numPages <= 1 {
        return "";
      }
      var prevUrl, nextUrl, previousText, nextText, n := GetPrevUrl(), GetNextUrl(), this.previousText, this.nextText, numPages;
      html := "<ul class=\"pagination\">";
      if UrlTruthy(prevUrl) {
        html := html + ("<li class=\"page-previous\"><a href=\"" + HtmlSpecialChars(prevUrl.value) + "\">"
          + previousText + "</a></li>");
      }
      assert html == "<ul class=\"pagination\">" + PrevLink(prevUrl, previousText);
      var pages := GetPages();
      html := AppendListItems(html, pages, n);
      ghost var body := html;
      if UrlTruthy(nextUrl) {
        html := html + ("<li class=\"page-next\"><a href=\"" + HtmlSpecialChars(nextUrl.value) + "\">"
          + nextText + "</a></li>");
      }
      assert html == body + NextLink(nextUrl, nextText);
      html := html + "</ul>";
    }
  }
}
