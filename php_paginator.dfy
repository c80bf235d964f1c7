/** The PHP port: a `Paginator` class whose `set*` methods update its
    protected fields, `getPages()` appending entries with `$pages[] =` in
    loops, and `renderer()` writing the list markup with `.=`. PHP's own
    `htmlspecialchars` is a builtin of the language and is a parameter `esc`
    here. */
module PhpPaginator {
  import opened Optional
  import opened Strings
  import opened PageCount
  import opened PageWindow
  import opened Navigation

  /** The ellipsis text; the PHP port has no setter for it. */
  const Dots: string := "..."

  // ---------------------------------------------------------------------------
  // Markup

  /** The item `renderer()` draws for one entry: a link when PHP takes the URL
      as true, otherwise a disabled span. */
  function ListItem(e: PageEntry, esc: string -> string): string {
    if PhpUrlTruthy(e.url) then
      "<li" + (if e.isCurrent then " class=\"active\"" else "") + "><a href=\"" + esc(e.url.value) + "\">"
      + esc(LabelString(e.num)) + "</a></li>"
    else
      "<li class=\"disabled\"><span>" + esc(LabelString(e.num)) + "</span></li>"
  }

  function ListItems(es: seq<PageEntry>, esc: string -> string): seq<string> {
    seq(|es|, k requires 0 <= k < |es| => ListItem(es[k], esc))
  }

  function PrevLink(url: Option<string>, text: string, esc: string -> string): string {
    if PhpUrlTruthy(url) then "<li><a href=\"" + esc(url.value) + "\">&laquo; " + text + "</a></li>" else ""
  }

  function NextLink(url: Option<string>, text: string, esc: string -> string): string {
    if PhpUrlTruthy(url) then "<li><a href=\"" + esc(url.value) + "\">" + text + " &raquo;</a></li>" else ""
  }

  /** What `renderer()` writes. */
  function Markup(numPages: int, prevUrl: Option<string>, nextUrl: Option<string>,
                  previousText: string, nextText: string, es: seq<PageEntry>, esc: string -> string): string {
    if numPages <= 1 then ""
    else
      "<ul class=\"pagination\">" + PrevLink(prevUrl, previousText, esc)
      + Concat(ListItems(es, esc))
      + NextLink(nextUrl, nextText, esc)
      + "</ul>"
  }

  /** Nothing is rendered exactly when there is at most one page. */
  lemma MarkupEmptyIff(numPages: int, prevUrl: Option<string>, nextUrl: Option<string>,
                       previousText: string, nextText: string, es: seq<PageEntry>, esc: string -> string)
    ensures Markup(numPages, prevUrl, nextUrl, previousText, nextText, es, esc) == "" <==> numPages <= 1
  {
  }

  /** Which entries PHP's renderer draws disabled: exactly the ellipses and
      the pages whose URL is '' or '0', which is every page when the pattern
      is empty. */
  lemma PhpDisabledEntries(numPages: int, currentPage: int, maxPagesToShow: int,
                           urlPattern: string, placeholder: string)
    requires maxPagesToShow >= 3 && |placeholder| > 0
    ensures var w := Window(numPages, currentPage, maxPagesToShow);
      var es := Entries(w, urlPattern, placeholder, Dots);
      forall k :: 0 <= k < |es| ==>
        (!PhpUrlTruthy(es[k].url) <==>
           w[k].Ellipsis? || urlPattern == "" || PageUrl(urlPattern, placeholder, w[k].num) == "0")
  {
    WindowEntries(numPages, currentPage, maxPagesToShow, urlPattern, placeholder, Dots);
    var w := Window(numPages, currentPage, maxPagesToShow);
    forall k | 0 <= k < |w| && w[k].Page? {
      PageUrlEmptyIff(urlPattern, placeholder, w[k].num);
    }
  }

  /** One item per window marker: a disabled span with the escaped label for
      each entry PHP does not link, and for the others a link to the escaped
      page URL with the escaped page number, marked active exactly on the
      current page. */
  lemma ListItemsOfWindow(numPages: int, currentPage: int, maxPagesToShow: int,
                          urlPattern: string, placeholder: string, esc: string -> string)
    requires maxPagesToShow >= 3 && |placeholder| > 0
    ensures var w := Window(numPages, currentPage, maxPagesToShow);
      var es := Entries(w, urlPattern, placeholder, Dots);
      var items := ListItems(es, esc);
      && |items| == |w|
      && (forall k :: 0 <= k < |w| && w[k].Ellipsis? ==>
            items[k] == "<li class=\"disabled\"><span>" + esc(Dots) + "</span></li>")
      && (forall k :: 0 <= k < |w| && w[k].Page? && PhpUrlTruthy(es[k].url) ==>
            items[k] == "<li" + (if w[k].num == currentPage then " class=\"active\"" else "")
                        + "><a href=\"" + esc(PageUrl(urlPattern, placeholder, w[k].num)) + "\">"
                        + esc(DecimalString(w[k].num)) + "</a></li>")
      && (forall k :: 0 <= k < |w| && w[k].Page? && !PhpUrlTruthy(es[k].url) ==>
            items[k] == "<li class=\"disabled\"><span>" + esc(DecimalString(w[k].num)) + "</span></li>")
  {
    WindowEntries(numPages, currentPage, maxPagesToShow, urlPattern, placeholder, Dots);
  }

  /** The `foreach` of `renderer()`: one item per entry, appended in order. */
  method AppendListItems(html: string, pages: seq<PageEntry>, esc: string -> string) returns (html': string)
    ensures html' == html + Concat(ListItems(pages, esc))
  {
    html' := html;
    ghost var parts := ListItems(pages, esc);
    var i := 0;
    while i < |pages|
      invariant 0 <= i <= |pages|
      invariant html' == html + Concat(parts[..i])
    {
      var item := ListItem(pages[i], esc);
      AppendPiece(html, parts, i);
      html' := html' + item;
      i := i + 1;
    }
    assert parts[..|pages|] == parts;
  }

  // ---------------------------------------------------------------------------
  // The object

  class Paginator {
    var totalItems: int
    var numPages: int
    var itemsPerPage: int
    var currentPage: int
    var urlPattern: string
    var maxPagesToShow: int
    var placeholder: string
    var previousText: string
    var nextText: string

    /** The cached page count is the unguarded ceiling of the inputs, the
        budget is at least 3, and the placeholder is not empty. */
    ghost predicate Valid()
      reads this
    {
      && numPages == NumPagesCeil(totalItems, itemsPerPage)
      && maxPagesToShow >= 3
      && |placeholder| > 0
    }

    /** `new Paginator($totalItems, $itemsPerPage, $currentPage, $urlPattern,
        $placeholder)`: a placeholder PHP takes as empty (none, '' or '0')
        keeps the default. */
    constructor(totalItems: int, itemsPerPage: int, currentPage: int,
                urlPattern: string := "", placeholder: Option<string> := None)
      ensures Valid()
      ensures this.totalItems == totalItems && this.itemsPerPage == itemsPerPage
      ensures this.currentPage == currentPage && this.urlPattern == urlPattern
      ensures this.placeholder ==
        if placeholder.Some? && placeholder.value != "" && placeholder.value != "0"
        then placeholder.value else "(:page)"
      ensures numPages == NumPagesCeil(totalItems, itemsPerPage)
      ensures maxPagesToShow == 10 && previousText == "Previous" && nextText == "Next"
    {
      maxPagesToShow := 10;
      previousText := "Previous";
      nextText := "Next";
      numPages := 0;
      this.totalItems := totalItems;
      this.itemsPerPage := itemsPerPage;
      this.currentPage := currentPage;
      this.urlPattern := urlPattern;
      if placeholder.Some? && placeholder.value != "" && placeholder.value != "0" {
        this.placeholder := placeholder.value;
      } else {
        this.placeholder := "(:page)";
      }
      new;
      ComputeNumPages();
    }

    /** `computeNumPages()`: no pages when the page size is 0, otherwise the
        ceiling of the quotient, negative inputs included. */
    method ComputeNumPages()
      modifies this`numPages
      ensures numPages == NumPagesCeil(totalItems, itemsPerPage)
    {
      numPages := if 0 == itemsPerPage then 0 else CeilDiv(totalItems, itemsPerPage);
    }

    /** `setMaxPagesToShow($v)`: an InvalidArgumentException for a budget
        below 3, which is then left as it was. */
    method SetMaxPagesToShow(maxPagesToShow: int) returns (r: Outcome)
      requires Valid()
      modifies this`maxPagesToShow
      ensures Valid()
      ensures maxPagesToShow < 3 ==>
        r == Raise("InvalidArgumentException", "maxPagesToShow cannot be less than 3.")
        && this.maxPagesToShow == old(this.maxPagesToShow)
      ensures maxPagesToShow >= 3 ==> r == Pass && this.maxPagesToShow == maxPagesToShow
    {
      if maxPagesToShow < 3 {
        return Raise("InvalidArgumentException", "maxPagesToShow cannot be less than 3.");
      }
      this.maxPagesToShow := maxPagesToShow;
      r := Pass;
    }

    /** Moving to another page leaves the page count as it was. */
    method SetCurrentPage(currentPage: int)
      requires Valid()
      modifies this`currentPage
      ensures Valid()
      ensures this.currentPage == currentPage && numPages == old(numPages)
    {
      this.currentPage := currentPage;
    }

    method SetItemsPerPage(itemsPerPage: int)
      requires Valid()
      modifies this`itemsPerPage, this`numPages
      ensures Valid()
      ensures this.itemsPerPage == itemsPerPage
      ensures numPages == NumPagesCeil(totalItems, itemsPerPage)
    {
      this.itemsPerPage := itemsPerPage;
      ComputeNumPages();
    }

    method SetTotalItems(totalItems: int)
      requires Valid()
      modifies this`totalItems, this`numPages
      ensures Valid()
      ensures this.totalItems == totalItems
      ensures numPages == NumPagesCeil(totalItems, itemsPerPage)
    {
      this.totalItems := totalItems;
      ComputeNumPages();
    }

    method SetUrlPattern(urlPattern: string)
      requires Valid()
      modifies this`urlPattern
      ensures Valid() && this.urlPattern == urlPattern
    {
      this.urlPattern := urlPattern;
    }

    method SetPlaceholder(placeholder: string)
      requires Valid() && |placeholder| > 0
      modifies this`placeholder
      ensures Valid() && this.placeholder == placeholder
    {
      this.placeholder := placeholder;
    }

    method SetPreviousText(text: string)
      requires Valid()
      modifies this`previousText
      ensures Valid() && previousText == text
    {
      previousText := text;
    }

    method SetNextText(text: string)
      requires Valid()
      modifies this`nextText
      ensures Valid() && nextText == text
    {
      nextText := text;
    }

    /** `getPageUrl($n)`: empty exactly when the pattern is, which is the
        default. */
    function GetPageUrl(pageNum: int): (url: string)
      reads this
      requires Valid()
      ensures url == Navigation.PageUrl(urlPattern, placeholder, pageNum)
      ensures url == "" <==> urlPattern == ""
    {
      PageUrlEmptyIff(urlPattern, placeholder, pageNum);
      PageUrl(urlPattern, placeholder, pageNum)
    }

    /** `getNextPage()`: the page after the current one, when it is a page. */
    function GetNextPage(): (p: Option<int>)
      reads this
      ensures p.Some? <==> currentPage < numPages
      ensures p.Some? ==> p.value == currentPage + 1
    {
      NextPage(currentPage, numPages)
    }

    /** `getPrevPage()`: the page before the current one, when there is one. */
    function GetPrevPage(): (p: Option<int>)
      reads this
      ensures p.Some? <==> currentPage > 1
      ensures p.Some? ==> p.value == currentPage - 1
    {
      PrevPage(currentPage)
    }

    /** `getNextUrl()`: the next page's URL exactly when the current page is
        before the last, and not from page -1, whose next page 0 is false. */
    function GetNextUrl(): (u: Option<string>)
      reads this
      requires Valid()
      ensures u.Some? <==> currentPage < numPages && currentPage != -1
      ensures u.Some? ==> u.value == GetPageUrl(currentPage + 1)
    {
      UrlPresence(urlPattern, placeholder, currentPage, numPages);
      NextUrl(urlPattern, placeholder, currentPage, numPages)
    }

    /** `getPrevUrl()`: the previous page's URL exactly when the current page
        is past the first. */
    function GetPrevUrl(): (u: Option<string>)
      reads this
      requires Valid()
      ensures u.Some? <==> currentPage > 1
      ensures u.Some? ==> u.value == GetPageUrl(currentPage - 1)
    {
      UrlPresence(urlPattern, placeholder, currentPage, numPages);
      PrevUrl(urlPattern, placeholder, currentPage)
    }

    /** `getCurrentPageFirstItem()`: the index of the page's first item, present exactly
        when it is not past the total; with items and a positive page size,
        that is when the current page is not past the last page. */
    function GetCurrentPageFirstItem(): (f: Option<int>)
      reads this
      requires Valid()
      ensures f.Some? ==> f.value == (currentPage - 1) * itemsPerPage + 1 <= totalItems
      ensures f.Some? <==> (currentPage - 1) * itemsPerPage + 1 <= totalItems
      ensures itemsPerPage > 0 && totalItems > 0 ==> (f.Some? <==> currentPage <= numPages)
    {
      if itemsPerPage > 0 && totalItems > 0 then
        GuardsAgreeOnNaturals(totalItems, itemsPerPage);
        FirstItemPresentIff(currentPage, itemsPerPage, totalItems);
        FirstItem(currentPage, itemsPerPage, totalItems)
      else
        FirstItem(currentPage, itemsPerPage, totalItems)
    }

    /** `getCurrentPageLastItem()`: present exactly when the first item is,
        and then a full page after it, cut at the last item. */
    function GetCurrentPageLastItem(): (l: Option<int>)
      reads this
      requires Valid()
      ensures l.Some? <==> GetCurrentPageFirstItem().Some?
      ensures l.Some? ==> l.value == if GetCurrentPageFirstItem().value + itemsPerPage - 1 <= totalItems
                                     then GetCurrentPageFirstItem().value + itemsPerPage - 1 else totalItems
    {
      ItemRange(currentPage, itemsPerPage, totalItems);
      LastItem(currentPage, itemsPerPage, totalItems)
    }

    /** The sliding range of `getPages()`, centred on the current page. */
    method SlidingRange() returns (slidingStart: int, slidingEnd: int)
      requires Valid() && numPages > maxPagesToShow
      ensures slidingStart == SlidingStart(numPages, currentPage, maxPagesToShow)
      ensures slidingEnd == SlidingEnd(numPages, currentPage, maxPagesToShow)
      ensures 2 <= slidingStart <= slidingEnd + 1 && slidingEnd <= numPages - 1
    {
      SlidingBounds(numPages, currentPage, maxPagesToShow);
      var numAdjacents := (maxPagesToShow - 3) / 2;
      if currentPage + numAdjacents > numPages {
        slidingStart := numPages - maxPagesToShow + 2;
      } else {
        slidingStart := currentPage - numAdjacents;
      }
      if slidingStart < 2 {
        slidingStart := 2;
      }
      slidingEnd := slidingStart + maxPagesToShow - 3;
      if slidingEnd >= numPages {
        slidingEnd := numPages - 1;
      }
    }

    /** The `for` loops of `getPages()`: the entries of the pages lo..hi, each
        flagged when it is the current page. */
    method AppendPages(pages: seq<PageEntry>, lo: int, hi: int) returns (pages': seq<PageEntry>)
      requires Valid() && lo <= hi + 1
      ensures pages' == pages + Entries(Run(lo, hi, currentPage), urlPattern, placeholder, Dots)
    {
      pages' := pages;
      ghost var marks: seq<Marker> := [];
      var i := lo;
      while i <= hi
        invariant lo <= i <= hi + 1
        invariant marks == Run(lo, i - 1, currentPage)
        invariant pages' == pages + Entries(marks, urlPattern, placeholder, Dots)
      {
        EntriesSnoc(marks, Page(i, i == currentPage), urlPattern, placeholder, Dots);
        RunSnoc(lo, i - 1, currentPage);
        pages' := pages' + [CreatePage(Some(i), i == currentPage, urlPattern, placeholder, Dots)];
        marks := marks + [Page(i, i == currentPage)];
        i := i + 1;
      }
    }

    /** `getPages()`: the entries of the page window, built front to back. */
    method GetPages() returns (pages: seq<PageEntry>)
      requires Valid()
      ensures pages == Entries(Window(numPages, currentPage, maxPagesToShow), urlPattern, placeholder, Dots)
    {
      var n, cur, m, pat, ph := numPages, currentPage, maxPagesToShow, urlPattern, placeholder;
      pages := [];
      if n <= 1 {
        return [];
      }
      if n <= m {
        pages := AppendPages(pages, 1, n);
        assert pages == Entries(Run(1, n, cur), pat, ph, Dots);
      } else {
        var slidingStart, slidingEnd := SlidingRange();
        ghost var dots := [CreatePage(None, false, pat, ph, Dots)];
        ghost var pre := if slidingStart > 2 then dots else [];
        ghost var post := if slidingEnd < n - 1 then dots else [];
        pages := [CreatePage(Some(1), 1 == cur, pat, ph, Dots)];
        ghost var first := pages;
        if slidingStart > 2 {
          pages := pages + [CreatePage(None, false, pat, ph, Dots)];
        }
        assert pages == first + pre;
        pages := AppendPages(pages, slidingStart, slidingEnd);
        ghost var body := pages;
        if slidingEnd < n - 1 {
          pages := pages + [CreatePage(None, false, pat, ph, Dots)];
        }
        assert pages == body + post;
        pages := pages + [CreatePage(Some(n), n == cur, pat, ph, Dots)];
        SlidingWindowEntries(n, cur, m, pat, ph, Dots);
      }
    }

    /** `renderer()`: the list markup for the window's entries and the
        previous and next links, every URL and label passed through `esc`. */
    method Renderer(esc: string -> string) returns (html: string)
      requires Valid()
      ensures html == Markup(numPages, GetPrevUrl(), GetNextUrl(), previousText, nextText,
                             Entries(Window(numPages, currentPage, maxPagesToShow), urlPattern, placeholder, Dots), esc)
    {
      if numPages <= 1 {
        return "";
      }
      var prevUrl, nextUrl, previousText, nextText := GetPrevUrl(), GetNextUrl(), this.previousText, this.nextText;
      html := "<ul class=\"pagination\">";
      if PhpUrlTruthy(prevUrl) {
        html := html + ("<li><a href=\"" + esc(prevUrl.value) + "\">&laquo; " + previousText + "</a></li>");
      }
      assert html == "<ul class=\"pagination\">" + PrevLink(prevUrl, previousText, esc);
      var pages := GetPages();
      html := AppendListItems(html, pages, esc);
      ghost var body := html;
      if PhpUrlTruthy(nextUrl) {
        html := html + ("<li><a href=\"" + esc(nextUrl.value) + "\">" + nextText + " &raquo;</a></li>");
      }
      assert html == body + NextLink(nextUrl, nextText, esc);
      html := html + "</ul>";
    }
  }
}
