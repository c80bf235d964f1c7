/** What the three ports compute the same way from their state: the URL of a
    page, the previous and next page and their URLs, the range of items on the
    current page, and the entries (`num`, `url`, `isCurrent`) that `pages()` /
    `getPages()` make from the page window. */
module Navigation {
  import opened Optional
  import opened Strings
  import opened PageCount
  import opened PageWindow

  // ---------------------------------------------------------------------------
  // Page URLs

  /** The URL of a page: every occurrence of the placeholder in the pattern
      replaced by the page number in decimal. */
  function PageUrl(urlPattern: string, placeholder: string, pageNum: int): string
    requires |placeholder| > 0
  {
    ReplaceAll(urlPattern, placeholder, DecimalString(pageNum))
  }

  /** Every placeholder is replaced and nothing else changes: the pattern is a
      list of placeholder-free pieces joined by the placeholder, and the URL is
      the same pieces joined by the page number. Which occurrences those are
      is fixed by reading left to right: a pattern without the placeholder is
      its own URL; otherwise the pattern has a first occurrence, and the URL is
      the text before it, the number, and the URL of the text after it. */
  lemma PageUrlReplacesEvery(urlPattern: string, placeholder: string, pageNum: int)
    requires |placeholder| > 0
    ensures exists parts: seq<string> ::
      && |parts| >= 1
      && (forall k :: 0 <= k < |parts| ==> !Occurs(parts[k], placeholder))
      && Join(parts, placeholder) == urlPattern
      && PageUrl(urlPattern, placeholder, pageNum) == Join(parts, DecimalString(pageNum))
    ensures !Occurs(urlPattern, placeholder) ==> PageUrl(urlPattern, placeholder, pageNum) == urlPattern
    ensures Occurs(urlPattern, placeholder) ==> exists i :: FirstOccurrence(urlPattern, placeholder, i)
    ensures forall i :: FirstOccurrence(urlPattern, placeholder, i) ==>
      PageUrl(urlPattern, placeholder, pageNum)
        == urlPattern[..i] + DecimalString(pageNum) + PageUrl(urlPattern[i + |placeholder|..], placeholder, pageNum)
  {
    ReplaceAllPieces(urlPattern, placeholder, DecimalString(pageNum));
    if !Occurs(urlPattern, placeholder) {
      ReplaceAllWithoutSeparator(urlPattern, placeholder, DecimalString(pageNum));
    } else {
      FirstOccurrenceExists(urlPattern, placeholder);
    }
    forall i | FirstOccurrence(urlPattern, placeholder, i)
      ensures PageUrl(urlPattern, placeholder, pageNum)
        == urlPattern[..i] + DecimalString(pageNum) + PageUrl(urlPattern[i + |placeholder|..], placeholder, pageNum)
    {
      ReplaceAllAtFirst(urlPattern, placeholder, DecimalString(pageNum), i);
    }
  }

  /** A placeholder that overlaps itself: in `aaa` the first `aa` is
      replaced and the last `a` is kept. */
  lemma PageUrlOverlapExample()
    ensures PageUrl("aaa", "aa", 5) == "5a"
  {
    assert FirstOccurrence("aaa", "aa", 0);
    ReplaceAllAtFirst("aaa", "aa", "5", 0);
    assert "aaa"[2..] == "a";
    assert !Occurs("a", "aa");
    ReplaceAllWithoutSeparator("a", "aa", "5");
    assert DecimalString(5) == "5";
  }

  /** The placeholder first occurs right after a prefix none of whose
      characters starts it. */
  lemma FirstAfterPrefix(prefix: string, placeholder: string, suffix: string)
    requires |placeholder| > 0
    requires forall j :: 0 <= j < |prefix| ==> prefix[j] != placeholder[0]
    ensures FirstOccurrence(prefix + placeholder + suffix, placeholder, |prefix|)
  {
    var s := prefix + placeholder + suffix;
    assert s[|prefix|..|prefix| + |placeholder|] == placeholder;
    forall j | 0 <= j < |prefix| ensures !OccursAt(s, placeholder, j) {
      if j + |placeholder| <= |s| {
        assert s[j..j + |placeholder|][0] == s[j] == prefix[j];
      }
    }
  }

  /** One placeholder after a prefix without `(`: the prefix, the number and
      the URL of the rest. */
  lemma PageUrlAfterPrefix(prefix: string, suffix: string, pageNum: int)
    requires forall j :: 0 <= j < |prefix| ==> prefix[j] != '('
    ensures PageUrl(prefix + "(:page)" + suffix, "(:page)", pageNum)
         == prefix + DecimalString(pageNum) + PageUrl(suffix, "(:page)", pageNum)
  {
    var s := prefix + "(:page)" + suffix;
    FirstAfterPrefix(prefix, "(:page)", suffix);
    ReplaceAllAtFirst(s, "(:page)", DecimalString(pageNum), |prefix|);
    assert s[..|prefix|] == prefix;
    assert s[|prefix| + 7..] == suffix;
  }

  /** A pattern with two placeholders gets the number in both places. */
  lemma PageUrlTwoPlaceholdersExample()
    ensures PageUrl("/p/(:page)/x/(:page)", "(:page)", 5) == "/p/5/x/5"
  {
    var ph := "(:page)";
    var inner := "/x/" + ph + "";
    var outer := "/p/" + ph + inner;
    calc {
      PageUrl(outer, ph, 5);
      { PageUrlAfterPrefix("/p/", inner, 5); }
      "/p/" + DecimalString(5) + PageUrl(inner, ph, 5);
      { PageUrlAfterPrefix("/x/", "", 5); }
      "/p/" + DecimalString(5) + ("/x/" + DecimalString(5) + PageUrl("", ph, 5));
      { PageUrlWithoutPlaceholder("", ph, 5); }
      "/p/" + DecimalString(5) + ("/x/" + DecimalString(5) + "");
      { assert DecimalString(5) == "5"; }
      "/p/5/x/5";
    }
    assert outer == "/p/(:page)/x/(:page)";
  }

  /** A URL is empty exactly when the pattern is (the PHP and Python default
      pattern '' makes every URL empty). */
  lemma PageUrlEmptyIff(urlPattern: string, placeholder: string, pageNum: int)
    requires |placeholder| > 0
    ensures PageUrl(urlPattern, placeholder, pageNum) == "" <==> urlPattern == ""
  {
    ReplaceAllEmpty(urlPattern, placeholder, DecimalString(pageNum));
  }

  /** A pattern without the placeholder is every page's URL. */
  lemma PageUrlWithoutPlaceholder(urlPattern: string, placeholder: string, pageNum: int)
    requires |placeholder| > 0 && !Occurs(urlPattern, placeholder)
    ensures PageUrl(urlPattern, placeholder, pageNum) == urlPattern
  {
    ReplaceAllWithoutSeparator(urlPattern, placeholder, DecimalString(pageNum));
  }

  /** A pattern that is just the placeholder gives the bare number. */
  lemma PageUrlExample()
    ensures PageUrl("(:page)", "(:page)", 7) == "7"
  {
    assert Split("(:page)", "(:page)") == ["", ""];
    assert DecimalString(7) == "7";
  }

  // ---------------------------------------------------------------------------
  // Previous and next

  function PrevPage(currentPage: int): Option<int> {
    if currentPage > 1 then Some(currentPage - 1) else None
  }

  function NextPage(currentPage: int, numPages: int): Option<int> {
    if currentPage < numPages then Some(currentPage + 1) else None
  }

  /** A page number the ports treat as true: present and not 0. */
  predicate PageNumTruthy(p: Option<int>) {
    p.Some? && p.value != 0
  }

  /** The previous page's URL, or none when the previous page is missing or 0. */
  function PrevUrl(urlPattern: string, placeholder: string, currentPage: int): Option<string>
    requires |placeholder| > 0
  {
    var p := PrevPage(currentPage);
    if PageNumTruthy(p) then Some(PageUrl(urlPattern, placeholder, p.value)) else None
  }

  /** The next page's URL, or none when the next page is missing or 0. */
  function NextUrl(urlPattern: string, placeholder: string, currentPage: int, numPages: int): Option<string>
    requires |placeholder| > 0
  {
    var p := NextPage(currentPage, numPages);
    if PageNumTruthy(p) then Some(PageUrl(urlPattern, placeholder, p.value)) else None
  }

  /** Stepping back and forth: inside [1, n], the next page of the previous
      page and the previous page of the next page are the page itself. */
  lemma PrevNextInverse(currentPage: int, numPages: int)
    ensures 1 < currentPage <= numPages ==>
      NextPage(PrevPage(currentPage).value, numPages) == Some(currentPage)
    ensures 1 <= currentPage < numPages ==>
      PrevPage(NextPage(currentPage, numPages).value) == Some(currentPage)
  {
  }

  /** When there are links: a previous URL exactly when the current page is
      past the first; a next URL exactly when it is before the last, except
      from page -1, whose next page 0 counts as none. */
  lemma UrlPresence(urlPattern: string, placeholder: string, currentPage: int, numPages: int)
    requires |placeholder| > 0
    ensures PrevUrl(urlPattern, placeholder, currentPage).Some? <==> currentPage > 1
    ensures currentPage > 1 ==>
      PrevUrl(urlPattern, placeholder, currentPage) == Some(PageUrl(urlPattern, placeholder, currentPage - 1))
    ensures NextUrl(urlPattern, placeholder, currentPage, numPages).Some? <==>
      currentPage < numPages && currentPage != -1
    ensures currentPage < numPages && currentPage != -1 ==>
      NextUrl(urlPattern, placeholder, currentPage, numPages)
        == Some(PageUrl(urlPattern, placeholder, currentPage + 1))
  {
  }

  // ---------------------------------------------------------------------------
  // Items on the current page

  /** 1-based number of the first item on the current page, or none past the
      last item. */
  function FirstItem(currentPage: int, itemsPerPage: int, totalItems: int): Option<int> {
    var first := (currentPage - 1) * itemsPerPage + 1;
    if first > totalItems then None else Some(first)
  }

  /** Number of the last item on the current page: a full page after the
      first item, cut at the last item. */
  function LastItem(currentPage: int, itemsPerPage: int, totalItems: int): Option<int> {
    match FirstItem(currentPage, itemsPerPage, totalItems)
    case None => None
    case Some(first) =>
      var last := first + itemsPerPage - 1;
      if last > totalItems then Some(totalItems) else Some(last)
  }

  /** The first item exists exactly when the page's first index is not past
      the total, whatever the signs; the last item exists exactly when the
      first does, and then it is the smaller of a full page's end and the
      last item. */
  lemma ItemRange(currentPage: int, itemsPerPage: int, totalItems: int)
    ensures var f, l := FirstItem(currentPage, itemsPerPage, totalItems),
                        LastItem(currentPage, itemsPerPage, totalItems);
      && (l.Some? <==> f.Some?)
      && (f.Some? ==> f.value == (currentPage - 1) * itemsPerPage + 1 && f.value <= totalItems)
      && (f.Some? <==> (currentPage - 1) * itemsPerPage + 1 <= totalItems)
      && (f.Some? ==> l.value == if f.value + itemsPerPage - 1 <= totalItems
                                 then f.value + itemsPerPage - 1 else totalItems)
  {
  }

  /** With items and a positive page size, the current page has a first item
      exactly when it is not past the last page. */
  lemma FirstItemPresentIff(currentPage: int, itemsPerPage: int, totalItems: int)
    requires itemsPerPage > 0 && totalItems > 0
    ensures FirstItem(currentPage, itemsPerPage, totalItems).Some? <==>
      currentPage <= NumPagesGuarded(totalItems, itemsPerPage)
  {
    var n := NumPagesGuarded(totalItems, itemsPerPage);
    if currentPage <= n {
      MulMonotone(currentPage - 1, n - 1, itemsPerPage);
    } else {
      MulMonotone(n, currentPage - 1, itemsPerPage);
    }
  }

  /** The pages tile the items: every page but the last ends a full page
      after its start and the next page starts right after it; the last page
      ends at the last item. */
  lemma ItemsTile(currentPage: int, itemsPerPage: int, totalItems: int)
    requires itemsPerPage > 0 && totalItems > 0
    requires 1 <= currentPage < NumPagesGuarded(totalItems, itemsPerPage)
    ensures LastItem(currentPage, itemsPerPage, totalItems) == Some(currentPage * itemsPerPage)
    ensures FirstItem(currentPage + 1, itemsPerPage, totalItems) == Some(currentPage * itemsPerPage + 1)
  {
    var n := NumPagesGuarded(totalItems, itemsPerPage);
    MulMonotone(currentPage, n - 1, itemsPerPage);
    FirstItemPresentIff(currentPage, itemsPerPage, totalItems);
    FirstItemPresentIff(currentPage + 1, itemsPerPage, totalItems);
    assert (currentPage - 1) * itemsPerPage + 1 + itemsPerPage - 1 == currentPage * itemsPerPage;
  }

  lemma LastPageEndsAtTotal(itemsPerPage: int, totalItems: int)
    requires itemsPerPage > 0 && totalItems > 0
    ensures LastItem(NumPagesGuarded(totalItems, itemsPerPage), itemsPerPage, totalItems) == Some(totalItems)
  {
    var n := NumPagesGuarded(totalItems, itemsPerPage);
    FirstItemPresentIff(n, itemsPerPage, totalItems);
    assert (n - 1) * itemsPerPage + 1 + itemsPerPage - 1 == n * itemsPerPage;
  }

  lemma ItemRangeExample()
    ensures FirstItem(10, 10, 95) == Some(91) && LastItem(10, 10, 95) == Some(95)
    ensures FirstItem(11, 10, 95) == None && LastItem(11, 10, 95) == None
    ensures FirstItem(3, 10, 95) == Some(21) && LastItem(3, 10, 95) == Some(30)
  {
  }

  // ---------------------------------------------------------------------------
  // Page entries

  /** The `num` of an entry: a page number, or the ellipsis text. */
  datatype Label = Number(n: int) | Text(s: string)

  /** One entry of `pages()`: `{num, url, isCurrent}`. */
  datatype PageEntry = PageEntry(num: Label, url: Option<string>, isCurrent: bool)

  /** The text of a label: the number in decimal, the ellipsis text as it is. */
  function LabelString(l: Label): string {
    match l
    case Number(n) => DecimalString(n)
    case Text(s) => s
  }

  /** `createPage(pageNum, isCurrent)`: no page number gives the ellipsis
      entry, with no URL and never current. */
  function CreatePage(pageNum: Option<int>, isCurrent: bool,
                      urlPattern: string, placeholder: string, ellipsis: string): PageEntry
    requires |placeholder| > 0
  {
    match pageNum
    case None => PageEntry(Text(ellipsis), None, false)
    case Some(n) => PageEntry(Number(n), Some(PageUrl(urlPattern, placeholder, n)), isCurrent)
  }

  /** The entry `pages()` makes for a marker of the window. */
  function EntryOf(m: Marker, urlPattern: string, placeholder: string, ellipsis: string): PageEntry
    requires |placeholder| > 0
  {
    match m
    case Ellipsis => CreatePage(None, false, urlPattern, placeholder, ellipsis)
    case Page(n, c) => CreatePage(Some(n), c, urlPattern, placeholder, ellipsis)
  }

  /** The entries for a run of markers, one for one. */
  function Entries(ms: seq<Marker>, urlPattern: string, placeholder: string, ellipsis: string): seq<PageEntry>
    requires |placeholder| > 0
  {
    seq(|ms|, k requires 0 <= k < |ms| => EntryOf(ms[k], urlPattern, placeholder, ellipsis))
  }

  /** Appending a marker appends its entry. */
  lemma EntriesSnoc(ms: seq<Marker>, m: Marker, urlPattern: string, placeholder: string, ellipsis: string)
    requires |placeholder| > 0
    ensures Entries(ms + [m], urlPattern, placeholder, ellipsis)
         == Entries(ms, urlPattern, placeholder, ellipsis) + [EntryOf(m, urlPattern, placeholder, ellipsis)]
  {
    var l := Entries(ms + [m], urlPattern, placeholder, ellipsis);
    var r := Entries(ms, urlPattern, placeholder, ellipsis) + [EntryOf(m, urlPattern, placeholder, ellipsis)];
    assert |l| == |r|;
    forall k | 0 <= k < |l| ensures l[k] == r[k] {
      if k < |ms| {
        assert (ms + [m])[k] == ms[k];
      }
    }
  }

  /** The entries of two runs of markers, one after the other. */
  lemma EntriesAppend(a: seq<Marker>, b: seq<Marker>, urlPattern: string, placeholder: string, ellipsis: string)
    requires |placeholder| > 0
    ensures Entries(a + b, urlPattern, placeholder, ellipsis)
         == Entries(a, urlPattern, placeholder, ellipsis) + Entries(b, urlPattern, placeholder, ellipsis)
  {
    var l := Entries(a + b, urlPattern, placeholder, ellipsis);
    var r := Entries(a, urlPattern, placeholder, ellipsis) + Entries(b, urlPattern, placeholder, ellipsis);
    assert |l| == |r|;
    forall k | 0 <= k < |l| ensures l[k] == r[k] {
      if k < |a| {
        assert (a + b)[k] == a[k];
      } else {
        assert (a + b)[k] == b[k - |a|];
      }
    }
  }

  /** The entries of a window whose pages do not all fit, piece by piece as
      `pages()` pushes them: page 1, an optional ellipsis, the sliding block,
      an optional ellipsis, the last page. */
  lemma SlidingWindowEntries(numPages: int, currentPage: int, maxPagesToShow: int,
                             urlPattern: string, placeholder: string, ellipsis: string)
    requires numPages > maxPagesToShow >= 3 && |placeholder| > 0
    ensures var s, e := SlidingStart(numPages, currentPage, maxPagesToShow),
                        SlidingEnd(numPages, currentPage, maxPagesToShow);
      var dots := [CreatePage(None, false, urlPattern, placeholder, ellipsis)];
      Entries(Window(numPages, currentPage, maxPagesToShow), urlPattern, placeholder, ellipsis)
        == [CreatePage(Some(1), 1 == currentPage, urlPattern, placeholder, ellipsis)]
           + (if s > 2 then dots else [])
           + Entries(Run(s, e, currentPage), urlPattern, placeholder, ellipsis)
           + (if e < numPages - 1 then dots else [])
           + [CreatePage(Some(numPages), numPages == currentPage, urlPattern, placeholder, ellipsis)]
  {
    var s, e := SlidingStart(numPages, currentPage, maxPagesToShow),
                SlidingEnd(numPages, currentPage, maxPagesToShow);
    var dots := [CreatePage(None, false, urlPattern, placeholder, ellipsis)];
    var first := [Page(1, currentPage == 1)];
    var pre: seq<Marker> := if s > 2 then [Ellipsis] else [];
    var block := Run(s, e, currentPage);
    var post: seq<Marker> := if e < numPages - 1 then [Ellipsis] else [];
    var last := [Page(numPages, currentPage == numPages)];
    assert Window(numPages, currentPage, maxPagesToShow) == first + pre + block + post + last;
    assert Entries(first, urlPattern, placeholder, ellipsis)
        == [CreatePage(Some(1), 1 == currentPage, urlPattern, placeholder, ellipsis)];
    assert Entries(pre, urlPattern, placeholder, ellipsis) == if s > 2 then dots else [];
    assert Entries(post, urlPattern, placeholder, ellipsis) == if e < numPages - 1 then dots else [];
    assert Entries(last, urlPattern, placeholder, ellipsis)
        == [CreatePage(Some(numPages), numPages == currentPage, urlPattern, placeholder, ellipsis)];
    EntriesAppend(first + pre + block + post, last, urlPattern, placeholder, ellipsis);
    EntriesAppend(first + pre + block, post, urlPattern, placeholder, ellipsis);
    EntriesAppend(first + pre, block, urlPattern, placeholder, ellipsis);
    EntriesAppend(first, pre, urlPattern, placeholder, ellipsis);
  }

  /** The entries of the page window, entry by entry: an ellipsis marker gives
      the ellipsis text, no URL and "not current"; a page marker gives its
      number, that page's URL and a flag that is set exactly when the number is
      the current page. */
  lemma WindowEntries(numPages: int, currentPage: int, maxPagesToShow: int,
                      urlPattern: string, placeholder: string, ellipsis: string)
    requires maxPagesToShow >= 3 && |placeholder| > 0
    ensures var w := Window(numPages, currentPage, maxPagesToShow);
      var es := Entries(w, urlPattern, placeholder, ellipsis);
      && |es| == |w|
      && (forall k :: 0 <= k < |es| ==>
            (es[k].url.None? <==> w[k].Ellipsis?)
            && (w[k].Ellipsis? ==> es[k] == PageEntry(Text(ellipsis), None, false))
            && (w[k].Page? ==>
                  && es[k].num == Number(w[k].num)
                  && es[k].url == Some(PageUrl(urlPattern, placeholder, w[k].num))
                  && (es[k].isCurrent <==> w[k].num == currentPage)))
  {
    WindowCurrent(numPages, currentPage, maxPagesToShow);
  }

  /** A URL the JavaScript and Python ports treat as true: present and not
      the empty string. */
  predicate UrlTruthy(u: Option<string>) {
    u.Some? && u.value != ""
  }

  /** A URL PHP treats as true: present, not '' and not '0'. */
  predicate PhpUrlTruthy(u: Option<string>) {
    u.Some? && u.value != "" && u.value != "0"
  }

  /** Which entries the JavaScript and Python renderers draw as disabled
      (those whose URL is not true): exactly the ellipses, or every entry when
      the pattern is empty. */
  lemma DisabledEntries(numPages: int, currentPage: int, maxPagesToShow: int,
                        urlPattern: string, placeholder: string, ellipsis: string)
    requires maxPagesToShow >= 3 && |placeholder| > 0
    ensures var w := Window(numPages, currentPage, maxPagesToShow);
      var es := Entries(w, urlPattern, placeholder, ellipsis);
      forall k :: 0 <= k < |es| ==>
        (!UrlTruthy(es[k].url) <==> w[k].Ellipsis? || urlPattern == "")
  {
    WindowEntries(numPages, currentPage, maxPagesToShow, urlPattern, placeholder, ellipsis);
    var w := Window(numPages, currentPage, maxPagesToShow);
    forall k | 0 <= k < |w| && w[k].Page? {
      PageUrlEmptyIff(urlPattern, placeholder, w[k].num);
    }
  }
}
