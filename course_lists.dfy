/** The two course-code scrapers: one list of course ids per archive letter page of an
    academic year. `scrape_course_list.py` drives the older browser, which answers `None`
    for a page that timed out; `scrape_course_codes.py` drives the one that raises, and
    returns the result of `list.sort()`. */
module CourseLists {

  import opened Wrappers
  import opened Markup
  import Transport
  import Urls

  /** `[scrape(p) for p in pages]`, raising with the first page that raises. */
  function CodesPerPage<P>(scrape: P -> Result<seq<string>>, pages: seq<P>): Result<seq<seq<string>>> {
    if pages == [] then Ok([])
    else
      var acc := CodesPerPage(scrape, pages[..|pages| - 1]);
      var page := scrape(pages[|pages| - 1]);
      if acc.Raise? then acc
      else if page.Raise? then Raise(page.error)
      else Ok(acc.value + [page.value])
  }

  /** One list per page, in page order; the whole fails exactly when one page fails, with
      the error of the first page that does. */
  lemma {:induction false} CodesPerPageSpec<P>(scrape: P -> Result<seq<string>>, pages: seq<P>)
    ensures CodesPerPage(scrape, pages).Ok? <==> forall i :: 0 <= i < |pages| ==> scrape(pages[i]).Ok?
    ensures CodesPerPage(scrape, pages).Ok? ==>
      |CodesPerPage(scrape, pages).value| == |pages| &&
      forall i :: 0 <= i < |pages| ==> CodesPerPage(scrape, pages).value[i] == scrape(pages[i]).value
    ensures CodesPerPage(scrape, pages).Raise? ==>
      exists i :: (0 <= i < |pages| && scrape(pages[i]).Raise? &&
        CodesPerPage(scrape, pages).error == scrape(pages[i]).error &&
        forall j :: 0 <= j < i ==> scrape(pages[j]).Ok?)
  {
    if pages != [] {
      var init := pages[..|pages| - 1];
      CodesPerPageSpec(scrape, init);
      assert forall i :: 0 <= i < |init| ==> init[i] == pages[i];
    }
  }

  lemma {:induction false} CodesPerPageRaisePersists<P>(scrape: P -> Result<seq<string>>, pages: seq<P>, i: nat)
    requires i <= |pages| && CodesPerPage(scrape, pages[..i]).Raise?
    ensures CodesPerPage(scrape, pages) == CodesPerPage(scrape, pages[..i])
    decreases |pages| - i
  {
    if i < |pages| {
      assert pages[..i + 1][..i] == pages[..i];
      CodesPerPageRaisePersists(scrape, pages, i + 1);
    } else {
      assert pages[..i] == pages;
    }
  }

  /** The loop both `get` methods run over the page sources. */
  method ExtractPerPage<P>(scrape: P -> Result<seq<string>>, pages: seq<P>) returns (r: Result<seq<seq<string>>>)
    ensures r == CodesPerPage(scrape, pages)
  {
    var courseCodes: seq<seq<string>> := [];
    var i := 0;
    while i < |pages|
      invariant 0 <= i <= |pages|
      invariant CodesPerPage(scrape, pages[..i]) == Ok(courseCodes)
    {
      assert pages[..i + 1][..i] == pages[..i];
      var extracted := scrape(pages[i]);
      if extracted.Raise? {
        CodesPerPageRaisePersists(scrape, pages, i + 1);
        return Raise(extracted.error);
      }
      courseCodes := courseCodes + [extracted.value];
      i := i + 1;
    }
    assert pages[..i] == pages;
    r := Ok(courseCodes);
  }

  // ---------------------------------------------------------------------------
  // scrape_course_list.py

  /** `_extract_course_codes` of a page source from the older browser. Parsing `None` fails in
      BeautifulSoup's constructor, which takes the length of its markup (TypeError). */
  function PageCodes(soup: string -> Option<seq<Row>>, page: Option<string>): (r: Result<seq<string>>)
    ensures page.None? ==> r == Raise(TypeError)
    ensures page.Some? ==> r == CourseCodes(soup(page.value))
  {
    if page.None? then Raise(TypeError) else CourseCodes(soup(page.value))
  }

  /** The codes of a loaded page are the first cells of its data rows, which are exactly the
      course ids of that page's name dict. */
  lemma PageCodesAreCourseIds(soup: string -> Option<seq<Row>>, page: string)
    requires PageCodes(soup, Some(page)).Ok? && soup(page).Some?
    ensures CourseNames(soup(page)).Ok?
    ensures forall k :: k in PageCodes(soup, Some(page)).value <==> k in CourseNames(soup(page)).value.values
  {
    CodesAreNameKeys(DataRows(soup(page).value));
  }

  /** A page without a course table contributes an empty list. */
  lemma PageWithoutTableIsEmpty(soup: string -> Option<seq<Row>>, page: string)
    requires soup(page).None?
    ensures PageCodes(soup, Some(page)) == Ok([])
  {
  }

  /** `ScrapeCourseCodes.get` of `scrape_course_list.py`: the 29 archive letter pages, then
      one code list per page in letter order. */
  method GetCourseList(f: Transport.Fetcher, soup: string -> Option<seq<Row>>, academicYear: string)
    returns (r: Result<seq<seq<string>>>)
    modifies f
    ensures var urls := Urls.ArchiveUrls(academicYear);
      r == CodesPerPage(page => PageCodes(soup, page),
        seq(|urls|, i requires 0 <= i < |urls| => if f.loads(urls[i]) then Some(f.web(urls[i])) else None))
    ensures f.fetched == old(f.fetched) + Urls.ArchiveUrls(academicYear) && f.searched == old(f.searched)
  {
    var urls := Urls.LocateNames(academicYear);
    var pages := f.RunScrapeDriver(urls);
    assert pages == seq(|urls|, i requires 0 <= i < |urls| => if f.loads(urls[i]) then Some(f.web(urls[i])) else None);
    r := ExtractPerPage(page => PageCodes(soup, page), pages);
  }

  /** A timed-out letter page makes the whole list raise TypeError. */
  lemma TimeoutRaises(soup: string -> Option<seq<Row>>, pages: seq<Option<string>>, i: nat)
    requires i < |pages| && pages[i].None?
    ensures CodesPerPage(page => PageCodes(soup, page), pages).Raise?
  {
    CodesPerPageSpec(page => PageCodes(soup, page), pages);
  }

  // ---------------------------------------------------------------------------
  // scrape_course_codes.py

  /** `ScrapeCourseCodes.get` of `scrape_course_codes.py`: a timeout raises TimeoutError and an
      unreadable row raises; otherwise the lists are sorted in place and the `None` that
      `list.sort()` returns is what the caller receives. */
  method GetCourseCodes(f: Transport.Fetcher, soup: string -> Option<seq<Row>>, academicYear: string)
    returns (r: Result<Option<seq<seq<string>>>>)
    modifies f
    ensures var urls := Urls.ArchiveUrls(academicYear);
      if forall i :: 0 <= i < |urls| ==> f.loads(urls[i]) then
        var lists := CodesPerPage(page => CourseCodes(soup(page)), seq(|urls|, i requires 0 <= i < |urls| => f.web(urls[i])));
        if lists.Ok? then r == Ok(None) else r == Raise(lists.error)
      else r == Raise(TimeoutError)
    ensures f.searched == old(f.searched)
    ensures var urls := Urls.ArchiveUrls(academicYear);
      (forall i :: 0 <= i < |urls| ==> f.loads(urls[i])) ==> f.fetched == old(f.fetched) + urls
    ensures var urls := Urls.ArchiveUrls(academicYear);
      !(forall i :: 0 <= i < |urls| ==> f.loads(urls[i])) ==>
        exists k :: 0 <= k < |urls| && !f.loads(urls[k]) &&
          (forall j :: 0 <= j < k ==> f.loads(urls[j])) && f.fetched == old(f.fetched) + urls[..k + 1]
  {
    var urls := Urls.LocateNames(academicYear);
    var pages := f.RunWebdriver(urls);
    if pages.None? {
      return Raise(TimeoutError);
    }
    var lists := ExtractPerPage(page => CourseCodes(soup(page)), pages.value);
    if lists.Raise? {
      return Raise(lists.error);
    }
    r := Ok(None);
  }
}
