/** The Selenium browser the scrapers drive, reduced to what they rely on: a page source
    per url (empty when the viewport element does not appear in time), the results page
    of the evaluation course search, and a log of every request made. */
module Transport {

  import Wrappers

  /** `WebScrapingTool`: one browser session. */
  class Fetcher {
    /** The page the site serves at a url. */
    const web: string -> string
    /** Whether the page at a url shows its viewport element before the wait runs out. */
    const loads: string -> bool
    /** The results page of the course search for a course id. */
    const search: string -> string
    /** The urls requested with `get_page_source`, oldest first. */
    var fetched: seq<string>
    /** The course ids entered in the evaluation search, oldest first. */
    var searched: seq<string>

    constructor(web: string -> string, loads: string -> bool, search: string -> string)
      ensures this.web == web && this.loads == loads && this.search == search
      ensures fetched == [] && searched == []
    {
      this.web := web;
      this.loads := loads;
      this.search := search;
      fetched := [];
      searched := [];
    }

    /** What `get_page_source(url)` returns: the page, or "" after a timeout. */
    function PageAt(url: string): (page: string)
      ensures page == web(url) || page == ""
      ensures loads(url) ==> page == web(url)
    {
      if loads(url) then web(url) else ""
    }

    /** `get_page_source`: one request, logged. */
    method GetPageSource(url: string) returns (page: string)
      modifies this
      ensures page == PageAt(url)
      ensures fetched == old(fetched) + [url] && searched == old(searched)
    {
      fetched := fetched + [url];
      page := PageAt(url);
    }

    /** `paginate_to_evaluation_hrefs`: one course search, logged. */
    method PaginateToEvaluationHrefs(courseId: string) returns (page: string)
      modifies this
      ensures page == search(courseId)
      ensures searched == old(searched) + [courseId] && fetched == old(fetched)
    {
      searched := searched + [courseId];
      page := search(courseId);
    }

    /** `Webdriver.run_webdriver`: the pages of a list of urls in list order. This copy of the
        browser raises TimeoutError instead of answering "", so `None` stands for the raise. */
    method RunWebdriver(urls: seq<string>) returns (pages: Wrappers.Option<seq<string>>)
      modifies this
      ensures pages.Some? <==> forall i :: 0 <= i < |urls| ==> loads(urls[i])
      ensures pages.Some? ==> pages.value == seq(|urls|, i requires 0 <= i < |urls| => web(urls[i]))
      ensures searched == old(searched)
      ensures pages.Some? ==> fetched == old(fetched) + urls
      ensures pages.None? ==>
        exists k :: 0 <= k < |urls| && !loads(urls[k]) &&
          (forall j :: 0 <= j < k ==> loads(urls[j])) && fetched == old(fetched) + urls[..k + 1]
    {
      var list: seq<string> := [];
      var i := 0;
      while i < |urls|
        invariant 0 <= i <= |urls|
        invariant |list| == i && forall j :: 0 <= j < i ==> loads(urls[j]) && list[j] == web(urls[j])
        invariant searched == old(searched)
        invariant fetched == old(fetched) + urls[..i]
      {
        fetched := fetched + [urls[i]];
        assert urls[..i + 1] == urls[..i] + [urls[i]];
        if !loads(urls[i]) {
          return Wrappers.None;
        }
        list := list + [web(urls[i])];
        i := i + 1;
      }
      assert urls[..i] == urls;
      return Wrappers.Some(list);
    }

    /** `Scrape.run_webdriver` (the older driver): the page of each url in list order, `None`
        for a url whose page timed out, every url requested. */
    method RunScrapeDriver(urls: seq<string>) returns (pages: seq<Wrappers.Option<string>>)
      modifies this
      ensures |pages| == |urls|
      ensures forall i :: 0 <= i < |urls| ==> pages[i] == (if loads(urls[i]) then Wrappers.Some(web(urls[i])) else Wrappers.None)
      ensures fetched == old(fetched) + urls && searched == old(searched)
    {
      pages := [];
      var i := 0;
      while i < |urls|
        invariant 0 <= i <= |urls|
        invariant |pages| == i
        invariant forall j :: 0 <= j < i ==> pages[j] == (if loads(urls[j]) then Wrappers.Some(web(urls[j])) else Wrappers.None)
        invariant fetched == old(fetched) + urls[..i] && searched == old(searched)
      {
        fetched := fetched + [urls[i]];
        var page := if loads(urls[i]) then Wrappers.Some(web(urls[i])) else Wrappers.None;
        pages := pages + [page];
        assert urls[..i + 1] == urls[..i] + [urls[i]];
        i := i + 1;
      }
      assert urls[..i] == urls;
    }

    /** `Webdriver.search_for_evaluation_hrefs`: one course search per course id, in order. */
    method SearchForEvaluationHrefs(courseIds: seq<string>) returns (pages: seq<string>)
      modifies this
      ensures pages == seq(|courseIds|, i requires 0 <= i < |courseIds| => search(courseIds[i]))
      ensures searched == old(searched) + courseIds && fetched == old(fetched)
    {
      pages := [];
      var i := 0;
      while i < |courseIds|
        invariant 0 <= i <= |courseIds|
        invariant pages == seq(i, j requires 0 <= j < i => search(courseIds[j]))
        invariant searched == old(searched) + courseIds[..i] && fetched == old(fetched)
      {
        searched := searched + [courseIds[i]];
        pages := pages + [search(courseIds[i])];
        assert courseIds[..i + 1] == courseIds[..i] + [courseIds[i]];
        i := i + 1;
      }
      assert courseIds[..i] == courseIds;
    }
  }
}
