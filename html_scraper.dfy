/** `HtmlScraper`: the newer copy of the page-source layer. It works with term names as
    strings and takes its urls from a locator module that is not part of this model, so the
    four locating functions are parameters; the evaluation-url memo is the same as in
    `DataExtractor`. */
module HtmlScraping {

  import opened Wrappers
  import opened Dicts
  import opened Markup
  import Transport
  import HtmlParsing
  import Scraping

  /** `parse_course_archive` of a page, its table found by the page parser. */
  function ArchiveScraper(soup: string -> Option<seq<Row>>): (scrape: string -> Result<Dict<string, string>>)
    ensures forall p :: scrape(p) == HtmlParsing.CourseArchive(soup(p))
    ensures Scraping.WellFormedScraper(scrape)
  {
    forall p ensures HtmlParsing.CourseArchive(soup(p)).Ok? ==> WellFormed(HtmlParsing.CourseArchive(soup(p)).value) {
      HtmlParsing.CourseArchiveSpec(soup(p));
    }
    p => HtmlParsing.CourseArchive(soup(p))
  }

  /** `obtain_course_list` after the pages are fetched: the keys of the merged archive dicts. */
  function CourseList(soup: string -> Option<seq<Row>>, pages: seq<string>): Result<seq<string>> {
    var merged := Scraping.Merge(ArchiveScraper(soup), pages);
    if merged.Raise? then Raise(merged.error) else Ok(merged.value.keys)
  }

  /** The course list fails exactly when one page's archive does; otherwise it lists every
      course id of every page once. */
  lemma CourseListSpec(soup: string -> Option<seq<Row>>, pages: seq<string>)
    ensures CourseList(soup, pages).Ok? <==> forall i :: 0 <= i < |pages| ==> HtmlParsing.CourseArchive(soup(pages[i])).Ok?
    ensures CourseList(soup, pages).Ok? ==> NoDuplicates(CourseList(soup, pages).value)
    ensures CourseList(soup, pages).Ok? ==> forall k :: k in CourseList(soup, pages).value <==>
      exists i :: 0 <= i < |pages| && k in HtmlParsing.CourseArchive(soup(pages[i])).value.values
  {
    var scrape := ArchiveScraper(soup);
    Scraping.MergeOk(scrape, pages);
    if Scraping.Merge(scrape, pages).Ok? {
      Scraping.MergeKeys(scrape, pages);
    }
  }

  /** Course ids stay in first-insertion order: the list of the first pages is a prefix of the
      whole list. */
  lemma CourseListKeepsOrder(soup: string -> Option<seq<Row>>, pages: seq<string>, i: nat)
    requires CourseList(soup, pages).Ok? && i <= |pages|
    ensures CourseList(soup, pages[..i]).Ok?
    ensures Scraping.IsPrefixOf(CourseList(soup, pages[..i]).value, CourseList(soup, pages).value)
  {
    Scraping.MergeKeepsOrder(ArchiveScraper(soup), pages, i);
  }

  /** The loop of `obtain_course_list` over the fetched pages. */
  method MergeCourseArchives(soup: string -> Option<seq<Row>>, pages: seq<string>) returns (r: Result<seq<string>>)
    ensures r == CourseList(soup, pages)
  {
    var scrape := ArchiveScraper(soup);
    var courseDct := Empty();
    var i := 0;
    while i < |pages|
      invariant 0 <= i <= |pages|
      invariant Scraping.Merge(scrape, pages[..i]) == Ok(courseDct)
    {
      assert pages[..i + 1][..i] == pages[..i];
      var parsed := HtmlParsing.ParseCourseArchive(soup(pages[i]));
      if parsed.Raise? {
        Scraping.MergeRaisePersists(scrape, pages, i + 1);
        return Raise(parsed.error);
      }
      courseDct := Update(courseDct, parsed.value);
      i := i + 1;
    }
    assert pages[..i] == pages;
    r := Ok(courseDct.keys);
  }

  class HtmlScraper {
    /** `_evaluation_urls`: course id -> the located semester -> evaluation url dict. */
    var evaluationUrls: map<string, Dict<string, string>>
    /** `_scrape_tool`. */
    const scrapeTool: Transport.Fetcher
    /** Finds the course table in a page. */
    const soup: string -> Option<seq<Row>>
    /** The locator's four functions. */
    const locateCourseArchive: string -> seq<string>
    const locateEvaluations: (string, string) -> Dict<string, string>
    const locateGrades: (string, string) -> string
    const locateInformation: (string, string) -> string

    /** Every remembered dict is the one a fresh search would locate. */
    ghost predicate Valid()
      reads this
    {
      forall c :: c in evaluationUrls ==> evaluationUrls[c] == locateEvaluations(c, scrapeTool.search(c))
    }

    constructor(scrapeTool: Transport.Fetcher, soup: string -> Option<seq<Row>>,
                locateCourseArchive: string -> seq<string>, locateEvaluations: (string, string) -> Dict<string, string>,
                locateGrades: (string, string) -> string, locateInformation: (string, string) -> string)
      ensures Valid() && evaluationUrls == map[]
      ensures this.scrapeTool == scrapeTool && this.soup == soup
      ensures this.locateCourseArchive == locateCourseArchive && this.locateEvaluations == locateEvaluations
      ensures this.locateGrades == locateGrades && this.locateInformation == locateInformation
    {
      evaluationUrls := map[];
      this.scrapeTool := scrapeTool;
      this.soup := soup;
      this.locateCourseArchive := locateCourseArchive;
      this.locateEvaluations := locateEvaluations;
      this.locateGrades := locateGrades;
      this.locateInformation := locateInformation;
    }

    /** `obtain_course_list`: the archive pages merged with `update`, then their keys. */
    method ObtainCourseList(term: string) returns (r: Result<seq<string>>)
      modifies scrapeTool
      ensures var urls := locateCourseArchive(term);
        r == CourseList(soup, seq(|urls|, i requires 0 <= i < |urls| => scrapeTool.PageAt(urls[i])))
      ensures scrapeTool.fetched == old(scrapeTool.fetched) + locateCourseArchive(term)
      ensures scrapeTool.searched == old(scrapeTool.searched)
    {
      var pageSourceList := ScrapeCourseArchive(term);
      r := MergeCourseArchives(soup, pageSourceList);
    }

    /** `scrape_course_archive`: one page source per located url, in url order. */
    method ScrapeCourseArchive(term: string) returns (pageSourceList: seq<string>)
      modifies scrapeTool
      ensures var urls := locateCourseArchive(term);
        pageSourceList == seq(|urls|, i requires 0 <= i < |urls| => scrapeTool.PageAt(urls[i]))
      ensures scrapeTool.fetched == old(scrapeTool.fetched) + locateCourseArchive(term)
      ensures scrapeTool.searched == old(scrapeTool.searched)
    {
      pageSourceList := [];
      var urls := locateCourseArchive(term);
      var i := 0;
      while i < |urls|
        invariant 0 <= i <= |urls|
        invariant pageSourceList == seq(i, j requires 0 <= j < i => scrapeTool.PageAt(urls[j]))
        invariant scrapeTool.fetched == old(scrapeTool.fetched) + urls[..i]
        invariant scrapeTool.searched == old(scrapeTool.searched)
      {
        var page := scrapeTool.GetPageSource(urls[i]);
        pageSourceList := pageSourceList + [page];
        assert urls[..i + 1] == urls[..i] + [urls[i]];
        i := i + 1;
      }
      assert urls[..i] == urls;
    }

    /** `scrape_evaluations`: the page of the term's evaluation, or "" without a request when
        the course has no evaluation url for the term. The term string is taken as given:
        the validator the source calls on it is not part of this model. */
    method ScrapeEvaluations(courseId: string, term: string) returns (pageSource: string)
      requires Valid()
      modifies this, scrapeTool
      ensures Valid() && courseId in evaluationUrls
      ensures evaluationUrls == old(evaluationUrls)[courseId := locateEvaluations(courseId, scrapeTool.search(courseId))]
      ensures scrapeTool.searched == old(scrapeTool.searched) + (if courseId in old(evaluationUrls) then [] else [courseId])
      ensures var urls := evaluationUrls[courseId].values;
        if term in urls then pageSource == scrapeTool.PageAt(urls[term]) && scrapeTool.fetched == old(scrapeTool.fetched) + [urls[term]]
        else pageSource == "" && scrapeTool.fetched == old(scrapeTool.fetched)
    {
      var urls := GetEvaluationUrl(courseId);
      if term in urls.values {
        var url := urls.values[term];
        pageSource := scrapeTool.GetPageSource(url);
      } else {
        pageSource := "";
      }
    }

    /** `scrape_grades`: exactly the located grade url. */
    method ScrapeGrades(courseId: string, term: string) returns (pageSource: string)
      modifies scrapeTool
      ensures pageSource == scrapeTool.PageAt(locateGrades(courseId, term))
      ensures scrapeTool.fetched == old(scrapeTool.fetched) + [locateGrades(courseId, term)]
      ensures scrapeTool.searched == old(scrapeTool.searched)
    {
      var url := locateGrades(courseId, term);
      pageSource := scrapeTool.GetPageSource(url);
    }

    /** `scrape_information`: exactly the located information url. */
    method ScrapeInformation(courseId: string, term: string) returns (pageSource: string)
      modifies scrapeTool
      ensures pageSource == scrapeTool.PageAt(locateInformation(courseId, term))
      ensures scrapeTool.fetched == old(scrapeTool.fetched) + [locateInformation(courseId, term)]
      ensures scrapeTool.searched == old(scrapeTool.searched)
    {
      var url := locateInformation(courseId, term);
      pageSource := scrapeTool.GetPageSource(url);
    }

    /** `_get_evaluation_url`: at most one search per course id; afterwards the remembered
        dict is served. */
    method GetEvaluationUrl(courseId: string) returns (urls: Dict<string, string>)
      requires Valid()
      modifies this, scrapeTool
      ensures Valid()
      ensures urls == locateEvaluations(courseId, scrapeTool.search(courseId))
      ensures evaluationUrls == old(evaluationUrls)[courseId := urls]
      ensures scrapeTool.searched == old(scrapeTool.searched) + (if courseId in old(evaluationUrls) then [] else [courseId])
      ensures scrapeTool.fetched == old(scrapeTool.fetched)
    {
      var dct := evaluationUrls;
      if courseId in dct {
        urls := dct[courseId];
      } else {
        var hrefPageSource := AccessHrefDigits(courseId);
        urls := locateEvaluations(courseId, hrefPageSource);
        evaluationUrls := evaluationUrls[courseId := urls];
      }
    }

    /** `_access_href_digits`: one course search. */
    method AccessHrefDigits(courseId: string) returns (pageSource: string)
      modifies scrapeTool
      ensures pageSource == scrapeTool.search(courseId)
      ensures scrapeTool.searched == old(scrapeTool.searched) + [courseId]
      ensures scrapeTool.fetched == old(scrapeTool.fetched)
    {
      pageSource := scrapeTool.PaginateToEvaluationHrefs(courseId);
    }
  }
}
