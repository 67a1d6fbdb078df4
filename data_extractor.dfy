/** `DataExtractor`: page sources of the course archive, evaluations, grades and course
    information, with the evaluation urls of each course remembered after the first
    (slow) search. The browser is the `Fetcher`; how a search results page is read into
    semester -> href digits is a parameter, since the parser method the source calls for it
    is not part of this model. */
module DataExtraction {

  import opened Wrappers
  import opened Dicts
  import opened Terms
  import Urls
  import UrlLocator
  import Transport

  /** `urls` is what `locate_evaluations` makes of the digits: the same semesters in the same
      order, each with its evaluation url. */
  predicate Locates(courseId: string, digits: Dict<string, string>, urls: Dict<string, string>) {
    WellFormed(urls) && urls.keys == digits.keys &&
    forall k :: k in urls.values ==> k in digits.values && urls.values[k] == UrlLocator.EvaluationUrl(courseId, digits.values[k])
  }

  /** Two dicts located from the same digits are the same dict. */
  lemma LocatesUnique(courseId: string, digits: Dict<string, string>, u1: Dict<string, string>, u2: Dict<string, string>)
    requires Locates(courseId, digits, u1) && Locates(courseId, digits, u2)
    ensures u1 == u2
  {
    assert u1.values.Keys == u2.values.Keys by {
      forall k ensures k in u1.values <==> k in u2.values {
        assert k in u1.values <==> k in u1.keys;
      }
    }
  }

  /** `page_source += page` over the pages, in order. */
  function Concat(pages: seq<string>): string {
    if pages == [] then "" else Concat(pages[..|pages| - 1]) + pages[|pages| - 1]
  }

  /** One more page. */
  lemma ConcatStep(pages: seq<string>, i: nat)
    requires i < |pages|
    ensures Concat(pages[..i + 1]) == Concat(pages[..i]) + pages[i]
  {
    assert pages[..i + 1][..i] == pages[..i];
  }

  /** Every page sits in the concatenation right after the pages before it. */
  lemma {:induction false} ConcatLayout(pages: seq<string>, i: nat)
    requires i < |pages|
    ensures |Concat(pages[..i])| + |pages[i]| <= |Concat(pages)|
    ensures Concat(pages)[|Concat(pages[..i])|..|Concat(pages[..i])| + |pages[i]|] == pages[i]
    ensures Concat(pages)[..|Concat(pages[..i])|] == Concat(pages[..i])
  {
    var n := |pages| - 1;
    if i < n {
      var init := pages[..n];
      assert init[..i] == pages[..i];
      assert init[i] == pages[i];
      ConcatLayout(init, i);
      var c := Concat(init);
      assert Concat(pages) == c + pages[n];
      assert Concat(pages)[..|c|] == c;
    } else {
      assert pages[..n] == pages[..i];
    }
  }

  /** The length of the concatenation is the sum of the page lengths. */
  function TotalLength(pages: seq<string>): nat {
    if pages == [] then 0 else TotalLength(pages[..|pages| - 1]) + |pages[|pages| - 1]|
  }

  lemma {:induction false} ConcatLength(pages: seq<string>)
    ensures |Concat(pages)| == TotalLength(pages)
  {
    if pages != [] {
      ConcatLength(pages[..|pages| - 1]);
    }
  }

  /** The pages of the urls in order, each requested once, concatenated. */
  function PagesOf(f: Transport.Fetcher, urls: seq<string>): (pages: seq<string>)
    ensures |pages| == |urls| && forall i :: 0 <= i < |urls| ==> pages[i] == f.PageAt(urls[i])
  {
    seq(|urls|, i requires 0 <= i < |urls| => f.PageAt(urls[i]))
  }

  /** The loop of `access_course_archive`: `page_source += get_page_source(url)` per url. */
  method FetchConcat(f: Transport.Fetcher, urls: seq<string>) returns (pageSource: string)
    modifies f
    ensures pageSource == Concat(PagesOf(f, urls))
    ensures f.fetched == old(f.fetched) + urls && f.searched == old(f.searched)
  {
    pageSource := "";
    ghost var pages := PagesOf(f, urls);
    var i := 0;
    while i < |urls|
      invariant 0 <= i <= |urls|
      invariant pageSource == Concat(pages[..i])
      invariant f.fetched == old(f.fetched) + urls[..i]
      invariant f.searched == old(f.searched)
    {
      var page := f.GetPageSource(urls[i]);
      ConcatStep(pages, i);
      assert urls[..i + 1] == urls[..i] + [urls[i]];
      pageSource := pageSource + page;
      i := i + 1;
    }
    assert pages[..i] == pages;
    assert urls[..i] == urls;
  }

  class DataExtractor {
    /** `_evaluation_urls`: course id -> the semester -> evaluation url dict already located. */
    var evaluationUrls: map<string, Dict<string, string>>
    /** `_scrape_tool`. */
    const scrapeTool: Transport.Fetcher
    /** Reads a course search results page into semester -> href digits. */
    const hrefDigits: string -> Dict<string, string>

    /** Every remembered dict is the one a fresh search would locate. */
    ghost predicate Valid()
      reads this
    {
      (forall p :: WellFormed(hrefDigits(p))) &&
      forall c :: c in evaluationUrls ==> Locates(c, hrefDigits(scrapeTool.search(c)), evaluationUrls[c])
    }

    constructor(scrapeTool: Transport.Fetcher, hrefDigits: string -> Dict<string, string>)
      requires forall p :: WellFormed(hrefDigits(p))
      ensures Valid()
      ensures evaluationUrls == map[] && this.scrapeTool == scrapeTool && this.hrefDigits == hrefDigits
    {
      evaluationUrls := map[];
      this.scrapeTool := scrapeTool;
      this.hrefDigits := hrefDigits;
    }

    /** `access_course_archive`: the 29 letter pages of the term's academic year, fetched in
        letter order and concatenated. */
    method AccessCourseArchive(t: Term) returns (pageSource: string)
      modifies scrapeTool
      ensures pageSource == Concat(PagesOf(scrapeTool, Urls.ArchiveUrls(AcademicYear(t))))
      ensures scrapeTool.fetched == old(scrapeTool.fetched) + Urls.ArchiveUrls(AcademicYear(t))
      ensures scrapeTool.searched == old(scrapeTool.searched)
    {
      var urls := UrlLocator.LocateCourseArchive(t);
      pageSource := FetchConcat(scrapeTool, urls);
    }

    /** `access_evaluations`: the page of the term's evaluation, or "" without a request when
        the course has no evaluation url for the term's short name. The short name raises for
        the year 2000. */
    method AccessEvaluations(courseId: string, t: Term) returns (r: Result<string>)
      requires Valid()
      modifies this, scrapeTool
      ensures Valid() && courseId in evaluationUrls
      ensures evaluationUrls == old(evaluationUrls)[courseId := evaluationUrls[courseId]]
      ensures courseId in old(evaluationUrls) ==> evaluationUrls == old(evaluationUrls)
      ensures scrapeTool.searched == old(scrapeTool.searched) + (if courseId in old(evaluationUrls) then [] else [courseId])
      ensures var urls := evaluationUrls[courseId].values;
        match TermName(t)
        case Raise(e) => r == Raise(e) && scrapeTool.fetched == old(scrapeTool.fetched)
        case Ok(name) =>
          if name in urls then r == Ok(scrapeTool.PageAt(urls[name])) && scrapeTool.fetched == old(scrapeTool.fetched) + [urls[name]]
          else r == Ok("") && scrapeTool.fetched == old(scrapeTool.fetched)
    {
      var urls := GetEvaluationUrl(courseId);
      var name := TermName(t);
      if name.Raise? {
        return Raise(name.error);
      }
      if name.value in urls.values {
        var url := urls.values[name.value];
        var pageSource := scrapeTool.GetPageSource(url);
        return Ok(pageSource);
      } else {
        return Ok("");
      }
    }

    /** `access_grades`: the one histogram page of the course in the term's exam period. */
    method AccessGrades(courseId: string, t: Term) returns (pageSource: string)
      modifies scrapeTool
      ensures pageSource == scrapeTool.PageAt(UrlLocator.LocateGrades(courseId, t))
      ensures scrapeTool.fetched == old(scrapeTool.fetched) + [UrlLocator.LocateGrades(courseId, t)]
      ensures scrapeTool.searched == old(scrapeTool.searched)
    {
      var url := UrlLocator.LocateGrades(courseId, t);
      pageSource := scrapeTool.GetPageSource(url);
    }

    /** `access_information`: the one course page of the term's academic year. */
    method AccessInformation(courseId: string, t: Term) returns (pageSource: string)
      modifies scrapeTool
      ensures pageSource == scrapeTool.PageAt(UrlLocator.LocateInformation(courseId, t))
      ensures scrapeTool.fetched == old(scrapeTool.fetched) + [UrlLocator.LocateInformation(courseId, t)]
      ensures scrapeTool.searched == old(scrapeTool.searched)
    {
      var url := UrlLocator.LocateInformation(courseId, t);
      pageSource := scrapeTool.GetPageSource(url);
    }

    /** `_access_href_digits`: one course search. */
    method AccessHrefDigits(courseId: string) returns (pageSource: string)
      modifies scrapeTool
      ensures pageSource == scrapeTool.search(courseId)
      ensures scrapeTool.searched == old(scrapeTool.searched) + [courseId]
      ensures scrapeTool.fetched == old(scrapeTool.fetched)
    {
      pageSource := scrapeTool.PaginateToEvaluationHrefs(courseId);
    }

    /** `_get_evaluation_url`: a remembered course is served without a search; any other
        course is searched once and its located urls are remembered. Either way the answer
        is the dict a fresh search would locate. */
    method GetEvaluationUrl(courseId: string) returns (urls: Dict<string, string>)
      requires Valid()
      modifies this, scrapeTool
      ensures Valid()
      ensures Locates(courseId, hrefDigits(scrapeTool.search(courseId)), urls)
      ensures courseId in old(evaluationUrls) ==>
        urls == old(evaluationUrls)[courseId] && evaluationUrls == old(evaluationUrls) &&
        scrapeTool.searched == old(scrapeTool.searched)
      ensures courseId !in old(evaluationUrls) ==>
        evaluationUrls == old(evaluationUrls)[courseId := urls] &&
        scrapeTool.searched == old(scrapeTool.searched) + [courseId]
      ensures scrapeTool.fetched == old(scrapeTool.fetched)
    {
      var dct := evaluationUrls;
      if courseId in dct {
        urls := dct[courseId];
      } else {
        var hrefPageSource := AccessHrefDigits(courseId);
        urls := UrlLocator.LocateEvaluations(courseId, hrefDigits(hrefPageSource));
        evaluationUrls := evaluationUrls[courseId := urls];
      }
    }
  }

  /** Asking twice for a course's evaluation urls gives the same dict and costs at most one
      search, the first time. */
  method LookupTwice(e: DataExtractor, courseId: string) returns (first: Dict<string, string>, second: Dict<string, string>)
    requires e.Valid()
    modifies e, e.scrapeTool
    ensures first == second
    ensures |e.scrapeTool.searched| <= |old(e.scrapeTool.searched)| + 1
    ensures courseId in old(e.evaluationUrls) ==> e.scrapeTool.searched == old(e.scrapeTool.searched)
  {
    first := e.GetEvaluationUrl(courseId);
    second := e.GetEvaluationUrl(courseId);
  }
}
