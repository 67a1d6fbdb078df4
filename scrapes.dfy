/** `Scrapes`: the course names of an academic year and the evaluation links of a list
    of courses, each merged over several fetched pages. How a page is parsed into a table
    or into `Term` divs is a parameter (BeautifulSoup is not part of this model). */
module Scraping {

  import opened Wrappers
  import opened Dicts
  import opened Markup
  import Text
  import StringOrder
  import Transport
  import Urls
  import HtmlParsing

  /** A successful `_scrape_names` gives a well-formed dict. */
  lemma CourseNamesWellFormed(table: Option<seq<Row>>)
    ensures CourseNames(table).Ok? ==> WellFormed(CourseNames(table).value)
  {
    if table.Some? {
      NamesOfOk(DataRows(table.value));
      if CourseNames(table).Ok? {
        NamesOfValid(DataRows(table.value));
      }
    }
  }

  // ---------------------------------------------------------------------------
  // Merging pages: `d.update(scrape(page))` for every page in turn

  /** Every dict a page scraper returns is well formed. */
  ghost predicate WellFormedScraper(scrape: string -> Result<Dict<string, string>>) {
    forall p {:trigger WellFormed(scrape(p).value)} :: scrape(p).Ok? ==> WellFormed(scrape(p).value)
  }

  /** `d = {}; for page in pages: d.update(scrape(page))`, raising with the first page that raises. */
  function Merge(scrape: string -> Result<Dict<string, string>>, pages: seq<string>): Result<Dict<string, string>>
    requires WellFormedScraper(scrape)
  {
    if pages == [] then Ok(Empty())
    else
      var acc := Merge(scrape, pages[..|pages| - 1]);
      var page := scrape(pages[|pages| - 1]);
      if acc.Raise? then acc
      else if page.Raise? then Raise(page.error)
      else Ok(Update(acc.value, page.value))
  }

  /** One step of the merge, for a merge that succeeds. */
  lemma MergeStep(scrape: string -> Result<Dict<string, string>>, pages: seq<string>)
    requires WellFormedScraper(scrape) && pages != [] && Merge(scrape, pages).Ok?
    ensures Merge(scrape, pages[..|pages| - 1]).Ok? && scrape(pages[|pages| - 1]).Ok?
    ensures Merge(scrape, pages).value == Update(Merge(scrape, pages[..|pages| - 1]).value, scrape(pages[|pages| - 1]).value)
  {
  }

  /** Every page scrapes without raising. */
  predicate AllOk(scrape: string -> Result<Dict<string, string>>, pages: seq<string>) {
    forall i :: 0 <= i < |pages| ==> scrape(pages[i]).Ok?
  }

  lemma AllOkStep(scrape: string -> Result<Dict<string, string>>, pages: seq<string>)
    requires pages != []
    ensures AllOk(scrape, pages) <==> AllOk(scrape, pages[..|pages| - 1]) && scrape(pages[|pages| - 1]).Ok?
  {
    var init := pages[..|pages| - 1];
    if AllOk(scrape, pages) {
      forall i | 0 <= i < |init|
        ensures scrape(init[i]).Ok?
      {
        assert init[i] == pages[i];
      }
    }
    if AllOk(scrape, init) && scrape(pages[|pages| - 1]).Ok? {
      forall i | 0 <= i < |pages|
        ensures scrape(pages[i]).Ok?
      {
        if i < |init| {
          assert init[i] == pages[i];
        }
      }
    }
  }

  /** The merge succeeds exactly when every page does. */
  lemma {:induction false} MergeOk(scrape: string -> Result<Dict<string, string>>, pages: seq<string>)
    requires WellFormedScraper(scrape)
    ensures Merge(scrape, pages).Ok? <==> AllOk(scrape, pages)
  {
    if pages != [] {
      MergeOk(scrape, pages[..|pages| - 1]);
      MergeOkStep(scrape, pages);
      AllOkStep(scrape, pages);
    }
  }

  /** The page scrapes to a dict holding k. */
  predicate HasKey(scrape: string -> Result<Dict<string, string>>, page: string, k: string) {
    scrape(page).Ok? && k in scrape(page).value.values
  }

  /** Some page scrapes to a dict holding k. */
  predicate InSomePage(scrape: string -> Result<Dict<string, string>>, pages: seq<string>, k: string) {
    exists i :: 0 <= i < |pages| && HasKey(scrape, pages[i], k)
  }

  lemma InSomePageStep(scrape: string -> Result<Dict<string, string>>, pages: seq<string>, k: string)
    requires pages != []
    ensures InSomePage(scrape, pages, k) <==>
      InSomePage(scrape, pages[..|pages| - 1], k) || HasKey(scrape, pages[|pages| - 1], k)
  {
    var init := pages[..|pages| - 1];
    if InSomePage(scrape, pages, k) {
      var i :| 0 <= i < |pages| && HasKey(scrape, pages[i], k);
      if i < |init| {
        assert init[i] == pages[i];
      }
    }
    if InSomePage(scrape, init, k) {
      var i :| 0 <= i < |init| && HasKey(scrape, init[i], k);
      assert init[i] == pages[i];
    }
  }

  lemma MergeOkStep(scrape: string -> Result<Dict<string, string>>, pages: seq<string>)
    requires WellFormedScraper(scrape) && pages != []
    ensures Merge(scrape, pages).Ok? <==> Merge(scrape, pages[..|pages| - 1]).Ok? && scrape(pages[|pages| - 1]).Ok?
  {
  }

  /** A successful merge holds every key of every page, and nothing else, in a well-formed dict. */
  lemma {:induction false} MergeKeys(scrape: string -> Result<Dict<string, string>>, pages: seq<string>)
    requires WellFormedScraper(scrape) && Merge(scrape, pages).Ok?
    ensures WellFormed(Merge(scrape, pages).value)
    ensures forall k :: k in Merge(scrape, pages).value.values <==> InSomePage(scrape, pages, k)
  {
    if pages != [] {
      var n := |pages| - 1;
      var init := pages[..n];
      MergeStep(scrape, pages);
      MergeKeys(scrape, init);
      UpdateSpec(Merge(scrape, init).value, scrape(pages[n]).value);
      forall k
        ensures k in Merge(scrape, pages).value.values <==> InSomePage(scrape, pages, k)
      {
        InSomePageStep(scrape, pages, k);
      }
    }
  }

  /** A later page overwrites an earlier one: a key takes its value from the last page that has it. */
  lemma {:induction false} MergeLastWins(scrape: string -> Result<Dict<string, string>>, pages: seq<string>, i: nat, k: string)
    requires WellFormedScraper(scrape) && Merge(scrape, pages).Ok? && i < |pages|
    requires HasKey(scrape, pages[i], k)
    requires forall j :: i < j < |pages| ==> !HasKey(scrape, pages[j], k)
    ensures k in Merge(scrape, pages).value.values
    ensures Merge(scrape, pages).value.values[k] == scrape(pages[i]).value.values[k]
  {
    var n := |pages| - 1;
    var init := pages[..n];
    MergeStep(scrape, pages);
    MergeKeys(scrape, init);
    var before, last := Merge(scrape, init).value, scrape(pages[n]).value;
    UpdateSpec(before, last);
    assert Merge(scrape, pages).value.values == before.values + last.values;
    if i < n {
      assert init[i] == pages[i];
      forall j | i < j < n
        ensures !HasKey(scrape, init[j], k)
      {
        assert init[j] == pages[j];
      }
      MergeLastWins(scrape, init, i, k);
      assert k !in last.values;
    }
  }

  /** A key keeps the place it got when first inserted: merging a prefix of the pages gives a
      prefix of the merged key list. */
  lemma {:induction false} MergeKeepsOrder(scrape: string -> Result<Dict<string, string>>, pages: seq<string>, i: nat)
    requires WellFormedScraper(scrape) && Merge(scrape, pages).Ok? && i <= |pages|
    ensures Merge(scrape, pages[..i]).Ok?
    ensures IsPrefixOf(Merge(scrape, pages[..i]).value.keys, Merge(scrape, pages).value.keys)
  {
    if i < |pages| {
      var n := |pages| - 1;
      var init := pages[..n];
      MergeStep(scrape, pages);
      MergeKeys(scrape, init);
      UpdateSpec(Merge(scrape, init).value, scrape(pages[n]).value);
      assert IsPrefixOf(Merge(scrape, init).value.keys, Merge(scrape, pages).value.keys);
      MergeKeepsOrder(scrape, init, i);
      assert init[..i] == pages[..i];
      PrefixTransitive(Merge(scrape, pages[..i]).value.keys, Merge(scrape, init).value.keys, Merge(scrape, pages).value.keys);
    } else {
      assert pages[..i] == pages;
    }
  }

  /** `a` is an initial part of `b`. */
  predicate IsPrefixOf<T(==)>(a: seq<T>, b: seq<T>) {
    |a| <= |b| && b[..|a|] == a
  }

  lemma PrefixTransitive<T>(a: seq<T>, b: seq<T>, c: seq<T>)
    requires IsPrefixOf(a, b) && IsPrefixOf(b, c)
    ensures IsPrefixOf(a, c)
  {
    assert c[..|b|][..|a|] == c[..|a|];
  }

  /** Once a prefix of the pages raises, the whole merge raises the same error. */
  lemma {:induction false} MergeRaisePersists(scrape: string -> Result<Dict<string, string>>, pages: seq<string>, i: nat)
    requires WellFormedScraper(scrape) && i <= |pages| && Merge(scrape, pages[..i]).Raise?
    ensures Merge(scrape, pages) == Merge(scrape, pages[..i])
    decreases |pages| - i
  {
    if i < |pages| {
      assert pages[..i + 1][..i] == pages[..i];
      MergeRaisePersists(scrape, pages, i + 1);
    } else {
      assert pages[..i] == pages;
    }
  }

  // ---------------------------------------------------------------------------
  // get_names

  /** `_scrape_names` of a page, its table found by the page parser. */
  function NamesScraper(soup: string -> Option<seq<Row>>): (scrape: string -> Result<Dict<string, string>>)
    ensures forall p :: scrape(p) == CourseNames(soup(p))
    ensures WellFormedScraper(scrape)
  {
    forall p ensures CourseNames(soup(p)).Ok? ==> WellFormed(CourseNames(soup(p)).value) {
      CourseNamesWellFormed(soup(p));
    }
    p => CourseNames(soup(p))
  }

  /** `get_names` after the pages are fetched: the merged dict sorted by course id. */
  function SortedNames(soup: string -> Option<seq<Row>>, pages: seq<string>): Result<Dict<string, string>> {
    var merged := Merge(NamesScraper(soup), pages);
    if merged.Raise? then merged else Ok(SortByKey(merged.value))
  }

  /** The names of an academic year fail exactly when one archive page fails; otherwise every
      course id of every page is present, sorted, with the name of the last page listing it. */
  lemma SortedNamesSpec(soup: string -> Option<seq<Row>>, pages: seq<string>)
    ensures SortedNames(soup, pages).Ok? <==> forall i :: 0 <= i < |pages| ==> CourseNames(soup(pages[i])).Ok?
    ensures SortedNames(soup, pages).Ok? ==>
      var d := SortedNames(soup, pages).value;
      WellFormed(d) && StringOrder.Sorted(d.keys) &&
      (forall k :: k in d.values <==> exists i :: 0 <= i < |pages| && k in CourseNames(soup(pages[i])).value.values) &&
      d.values == Merge(NamesScraper(soup), pages).value.values
  {
    var scrape := NamesScraper(soup);
    MergeOk(scrape, pages);
    if Merge(scrape, pages).Ok? {
      MergeKeys(scrape, pages);
      SortByKeySpec(Merge(scrape, pages).value);
    }
  }

  /** The loop of `get_names` over the fetched pages. */
  method MergeNames(soup: string -> Option<seq<Row>>, pages: seq<string>) returns (r: Result<Dict<string, string>>)
    ensures r == Merge(NamesScraper(soup), pages)
  {
    var scrape := NamesScraper(soup);
    var courseNames := Empty();
    var i := 0;
    while i < |pages|
      invariant 0 <= i <= |pages|
      invariant Merge(scrape, pages[..i]) == Ok(courseNames)
    {
      assert pages[..i + 1][..i] == pages[..i];
      var scraped := ExtractCourseNames(soup(pages[i]));
      if scraped.Raise? {
        MergeRaisePersists(scrape, pages, i + 1);
        return Raise(scraped.error);
      }
      courseNames := Update(courseNames, scraped.value);
      i := i + 1;
    }
    assert pages[..i] == pages;
    r := Ok(courseNames);
  }

  /** `get_names`: the 29 archive pages of the academic year are fetched first; a timeout on
      any of them raises before anything is parsed. */
  method GetNames(f: Transport.Fetcher, soup: string -> Option<seq<Row>>, academicYear: string)
    returns (r: Result<Dict<string, string>>)
    modifies f
    ensures var urls := Urls.ArchiveUrls(academicYear);
      if forall i :: 0 <= i < |urls| ==> f.loads(urls[i])
      then r == SortedNames(soup, seq(|urls|, i requires 0 <= i < |urls| => f.web(urls[i])))
      else r == Raise(TimeoutError)
    ensures f.searched == old(f.searched)
    ensures var urls := Urls.ArchiveUrls(academicYear);
      (forall i :: 0 <= i < |urls| ==> f.loads(urls[i])) ==> f.fetched == old(f.fetched) + urls
    ensures var urls := Urls.ArchiveUrls(academicYear);
      !(forall i :: 0 <= i < |urls| ==> f.loads(urls[i])) ==>
        exists k :: 0 <= k < |urls| && !f.loads(urls[k]) &&
          (forall j :: 0 <= j < k ==> f.loads(urls[j])) && f.fetched == old(f.fetched) + urls[..k + 1]
  {
    var urls := Urls.LocateNames(academicYear);
    var pages := f.RunWebdriver(urls);
    if pages.None? {
      return Raise(TimeoutError);
    }
    var merged := MergeNames(soup, pages.value);
    if merged.Raise? {
      return merged;
    }
    r := Ok(SortByKey(merged.value));
  }

  // ---------------------------------------------------------------------------
  // get_hrefs

  lemma HrefsOfWellFormed(divs: seq<TermDiv>)
    ensures HrefsOf(divs).Ok? ==> WellFormed(HrefsOf(divs).value)
  {
    HrefsOfOk(divs);
    if HrefsOf(divs).Ok? {
      HrefsOfValid(divs);
    }
  }

  /** `_scrape_hrefs_needed_for_evals` of a search result page, its divs found by the page parser. */
  function HrefsScraper(divsOf: string -> seq<TermDiv>): (scrape: string -> Result<Dict<string, string>>)
    ensures forall p :: scrape(p) == HrefsOf(divsOf(p))
    ensures WellFormedScraper(scrape)
  {
    forall p ensures HrefsOf(divsOf(p)).Ok? ==> WellFormed(HrefsOf(divsOf(p)).value) {
      HrefsOfWellFormed(divsOf(p));
    }
    p => HrefsOf(divsOf(p))
  }

  /** The key `get_hrefs` builds: the formatted label, '_' and the course segment of the link;
      a link without '/' has no second-to-last segment and raises IndexError. */
  function EvaluationKey(term: string, href: string): (r: Result<string>)
    ensures r.Ok? <==> '/' in href
  {
    match Text.SecondToLastSegment(href, '/')
    case None =>
      NoSeparatorSingleSegment(href);
      Raise(IndexError)
    case Some(course) =>
      SeparatorTwoSegments(href);
      Ok(HtmlParsing.FormatKey(term) + "_" + course)
  }

  lemma NoSeparatorSingleSegment(s: string)
    ensures |Text.Split(s, '/')| < 2 ==> '/' !in s
  {
    Text.JoinSplit(s, '/');
  }

  lemma SeparatorTwoSegments(s: string)
    ensures |Text.Split(s, '/')| >= 2 ==> '/' in s
  {
    Text.JoinSplit(s, '/');
    var parts := Text.Split(s, '/');
    if |parts| >= 2 {
      assert Text.Join(parts, '/') == parts[0] + ['/'] + Text.Join(parts[1..], '/');
      assert s[|parts[0]|] == '/';
    }
  }

  /** The pairs of the `get_hrefs` comprehension, raising at the first link without '/'. */
  function EvaluationItems(items: seq<(string, string)>): Result<seq<(string, string)>> {
    if items == [] then Ok([])
    else
      var key := EvaluationKey(items[0].0, items[0].1);
      var rest := EvaluationItems(items[1..]);
      if key.Raise? then Raise(key.error)
      else if rest.Raise? then rest
      else Ok([(key.value, HtmlParsing.FormatHref(items[0].1))] + rest.value)
  }

  lemma {:induction false} EvaluationItemsSpec(items: seq<(string, string)>)
    ensures EvaluationItems(items).Ok? <==> forall i :: 0 <= i < |items| ==> '/' in items[i].1
    ensures EvaluationItems(items).Ok? ==> |EvaluationItems(items).value| == |items|
    ensures EvaluationItems(items).Ok? ==> forall i :: 0 <= i < |items| ==>
      EvaluationItems(items).value[i] == (EvaluationKey(items[i].0, items[i].1).value, HtmlParsing.FormatHref(items[i].1))
  {
    if items != [] {
      EvaluationItemsSpec(items[1..]);
      assert forall i :: 1 <= i < |items| ==> items[1..][i - 1] == items[i];
    }
  }

  /** `get_hrefs` after the search pages are fetched: the merged labels and links, rewritten
      into formatted keys and evaluation ids. */
  function EvaluationHrefs(divsOf: string -> seq<TermDiv>, pages: seq<string>): Result<Dict<string, string>> {
    var merged := Merge(HrefsScraper(divsOf), pages);
    if merged.Raise? then merged
    else
      MergeKeys(HrefsScraper(divsOf), pages);
      var items := EvaluationItems(Items(merged.value));
      if items.Raise? then Raise(items.error) else Ok(PutAll(Empty(), items.value))
  }

  /** Rewriting a dict's pairs fails exactly when one of its links has no '/'. */
  lemma EvaluationItemsOk(d: Dict<string, string>)
    requires WellFormed(d)
    ensures EvaluationItems(Items(d)).Ok? <==> forall k :: k in d.values ==> '/' in d.values[k]
  {
    var items := Items(d);
    ItemsOfAt(d.keys, d.values);
    EvaluationItemsSpec(items);
    if forall i :: 0 <= i < |items| ==> '/' in items[i].1 {
      forall k | k in d.values ensures '/' in d.values[k] {
        var i :| 0 <= i < |d.keys| && d.keys[i] == k;
        assert items[i].1 == d.values[k];
      }
    }
  }

  /** Every label of the dict gives its formatted key. */
  lemma EvaluationItemsKeys(d: Dict<string, string>)
    requires WellFormed(d) && EvaluationItems(Items(d)).Ok?
    ensures var r := PutAll(Empty(), EvaluationItems(Items(d)).value);
      WellFormed(r) &&
      forall k :: k in d.values ==> EvaluationKey(k, d.values[k]).Ok? && EvaluationKey(k, d.values[k]).value in r.values
  {
    var evaluated := EvaluationItems(Items(d)).value;
    PutAllKeys(Empty(), evaluated);
    PutAllValues(Empty(), evaluated);
    assert PutAll(Empty(), evaluated).values == MapOf(evaluated);
    forall k | k in d.values
      ensures EvaluationKey(k, d.values[k]).Ok? && EvaluationKey(k, d.values[k]).value in MapOf(evaluated)
    {
      EvaluatedKeyAt(d, k);
    }
  }

  lemma EvaluatedKeyAt(d: Dict<string, string>, k: string)
    requires WellFormed(d) && EvaluationItems(Items(d)).Ok? && k in d.values
    ensures EvaluationKey(k, d.values[k]).Ok? && EvaluationKey(k, d.values[k]).value in MapOf(EvaluationItems(Items(d)).value)
  {
    var items := Items(d);
    var evaluated := EvaluationItems(items).value;
    ItemsOfAt(d.keys, d.values);
    EvaluationItemsSpec(items);
    MapOfKeys(evaluated);
    var i :| 0 <= i < |d.keys| && d.keys[i] == k;
    assert items[i] == (k, d.values[k]);
    assert evaluated[i].0 == EvaluationKey(k, d.values[k]).value;
  }

  lemma MapOfKeys(items: seq<(string, string)>)
    ensures forall i :: 0 <= i < |items| ==> items[i].0 in MapOf(items)
  {
    MapOfDomain(items);
  }

  /** `get_hrefs` fails exactly when a search page fails or some merged link has no '/';
      otherwise every merged label gives a formatted key in a well-formed dict. */
  lemma EvaluationHrefsSpec(divsOf: string -> seq<TermDiv>, pages: seq<string>)
    ensures var merged := Merge(HrefsScraper(divsOf), pages);
      EvaluationHrefs(divsOf, pages).Ok? <==>
        merged.Ok? && forall k :: k in merged.value.values ==> '/' in merged.value.values[k]
    ensures var merged := Merge(HrefsScraper(divsOf), pages);
      EvaluationHrefs(divsOf, pages).Ok? ==>
        WellFormed(EvaluationHrefs(divsOf, pages).value) &&
        forall k :: k in merged.value.values ==>
          EvaluationKey(k, merged.value.values[k]).Ok? &&
          EvaluationKey(k, merged.value.values[k]).value in EvaluationHrefs(divsOf, pages).value.values
  {
    var merged := Merge(HrefsScraper(divsOf), pages);
    if merged.Ok? {
      MergeKeys(HrefsScraper(divsOf), pages);
      EvaluationItemsOk(merged.value);
      if EvaluationItems(Items(merged.value)).Ok? {
        EvaluationItemsKeys(merged.value);
      }
    }
  }

  /** The loop of `get_hrefs` over the search result pages. */
  method MergeHrefs(divsOf: string -> seq<TermDiv>, pages: seq<string>) returns (r: Result<Dict<string, string>>)
    ensures r == Merge(HrefsScraper(divsOf), pages)
  {
    var scrape := HrefsScraper(divsOf);
    var hrefs := Empty();
    var i := 0;
    while i < |pages|
      invariant 0 <= i <= |pages|
      invariant Merge(scrape, pages[..i]) == Ok(hrefs)
    {
      assert pages[..i + 1][..i] == pages[..i];
      var scraped := ExtractTermHrefs(divsOf(pages[i]));
      if scraped.Raise? {
        MergeRaisePersists(scrape, pages, i + 1);
        return Raise(scraped.error);
      }
      hrefs := Update(hrefs, scraped.value);
      i := i + 1;
    }
    assert pages[..i] == pages;
    r := Ok(hrefs);
  }

  /** `get_hrefs`: one search per course number, then the merged links rewritten. */
  method GetHrefs(f: Transport.Fetcher, divsOf: string -> seq<TermDiv>, courseNumbers: seq<string>)
    returns (r: Result<Dict<string, string>>)
    modifies f
    ensures r == EvaluationHrefs(divsOf, seq(|courseNumbers|, i requires 0 <= i < |courseNumbers| => f.search(courseNumbers[i])))
    ensures f.searched == old(f.searched) + courseNumbers && f.fetched == old(f.fetched)
  {
    var pages := f.SearchForEvaluationHrefs(courseNumbers);
    var merged := MergeHrefs(divsOf, pages);
    if merged.Raise? {
      return merged;
    }
    MergeKeys(HrefsScraper(divsOf), pages);
    var items := EvaluationItems(Items(merged.value));
    if items.Raise? {
      return Raise(items.error);
    }
    r := Ok(PutAll(Empty(), items.value));
  }

  /** An evaluation link '/kursus/<course>/<id>' gives the key '<label>_<course>' and the
      value '<id>'. */
  lemma {:induction false} EvaluationLinkFormat(term: string, course: string, id: string)
    requires '/' !in course && '/' !in id
    ensures EvaluationKey(term, "/kursus/" + course + "/" + id) == Ok(HtmlParsing.FormatKey(term) + "_" + course)
    ensures HtmlParsing.FormatHref("/kursus/" + course + "/" + id) == id
  {
    var tail := course + ['/'] + id;
    var path := "kursus" + ['/'] + tail;
    var href := "" + ['/'] + path;
    assert href == "/kursus/" + course + "/" + id;
    Text.SplitWithoutSeparator(id, '/');
    HtmlParsing.SplitCons(course, id, '/');
    HtmlParsing.SplitCons("kursus", tail, '/');
    HtmlParsing.SplitCons("", path, '/');
    assert Text.Split(href, '/') == ["", "kursus", course, id];
  }
}
