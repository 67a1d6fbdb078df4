/** `HtmlParser`: turns a fetched page into the dicts the scrapers store. The page is
    given as what BeautifulSoup or pandas finds in it (see `Markup` and `HtmlTables`). */
module HtmlParsing {

  import opened Wrappers
  import opened Dicts
  import opened Markup
  import Text
  import StringOrder

  // ---------------------------------------------------------------------------
  // Course archive

  /** The archive page's course dict with its keys sorted. */
  function CourseArchive(table: Option<seq<Row>>): Result<Dict<string, string>> {
    match CourseNames(table)
    case Raise(e) => Raise(e)
    case Ok(d) => Ok(SortByKey(d))
  }

  /** `parse_course_archive`. */
  method ParseCourseArchive(table: Option<seq<Row>>) returns (r: Result<Dict<string, string>>)
    ensures r == CourseArchive(table)
  {
    var dct := ExtractCourseNames(table);
    if dct.Raise? {
      return Raise(dct.error);
    }
    r := Ok(SortByKey(dct.value));
  }

  /** Without a table the archive is empty; with one it fails exactly when a data row lacks a
      cell, and otherwise holds every course id in sorted order with its name. */
  lemma CourseArchiveSpec(table: Option<seq<Row>>)
    ensures table.None? ==> CourseArchive(table) == Ok(Empty())
    ensures table.Some? ==> (CourseArchive(table).Ok? <==>
      forall i :: 0 <= i < |DataRows(table.value)| ==> Readable(DataRows(table.value)[i]))
    ensures CourseArchive(table).Ok? ==>
      var d := CourseArchive(table).value;
      WellFormed(d) && StringOrder.Sorted(d.keys) && d.values == CourseNames(table).value.values
  {
    if table.Some? {
      var rows := DataRows(table.value);
      NamesOfOk(rows);
      if NamesOf(rows).Ok? {
        NamesOfValid(rows);
        SortByKeySpec(NamesOf(rows).value);
      }
    } else {
      StringOrder.SortSpec([]);
    }
  }

  /** `parse_evaluations`: the page with "ø" appended. */
  function ParseEvaluations(page: string): (r: string)
    ensures |r| == |page| + 1 && r[..|page|] == page && r[|page|] == '\U{F8}'
  {
    page + "\U{F8}"
  }

  // ---------------------------------------------------------------------------
  // Grades

  /** One table pandas found: its header names and, for each body row, the text of its
      `Karakter` cell with the number in the first other column. */
  datatype GradeTable = GradeTable(columns: seq<string>, entries: seq<(string, int)>)

  /** What `pd.read_html` gives: an HTTP error, no table at all (pandas raises ValueError),
      or the tables in page order. */
  datatype HtmlTables = HttpFailure | NoTables | Tables(tables: seq<GradeTable>)

  const GradeColumn := "Karakter"

  /** `{k.capitalize(): v for k, v in d.items()}`. */
  function CapitalizeKeys(d: Dict<string, int>): Dict<string, int>
    requires WellFormed(d)
  {
    PutAll(Empty(), CapitalizedItems(Items(d)))
  }

  function CapitalizedItems(items: seq<(string, int)>): (r: seq<(string, int)>)
    ensures |r| == |items| && forall i :: 0 <= i < |items| ==> r[i] == (Text.Capitalize(items[i].0), items[i].1)
  {
    seq(|items|, i requires 0 <= i < |items| => (Text.Capitalize(items[i].0), items[i].1))
  }

  /** The grade counts of the third table, keyed by capitalised grade label. */
  function GradeCounts(t: GradeTable): Dict<string, int> {
    var scraped := PutAll(Empty(), t.entries);
    PutAllKeys(Empty<string, int>(), t.entries);
    CapitalizeKeys(scraped)
  }

  /** `parse_grades`. Fewer than three tables (IndexError) and an HTTP error give an empty
      dict; a third table without a `Karakter` column raises KeyError; one without a count
      column, or one whose dict comes out empty, raises ValueError. */
  function ParseGrades(read: HtmlTables): Result<Dict<string, int>> {
    match read
    case HttpFailure => Ok(Empty())
    case NoTables => Raise(ValueError)
    case Tables(ts) =>
      if |ts| < 3 then Ok(Empty())
      else if GradeColumn !in ts[2].columns then Raise(KeyError)
      else if |ts[2].columns| < 2 then Raise(ValueError)
      else if GradeCounts(ts[2]).values == map[] then Raise(ValueError)
      else Ok(GradeCounts(ts[2]))
  }

  /** The keys of `PutAll(d, items)`: those of d and those of the pairs. */
  lemma PutAllDomain<V>(d: Dict<string, V>, items: seq<(string, V)>)
    ensures forall k :: k in PutAll(d, items).values <==>
      k in d.values || exists i :: 0 <= i < |items| && items[i].0 == k
  {
    PutAllValues(d, items);
    MapOfDomain(items);
  }

  /** Pairs whose keys are f of d's keys, in d's order, give a dict keyed by f of d's keys. */
  lemma RekeyedDomain<V, W>(d: Dict<string, V>, items: seq<(string, W)>, f: string -> string)
    requires WellFormed(d) && |items| == |d.keys|
    requires forall i :: 0 <= i < |items| ==> items[i].0 == f(d.keys[i])
    ensures forall k :: k in PutAll(Empty(), items).values <==> exists k' :: k' in d.values && f(k') == k
  {
    PutAllDomain(Empty(), items);
    forall k' | k' in d.values
      ensures f(k') in PutAll(Empty(), items).values
    {
      var j :| 0 <= j < |d.keys| && d.keys[j] == k';
      assert items[j].0 == f(k');
    }
    forall k | k in PutAll(Empty(), items).values
      ensures exists k' :: k' in d.values && f(k') == k
    {
      var j :| 0 <= j < |items| && items[j].0 == k;
      assert d.keys[j] in d.values;
    }
  }

  /** The keys of the grade dict are the capitalised labels of the table's rows. */
  lemma GradeCountsKeys(t: GradeTable)
    ensures WellFormed(GradeCounts(t))
    ensures forall k :: k in GradeCounts(t).values <==>
      exists i :: 0 <= i < |t.entries| && Text.Capitalize(t.entries[i].0) == k
  {
    var scraped := PutAll(Empty(), t.entries);
    PutAllKeys(Empty<string, int>(), t.entries);
    PutAllDomain(Empty<string, int>(), t.entries);
    ItemsOfAt(scraped.keys, scraped.values);
    var caps := CapitalizedItems(Items(scraped));
    PutAllKeys(Empty<string, int>(), caps);
    RekeyedDomain(scraped, caps, Text.Capitalize);
  }

  /** The pair at position i wins in `MapOf` when no later pair has its key. */
  lemma {:induction false} MapOfLast<K, V>(items: seq<(K, V)>, i: nat)
    requires i < |items| && forall j :: i < j < |items| ==> items[j].0 != items[i].0
    ensures items[i].0 in MapOf(items) && MapOf(items)[items[i].0] == items[i].1
  {
    if i == 0 {
      MapOfDomain(items[1..]);
      assert items[i].0 !in MapOf(items[1..]);
    } else {
      assert forall j :: i - 1 < j < |items[1..]| ==> items[1..][j] == items[j + 1];
      MapOfLast(items[1..], i - 1);
    }
  }

  /** The dict `to_dict()` builds from the rows: keyed by label, the last row winning. */
  lemma ScrapedDict(entries: seq<(string, int)>)
    ensures var d := PutAll(Empty<string, int>(), entries); WellFormed(d) && d.values == MapOf(entries)
  {
    PutAllKeys(Empty<string, int>(), entries);
    PutAllValues(Empty<string, int>(), entries);
  }

  /** Each value after capitalising the keys is the value of an old key that capitalises to it. */
  lemma CapitalizeKeysValues(d: Dict<string, int>)
    requires WellFormed(d)
    ensures forall k :: k in CapitalizeKeys(d).values ==>
      exists k' :: k' in d.values && Text.Capitalize(k') == k && CapitalizeKeys(d).values[k] == d.values[k']
  {
    var caps := CapitalizedItems(Items(d));
    PutAllValues(Empty<string, int>(), caps);
    MapOfValue(caps);
    ItemsOfAt(d.keys, d.values);
    forall k | k in CapitalizeKeys(d).values
      ensures exists k' :: k' in d.values && Text.Capitalize(k') == k && CapitalizeKeys(d).values[k] == d.values[k']
    {
      var p :| 0 <= p < |caps| && caps[p].0 == k && MapOf(caps)[k] == caps[p].1;
      assert d.keys[p] in d.values;
    }
  }

  /** An old key that no later key capitalises like keeps its value under its capitalised form. */
  lemma CapitalizeKeysLast(d: Dict<string, int>, p: nat)
    requires WellFormed(d) && p < |d.keys|
    requires forall q :: p < q < |d.keys| ==> Text.Capitalize(d.keys[q]) != Text.Capitalize(d.keys[p])
    ensures Text.Capitalize(d.keys[p]) in CapitalizeKeys(d).values
    ensures CapitalizeKeys(d).values[Text.Capitalize(d.keys[p])] == d.values[d.keys[p]]
  {
    var caps := CapitalizedItems(Items(d));
    PutAllValues(Empty<string, int>(), caps);
    ItemsOfAt(d.keys, d.values);
    MapOfLast(caps, p);
  }

  /** Every count in the grade dict is the count of some row of the table whose label
      capitalises to its key. */
  lemma GradeCountsValues(t: GradeTable)
    ensures forall k :: k in GradeCounts(t).values ==>
      exists i :: 0 <= i < |t.entries| && Text.Capitalize(t.entries[i].0) == k && GradeCounts(t).values[k] == t.entries[i].1
  {
    var scraped := PutAll(Empty(), t.entries);
    ScrapedDict(t.entries);
    CapitalizeKeysValues(scraped);
    MapOfValue(t.entries);
    forall k | k in GradeCounts(t).values
      ensures exists i :: 0 <= i < |t.entries| && Text.Capitalize(t.entries[i].0) == k && GradeCounts(t).values[k] == t.entries[i].1
    {
      var raw :| raw in scraped.values && Text.Capitalize(raw) == k && GradeCounts(t).values[k] == scraped.values[raw];
      var i :| 0 <= i < |t.entries| && t.entries[i].0 == raw && MapOf(t.entries)[raw] == t.entries[i].1;
    }
  }

  /** When capitalising merges no two different labels of the table, the count stored under a
      capitalised label is that of the last row carrying the label (pandas keeps the last
      row of a repeated index). */
  lemma GradeCountsLastWins(t: GradeTable, i: nat)
    requires forall a, b ::
      0 <= a < |t.entries| && 0 <= b < |t.entries| && Text.Capitalize(t.entries[a].0) == Text.Capitalize(t.entries[b].0)
      ==> t.entries[a].0 == t.entries[b].0
    requires i < |t.entries| && forall j :: i < j < |t.entries| ==> t.entries[j].0 != t.entries[i].0
    ensures Text.Capitalize(t.entries[i].0) in GradeCounts(t).values
    ensures GradeCounts(t).values[Text.Capitalize(t.entries[i].0)] == t.entries[i].1
  {
    var raw := t.entries[i].0;
    var scraped := PutAll(Empty(), t.entries);
    ScrapedDict(t.entries);
    MapOfDomain(t.entries);
    MapOfLast(t.entries, i);
    var p :| 0 <= p < |scraped.keys| && scraped.keys[p] == raw;
    forall q | p < q < |scraped.keys|
      ensures Text.Capitalize(scraped.keys[q]) != Text.Capitalize(scraped.keys[p])
    {
      assert scraped.keys[q] in scraped.values;
      var m :| 0 <= m < |t.entries| && t.entries[m].0 == scraped.keys[q];
      NoDuplicatesDistinct(scraped.keys, p, q);
    }
    CapitalizeKeysLast(scraped, p);
  }

  /** Every stored label is already capitalised, and a table with rows never gives an empty dict. */
  lemma ParseGradesSpec(read: HtmlTables)
    ensures ParseGrades(read).Ok? ==> WellFormed(ParseGrades(read).value)
    ensures ParseGrades(read).Ok? ==>
      forall k :: k in ParseGrades(read).value.values ==> Text.Capitalize(k) == k
    ensures ParseGrades(read) == Ok(Empty()) <==> read.HttpFailure? || (read.Tables? && |read.tables| < 3)
    ensures ParseGrades(read).Ok? && read.Tables? && |read.tables| >= 3 ==>
      ParseGrades(read).value == GradeCounts(read.tables[2])
    ensures (read.Tables? && |read.tables| >= 3 && GradeColumn in read.tables[2].columns
      && |read.tables[2].columns| >= 2) ==>
      (ParseGrades(read).Ok? <==> read.tables[2].entries != [])
  {
    if read.Tables? && |read.tables| >= 3 {
      var t := read.tables[2];
      GradeCountsKeys(t);
      forall k | k in GradeCounts(t).values
        ensures Text.Capitalize(k) == k
      {
        var i :| 0 <= i < |t.entries| && Text.Capitalize(t.entries[i].0) == k;
        Text.CapitalizeIdempotent(t.entries[i].0);
      }
      if t.entries != [] {
        assert Text.Capitalize(t.entries[0].0) in GradeCounts(t).values;
      }
    }
  }

  // ---------------------------------------------------------------------------
  // Evaluation search page

  /** `key.replace('-', "")[:3]`: 'E-18-13' becomes 'E18'. */
  function FormatKey(key: string): (r: string)
    ensures '-' !in r && |r| <= 3
  {
    Text.Take(Text.RemoveChar(key, '-'), 3)
  }

  /** `value.split('/')[-1]`: '/kursus/01005/168580' becomes '168580'. */
  function FormatHref(href: string): string {
    Text.LastSegment(href, '/')
  }

  function FormatItems(items: seq<(string, string)>): (r: seq<(string, string)>)
    ensures |r| == |items| && forall i :: 0 <= i < |items| ==> r[i] == (FormatKey(items[i].0), FormatHref(items[i].1))
  {
    seq(|items|, i requires 0 <= i < |items| => (FormatKey(items[i].0), FormatHref(items[i].1)))
  }

  /** The dict `_format_evaluation_urls` builds. */
  function FormattedUrls(d: Dict<string, string>): Dict<string, string>
    requires WellFormed(d)
  {
    PutAll(Empty(), FormatItems(Items(d)))
  }

  /** The two formats the documentation of `_format_evaluation_urls` gives. */
  lemma FormatKeyExample()
    ensures FormatKey("E-18-13") == "E18"
  {
    assert Text.RemoveChar("E-18-13", '-') == "E1813";
  }

  lemma FormatHrefExample()
    ensures FormatHref("/kursus/01005/168580") == "168580"
  {
    assert "/kursus/01005/168580" == "/kursus/" + "01005" + "/" + "168580";
    FormatHrefOfLink("01005", "168580");
  }

  /** The link '/kursus/<course>/<id>' formats to '<id>'. */
  lemma FormatHrefOfLink(course: string, id: string)
    requires '/' !in course && '/' !in id
    ensures FormatHref("/kursus/" + course + "/" + id) == id
  {
    var tail := course + ['/'] + id;
    var path := "kursus" + ['/'] + tail;
    assert "/kursus/" + course + "/" + id == "" + ['/'] + path;
    Text.SplitWithoutSeparator(id, '/');
    LastSegmentAfter(course, id, '/');
    LastSegmentAfter("kursus", tail, '/');
    LastSegmentAfter("", path, '/');
  }

  /** What follows a separator-free prefix and a separator has the same last segment. */
  lemma LastSegmentAfter(x: string, y: string, sep: char)
    requires sep !in x
    ensures Text.LastSegment(x + [sep] + y, sep) == Text.LastSegment(y, sep)
  {
    SplitCons(x, y, sep);
  }

  /** Splitting at the first separator. */
  lemma {:induction false} SplitCons(x: string, y: string, sep: char)
    requires sep !in x
    ensures Text.Split(x + [sep] + y, sep) == [x] + Text.Split(y, sep)
  {
    var s := x + [sep] + y;
    if x == [] {
      assert s[1..] == y;
    } else {
      assert s[1..] == x[1..] + [sep] + y;
      SplitCons(x[1..], y, sep);
      assert [x[0]] + x[1..] == x;
    }
  }

  /** A formatted dict is keyed by the formatted term labels. */
  lemma FormattedUrlsKeys(d: Dict<string, string>)
    requires WellFormed(d)
    ensures WellFormed(FormattedUrls(d))
    ensures forall k :: k in FormattedUrls(d).values <==> exists k' :: k' in d.values && FormatKey(k') == k
  {
    var items := FormatItems(Items(d));
    ItemsOfAt(d.keys, d.values);
    PutAllKeys(Empty<string, string>(), items);
    RekeyedDomain(d, items, FormatKey);
  }

  /** Each value of a formatted dict is the formatted link of one of the labels. */
  lemma FormattedUrlsValues(d: Dict<string, string>)
    requires WellFormed(d)
    ensures forall k :: k in FormattedUrls(d).values ==>
      exists k' :: k' in d.values && FormattedUrls(d).values[k] == FormatHref(d.values[k'])
  {
    var items := FormatItems(Items(d));
    PutAllValues(Empty<string, string>(), items);
    var m := MapOf(items);
    assert FormattedUrls(d).values == m;
    MapOfValue(items);
    forall k | k in m
      ensures exists k' :: k' in d.values && m[k] == FormatHref(d.values[k'])
    {
      var j :| 0 <= j < |items| && items[j].0 == k && m[k] == items[j].1;
      FormatItemAt(d, j);
    }
  }

  lemma FormatItemAt(d: Dict<string, string>, j: nat)
    requires WellFormed(d) && j < |d.keys|
    ensures d.keys[j] in d.values
    ensures FormatItems(Items(d))[j].1 == FormatHref(d.values[d.keys[j]])
  {
    ItemsOfAt(d.keys, d.values);
  }

  /** A formatted link is a segment without '/' that ends the original link. */
  lemma FormatHrefSpec(href: string)
    ensures '/' !in FormatHref(href) && |FormatHref(href)| <= |href|
    ensures href[|href| - |FormatHref(href)|..] == FormatHref(href)
  {
    Text.LastSegmentIsSuffix(href, '/');
  }

  /** The value under a key is the value of one of its pairs. */
  lemma {:induction false} MapOfValue<K, V>(items: seq<(K, V)>)
    ensures forall k :: k in MapOf(items) ==>
      exists i :: 0 <= i < |items| && items[i].0 == k && MapOf(items)[k] == items[i].1
  {
    if items != [] {
      MapOfValue(items[1..]);
      forall k | k in MapOf(items)
        ensures exists i :: 0 <= i < |items| && items[i].0 == k && MapOf(items)[k] == items[i].1
      {
        if k in MapOf(items[1..]) {
          var i :| 0 <= i < |items[1..]| && items[1..][i].0 == k && MapOf(items[1..])[k] == items[1..][i].1;
          assert items[i + 1] == items[1..][i];
        }
      }
    }
  }

  /** `_format_evaluation_urls`. */
  method FormatEvaluationUrls(d: Dict<string, string>) returns (r: Dict<string, string>)
    requires WellFormed(d)
    ensures r == FormattedUrls(d)
  {
    var items := Items(d);
    var formatted := FormatItems(items);
    r := Empty();
    var i := 0;
    while i < |items|
      invariant 0 <= i <= |items|
      invariant PutAll(r, formatted[i..]) == FormattedUrls(d)
    {
      var key := items[i].0;
      var value := items[i].1;
      assert formatted[i..][1..] == formatted[i + 1..];
      r := Put(r, FormatKey(key), FormatHref(value));
      i := i + 1;
    }
  }

  /** The evaluation links of a search page, or the exception its `Term` loop raises. */
  function EvaluationSearch(divs: seq<TermDiv>): Result<Dict<string, string>> {
    var hrefs := HrefsOf(divs);
    if hrefs.Raise? then Raise(hrefs.error)
    else
      HrefsOfOk(divs);
      HrefsOfValid(divs);
      Ok(FormattedUrls(hrefs.value))
  }

  /** `parse_evaluation_url_searchpage`. */
  method ParseEvaluationUrlSearchpage(divs: seq<TermDiv>) returns (r: Result<Dict<string, string>>)
    ensures r == EvaluationSearch(divs)
  {
    var dct := ExtractTermHrefs(divs);
    if dct.Raise? {
      return Raise(dct.error);
    }
    HrefsOfOk(divs);
    HrefsOfValid(divs);
    var formatted := FormatEvaluationUrls(dct.value);
    r := Ok(formatted);
  }

  /** The search page fails exactly when a label other than "Semester" has no link; otherwise
      its keys are the formatted labels. */
  lemma EvaluationSearchSpec(divs: seq<TermDiv>)
    ensures EvaluationSearch(divs).Ok? <==>
      forall i :: 0 <= i < |divs| && Label(divs[i]) != SemesterLabel ==> ParentHref(divs[i]).Ok?
    ensures EvaluationSearch(divs).Ok? ==> forall k :: k in EvaluationSearch(divs).value.values <==>
      exists i :: 0 <= i < |divs| && Label(divs[i]) != SemesterLabel && FormatKey(Label(divs[i])) == k
  {
    HrefsOfOk(divs);
    if HrefsOf(divs).Ok? {
      HrefsOfValid(divs);
      HrefsOfKeys(divs);
      FormattedUrlsKeys(HrefsOf(divs).value);
    }
  }
}
