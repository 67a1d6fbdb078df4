/** The data strategies of the second prototype: each strategy keeps the page it scraped,
    the dict it parsed from it and the object built from that, and files them in three
    persistence tiers (a cache for raw pages, a database for parsed dicts, memory for
    objects) under keys derived from one data key. */
module Tiers {

  import opened Wrappers
  import opened Dicts
  import opened Markup
  import Text
  import StringOrder
  import Urls
  import Transport
  import DataExtraction

  // ---------------------------------------------------------------------------
  // Tier keys

  /** The identifiers the three key generators append to the data key. */
  const ScrapeIdentifier := "raw"
  const ParseIdentifier := "map"
  const DeserializeIdentifier := "obj"

  /** `f"{data_key}_{identifier}"`. */
  function TierKey(base: string, identifier: string): string {
    base + "_" + identifier
  }

  function ScrapeKey(base: string): string {
    TierKey(base, ScrapeIdentifier)
  }

  function ParseKey(base: string): string {
    TierKey(base, ParseIdentifier)
  }

  function DeserializeKey(base: string): string {
    TierKey(base, DeserializeIdentifier)
  }

  /** The last character of a key is the last character of its identifier. */
  lemma TierKeyLast(base: string, identifier: string)
    requires identifier != []
    ensures TierKey(base, identifier)[|TierKey(base, identifier)| - 1] == identifier[|identifier| - 1]
  {
    var k := TierKey(base, identifier);
    assert k == (base + "_") + identifier;
  }

  /** Keys of different tiers never coincide, whatever their data keys: the three tiers
      could share one store without one overwriting another. */
  lemma {:induction false} TierKeysDistinct(b1: string, b2: string)
    ensures ScrapeKey(b1) != ParseKey(b2)
    ensures ScrapeKey(b1) != DeserializeKey(b2)
    ensures ParseKey(b1) != DeserializeKey(b2)
  {
    TierKeyLast(b1, ScrapeIdentifier);
    TierKeyLast(b1, ParseIdentifier);
    TierKeyLast(b2, ParseIdentifier);
    TierKeyLast(b2, DeserializeIdentifier);
  }

  /** Within one tier, different data keys give different keys. */
  lemma {:induction false} TierKeyInjective(b1: string, b2: string, identifier: string)
    requires TierKey(b1, identifier) == TierKey(b2, identifier)
    ensures b1 == b2
  {
    var k := TierKey(b1, identifier);
    assert |b1| == |k| - |identifier| - 1 == |b2|;
    assert k == b1 + ("_" + identifier);
    assert k == b2 + ("_" + identifier);
    assert b1 == k[..|b1|] == b2;
  }

  // ---------------------------------------------------------------------------
  // Persistence tiers and data strategies

  /** The three persistence tiers the data strategies read and write: a cache of raw pages, a
      database of parsed dicts and a memory of objects (`None` for a missing object), each a
      store from key to what it holds. The `Persistence` class of the source declares only
      empty stubs under other names; this is the store its callers expect. */
  class Persistence<Obj> {
    var cache: map<string, string>
    var database: map<string, Dict<string, string>>
    var memory: map<string, Option<Obj>>

    constructor()
      ensures cache == map[] && database == map[] && memory == map[]
    {
      cache := map[];
      database := map[];
      memory := map[];
    }
  }

  /** `DataStrategy`: what one kind of data is scraped from and parsed into, with the
      copies it has in hand and the keys it files them under. A store that lacks a key
      raises KeyError on reading it, as a dict does. */
  class DataStrategy<Obj> {
    var scrapedData: string
    var parsedData: Dict<string, string>
    var deserializedData: Option<Obj>
    const scrapeKey: string
    const parseKey: string
    const deserializeKey: string
    const persistence: Persistence<Obj>
    /** What the subclass's `scrape_data` returns for this data. */
    const source: string
    /** The subclass's `parse_data`. */
    const parse: string -> Dict<string, string>
    /** How many times the data has been scraped. */
    var scrapes: nat

    constructor(dataKey: string, persistence: Persistence<Obj>, source: string, parse: string -> Dict<string, string>)
      ensures scrapedData == "" && parsedData == Empty() && deserializedData == None && scrapes == 0
      ensures scrapeKey == ScrapeKey(dataKey) && parseKey == ParseKey(dataKey) && deserializeKey == DeserializeKey(dataKey)
      ensures this.persistence == persistence && this.source == source && this.parse == parse
    {
      scrapedData := "";
      parsedData := Empty();
      deserializedData := None;
      scrapeKey := ScrapeKey(dataKey);
      parseKey := ParseKey(dataKey);
      deserializeKey := DeserializeKey(dataKey);
      this.persistence := persistence;
      this.source := source;
      this.parse := parse;
      scrapes := 0;
    }

    /** `scraped_data_exists`, `parsed_data_exists`, `deserialized_data_exists`. */
    predicate ScrapedDataExists()
      reads this, persistence
    {
      scrapeKey in persistence.cache
    }

    predicate ParsedDataExists()
      reads this, persistence
    {
      parseKey in persistence.database
    }

    predicate DeserializedDataExists()
      reads this, persistence
    {
      deserializeKey in persistence.memory
    }

    /** `load_scraped_data`: the cached page under the scrape key becomes the scraped data. */
    method LoadScrapedData() returns (r: Result<()>)
      modifies this
      ensures r.Ok? <==> scrapeKey in persistence.cache
      ensures r.Ok? ==> scrapedData == persistence.cache[scrapeKey]
      ensures r.Raise? ==> r.error == KeyError && scrapedData == old(scrapedData)
      ensures parsedData == old(parsedData) && deserializedData == old(deserializedData) && scrapes == old(scrapes)
    {
      if scrapeKey !in persistence.cache {
        return Raise(KeyError);
      }
      scrapedData := persistence.cache[scrapeKey];
      return Ok(());
    }

    /** `load_parsed_data`: the dict under the parse key becomes the parsed data. */
    method LoadParsedData() returns (r: Result<()>)
      modifies this
      ensures r.Ok? <==> parseKey in persistence.database
      ensures r.Ok? ==> parsedData == persistence.database[parseKey]
      ensures r.Raise? ==> r.error == KeyError && parsedData == old(parsedData)
      ensures scrapedData == old(scrapedData) && deserializedData == old(deserializedData) && scrapes == old(scrapes)
    {
      if parseKey !in persistence.database {
        return Raise(KeyError);
      }
      parsedData := persistence.database[parseKey];
      return Ok(());
    }

    /** `load_deserialized_data`: the object under the deserialize key. */
    method LoadDeserializedData() returns (r: Result<()>)
      modifies this
      ensures r.Ok? <==> deserializeKey in persistence.memory
      ensures r.Ok? ==> deserializedData == persistence.memory[deserializeKey]
      ensures r.Raise? ==> r.error == KeyError && deserializedData == old(deserializedData)
      ensures scrapedData == old(scrapedData) && parsedData == old(parsedData) && scrapes == old(scrapes)
    {
      if deserializeKey !in persistence.memory {
        return Raise(KeyError);
      }
      deserializedData := persistence.memory[deserializeKey];
      return Ok(());
    }

    /** `store_scraped_data`: only the cache entry under the scrape key changes. */
    method StoreScrapedData()
      modifies persistence
      ensures persistence.cache == old(persistence.cache)[scrapeKey := scrapedData]
      ensures persistence.database == old(persistence.database) && persistence.memory == old(persistence.memory)
    {
      persistence.cache := persistence.cache[scrapeKey := scrapedData];
    }

    /** `store_parsed_data`: only the database entry under the parse key changes. */
    method StoreParsedData()
      modifies persistence
      ensures persistence.database == old(persistence.database)[parseKey := parsedData]
      ensures persistence.cache == old(persistence.cache) && persistence.memory == old(persistence.memory)
    {
      persistence.database := persistence.database[parseKey := parsedData];
    }

    /** `store_deserialized_data`: only the memory entry under the deserialize key changes,
        to the object in hand (`None` before there is one). */
    method StoreDeserializedData()
      modifies persistence
      ensures persistence.memory == old(persistence.memory)[deserializeKey := deserializedData]
      ensures persistence.cache == old(persistence.cache) && persistence.database == old(persistence.database)
    {
      persistence.memory := persistence.memory[deserializeKey := deserializedData];
    }

    /** Scraping: the page is fetched once more. */
    method ScrapeData()
      modifies this
      ensures scrapedData == source && scrapes == old(scrapes) + 1
      ensures parsedData == old(parsedData) && deserializedData == old(deserializedData)
    {
      scrapedData := source;
      scrapes := scrapes + 1;
    }

    /** Parsing the scraped page. */
    method ParseData()
      modifies this
      ensures parsedData == parse(scrapedData)
      ensures scrapedData == old(scrapedData) && deserializedData == old(deserializedData) && scrapes == old(scrapes)
    {
      parsedData := parse(scrapedData);
    }
  }

  /** `DataContainer`: an entity whose data comes through its strategy. */
  class DataContainer<Obj> {
    const dataStrategy: DataStrategy<Obj>

    constructor(dataStrategy: DataStrategy<Obj>)
      ensures this.dataStrategy == dataStrategy
    {
      this.dataStrategy := dataStrategy;
    }

    /** `retrieve_data`: the parsed dict from the database when it is there; otherwise the
        page from the cache, or else a fresh scrape that is cached, and then parsed and
        stored. It scrapes exactly when neither the database nor the cache has the data. */
    method RetrieveData() returns (r: Dict<string, string>)
      modifies dataStrategy, dataStrategy.persistence
      ensures r == dataStrategy.parsedData
      ensures dataStrategy.parseKey in dataStrategy.persistence.database
      ensures dataStrategy.persistence.database[dataStrategy.parseKey] == r
      ensures dataStrategy.persistence.memory == old(dataStrategy.persistence.memory)
      ensures dataStrategy.deserializedData == old(dataStrategy.deserializedData)
      ensures dataStrategy.parseKey in old(dataStrategy.persistence.database) ==>
        r == old(dataStrategy.persistence.database[dataStrategy.parseKey]) &&
        dataStrategy.persistence.database == old(dataStrategy.persistence.database) &&
        dataStrategy.persistence.cache == old(dataStrategy.persistence.cache) &&
        dataStrategy.scrapedData == old(dataStrategy.scrapedData)
      ensures dataStrategy.parseKey !in old(dataStrategy.persistence.database) ==>
        var cached := dataStrategy.scrapeKey in old(dataStrategy.persistence.cache);
        var raw := if cached then old(dataStrategy.persistence.cache[dataStrategy.scrapeKey]) else dataStrategy.source;
        r == dataStrategy.parse(raw) && dataStrategy.scrapedData == raw &&
        dataStrategy.persistence.cache == old(dataStrategy.persistence.cache)[dataStrategy.scrapeKey := raw] &&
        dataStrategy.persistence.database == old(dataStrategy.persistence.database)[dataStrategy.parseKey := r]
      ensures dataStrategy.scrapes == old(dataStrategy.scrapes) +
        (if dataStrategy.parseKey !in old(dataStrategy.persistence.database) && dataStrategy.scrapeKey !in old(dataStrategy.persistence.cache) then 1 else 0)
    {
      var s := dataStrategy;
      if s.ParsedDataExists() {
        var _ := s.LoadParsedData();
        return s.parsedData;
      } else if s.ScrapedDataExists() {
        var _ := s.LoadScrapedData();
      } else {
        s.ScrapeData();
        s.StoreScrapedData();
      }
      s.ParseData();
      s.StoreParsedData();
      return s.parsedData;
    }
  }

  /** Retrieving twice gives the same dict, and the second time nothing is scraped. */
  method RetrieveTwice<Obj>(c: DataContainer<Obj>) returns (first: Dict<string, string>, second: Dict<string, string>)
    modifies c.dataStrategy, c.dataStrategy.persistence
    ensures first == second
    ensures c.dataStrategy.scrapes <= old(c.dataStrategy.scrapes) + 1
  {
    first := c.RetrieveData();
    second := c.RetrieveData();
  }

  // ---------------------------------------------------------------------------
  // DtuCourses

  /** The 29 letter pages of the course archive as one string. */
  function ArchivePages(f: Transport.Fetcher, academicYear: string): string {
    DataExtraction.Concat(DataExtraction.PagesOf(f, Urls.ArchiveUrls(academicYear)))
  }

  /** `DtuCourses.scrape_data`: every letter's archive page, requested in alphabet order,
      concatenated in that order. */
  method ScrapeCourseArchive(f: Transport.Fetcher, academicYear: string) returns (html: string)
    modifies f
    ensures html == ArchivePages(f, academicYear)
    ensures f.fetched == old(f.fetched) + Urls.ArchiveUrls(academicYear)
    ensures f.searched == old(f.searched)
  {
    html := ScrapeLetters(f, academicYear, Urls.Alphabet);
  }

  /** The urls of the archive pages of the given letters. */
  function LetterUrls(academicYear: string, letters: seq<char>): (urls: seq<string>)
    ensures |urls| == |letters|
    ensures forall i :: 0 <= i < |letters| ==> urls[i] == Urls.ArchiveUrl(academicYear, letters[i])
  {
    seq(|letters|, i requires 0 <= i < |letters| => Urls.ArchiveUrl(academicYear, letters[i]))
  }

  /** The loop of `DtuCourses.scrape_data` over the letters. */
  method ScrapeLetters(f: Transport.Fetcher, academicYear: string, letters: seq<char>) returns (html: string)
    modifies f
    ensures html == DataExtraction.Concat(DataExtraction.PagesOf(f, LetterUrls(academicYear, letters)))
    ensures f.fetched == old(f.fetched) + LetterUrls(academicYear, letters)
    ensures f.searched == old(f.searched)
  {
    html := "";
    ghost var urls := LetterUrls(academicYear, letters);
    ghost var pages := DataExtraction.PagesOf(f, urls);
    var i := 0;
    while i < |letters|
      invariant 0 <= i <= |letters|
      invariant html == DataExtraction.Concat(pages[..i])
      invariant f.fetched == old(f.fetched) + urls[..i]
      invariant f.searched == old(f.searched)
    {
      var url := Urls.CourseHost + "/archive/" + academicYear + "/letter/" + [letters[i]];
      assert url == urls[i];
      var page := f.GetPageSource(url);
      DataExtraction.ConcatStep(pages, i);
      assert urls[..i + 1] == urls[..i] + [urls[i]];
      html := html + page;
      i := i + 1;
    }
    assert pages[..i] == pages;
    assert urls[..i] == urls;
  }

  /** The rows of every table but the first row of each, tables in page order. */
  function AllDataRows(tables: seq<seq<Row>>): seq<Row> {
    if tables == [] then [] else AllDataRows(tables[..|tables| - 1]) + DataRows(tables[|tables| - 1])
  }

  /** A row is read exactly when it is a non-header row of some table. */
  lemma {:induction false} AllDataRowsMembers(tables: seq<seq<Row>>)
    ensures forall r :: r in AllDataRows(tables) <==>
      exists t, j :: 0 <= t < |tables| && 1 <= j < |tables[t]| && tables[t][j] == r
  {
    if tables != [] {
      var n := |tables| - 1;
      var init := tables[..n];
      AllDataRowsMembers(init);
      forall r
        ensures r in AllDataRows(tables) <==> exists t, j :: 0 <= t < |tables| && 1 <= j < |tables[t]| && tables[t][j] == r
      {
        if r in DataRows(tables[n]) {
          var k :| 0 <= k < |DataRows(tables[n])| && DataRows(tables[n])[k] == r;
          assert tables[n][k + 1] == r;
        }
        if exists t, j :: 0 <= t < |tables| && 1 <= j < |tables[t]| && tables[t][j] == r {
          var t, j :| 0 <= t < |tables| && 1 <= j < |tables[t]| && tables[t][j] == r;
          if t < n {
            assert init[t] == tables[t];
          } else {
            assert DataRows(tables[n])[j - 1] == r;
          }
        }
      }
    }
  }

  /** The rows of the first i tables come first. */
  lemma {:induction false} AllDataRowsPrefix(tables: seq<seq<Row>>, i: nat)
    requires i <= |tables|
    ensures |AllDataRows(tables[..i])| <= |AllDataRows(tables)|
    ensures AllDataRows(tables)[..|AllDataRows(tables[..i])|] == AllDataRows(tables[..i])
    decreases |tables| - i
  {
    if i == |tables| {
      assert tables[..i] == tables;
    } else {
      var n := |tables| - 1;
      var init := tables[..n];
      assert init[..i] == tables[..i];
      AllDataRowsPrefix(init, i);
      var a := AllDataRows(init);
      assert AllDataRows(tables) == a + DataRows(tables[n]);
      assert AllDataRows(tables)[..|a|] == a;
    }
  }

  /** What `DtuCourses.parse_data` returns for the tables of a page: id -> name over the
      non-header rows of all tables, a later row winning, sorted by id. */
  function CourseTables(tables: seq<seq<Row>>): Result<Dict<string, string>> {
    var d := NamesOf(AllDataRows(tables));
    if d.Raise? then d else Ok(SortByKey(d.value))
  }

  /** It succeeds exactly when every non-header row has two cells, and then holds one entry
      per course id in ascending order. */
  lemma {:induction false} CourseTablesSpec(tables: seq<seq<Row>>)
    ensures CourseTables(tables).Ok? ==> forall i :: 0 <= i < |AllDataRows(tables)| ==> Readable(AllDataRows(tables)[i])
    ensures (forall i :: 0 <= i < |AllDataRows(tables)| ==> Readable(AllDataRows(tables)[i])) ==> CourseTables(tables).Ok?
    ensures var rows := AllDataRows(tables);
      CourseTables(tables).Ok? ==>
        var d := CourseTables(tables).value;
        WellFormed(d) && StringOrder.Sorted(d.keys) &&
        forall k :: k in d.values <==> exists i :: 0 <= i < |rows| && Id(rows[i]) == k
  {
    var rows := AllDataRows(tables);
    NamesOfOk(rows);
    assert CourseTables(tables).Ok? <==> NamesOf(rows).Ok?;
    if NamesOf(rows).Ok? {
      NamesOfValid(rows);
      NamesOfKeys(rows);
      var d0 := NamesOf(rows).value;
      SortByKeySpec(d0);
      assert CourseTables(tables) == Ok(SortByKey(d0));
    }
  }

  /** A repeated course id is overwritten: the name kept is that of its last row. */
  lemma CourseTablesLastWins(tables: seq<seq<Row>>, i: nat)
    requires var rows := AllDataRows(tables); forall j :: 0 <= j < |rows| ==> Readable(rows[j])
    requires var rows := AllDataRows(tables);
      i < |rows| && forall j :: i < j < |rows| ==> Id(rows[j]) != Id(rows[i])
    ensures var rows := AllDataRows(tables);
      CourseTables(tables).Ok? && Id(rows[i]) in CourseTables(tables).value.values &&
      CourseTables(tables).value.values[Id(rows[i])] == Name(rows[i])
  {
    NamesOfLastWins(AllDataRows(tables), i);
  }

  /** The row loop of one table, continuing from the dict the rows before it built. */
  method ReadRows(ghost before: seq<Row>, rows: seq<Row>, dct: Dict<string, string>) returns (r: Result<Dict<string, string>>)
    requires NamesOf(before) == Ok(dct)
    ensures r == NamesOf(before + rows)
  {
    var acc := dct;
    var j := 0;
    assert before + rows[..0] == before;
    while j < |rows|
      invariant 0 <= j <= |rows|
      invariant NamesOf(before + rows[..j]) == Ok(acc)
    {
      var row := rows[j];
      NamesOfNext(before, rows, j);
      var pair := RowPair(row);
      if pair.Raise? {
        RowsRaisePersist(before, rows, j + 1);
        return Raise(pair.error);
      }
      acc := Put(acc, row.cells[0], row.cells[1]);
      j := j + 1;
    }
    assert rows[..j] == rows;
    return Ok(acc);
  }

  /** Once the rows up to j have raised, so do all of them. */
  lemma RowsRaisePersist(before: seq<Row>, rows: seq<Row>, j: nat)
    requires j <= |rows| && NamesOf(before + rows[..j]).Raise?
    ensures NamesOf(before + rows) == NamesOf(before + rows[..j])
  {
    var all := before + rows;
    assert all[..|before| + j] == before + rows[..j];
    NamesOfRaisePersists(all, |before| + j);
  }

  lemma NamesOfNext(before: seq<Row>, rows: seq<Row>, j: nat)
    requires j < |rows|
    ensures NamesOf(before + rows[..j + 1]) == AddRow(NamesOf(before + rows[..j]), rows[j])
  {
    assert rows[..j + 1] == rows[..j] + [rows[j]];
    assert before + rows[..j + 1] == (before + rows[..j]) + [rows[j]];
    NamesOfSnoc(before + rows[..j], rows[j]);
  }

  lemma NamesOfSnoc(rows: seq<Row>, row: Row)
    ensures NamesOf(rows + [row]) == AddRow(NamesOf(rows), row)
  {
    assert (rows + [row])[..|rows|] == rows;
  }

  /** The table and row loops of `DtuCourses.parse_data`, stopping at the first row that
      cannot be read. */
  method ParseCourseTables(tables: seq<seq<Row>>) returns (r: Result<Dict<string, string>>)
    ensures r == CourseTables(tables)
  {
    var dct := Empty();
    var i := 0;
    while i < |tables|
      invariant 0 <= i <= |tables|
      invariant NamesOf(AllDataRows(tables[..i])) == Ok(dct)
    {
      assert tables[..i + 1][..i] == tables[..i];
      var read := ReadRows(AllDataRows(tables[..i]), DataRows(tables[i]), dct);
      assert read == NamesOf(AllDataRows(tables[..i + 1]));
      if read.Raise? {
        AllDataRowsPrefix(tables, i + 1);
        NamesOfRaisePersists(AllDataRows(tables), |AllDataRows(tables[..i + 1])|);
        return read;
      }
      dct := read.value;
      i := i + 1;
    }
    assert tables[..i] == tables;
    return Ok(SortByKey(dct));
  }

  // ---------------------------------------------------------------------------
  // Dtu year names

  /** `f"{str(year)}'-'{str(1+year)}"`, quotes included. */
  function YearName(year: int): string {
    Text.IntToString(year) + "'-'" + Text.IntToString(1 + year)
  }

  /** A decimal number has no quote in it. */
  lemma NoQuoteInNumber(i: int)
    ensures '\'' !in Text.IntToString(i)
  {
    if i < 0 {
      var s := Text.NatToString(-i);
      assert Text.IntToString(i) == "-" + s;
      assert forall k :: 0 <= k < |s| ==> Text.IsDigit(s[k]);
    } else {
      var s := Text.NatToString(i);
      assert forall k :: 0 <= k < |s| ==> Text.IsDigit(s[k]);
    }
  }

  /** Different years have different names. */
  lemma YearNameInjective(a: int, b: int)
    requires YearName(a) == YearName(b)
    ensures a == b
  {
    var x1, x2 := Text.IntToString(a), Text.IntToString(b);
    NoQuoteInNumber(a);
    NoQuoteInNumber(b);
    QuoteSplit(x1, Text.IntToString(1 + a));
    QuoteSplit(x2, Text.IntToString(1 + b));
    Text.SplitAtSeparator(x1, "-'" + Text.IntToString(1 + a), x2, "-'" + Text.IntToString(1 + b), '\'');
    Text.IntToStringInjective(a, b);
  }

  lemma QuoteSplit(x: string, y: string)
    ensures x + "'-'" + y == x + ['\''] + ("-'" + y)
  {
    assert "'-'" == ['\''] + "-'";
  }

  /** `Dtu`: the school builder over a span of years. */
  class Dtu {
    const oldestYear: int
    const newestYear: int

    constructor(oldestYear: int, newestYear: int)
      ensures this.oldestYear == oldestYear && this.newestYear == newestYear
    {
      this.oldestYear := oldestYear;
      this.newestYear := newestYear;
    }

    /** `predefined_year_interval`: the years 2017 to 2023. */
    static method PredefinedYearInterval() returns (d: Dtu)
      ensures fresh(d) && d.oldestYear == 2017 && d.newestYear == 2023
    {
      d := new Dtu(2017, 2023);
    }

    /** `generate_year_names`: one name for each year from the oldest up to but not including
        the newest, in order, no two alike. */
    method GenerateYearNames() returns (names: seq<string>)
      ensures |names| == if newestYear > oldestYear then newestYear - oldestYear else 0
      ensures forall i :: 0 <= i < |names| ==> names[i] == YearName(oldestYear + i)
      ensures forall i, j :: 0 <= i < j < |names| ==> names[i] != names[j]
    {
      names := [];
      var year := oldestYear;
      while year < newestYear
        invariant oldestYear <= year && |names| == year - oldestYear
        invariant year == oldestYear || year <= newestYear
        invariant forall i :: 0 <= i < |names| ==> names[i] == YearName(oldestYear + i)
        decreases newestYear - year
      {
        names := names + [YearName(year)];
        year := year + 1;
      }
      YearNamesDistinct(names, oldestYear);
    }
  }

  /** Names of consecutive years differ pairwise. */
  lemma YearNamesDistinct(names: seq<string>, oldest: int)
    requires forall i :: 0 <= i < |names| ==> names[i] == YearName(oldest + i)
    ensures forall i, j :: 0 <= i < j < |names| ==> names[i] != names[j]
  {
    forall i, j | 0 <= i < j < |names|
      ensures names[i] != names[j]
    {
      if names[i] == names[j] {
        YearNameInjective(oldest + i, oldest + j);
      }
    }
  }

  /** The predefined interval gives six names, from "2017'-'2018" to "2022'-'2023". */
  method PredefinedYearNames() returns (names: seq<string>)
    ensures |names| == 6
    ensures names[0] == "2017'-'2018" && names[5] == "2022'-'2023"
  {
    var dtu := Dtu.PredefinedYearInterval();
    names := dtu.GenerateYearNames();
    FirstPredefined();
    LastPredefined();
  }

  lemma FirstPredefined()
    ensures YearName(2017) == "2017'-'2018"
  {
    assert Text.NatToString(17) == "17" && Text.NatToString(18) == "18";
    YearNameExample(2017, "2017", "2018");
  }

  lemma LastPredefined()
    ensures YearName(2022) == "2022'-'2023"
  {
    assert Text.NatToString(22) == "22" && Text.NatToString(23) == "23";
    YearNameExample(2022, "2022", "2023");
  }

  /** The name of a year of the form 20ab with ab + 1 < 100. */
  lemma YearNameExample(year: int, s: string, t: string)
    requires 2010 <= year < 2099
    requires s == "20" + Text.NatToString(year - 2000) && t == "20" + Text.NatToString(year + 1 - 2000)
    ensures YearName(year) == s + "'-'" + t
  {
    Text.TwoDigitYear(year - 2000);
    Text.TwoDigitYear(year + 1 - 2000);
  }
}
