/** What the scrapers read out of a parsed page, from the point where BeautifulSoup
    has found (or not found) the course table: its rows as lists of cell texts, and the
    `Term` labels of the evaluation search page together with their enclosing link. */
module Markup {

  import opened Wrappers
  import opened Dicts
  import Text

  /** One `<tr>`: the texts of its `<td>` cells. */
  datatype Row = Row(cells: seq<string>)

  /** The enclosing `<a>` of a `Term` label: absent, or present with or without an `href`. */
  datatype Parent = NoParent | Link(href: Option<string>)

  /** One `<div class="Term">`: its text and its enclosing link. */
  datatype TermDiv = TermDiv(text: string, parent: Parent)

  /** `rows[1:]`: every row but the header. */
  function DataRows(rows: seq<Row>): (r: seq<Row>)
    ensures |r| == if rows == [] then 0 else |rows| - 1
    ensures forall i :: 0 <= i < |r| ==> r[i] == rows[i + 1]
  {
    if rows == [] then [] else rows[1..]
  }

  /** A row can be read when it has at least the course id and the course name cell. */
  predicate Readable(row: Row) {
    |row.cells| >= 2
  }

  /** `(row.find('td').text, row.find_all('td')[1].text)`: without any cell `find` gives
      None and `.text` raises AttributeError, with one cell the index raises IndexError. */
  function RowPair(row: Row): (r: Result<(string, string)>)
    ensures r.Ok? <==> Readable(row)
    ensures r.Ok? ==> r.value == (row.cells[0], row.cells[1])
    ensures r.Raise? ==> r.error == (if row.cells == [] then AttributeError else IndexError)
  {
    if |row.cells| == 0 then Raise(AttributeError)
    else if |row.cells| == 1 then Raise(IndexError)
    else Ok((row.cells[0], row.cells[1]))
  }

  // ---------------------------------------------------------------------------
  // Course id -> course name

  /** The dict the row loop builds over `rows`: `dct[id] = name` row after row, stopping
      at the first row that cannot be read. */
  function NamesOf(rows: seq<Row>): Result<Dict<string, string>> {
    if rows == [] then Ok(Empty()) else AddRow(NamesOf(rows[..|rows| - 1]), rows[|rows| - 1])
  }

  /** One iteration of the row loop. */
  function AddRow(acc: Result<Dict<string, string>>, row: Row): Result<Dict<string, string>> {
    if acc.Raise? then acc
    else if !Readable(row) then Raise(RowPair(row).error)
    else Ok(Put(acc.value, row.cells[0], row.cells[1]))
  }

  /** No table gives an empty dict; otherwise the data rows are read. */
  function CourseNames(table: Option<seq<Row>>): Result<Dict<string, string>> {
    match table
    case None => Ok(Empty())
    case Some(rows) => NamesOf(DataRows(rows))
  }

  lemma {:induction false} NamesOfOk(rows: seq<Row>)
    ensures NamesOf(rows).Ok? <==> forall i :: 0 <= i < |rows| ==> Readable(rows[i])
  {
    if rows != [] {
      var init := rows[..|rows| - 1];
      NamesOfOk(init);
      assert forall i :: 0 <= i < |init| ==> init[i] == rows[i];
    }
  }

  /** The first unreadable row decides the exception. */
  lemma {:induction false} NamesOfFails(rows: seq<Row>, i: nat)
    requires i < |rows| && !Readable(rows[i])
    requires forall j :: 0 <= j < i ==> Readable(rows[j])
    ensures NamesOf(rows) == Raise(RowPair(rows[i]).error)
  {
    var init := rows[..|rows| - 1];
    if i == |rows| - 1 {
      NamesOfOk(init);
    } else {
      NamesOfFails(init, i);
    }
  }

  /** Once a prefix has raised, the rest of the rows are never read. */
  lemma {:induction false} NamesOfRaisePersists(rows: seq<Row>, i: nat)
    requires i <= |rows| && NamesOf(rows[..i]).Raise?
    ensures NamesOf(rows) == NamesOf(rows[..i])
    decreases |rows| - i
  {
    if i < |rows| {
      assert rows[..i + 1][..i] == rows[..i];
      NamesOfRaisePersists(rows, i + 1);
    } else {
      assert rows[..i] == rows;
    }
  }

  /** The course id and the course name of a readable row. */
  function Id(row: Row): string
    requires Readable(row)
  {
    row.cells[0]
  }

  function Name(row: Row): string
    requires Readable(row)
  {
    row.cells[1]
  }

  /** A table whose rows can all be read gives a well-formed dict. */
  lemma {:induction false} NamesOfValid(rows: seq<Row>)
    requires forall i :: 0 <= i < |rows| ==> Readable(rows[i])
    ensures NamesOf(rows).Ok? && WellFormed(NamesOf(rows).value)
  {
    if rows != [] {
      var init := rows[..|rows| - 1];
      assert forall i :: 0 <= i < |init| ==> init[i] == rows[i];
      NamesOfValid(init);
      PutSpec(NamesOf(init).value, Id(rows[|rows| - 1]), Name(rows[|rows| - 1]));
    }
  }

  /** Its keys are exactly the course ids of the rows. */
  lemma {:induction false} NamesOfKeys(rows: seq<Row>)
    requires forall i :: 0 <= i < |rows| ==> Readable(rows[i])
    ensures NamesOf(rows).Ok?
    ensures forall k :: k in NamesOf(rows).value.values <==> exists i :: 0 <= i < |rows| && Id(rows[i]) == k
  {
    NamesOfOk(rows);
    if rows != [] {
      var init := rows[..|rows| - 1];
      assert forall i :: 0 <= i < |init| ==> init[i] == rows[i];
      NamesOfKeys(init);
    }
  }

  /** The name stored under an id is the one in the last row with that id. */
  lemma {:induction false} NamesOfLastWins(rows: seq<Row>, i: nat)
    requires forall j :: 0 <= j < |rows| ==> Readable(rows[j])
    requires i < |rows| && forall j :: i < j < |rows| ==> Id(rows[j]) != Id(rows[i])
    ensures NamesOf(rows).Ok?
    ensures Id(rows[i]) in NamesOf(rows).value.values
    ensures NamesOf(rows).value.values[Id(rows[i])] == Name(rows[i])
  {
    NamesOfOk(rows);
    var n := |rows| - 1;
    if i < n {
      var init := rows[..n];
      assert forall j :: 0 <= j < n ==> init[j] == rows[j];
      NamesOfLastWins(init, i);
    }
  }

  /** The row loop of the course table, stopping at the first row it cannot read. */
  method ExtractCourseNames(table: Option<seq<Row>>) returns (r: Result<Dict<string, string>>)
    ensures r == CourseNames(table)
  {
    if table.None? {
      return Ok(Empty());
    }
    var rows := DataRows(table.value);
    var dct := Empty();
    var i := 0;
    while i < |rows|
      invariant 0 <= i <= |rows|
      invariant NamesOf(rows[..i]) == Ok(dct)
    {
      var row := rows[i];
      assert rows[..i + 1][..i] == rows[..i];
      var pair := RowPair(row);
      if pair.Raise? {
        NamesOfRaisePersists(rows, i + 1);
        return Raise(pair.error);
      }
      dct := Put(dct, row.cells[0], row.cells[1]);
      i := i + 1;
    }
    assert rows[..i] == rows;
    return Ok(dct);
  }

  // ---------------------------------------------------------------------------
  // Course id list

  /** The codes the `_extract_course_codes` loop appends over `rows`, failing as the name
      lookup does (the course title is read before the code is appended). */
  function CodesOf(rows: seq<Row>): Result<seq<string>> {
    if rows == [] then Ok([]) else AddCode(CodesOf(rows[..|rows| - 1]), rows[|rows| - 1])
  }

  function AddCode(acc: Result<seq<string>>, row: Row): Result<seq<string>> {
    if acc.Raise? then acc
    else if !Readable(row) then Raise(RowPair(row).error)
    else Ok(acc.value + [row.cells[0]])
  }

  function CourseCodes(table: Option<seq<Row>>): Result<seq<string>> {
    match table
    case None => Ok([])
    case Some(rows) => CodesOf(DataRows(rows))
  }

  /** The code list is the first cells of the rows, in row order and with duplicates; it fails
      exactly when, and with the exception that, the name dict does. */
  lemma {:induction false} CodesOfSpec(rows: seq<Row>)
    ensures CodesOf(rows).Raise? <==> NamesOf(rows).Raise?
    ensures CodesOf(rows).Raise? ==> CodesOf(rows).error == NamesOf(rows).error
    ensures CodesOf(rows).Ok? ==>
      |CodesOf(rows).value| == |rows| &&
      forall i :: 0 <= i < |rows| ==> Readable(rows[i]) && CodesOf(rows).value[i] == Id(rows[i])
  {
    if rows != [] {
      var init := rows[..|rows| - 1];
      CodesOfSpec(init);
      assert forall i :: 0 <= i < |init| ==> init[i] == rows[i];
    }
  }

  /** The side dict the loop fills holds exactly the listed codes as keys. */
  lemma CodesAreNameKeys(rows: seq<Row>)
    requires CodesOf(rows).Ok?
    ensures NamesOf(rows).Ok?
    ensures forall k :: k in CodesOf(rows).value <==> k in NamesOf(rows).value.values
  {
    CodesOfSpec(rows);
    NamesOfKeys(rows);
    var codes := CodesOf(rows).value;
    forall k
      ensures k in codes <==> exists i :: 0 <= i < |rows| && Id(rows[i]) == k
    {
      if k in codes {
        var i :| 0 <= i < |codes| && codes[i] == k;
        assert Id(rows[i]) == k;
      }
      if exists i :: 0 <= i < |rows| && Id(rows[i]) == k {
        var i :| 0 <= i < |rows| && Id(rows[i]) == k;
        assert codes[i] == k;
      }
    }
  }

  lemma {:induction false} CodesOfRaisePersists(rows: seq<Row>, i: nat)
    requires i <= |rows| && CodesOf(rows[..i]).Raise?
    ensures CodesOf(rows) == CodesOf(rows[..i])
    decreases |rows| - i
  {
    if i < |rows| {
      assert rows[..i + 1][..i] == rows[..i];
      CodesOfRaisePersists(rows, i + 1);
    } else {
      assert rows[..i] == rows;
    }
  }

  /** `_extract_course_codes`: the row loop appending each course id, also filling the
      unused `course_dict`. */
  method ExtractCourseCodes(table: Option<seq<Row>>) returns (r: Result<seq<string>>)
    ensures r == CourseCodes(table)
  {
    if table.None? {
      return Ok([]);
    }
    var rows := DataRows(table.value);
    var courseCodes: seq<string> := [];
    var courseDict := Empty();
    var i := 0;
    while i < |rows|
      invariant 0 <= i <= |rows|
      invariant CodesOf(rows[..i]) == Ok(courseCodes)
    {
      var row := rows[i];
      assert rows[..i + 1][..i] == rows[..i];
      var pair := RowPair(row);
      if pair.Raise? {
        CodesOfRaisePersists(rows, i + 1);
        return Raise(pair.error);
      }
      courseDict := Put(courseDict, row.cells[0], row.cells[1]);
      courseCodes := courseCodes + [row.cells[0]];
      i := i + 1;
    }
    assert rows[..i] == rows;
    return Ok(courseCodes);
  }

  // ---------------------------------------------------------------------------
  // Term label -> evaluation link

  /** `div.find_parent('a')['href']`: subscripting a missing parent (None) raises TypeError,
      a link without the attribute raises KeyError. */
  function ParentHref(div: TermDiv): (r: Result<string>)
    ensures r.Ok? <==> div.parent.Link? && div.parent.href.Some?
  {
    match div.parent
    case NoParent => Raise(TypeError)
    case Link(None) => Raise(KeyError)
    case Link(Some(h)) => Ok(h)
  }

  /** The label the loop keys on, and the one label it skips. */
  function Label(div: TermDiv): string {
    Text.Strip(div.text)
  }

  const SemesterLabel := "Semester"

  /** The dict the `Term` loop builds: every label but "Semester" mapped to its link. */
  function HrefsOf(divs: seq<TermDiv>): Result<Dict<string, string>> {
    if divs == [] then Ok(Empty()) else AddDiv(HrefsOf(divs[..|divs| - 1]), divs[|divs| - 1])
  }

  /** One iteration of the `Term` loop. */
  function AddDiv(acc: Result<Dict<string, string>>, div: TermDiv): Result<Dict<string, string>> {
    if acc.Raise? || Label(div) == SemesterLabel then acc
    else if ParentHref(div).Raise? then Raise(ParentHref(div).error)
    else Ok(Put(acc.value, Label(div), ParentHref(div).value))
  }

  lemma {:induction false} HrefsOfRaisePersists(divs: seq<TermDiv>, i: nat)
    requires i <= |divs| && HrefsOf(divs[..i]).Raise?
    ensures HrefsOf(divs) == HrefsOf(divs[..i])
    decreases |divs| - i
  {
    if i < |divs| {
      assert divs[..i + 1][..i] == divs[..i];
      HrefsOfRaisePersists(divs, i + 1);
    } else {
      assert divs[..i] == divs;
    }
  }

  /** A div the loop can read: it is skipped as "Semester" or has a link. */
  predicate Linked(div: TermDiv) {
    Label(div) != SemesterLabel ==> ParentHref(div).Ok?
  }

  predicate AllLinked(divs: seq<TermDiv>) {
    forall i :: 0 <= i < |divs| ==> Linked(divs[i])
  }

  lemma AllLinkedStep(divs: seq<TermDiv>)
    requires divs != []
    ensures AllLinked(divs) <==> AllLinked(divs[..|divs| - 1]) && Linked(divs[|divs| - 1])
  {
    var init := divs[..|divs| - 1];
    if AllLinked(divs) {
      forall i | 0 <= i < |init|
        ensures Linked(init[i])
      {
        assert init[i] == divs[i];
      }
    }
    if AllLinked(init) && Linked(divs[|divs| - 1]) {
      forall i | 0 <= i < |divs|
        ensures Linked(divs[i])
      {
        if i < |init| {
          assert init[i] == divs[i];
        }
      }
    }
  }

  lemma HrefsOfOkStep(divs: seq<TermDiv>)
    requires divs != []
    ensures HrefsOf(divs).Ok? <==> HrefsOf(divs[..|divs| - 1]).Ok? && Linked(divs[|divs| - 1])
  {
  }

  /** Only the "Semester" label may lack a link. */
  lemma {:induction false} HrefsOfOk(divs: seq<TermDiv>)
    ensures HrefsOf(divs).Ok? <==> AllLinked(divs)
  {
    if divs != [] {
      HrefsOfOk(divs[..|divs| - 1]);
      HrefsOfOkStep(divs);
      AllLinkedStep(divs);
    }
  }

  /** A page whose labels all have links gives a well-formed dict without "Semester". */
  lemma {:induction false} HrefsOfValid(divs: seq<TermDiv>)
    requires forall i :: 0 <= i < |divs| && Label(divs[i]) != SemesterLabel ==> ParentHref(divs[i]).Ok?
    ensures HrefsOf(divs).Ok? && WellFormed(HrefsOf(divs).value) && SemesterLabel !in HrefsOf(divs).value.values
  {
    if divs != [] {
      var n := |divs| - 1;
      var init := divs[..n];
      assert forall i :: 0 <= i < n ==> init[i] == divs[i];
      HrefsOfValid(init);
      if Label(divs[n]) != SemesterLabel {
        PutSpec(HrefsOf(init).value, Label(divs[n]), ParentHref(divs[n]).value);
      }
    }
  }

  /** Some div carries the label k. */
  predicate HasLabel(divs: seq<TermDiv>, k: string) {
    exists i :: 0 <= i < |divs| && Label(divs[i]) == k
  }

  lemma HasLabelStep(divs: seq<TermDiv>, k: string)
    requires divs != []
    ensures HasLabel(divs, k) <==> HasLabel(divs[..|divs| - 1], k) || Label(divs[|divs| - 1]) == k
  {
    var init := divs[..|divs| - 1];
    if HasLabel(divs, k) {
      var i :| 0 <= i < |divs| && Label(divs[i]) == k;
      if i < |init| {
        assert init[i] == divs[i];
      }
    }
    if HasLabel(init, k) {
      var i :| 0 <= i < |init| && Label(init[i]) == k;
      assert init[i] == divs[i];
    }
  }

  /** One step of the `Term` loop on the keys of a dict that is still being built. */
  lemma AddDivKeys(acc: Dict<string, string>, div: TermDiv)
    requires AddDiv(Ok(acc), div).Ok?
    ensures forall k :: k in AddDiv(Ok(acc), div).value.values <==>
      k in acc.values || (Label(div) != SemesterLabel && Label(div) == k)
  {
  }

  /** Its keys are the labels other than "Semester". */
  lemma {:induction false} HrefsOfKeys(divs: seq<TermDiv>)
    requires HrefsOf(divs).Ok?
    ensures forall k :: k in HrefsOf(divs).value.values <==> k != SemesterLabel && HasLabel(divs, k)
  {
    if divs != [] {
      var n := |divs| - 1;
      var init := divs[..n];
      assert HrefsOf(divs) == AddDiv(HrefsOf(init), divs[n]);
      HrefsOfKeys(init);
      AddDivKeys(HrefsOf(init).value, divs[n]);
      forall k
        ensures k in HrefsOf(divs).value.values <==> k != SemesterLabel && HasLabel(divs, k)
      {
        HasLabelStep(divs, k);
      }
    }
  }

  /** A label maps to the link of the last div carrying it. */
  lemma {:induction false} HrefsOfLastWins(divs: seq<TermDiv>, i: nat)
    requires HrefsOf(divs).Ok?
    requires i < |divs| && Label(divs[i]) != SemesterLabel
    requires forall j :: i < j < |divs| ==> Label(divs[j]) != Label(divs[i])
    ensures ParentHref(divs[i]).Ok? && Label(divs[i]) in HrefsOf(divs).value.values
    ensures HrefsOf(divs).value.values[Label(divs[i])] == ParentHref(divs[i]).value
  {
    HrefsOfOk(divs);
    var n := |divs| - 1;
    if i < n {
      var init := divs[..n];
      assert forall j :: 0 <= j < n ==> init[j] == divs[j];
      HrefsOfOk(init);
      HrefsOfLastWins(init, i);
    }
  }

  /** The loop over the `Term` divs of an evaluation search page. */
  method ExtractTermHrefs(divs: seq<TermDiv>) returns (r: Result<Dict<string, string>>)
    ensures r == HrefsOf(divs)
  {
    var dct := Empty();
    var i := 0;
    while i < |divs|
      invariant 0 <= i <= |divs|
      invariant HrefsOf(divs[..i]) == Ok(dct)
    {
      var div := divs[i];
      assert divs[..i + 1][..i] == divs[..i];
      var term := Text.Strip(div.text);
      if term != SemesterLabel {
        var href := ParentHref(div);
        if href.Raise? {
          HrefsOfRaisePersists(divs, i + 1);
          return Raise(href.error);
        }
        dct := Put(dct, term, href.value);
      }
      i := i + 1;
    }
    assert divs[..i] == divs;
    return Ok(dct);
  }
}
