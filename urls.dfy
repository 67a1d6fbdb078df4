/** The url builders of `sandbox/urls.py`, shared with the other copies of the archive
    loop: the 29 per-letter archive pages of an academic year, and the grade histograms
    of a list of courses for one term name. */
module Urls {

  import opened Wrappers
  import opened Text
  import opened Terms

  /** The starting letters of DTU's course archive: A to Z, then Ae, Oe and Aa. */
  const Alphabet: seq<char> := [
    'A', 'B', 'C', 'D', 'E', 'F', 'G', 'H', 'I', 'J',
    'K', 'L', 'M', 'N', 'O', 'P', 'Q', 'R', 'S', 'T',
    'U', 'V', 'W', 'X', 'Y', 'Z', '\U{C6}', '\U{D8}', '\U{C5}']

  const CourseHost := "https://kurser.dtu.dk"
  const GradeHost := "https://karakterer.dtu.dk"

  /** The archive page of one letter. */
  function ArchiveUrl(academicYear: string, letter: char): string {
    CourseHost + "/archive/" + academicYear + "/letter/" + [letter]
  }

  /** The archive pages of every letter, in alphabet order. */
  function ArchiveUrls(academicYear: string): seq<string> {
    seq(|Alphabet|, i requires 0 <= i < |Alphabet| => ArchiveUrl(academicYear, Alphabet[i]))
  }

  lemma AlphabetDistinct()
    ensures |Alphabet| == 29
    ensures forall i, j :: 0 <= i < j < |Alphabet| ==> Alphabet[i] != Alphabet[j]
  {
  }

  /** 29 urls, each ending in its own letter, so no two coincide. */
  lemma ArchiveUrlsSpec(academicYear: string)
    ensures |ArchiveUrls(academicYear)| == 29
    ensures forall i :: 0 <= i < 29 ==>
      var u := ArchiveUrls(academicYear)[i];
      u[|u| - 1] == Alphabet[i] && u[..|u| - 1] == CourseHost + "/archive/" + academicYear + "/letter/"
    ensures forall i, j :: 0 <= i < j < 29 ==> ArchiveUrls(academicYear)[i] != ArchiveUrls(academicYear)[j]
  {
    AlphabetDistinct();
    var urls := ArchiveUrls(academicYear);
    forall i | 0 <= i < 29
      ensures urls[i][|urls[i]| - 1] == Alphabet[i]
    {
    }
  }

  /** `locate_names` (and, with the same loop, `_create_list_of_urls` of the two course-code
      scrapers): one url appended per letter. */
  method LocateNames(academicYear: string) returns (urls: seq<string>)
    ensures urls == ArchiveUrls(academicYear)
  {
    urls := [];
    var i := 0;
    while i < |Alphabet|
      invariant 0 <= i <= |Alphabet|
      invariant urls == ArchiveUrls(academicYear)[..i]
    {
      urls := urls + [CourseHost + "/archive/" + academicYear + "/letter/" + [Alphabet[i]]];
      i := i + 1;
    }
  }

  // ---------------------------------------------------------------------------
  // Term name -> exam period

  /** `s[-2:]`: the last two characters, or all of a shorter string. */
  function LastTwo(s: string): string {
    if |s| >= 2 then s[|s| - 2..] else s
  }

  /** `_convert_term_to_exam_period`: 'F' and 'E' names keep their last two characters
      after "Summer-20" / "Winter-20"; anything else raises ValueError, or IndexError where
      the character tested is missing. */
  function ConvertTermToExamPeriod(term: string): Result<string> {
    if |term| == 0 then Raise(IndexError)
    else if term[0] == 'F' then Ok("Summer-20" + LastTwo(term))
    else if term[0] == 'E' then Ok("Winter-20" + LastTwo(term))
    else if |term| == 1 then Raise(IndexError)
    else if term[1] == '9' || term[1] == '8' then Raise(ValueError)
    else Raise(ValueError)
  }

  lemma ConvertTermToExamPeriodSpec(term: string)
    ensures ConvertTermToExamPeriod(term).Ok? <==> |term| > 0 && (term[0] == 'E' || term[0] == 'F')
    ensures ConvertTermToExamPeriod(term).Raise? ==>
      ConvertTermToExamPeriod(term).error == (if |term| >= 2 then ValueError else IndexError)
  {
  }

  /** The '8'/'9' test is only reached without an E/F prefix: "E98" is a winter of 2098. */
  lemma NinetiesAreNotRejected()
    ensures ConvertTermToExamPeriod("E98") == Ok("Winter-2098")
    ensures ConvertTermToExamPeriod("X98") == Raise(ValueError)
  {
    assert LastTwo("E98") == "98";
    assert "Winter-20" + "98" == "Winter-2098";
  }

  /** From 2010 on, converting the short name of a term gives the term's own exam period. */
  lemma ConvertTermNameGivesExamPeriod(t: Term)
    requires 2010 <= t.year <= UpperBound
    ensures TermName(t).Ok?
    ensures ConvertTermToExamPeriod(TermName(t).value) == Ok(ExamPeriod(t))
  {
    var k: nat := t.year - LowerBound;
    var name := TermName(t).value;
    assert name == Code(t.semester) + NatToString(k);
    assert |NatToString(k)| == 2 by {
      assert NatToString(k) == NatToString(k / 10) + [DigitChar(k % 10)];
    }
    assert LastTwo(name) == NatToString(k);
    TwoDigitYear(k);
    assert IntToString(t.year) == "20" + NatToString(k);
    assert "Winter-" + ("20" + NatToString(k)) == "Winter-20" + NatToString(k);
    assert "Summer-" + ("20" + NatToString(k)) == "Summer-20" + NatToString(k);
  }

  /** Before 2010 the short name has one digit and the conversion keeps the letter. */
  lemma ConvertSingleDigitTermName()
    ensures TermName(Term(2005, Autumn)) == Ok("E5")
    ensures ConvertTermToExamPeriod("E5") == Ok("Winter-20E5")
    ensures ExamPeriod(Term(2005, Autumn)) == "Winter-2005"
  {
    TermNameExamples();
    assert LastTwo("E5") == "E5";
    assert "Winter-20" + "E5" == "Winter-20E5";
    assert IntToString(2005) == "2005" by {
      assert NatToString(2005) == NatToString(200) + [DigitChar(5)];
      assert NatToString(200) == NatToString(20) + [DigitChar(0)];
      assert NatToString(20) == NatToString(2) + [DigitChar(0)];
    }
  }

  /** The conversion as intended: read the year from the name's digits, whatever their number. */
  function ConvertTermToExamPeriodByYear(term: string): Result<string> {
    match ParseTermName(term)
    case Some(t) => Ok(ExamPeriod(t))
    case None => Raise(ValueError)
  }

  /** It agrees with the term's exam period for every year after 2000. */
  lemma ConvertTermNameByYearGivesExamPeriod(t: Term)
    requires t.year > LowerBound
    ensures TermName(t).Ok?
    ensures ConvertTermToExamPeriodByYear(TermName(t).value) == Ok(ExamPeriod(t))
  {
    TermNameRoundTrip(t);
  }

  // ---------------------------------------------------------------------------
  // Grade histograms

  /** The grade histogram of a course in an exam period. */
  function HistogramUrl(courseId: string, examPeriod: string): string {
    GradeHost + "/Histogram/1/" + courseId + "/" + examPeriod
  }

  /** Strings that end alike are equal when what comes before is. */
  lemma CancelSuffix(a: string, b: string, suffix: string)
    requires a + suffix == b + suffix
    ensures a == b
  {
    assert a == (a + suffix)[..|a|];
    assert b == (b + suffix)[..|b|];
  }

  /** Strings that start alike are equal when what comes after is. */
  lemma CancelPrefix(prefix: string, a: string, b: string)
    requires prefix + a == prefix + b
    ensures a == b
  {
    assert a == (prefix + a)[|prefix|..];
    assert b == (prefix + b)[|prefix|..];
  }

  /** Within one exam period, distinct courses have distinct histograms. */
  lemma HistogramUrlInjective(c1: string, c2: string, examPeriod: string)
    requires HistogramUrl(c1, examPeriod) == HistogramUrl(c2, examPeriod)
    ensures c1 == c2
  {
    var prefix := GradeHost + "/Histogram/1/";
    assert HistogramUrl(c1, examPeriod) == prefix + (c1 + "/" + examPeriod);
    assert HistogramUrl(c2, examPeriod) == prefix + (c2 + "/" + examPeriod);
    CancelPrefix(prefix, c1 + "/" + examPeriod, c2 + "/" + examPeriod);
    assert c1 + "/" + examPeriod == c1 + ("/" + examPeriod);
    assert c2 + "/" + examPeriod == c2 + ("/" + examPeriod);
    CancelSuffix(c1, c2, "/" + examPeriod);
  }

  /** `Urls.locate_grades`: the exam period is computed first, so a bad term name raises
      even for an empty course list; then one url per course, in list order. */
  method LocateGrades(courseList: seq<string>, courseTerm: string) returns (r: Result<seq<string>>)
    ensures r.Ok? <==> ConvertTermToExamPeriod(courseTerm).Ok?
    ensures r.Raise? ==> r.error == ConvertTermToExamPeriod(courseTerm).error
    ensures r.Ok? ==> |r.value| == |courseList|
    ensures r.Ok? ==> forall i :: 0 <= i < |courseList| ==>
      r.value[i] == HistogramUrl(courseList[i], ConvertTermToExamPeriod(courseTerm).value)
  {
    var period := ConvertTermToExamPeriod(courseTerm);
    if period.Raise? {
      return Raise(period.error);
    }
    var examPeriod := period.value;
    var urls: seq<string> := [];
    var i := 0;
    while i < |courseList|
      invariant 0 <= i <= |courseList|
      invariant |urls| == i && forall j :: 0 <= j < i ==> urls[j] == HistogramUrl(courseList[j], examPeriod)
    {
      urls := urls + [GradeHost + "/Histogram/1/" + courseList[i] + "/" + examPeriod];
      i := i + 1;
    }
    return Ok(urls);
  }
}
