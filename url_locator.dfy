/** `UrlLocator`: where the course archive, the evaluations, the grades and the
    information page of a DTU course are found for a term. */
module UrlLocator {

  import opened Dicts
  import opened Terms
  import opened Urls

  const EvaluationHost := "https://evaluering.dtu.dk"

  /** `locate_course_archive`: the 29 letter pages of the term's academic year. */
  method LocateCourseArchive(t: Term) returns (urls: seq<string>)
    ensures urls == ArchiveUrls(AcademicYear(t))
  {
    urls := LocateNames(AcademicYear(t));
  }

  /** A term and the next spring share their archive. */
  lemma ArchiveSharedAcrossAcademicYear(y: int)
    ensures ArchiveUrls(AcademicYear(Term(y, Autumn))) == ArchiveUrls(AcademicYear(Term(y + 1, Spring)))
  {
    AutumnAndNextSpringShareYear(y);
  }

  /** Valid terms have the same archive exactly when their academic years start together. */
  lemma ArchiveIdentifiesAcademicYear(t1: Term, t2: Term)
    requires Valid(t1) && Valid(t2)
    ensures ArchiveUrls(AcademicYear(t1)) == ArchiveUrls(AcademicYear(t2)) <==> StartYear(t1) == StartYear(t2)
  {
    AcademicYearIdentifiesStart(t1, t2);
    var a1, a2 := AcademicYear(t1), AcademicYear(t2);
    if ArchiveUrls(a1) == ArchiveUrls(a2) {
      ArchiveUrlsDetermine(a1, a2);
    }
  }

  /** The archive pages tell the academic year. */
  lemma ArchiveUrlsDetermine(a1: string, a2: string)
    requires ArchiveUrls(a1) == ArchiveUrls(a2)
    ensures a1 == a2
  {
    var urls1, urls2 := ArchiveUrls(a1), ArchiveUrls(a2);
    assert |urls1| > 0;
    assert urls1[0] == ArchiveUrl(a1, Alphabet[0]);
    assert urls2[0] == ArchiveUrl(a2, Alphabet[0]);
    ArchiveUrlDetermines(a1, a2, Alphabet[0]);
  }

  /** One letter's url tells the academic year. */
  lemma ArchiveUrlDetermines(a1: string, a2: string, letter: char)
    requires ArchiveUrl(a1, letter) == ArchiveUrl(a2, letter)
    ensures a1 == a2
  {
    var prefix := CourseHost + "/archive/";
    var suffix := "/letter/" + [letter];
    assert ArchiveUrl(a1, letter) == prefix + (a1 + suffix);
    assert ArchiveUrl(a2, letter) == prefix + (a2 + suffix);
    CancelPrefix(prefix, a1 + suffix, a2 + suffix);
    CancelSuffix(a1, a2, suffix);
  }

  /** The evaluation page of a course for one set of href digits. */
  function EvaluationUrl(courseId: string, hrefDigits: string): string {
    EvaluationHost + "/kursus/" + courseId + "/" + hrefDigits
  }

  /** `locate_evaluations` from the semester -> href digits dict the search page yields: the
      same semesters in the same order, each mapped to its evaluation url. */
  method LocateEvaluations(courseId: string, hrefDigits: Dict<string, string>) returns (urls: Dict<string, string>)
    requires WellFormed(hrefDigits)
    ensures WellFormed(urls) && urls.keys == hrefDigits.keys
    ensures forall k :: k in urls.values ==> k in hrefDigits.values && urls.values[k] == EvaluationUrl(courseId, hrefDigits.values[k])
  {
    urls := Empty();
    var i := 0;
    while i < |hrefDigits.keys|
      invariant 0 <= i <= |hrefDigits.keys|
      invariant WellFormed(urls) && urls.keys == hrefDigits.keys[..i]
      invariant forall k :: k in urls.values ==> k in hrefDigits.values && urls.values[k] == EvaluationUrl(courseId, hrefDigits.values[k])
    {
      var semester := hrefDigits.keys[i];
      NotBefore(hrefDigits.keys, i);
      PutSpec(urls, semester, EvaluationUrl(courseId, hrefDigits.values[semester]));
      urls := Put(urls, semester, EvaluationHost + "/kursus/" + courseId + "/" + hrefDigits.values[semester]);
      assert hrefDigits.keys[..i + 1] == hrefDigits.keys[..i] + [semester];
      i := i + 1;
    }
    assert hrefDigits.keys[..i] == hrefDigits.keys;
  }

  /** `locate_grades`: the histogram of the course in the term's exam period. */
  function LocateGrades(courseId: string, t: Term): string {
    HistogramUrl(courseId, ExamPeriod(t))
  }

  /** One course has a distinct grade url for every term. */
  lemma LocateGradesInjective(courseId: string, t1: Term, t2: Term)
    requires LocateGrades(courseId, t1) == LocateGrades(courseId, t2)
    ensures t1 == t2
  {
    var prefix := GradeHost + "/Histogram/1/" + courseId + "/";
    assert LocateGrades(courseId, t1) == prefix + ExamPeriod(t1);
    assert LocateGrades(courseId, t2) == prefix + ExamPeriod(t2);
    CancelPrefix(prefix, ExamPeriod(t1), ExamPeriod(t2));
    ExamPeriodInjective(t1, t2);
  }

  /** `locate_information`: the course's page in the term's academic year. */
  function LocateInformation(courseId: string, t: Term): string {
    CourseHost + "/course/" + AcademicYear(t) + "/" + courseId
  }

  /** For valid terms one course has one information page per academic year, shared by
      autumn y and spring y + 1. */
  lemma LocateInformationByAcademicYear(courseId: string, t1: Term, t2: Term)
    requires Valid(t1) && Valid(t2)
    ensures LocateInformation(courseId, t1) == LocateInformation(courseId, t2) <==> StartYear(t1) == StartYear(t2)
  {
    AcademicYearIdentifiesStart(t1, t2);
    if LocateInformation(courseId, t1) == LocateInformation(courseId, t2) {
      InformationUrlDetermines(courseId, AcademicYear(t1), AcademicYear(t2));
    }
  }

  /** The information url tells the academic year. */
  lemma InformationUrlDetermines(courseId: string, a1: string, a2: string)
    requires CourseHost + "/course/" + a1 + "/" + courseId == CourseHost + "/course/" + a2 + "/" + courseId
    ensures a1 == a2
  {
    var prefix := CourseHost + "/course/";
    var suffix := "/" + courseId;
    assert prefix + a1 + "/" + courseId == prefix + (a1 + suffix);
    assert prefix + a2 + "/" + courseId == prefix + (a2 + suffix);
    CancelPrefix(prefix, a1 + suffix, a2 + suffix);
    CancelSuffix(a1, a2, suffix);
  }

  lemma InformationSharedAcrossAcademicYear(courseId: string, y: int)
    ensures LocateInformation(courseId, Term(y, Autumn)) == LocateInformation(courseId, Term(y + 1, Spring))
  {
    AutumnAndNextSpringShareYear(y);
  }
}
