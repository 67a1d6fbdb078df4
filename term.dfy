/** DTU's semesters: a calendar year with 'E' (Efteraar, autumn) or 'F' (Foraar, spring),
    and the three names derived from it: the short term name ("E18"), the exam period
    ("Winter-2018") and the academic year ("2018-2019"). */
module Terms {

  import opened Wrappers
  import opened Text

  datatype Semester = Autumn | Spring

  /** The one-letter code DTU uses for a semester. */
  function Code(s: Semester): string {
    match s
    case Autumn => "E"
    case Spring => "F"
  }

  datatype Term = Term(year: int, semester: Semester)

  /** Years before 2000 would break the short names, 2060 would collide with 1960. */
  const LowerBound: int := 2000
  const UpperBound: int := 2059

  /** The terms the constructor accepts. */
  predicate Valid(t: Term) {
    LowerBound <= t.year <= UpperBound
  }

  /** `Term(calender_year, dtu_semester)`: the year is checked first, then the semester,
      and either check raises ValueError. */
  function New(year: int, semester: string): (r: Result<Term>)
    ensures r.Ok? <==> LowerBound <= year <= UpperBound && (semester == "E" || semester == "F")
    ensures r.Ok? ==> Valid(r.value) && r.value.year == year && Code(r.value.semester) == semester
    ensures r.Raise? ==> r.error == ValueError
  {
    if year < LowerBound || year > UpperBound then Raise(ValueError)
    else if semester != "E" && semester != "F" then Raise(ValueError)
    else Ok(Term(year, if semester == "E" then Autumn else Spring))
  }

  /** Every valid term is the one constructed from its year and code. */
  lemma NewOfValid(t: Term)
    requires Valid(t)
    ensures New(t.year, Code(t.semester)) == Ok(t)
  {
  }

  /** `Term.in_autumn(y)`. */
  function InAutumn(year: int): (r: Result<Term>)
    ensures r.Ok? <==> LowerBound <= year <= UpperBound
    ensures r.Ok? ==> r.value == Term(year, Autumn)
  {
    New(year, "E")
  }

  /** `Term.in_spring(y)`. */
  function InSpring(year: int): (r: Result<Term>)
    ensures r.Ok? <==> LowerBound <= year <= UpperBound
    ensures r.Ok? ==> r.value == Term(year, Spring)
  {
    New(year, "F")
  }

  // ---------------------------------------------------------------------------
  // Short term name

  /** `get_term_name`: the code followed by the unpadded year - 2000, raising ValueError
      for years up to 2000. */
  function TermName(t: Term): Result<string> {
    if t.year > LowerBound then Ok(Code(t.semester) + IntToString(t.year - LowerBound))
    else Raise(ValueError)
  }

  /** The inverse of the short name: a code letter followed by decimal digits. */
  function ParseTermName(s: string): Option<Term> {
    if |s| >= 2 && (s[0] == 'E' || s[0] == 'F') && AllDigits(s[1..]) then
      Some(Term(LowerBound + ParseNat(s[1..]), if s[0] == 'E' then Autumn else Spring))
    else None
  }

  lemma {:induction false} TermNameRoundTrip(t: Term)
    requires t.year > LowerBound
    ensures TermName(t).Ok? && ParseTermName(TermName(t).value) == Some(t)
  {
    var s := TermName(t).value;
    var k: nat := t.year - LowerBound;
    assert s[1..] == NatToString(k);
    ParseNatToString(k);
  }

  /** Distinct terms after 2000 have distinct short names. */
  lemma TermNameInjective(t1: Term, t2: Term)
    requires t1.year > LowerBound && t2.year > LowerBound
    requires TermName(t1) == TermName(t2)
    ensures t1 == t2
  {
    TermNameRoundTrip(t1);
    TermNameRoundTrip(t2);
  }

  lemma TermNameExamples()
    ensures TermName(Term(2018, Autumn)) == Ok("E18")
    ensures TermName(Term(2005, Autumn)) == Ok("E5")
    ensures TermName(Term(2023, Spring)) == Ok("F23")
  {
    assert IntToString(18) == "18" by {
      assert NatToString(1) == "1" && NatToString(18) == NatToString(1) + [DigitChar(8)];
    }
    assert IntToString(5) == "5" by {
      assert NatToString(5) == [DigitChar(5)];
    }
    assert IntToString(23) == "23" by {
      assert NatToString(2) == "2" && NatToString(23) == NatToString(2) + [DigitChar(3)];
    }
    assert "E" + "18" == "E18" && "E" + "5" == "E5" && "F" + "23" == "F23";
  }

  /** The constructor accepts 2000, whose short name raises. */
  lemma YearTwoThousandHasNoName()
    ensures New(2000, "E") == Ok(Term(2000, Autumn))
    ensures TermName(Term(2000, Autumn)) == Raise(ValueError)
  {
  }

  // ---------------------------------------------------------------------------
  // Exam period

  /** `get_exam_period`: "Winter-{year}" for autumn, "Summer-{year}" for spring. */
  function ExamPeriod(t: Term): string {
    (match t.semester case Autumn => "Winter-" case Spring => "Summer-") + IntToString(t.year)
  }

  lemma ExamPeriodInjective(t1: Term, t2: Term)
    requires ExamPeriod(t1) == ExamPeriod(t2)
    ensures t1 == t2
  {
    var p := ExamPeriod(t1);
    assert p[0] == (if t1.semester == Autumn then 'W' else 'S');
    assert p[0] == (if t2.semester == Autumn then 'W' else 'S');
    assert IntToString(t1.year) == p[7..] == IntToString(t2.year);
    IntToStringInjective(t1.year, t2.year);
  }

  // ---------------------------------------------------------------------------
  // Academic year

  /** `get_academic_year`: "{y}-{y+1}" for autumn, "{y-1}-{y}" for spring. */
  function AcademicYear(t: Term): string {
    match t.semester
    case Autumn => IntToString(t.year) + "-" + IntToString(1 + t.year)
    case Spring => IntToString(t.year - 1) + "-" + IntToString(t.year)
  }

  /** The calendar year the academic year starts in. */
  function StartYear(t: Term): int {
    match t.semester
    case Autumn => t.year
    case Spring => t.year - 1
  }

  /** Autumn y and spring y + 1 belong to the same academic year. */
  lemma AutumnAndNextSpringShareYear(y: int)
    ensures AcademicYear(Term(y, Autumn)) == AcademicYear(Term(y + 1, Spring))
  {
  }

  /** For valid terms the academic year names exactly the start year. */
  lemma AcademicYearIdentifiesStart(t1: Term, t2: Term)
    requires Valid(t1) && Valid(t2)
    ensures AcademicYear(t1) == AcademicYear(t2) <==> StartYear(t1) == StartYear(t2)
  {
    AcademicYearSpan(t1);
    AcademicYearSpan(t2);
    if AcademicYear(t1) == AcademicYear(t2) {
      SpanInjective(StartYear(t1), StartYear(t2));
    }
  }

  /** Both semesters name their academic year by its start year. */
  lemma AcademicYearSpan(t: Term)
    ensures AcademicYear(t) == IntToString(StartYear(t)) + "-" + IntToString(StartYear(t) + 1)
  {
  }

  /** "s-(s+1)" determines s. */
  lemma SpanInjective(s1: nat, s2: nat)
    requires IntToString(s1) + "-" + IntToString(s1 + 1) == IntToString(s2) + "-" + IntToString(s2 + 1)
    ensures s1 == s2
  {
    var x1, x2 := NatToString(s1), NatToString(s2);
    SplitAtSeparator(x1, NatToString(s1 + 1), x2, NatToString(s2 + 1), '-');
    NatToStringInjective(s1, s2);
  }

  /** `convert_term_names_to_academic_years`: the set of academic years of a set of terms. */
  method ConvertTermNamesToAcademicYears(terms: set<Term>) returns (academicYears: set<string>)
    ensures academicYears == set t | t in terms :: AcademicYear(t)
    ensures |academicYears| <= |terms|
  {
    academicYears := {};
    var rest := terms;
    while rest != {}
      invariant rest <= terms
      invariant academicYears == set t | t in terms - rest :: AcademicYear(t)
      invariant |academicYears| <= |terms - rest|
      decreases |rest|
    {
      var t :| t in rest;
      assert terms - (rest - {t}) == (terms - rest) + {t};
      academicYears := academicYears + {AcademicYear(t)};
      rest := rest - {t};
    }
    assert terms - rest == terms;
  }
}
