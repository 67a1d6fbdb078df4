/** The entities the school builder of the second prototype fills in: a school with its
    teachers and years, a year with its study lines and courses, a course with its terms
    and information page, and a course term with its evaluation and grade sheet. Each
    holds its parts in dicts keyed by name; a lookup of a missing name raises KeyError.
    The constructors build the empty entities the classes mean; as written none of the four
    classes overrides the abstract `initialize_data_strategy`, so instantiating any of them
    raises TypeError. */
module Containers {

  import opened Wrappers

  /** `d[name]` on a dict of parts. */
  function Lookup<V>(d: map<string, V>, name: string): (r: Result<V>)
    ensures r.Ok? <==> name in d
    ensures r.Ok? ==> r.value == d[name]
    ensures r.Raise? ==> r.error == KeyError
  {
    if name in d then Ok(d[name]) else Raise(KeyError)
  }

  /** After `d[name] = v`, looking up that name gives v and every other name gives what
      it gave before. */
  lemma LookupAfterStore<V>(d: map<string, V>, name: string, v: V, other: string)
    ensures Lookup(d[name := v], name) == Ok(v)
    ensures other != name ==> Lookup(d[name := v], other) == Lookup(d, other)
  {
  }

  /** `School`. Its `set_course` and `get_course` use the years dict: a course stored under a
      name replaces the year of that name. */
  class School {
    var name: string
    var teachers: map<string, object>
    var years: map<string, object>

    constructor()
      ensures teachers == map[] && years == map[] && name == ""
    {
      name := "";
      teachers := map[];
      years := map[];
    }

    method SetName(name: string)
      modifies this
      ensures this.name == name && teachers == old(teachers) && years == old(years)
    {
      this.name := name;
    }

    method SetTeacher(name: string, teacher: object)
      modifies this
      ensures teachers == old(teachers)[name := teacher]
      ensures years == old(years) && this.name == old(this.name)
    {
      teachers := teachers[name := teacher];
    }

    function GetYear(name: string): Result<object>
      reads this
    {
      Lookup(years, name)
    }

    method SetYear(name: string, year: object)
      modifies this
      ensures years == old(years)[name := year]
      ensures teachers == old(teachers) && this.name == old(this.name)
    {
      years := years[name := year];
    }

    /** `get_all_courses`: the years dict. */
    function GetAllCourses(): map<string, object>
      reads this
    {
      years
    }

    function GetCourse(name: string): Result<object>
      reads this
    {
      Lookup(years, name)
    }

    method SetCourse(name: string, course: object)
      modifies this
      ensures years == old(years)[name := course]
      ensures teachers == old(teachers) && this.name == old(this.name)
    {
      years := years[name := course];
    }
  }

  /** Storing a course under a year's name makes that name look up the course, also as a year. */
  method CourseShadowsYear(s: School, name: string, year: object, course: object) returns (got: Result<object>)
    modifies s
    ensures got == Ok(course)
    ensures s.GetYear(name) == s.GetCourse(name)
  {
    s.SetYear(name, year);
    s.SetCourse(name, course);
    got := s.GetYear(name);
  }

  /** `Year`. */
  class Year {
    var name: string
    var studyLines: map<string, object>
    var courses: map<string, object>

    constructor()
      ensures name == "" && studyLines == map[] && courses == map[]
    {
      name := "";
      studyLines := map[];
      courses := map[];
    }

    /** `get_school`: the year's name. */
    function GetSchool(): string
      reads this
    {
      name
    }

    method SetName(name: string)
      modifies this
      ensures this.name == name && studyLines == old(studyLines) && courses == old(courses)
    {
      this.name := name;
    }

    function GetStudyLine(name: string): Result<object>
      reads this
    {
      Lookup(studyLines, name)
    }

    method SetStudyLine(name: string, studyLine: object)
      modifies this
      ensures studyLines == old(studyLines)[name := studyLine]
      ensures courses == old(courses) && this.name == old(this.name)
    {
      studyLines := studyLines[name := studyLine];
    }

    function GetCourse(name: string): Result<object>
      reads this
    {
      Lookup(courses, name)
    }

    method SetCourse(name: string, course: object)
      modifies this
      ensures courses == old(courses)[name := course]
      ensures studyLines == old(studyLines) && this.name == old(this.name)
    {
      courses := courses[name := course];
    }
  }

  /** `Course`. The information page starts as an empty dict, here `None`. */
  class Course {
    var name: string
    var infoPage: Option<object>
    var courseTerms: map<string, object>

    constructor()
      ensures name == "" && infoPage == None && courseTerms == map[]
    {
      name := "";
      infoPage := None;
      courseTerms := map[];
    }

    method SetName(name: string)
      modifies this
      ensures this.name == name && infoPage == old(infoPage) && courseTerms == old(courseTerms)
    {
      this.name := name;
    }

    function GetTerm(name: string): Result<object>
      reads this
    {
      Lookup(courseTerms, name)
    }

    method SetTerm(name: string, courseTerm: object)
      modifies this
      ensures courseTerms == old(courseTerms)[name := courseTerm]
      ensures infoPage == old(infoPage) && this.name == old(this.name)
    {
      courseTerms := courseTerms[name := courseTerm];
    }

    method SetInfoPage(infoPage: object)
      modifies this
      ensures this.infoPage == Some(infoPage)
      ensures courseTerms == old(courseTerms) && name == old(name)
    {
      this.infoPage := Some(infoPage);
    }
  }

  /** `CourseTerm`: evaluation and grade sheet start out as None. */
  class CourseTerm {
    var name: string
    var evaluation: Option<object>
    var gradeSheet: Option<object>

    constructor()
      ensures name == "" && evaluation == None && gradeSheet == None
    {
      name := "";
      evaluation := None;
      gradeSheet := None;
    }

    method SetName(name: string)
      modifies this
      ensures this.name == name && evaluation == old(evaluation) && gradeSheet == old(gradeSheet)
    {
      this.name := name;
    }

    method SetGradeSheet(gradeSheet: object)
      modifies this
      ensures this.gradeSheet == Some(gradeSheet)
      ensures evaluation == old(evaluation) && name == old(name)
    {
      this.gradeSheet := Some(gradeSheet);
    }

    method SetEvaluation(evaluation: object)
      modifies this
      ensures this.evaluation == Some(evaluation)
      ensures gradeSheet == old(gradeSheet) && name == old(name)
    {
      this.evaluation := Some(evaluation);
    }
  }

  /** Setting a course in a year and reading it back gives the course, and a course stored
      under another name is still there. */
  method SetThenGetCourse(y: Year, name: string, course: object, other: string) returns (got: Result<object>)
    modifies y
    ensures got == Ok(course)
    ensures other != name ==> y.GetCourse(other) == old(y.GetCourse(other))
  {
    y.SetCourse(name, course);
    LookupAfterStore(old(y.courses), name, course, other);
    got := y.GetCourse(name);
  }

  /** Setting a term in a course and reading it back gives the term; other terms are kept. */
  method SetThenGetTerm(c: Course, name: string, courseTerm: object, other: string) returns (got: Result<object>)
    modifies c
    ensures got == Ok(courseTerm)
    ensures other != name ==> c.GetTerm(other) == old(c.GetTerm(other))
  {
    c.SetTerm(name, courseTerm);
    LookupAfterStore(old(c.courseTerms), name, courseTerm, other);
    got := c.GetTerm(name);
  }
}
