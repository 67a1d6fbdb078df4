/** The second grade sheet (`sandbox/grades.py`): one field per DTU grade and counts of
    the students who passed, failed, were absent, or received a numeric or a pass/fail grade. */
module GradeCounts {

  import opened Wrappers
  import opened Grading
  import opened Dicts
  import GradeSheets

  /** How an exam ended for the holder of a grade. */
  datatype Outcome = PassedExam | FailedExam | Absent

  function OutcomeOf(g: GradeInfo): Outcome {
    if !g.attended then Absent else if g.passed then PassedExam else FailedExam
  }

  /** Which scale a grade is on; grades not attended form their own kind. */
  datatype Kind = Numeric | Binary | NotAttended

  function KindOf(g: GradeInfo): Kind {
    if !g.attended then NotAttended else if g.IsNumeric() then Numeric else Binary
  }

  /** The number of students whose grade satisfies p. */
  function CountWhere(infos: seq<GradeInfo>, qs: seq<int>, p: GradeInfo -> bool): int
    requires |infos| == |qs|
  {
    if |qs| == 0 then 0
    else
      var n := |qs| - 1;
      CountWhere(infos[..n], qs[..n], p) + (if p(infos[n]) then qs[n] else 0)
  }

  function HasOutcome(o: Outcome): GradeInfo -> bool {
    g => OutcomeOf(g) == o
  }

  function HasKind(k: Kind): GradeInfo -> bool {
    g => KindOf(g) == k
  }

  /** Every student either passed, failed or was absent. */
  lemma {:induction false} OutcomesPartition(infos: seq<GradeInfo>, qs: seq<int>)
    requires |infos| == |qs|
    ensures CountWhere(infos, qs, HasOutcome(PassedExam)) + CountWhere(infos, qs, HasOutcome(FailedExam))
      + CountWhere(infos, qs, HasOutcome(Absent)) == GradeSheets.Total(qs)
    decreases |qs|
  {
    if |qs| > 0 {
      OutcomesPartition(infos[..|qs| - 1], qs[..|qs| - 1]);
    }
  }

  /** Every student holds a numeric grade, a pass/fail grade, or did not attend. */
  lemma {:induction false} KindsPartition(infos: seq<GradeInfo>, qs: seq<int>)
    requires |infos| == |qs|
    ensures CountWhere(infos, qs, HasKind(Numeric)) + CountWhere(infos, qs, HasKind(Binary))
      + CountWhere(infos, qs, HasKind(NotAttended)) == GradeSheets.Total(qs)
    decreases |qs|
  {
    if |qs| > 0 {
      KindsPartition(infos[..|qs| - 1], qs[..|qs| - 1]);
    }
  }

  /** Being absent and not attending select the same students. */
  lemma {:induction false} AbsentIsNotAttended(infos: seq<GradeInfo>, qs: seq<int>)
    requires |infos| == |qs|
    ensures CountWhere(infos, qs, HasOutcome(Absent)) == CountWhere(infos, qs, HasKind(NotAttended))
    decreases |qs|
  {
    if |qs| > 0 {
      AbsentIsNotAttended(infos[..|qs| - 1], qs[..|qs| - 1]);
    }
  }

  /** The term one grade contributes to a count. */
  function Term(infos: seq<GradeInfo>, qs: seq<int>, p: GradeInfo -> bool, i: nat): int
    requires |infos| == |qs| && i < |qs|
  {
    if p(infos[i]) then qs[i] else 0
  }

  lemma CountStep(infos: seq<GradeInfo>, qs: seq<int>, p: GradeInfo -> bool, k: nat)
    requires |infos| == |qs| && k < |qs|
    ensures CountWhere(infos[..k + 1], qs[..k + 1], p) == CountWhere(infos[..k], qs[..k], p) + Term(infos, qs, p, k)
  {
    assert infos[..k + 1][..k] == infos[..k];
    assert qs[..k + 1][..k] == qs[..k];
  }

  /** A count over twelve grades written out term by term. */
  lemma UnfoldCount(infos: seq<GradeInfo>, qs: seq<int>, p: GradeInfo -> bool)
    requires |infos| == |qs| == 12
    ensures CountWhere(infos, qs, p) ==
      Term(infos, qs, p, 0) + Term(infos, qs, p, 1) + Term(infos, qs, p, 2) + Term(infos, qs, p, 3)
      + Term(infos, qs, p, 4) + Term(infos, qs, p, 5) + Term(infos, qs, p, 6) + Term(infos, qs, p, 7)
      + Term(infos, qs, p, 8) + Term(infos, qs, p, 9) + Term(infos, qs, p, 10) + Term(infos, qs, p, 11)
  {
    UnfoldFirstSix(infos, qs, p);
    CountStep(infos, qs, p, 6);
    CountStep(infos, qs, p, 7);
    CountStep(infos, qs, p, 8);
    CountStep(infos, qs, p, 9);
    CountStep(infos, qs, p, 10);
    CountStep(infos, qs, p, 11);
    assert infos[..12] == infos && qs[..12] == qs;
  }

  lemma UnfoldFirstSix(infos: seq<GradeInfo>, qs: seq<int>, p: GradeInfo -> bool)
    requires |infos| == |qs| == 12
    ensures CountWhere(infos[..6], qs[..6], p) ==
      Term(infos, qs, p, 0) + Term(infos, qs, p, 1) + Term(infos, qs, p, 2) + Term(infos, qs, p, 3)
      + Term(infos, qs, p, 4) + Term(infos, qs, p, 5)
  {
    CountStep(infos, qs, p, 0);
    CountStep(infos, qs, p, 1);
    CountStep(infos, qs, p, 2);
    CountStep(infos, qs, p, 3);
    CountStep(infos, qs, p, 4);
    CountStep(infos, qs, p, 5);
    assert infos[..0] == [] && qs[..0] == [];
  }

  /** The attributes of the twelve grade fields: the catalogue, except that the last absence
      grade is called 'unqualified' rather than 'not_approved'. */
  function FieldCatalogue(): seq<GradeInfo> {
    DtuCatalogue()[..11] + [AbsentInfo("unqualified")]
  }

  /** `GradeSheet` of `grades.py`. */
  class GradeSheet {
    const course: string
    const term: string
    const grades: seq<Grade>
    const g12: Grade
    const g10: Grade
    const g7: Grade
    const g4: Grade
    const g02: Grade
    const g00: Grade
    const gMinus3: Grade
    const gPass: Grade
    const gFail: Grade
    const gAbsent: Grade
    const gIll: Grade
    const gUnqualified: Grade
    var gradeTypes: Dict<string, string>

    /** The grade fields in declaration order. */
    function Fields(): seq<Grade> {
      [g12, g10, g7, g4, g02, g00, gMinus3, gPass, gFail, gAbsent, gIll, gUnqualified]
    }

    function FieldInfos(): seq<GradeInfo> {
      [ g12.Info(), g10.Info(), g7.Info(), g4.Info(), g02.Info(), g00.Info(), gMinus3.Info(),
        gPass.Info(), gFail.Info(), gAbsent.Info(), gIll.Info(), gUnqualified.Info() ]
    }

    function FieldQuantities(): seq<int>
      reads g12, g10, g7, g4, g02, g00, gMinus3, gPass, gFail, gAbsent, gIll, gUnqualified
    {
      [ g12.quantity, g10.quantity, g7.quantity, g4.quantity, g02.quantity, g00.quantity,
        gMinus3.quantity, gPass.quantity, gFail.quantity, gAbsent.quantity, gIll.quantity,
        gUnqualified.quantity ]
    }

    predicate Valid() {
      FieldInfos() == FieldCatalogue() && |grades| == 12
    }

    constructor(course: string, term: string)
      ensures Valid() && this.course == course && this.term == term
      ensures forall i :: 0 <= i < 12 ==> grades[i].Info() == DtuCatalogue()[i]
      ensures FieldQuantities() == seq(12, i => 0) && gradeTypes == Empty()
    {
      this.course := course;
      this.term := term;
      var gs := Grade.InstantiateDtuGrades();
      grades := gs;
      var g12' := Grade.CreatePassed("12", Some(12));
      var g10' := Grade.CreatePassed("10", Some(10));
      var g7' := Grade.CreatePassed("7", Some(7));
      var g4' := Grade.CreatePassed("4", Some(4));
      var g02' := Grade.CreatePassed("02", Some(2));
      var g00' := Grade.CreateAttendedButFailed("00", Some(0));
      var gMinus3' := Grade.CreateAttendedButFailed("minus_3", Some(-3));
      var gPass' := Grade.CreatePassed("pass", None);
      var gFail' := Grade.CreateAttendedButFailed("fail", None);
      var gAbsent' := Grade.CreateAbsent("absent");
      var gIll' := Grade.CreateAbsent("ill");
      var gUnqualified' := Grade.CreateAbsent("unqualified");
      g12, g10, g7, g4, g02, g00 := g12', g10', g7', g4', g02', g00';
      gMinus3, gPass, gFail, gAbsent, gIll, gUnqualified := gMinus3', gPass', gFail', gAbsent', gIll', gUnqualified';
      gradeTypes := Empty();
    }

    /** `count_passed`: 12, 10, 7, 4, 02 and pass. */
    function CountPassed(): int
      reads g12, g10, g7, g4, g02, gPass
    {
      g12.quantity + g10.quantity + g7.quantity + g4.quantity + g02.quantity + gPass.quantity
    }

    /** `count_failed`: 00, -3 and fail. */
    function CountFailed(): int
      reads g00, gMinus3, gFail
    {
      g00.quantity + gMinus3.quantity + gFail.quantity
    }

    /** `count_absent`: absent, unqualified and ill. */
    function CountAbsent(): int
      reads gAbsent, gUnqualified, gIll
    {
      gAbsent.quantity + gUnqualified.quantity + gIll.quantity
    }

    /** `count_numeric`: the seven-step scale. */
    function CountNumeric(): int
      reads g12, g10, g7, g4, g02, g00, gMinus3
    {
      g12.quantity + g10.quantity + g7.quantity + g4.quantity + g02.quantity + g00.quantity
        + gMinus3.quantity
    }

    /** `count_binary`: pass and fail. */
    function CountBinary(): int
      reads gPass, gFail
    {
      gPass.quantity + gFail.quantity
    }

    method ConvertNamesFromDtuWebsiteFormat()
      modifies this
      ensures gradeTypes == GradeSheets.WebsiteGradeNames()
    {
      gradeTypes := GradeSheets.WebsiteGradeNames();
    }
  }

  /** Each hand-written count adds up exactly the fields whose grade has that outcome. */
  lemma CountsFollowOutcomes(s: GradeSheet)
    requires s.Valid()
    ensures s.CountPassed() == CountWhere(s.FieldInfos(), s.FieldQuantities(), HasOutcome(PassedExam))
    ensures s.CountFailed() == CountWhere(s.FieldInfos(), s.FieldQuantities(), HasOutcome(FailedExam))
    ensures s.CountAbsent() == CountWhere(s.FieldInfos(), s.FieldQuantities(), HasOutcome(Absent))
  {
    UnfoldCount(s.FieldInfos(), s.FieldQuantities(), HasOutcome(PassedExam));
    UnfoldCount(s.FieldInfos(), s.FieldQuantities(), HasOutcome(FailedExam));
    UnfoldCount(s.FieldInfos(), s.FieldQuantities(), HasOutcome(Absent));
  }

  /** Each hand-written count adds up exactly the fields whose grade has that kind. */
  lemma CountsFollowKinds(s: GradeSheet)
    requires s.Valid()
    ensures s.CountNumeric() == CountWhere(s.FieldInfos(), s.FieldQuantities(), HasKind(Numeric))
    ensures s.CountBinary() == CountWhere(s.FieldInfos(), s.FieldQuantities(), HasKind(Binary))
    ensures s.CountAbsent() == CountWhere(s.FieldInfos(), s.FieldQuantities(), HasKind(NotAttended))
  {
    UnfoldCount(s.FieldInfos(), s.FieldQuantities(), HasKind(Numeric));
    UnfoldCount(s.FieldInfos(), s.FieldQuantities(), HasKind(Binary));
    UnfoldCount(s.FieldInfos(), s.FieldQuantities(), HasKind(NotAttended));
  }

  /** The passed, failed and absent counts together cover every grade field once, and so
      do the numeric, binary and absent counts. */
  lemma CountsPartitionSheet(s: GradeSheet)
    requires s.Valid()
    ensures s.CountPassed() + s.CountFailed() + s.CountAbsent() == GradeSheets.Total(s.FieldQuantities())
    ensures s.CountNumeric() + s.CountBinary() + s.CountAbsent() == GradeSheets.Total(s.FieldQuantities())
  {
    CountsFollowOutcomes(s);
    CountsFollowKinds(s);
    OutcomesPartition(s.FieldInfos(), s.FieldQuantities());
    KindsPartition(s.FieldInfos(), s.FieldQuantities());
  }
}
