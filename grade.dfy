/** A grade on DTU's grade sheets: its name, an optional numeric weight on the
    seven-step scale, whether it counts as attending and as passing the exam, and the
    mutable number of students who received it. */
module Grading {

  import opened Wrappers

  /** The fixed attributes of a grade. */
  datatype GradeInfo = GradeInfo(name: string, weight: Option<int>, attended: bool, passed: bool) {
    /** A grade is numeric exactly when it carries a weight. */
    predicate IsNumeric() {
      weight.Some?
    }
  }

  /** The attributes `create_passed` gives. */
  function PassedInfo(name: string, weight: Option<int>): (g: GradeInfo)
    ensures g.name == name && g.weight == weight && g.attended && g.passed
  {
    GradeInfo(name, weight, true, true)
  }

  /** The attributes `create_attended_but_failed` (`create_failed` in the other copy) gives. */
  function FailedInfo(name: string, weight: Option<int>): (g: GradeInfo)
    ensures g.name == name && g.weight == weight && g.attended && !g.passed
  {
    GradeInfo(name, weight, true, false)
  }

  /** The attributes `create_absent` (`create_not_attended`) gives. */
  function AbsentInfo(name: string): (g: GradeInfo)
    ensures g.name == name && g.weight == None && !g.attended && !g.passed && !g.IsNumeric()
  {
    GradeInfo(name, None, false, false)
  }

  /** What the factories guarantee: passing implies attending. */
  predicate FromFactory(g: GradeInfo) {
    g.passed ==> g.attended
  }

  lemma FactoriesAreConsistent(name: string, weight: Option<int>)
    ensures FromFactory(PassedInfo(name, weight))
    ensures FromFactory(FailedInfo(name, weight))
    ensures FromFactory(AbsentInfo(name))
  {
  }

  /** The twelve grades DTU uses, in sheet order. */
  function DtuCatalogue(): seq<GradeInfo> {
    [ PassedInfo("12", Some(12)), PassedInfo("10", Some(10)), PassedInfo("7", Some(7)),
      PassedInfo("4", Some(4)), PassedInfo("02", Some(2)),
      FailedInfo("00", Some(0)), FailedInfo("minus_3", Some(-3)),
      PassedInfo("pass", None), FailedInfo("fail", None),
      AbsentInfo("absent"), AbsentInfo("ill"), AbsentInfo("not_approved") ]
  }

  /** The weights of the seven-step scale, highest first. */
  const SevenStepScale: seq<int> := [12, 10, 7, 4, 2, 0, -3]

  /** Twelve grades: the seven-step scale first, then five grades without weight, every
      passing grade attended and no name used twice. */
  lemma DtuCatalogueSpec()
    ensures |DtuCatalogue()| == 12
    ensures forall i :: 0 <= i < 7 ==> DtuCatalogue()[i].weight == Some(SevenStepScale[i])
    ensures forall i :: 7 <= i < 12 ==> !DtuCatalogue()[i].IsNumeric()
    ensures forall i :: 0 <= i < 12 ==> FromFactory(DtuCatalogue()[i])
    ensures forall i, j :: 0 <= i < j < 12 ==> DtuCatalogue()[i].name != DtuCatalogue()[j].name
  {
  }

  /** `Grade`: the attributes are fixed at construction, only the quantity changes. */
  class Grade {
    const name: string
    const weight: Option<int>
    const attended: bool
    const passed: bool
    /** `_numeric`, set from whether a weight was given. */
    const numeric: bool
    var quantity: int

    constructor(name: string, weight: Option<int>, attended: bool, passed: bool)
      ensures Info() == GradeInfo(name, weight, attended, passed)
      ensures numeric <==> weight.Some?
      ensures quantity == 0
    {
      this.name := name;
      this.weight := weight;
      this.attended := attended;
      this.passed := passed;
      this.numeric := weight.Some?;
      quantity := 0;
    }

    /** The attributes of this grade as a value. */
    function Info(): GradeInfo {
      GradeInfo(name, weight, attended, passed)
    }

    static method CreatePassed(name: string, weight: Option<int>) returns (g: Grade)
      ensures fresh(g) && g.Info() == PassedInfo(name, weight) && g.Consistent() && g.quantity == 0
    {
      g := new Grade(name, weight, true, true);
    }

    static method CreateAttendedButFailed(name: string, weight: Option<int>) returns (g: Grade)
      ensures fresh(g) && g.Info() == FailedInfo(name, weight) && g.Consistent() && g.quantity == 0
    {
      g := new Grade(name, weight, true, false);
    }

    static method CreateAbsent(name: string) returns (g: Grade)
      ensures fresh(g) && g.Info() == AbsentInfo(name) && g.Consistent() && g.quantity == 0
    {
      g := new Grade(name, None, false, false);
    }

    /** The numeric flag agrees with the weight. */
    predicate Consistent() {
      numeric <==> weight.Some?
    }

    method SetQuantity(quantity: int)
      modifies this
      ensures this.quantity == quantity
    {
      this.quantity := quantity;
    }

    function GetQuantity(): int
      reads this
    {
      quantity
    }

    predicate PassesExam() {
      passed
    }

    predicate AttendedExam() {
      attended
    }

    predicate IsNumeric() {
      numeric
    }

    function GetName(): string {
      name
    }

    /** `get_weight`: the weight of a numeric grade, None for the others. */
    function GetWeight(): (w: Option<int>)
      requires Consistent()
      ensures IsNumeric() ==> w == weight
      ensures !IsNumeric() ==> w == None
      ensures w.Some? <==> Info().IsNumeric()
    {
      if numeric then weight else None
    }

    /** Setting the quantity is read back by `get_quantity` and changes nothing else. */
    static method SetThenGet(g: Grade, q: int) returns (read: int)
      modifies g
      ensures read == q && g.quantity == q
    {
      g.SetQuantity(q);
      read := g.GetQuantity();
    }

    /** `instantiate_dtu_grades` (the copies in both grade classes and in both grade sheets):
        twelve new grades, in catalogue order. */
    static method InstantiateDtuGrades() returns (grades: seq<Grade>)
      ensures |grades| == |DtuCatalogue()|
      ensures forall i :: 0 <= i < |grades| ==>
        fresh(grades[i]) && grades[i].Info() == DtuCatalogue()[i] && grades[i].Consistent() && grades[i].quantity == 0
    ensures forall i, j :: 0 <= i < j < |grades| ==> grades[i] != grades[j]
    {
      var g12 := CreatePassed("12", Some(12));
      var g10 := CreatePassed("10", Some(10));
      var g7 := CreatePassed("7", Some(7));
      var g4 := CreatePassed("4", Some(4));
      var g02 := CreatePassed("02", Some(2));
      var g00 := CreateAttendedButFailed("00", Some(0));
      var gMinus3 := CreateAttendedButFailed("minus_3", Some(-3));
      var gPass := CreatePassed("pass", None);
      var gFail := CreateAttendedButFailed("fail", None);
      var gAbsent := CreateAbsent("absent");
      var gIll := CreateAbsent("ill");
      var gNotApproved := CreateAbsent("not_approved");
      grades := [g12, g10, g7, g4, g02, g00, gMinus3, gPass, gFail, gAbsent, gIll, gNotApproved];
    }
  }
}
