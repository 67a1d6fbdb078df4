/** The grade sheet of one course in one exam period: the twelve DTU grades with the
    number of students who received each, the mean of the numeric grades and the total. */
module GradeSheets {

  import opened Wrappers
  import opened Grading
  import opened Dicts

  /** The number of students holding a numeric grade. */
  function NumericCount(infos: seq<GradeInfo>, qs: seq<int>): int
    requires |infos| == |qs|
  {
    if |qs| == 0 then 0
    else
      var n := |qs| - 1;
      NumericCount(infos[..n], qs[..n]) + (if infos[n].IsNumeric() then qs[n] else 0)
  }

  /** The sum of the numeric weights over all students holding a numeric grade. */
  function WeightedSum(infos: seq<GradeInfo>, qs: seq<int>): int
    requires |infos| == |qs|
  {
    if |qs| == 0 then 0
    else
      var n := |qs| - 1;
      WeightedSum(infos[..n], qs[..n]) + (if infos[n].IsNumeric() then qs[n] * infos[n].weight.value else 0)
  }

  /** The sum of all quantities. */
  function Total(qs: seq<int>): int {
    if |qs| == 0 then 0 else Total(qs[..|qs| - 1]) + qs[|qs| - 1]
  }

  /** The mean of the numeric grades, None when no student holds one. */
  function Average(infos: seq<GradeInfo>, qs: seq<int>): (r: Option<real>)
    requires |infos| == |qs|
    ensures r.None? <==> NumericCount(infos, qs) == 0
    ensures r.Some? ==> r.value * NumericCount(infos, qs) as real == WeightedSum(infos, qs) as real
  {
    if NumericCount(infos, qs) == 0 then None
    else Some(WeightedSum(infos, qs) as real / NumericCount(infos, qs) as real)
  }

  /** Every numeric weight lies on the seven-step scale's range. */
  predicate OnScale(infos: seq<GradeInfo>) {
    forall i :: 0 <= i < |infos| && infos[i].IsNumeric() ==> -3 <= infos[i].weight.value <= 12
  }

  lemma CatalogueOnScale()
    ensures OnScale(DtuCatalogue())
  {
  }

  predicate NonNegative(qs: seq<int>) {
    forall i :: 0 <= i < |qs| ==> qs[i] >= 0
  }

  /** With non-negative quantities, the weighted sum lies between -3 and 12 times the
      count, and the count is at most the total. */
  lemma {:induction false} WeightedSumBounds(infos: seq<GradeInfo>, qs: seq<int>)
    requires |infos| == |qs| && OnScale(infos) && NonNegative(qs)
    ensures -3 * NumericCount(infos, qs) <= WeightedSum(infos, qs) <= 12 * NumericCount(infos, qs)
    ensures 0 <= NumericCount(infos, qs) <= Total(qs)
    decreases |qs|
  {
    if |qs| > 0 {
      var n := |qs| - 1;
      assert OnScale(infos[..n]);
      assert NonNegative(qs[..n]);
      WeightedSumBounds(infos[..n], qs[..n]);
      if infos[n].IsNumeric() {
        var w := infos[n].weight.value;
        assert -3 * qs[n] <= qs[n] * w <= 12 * qs[n] by {
          assert 0 <= qs[n] && -3 <= w <= 12;
        }
      }
    }
  }

  /** The average of a sheet with non-negative quantities lies on the scale. */
  lemma AverageOnScale(infos: seq<GradeInfo>, qs: seq<int>)
    requires |infos| == |qs| && OnScale(infos) && NonNegative(qs)
    ensures Average(infos, qs).Some? ==> -3.0 <= Average(infos, qs).value <= 12.0
  {
    WeightedSumBounds(infos, qs);
    if NumericCount(infos, qs) != 0 {
      QuotientBounds(WeightedSum(infos, qs), NumericCount(infos, qs));
    }
  }

  lemma QuotientBounds(s: int, c: int)
    requires c > 0 && -3 * c <= s <= 12 * c
    ensures -3.0 <= s as real / c as real <= 12.0
  {
    var a := s as real / c as real;
    assert a * c as real == s as real;
    assert (a + 3.0) * c as real >= 0.0;
    assert (12.0 - a) * c as real >= 0.0;
  }

  /** Quantities of grades without a weight do not affect the count or the sum. */
  lemma {:induction false} NonNumericIgnored(infos: seq<GradeInfo>, qs: seq<int>, qs': seq<int>)
    requires |infos| == |qs| == |qs'|
    requires forall i :: 0 <= i < |qs| && infos[i].IsNumeric() ==> qs[i] == qs'[i]
    ensures NumericCount(infos, qs) == NumericCount(infos, qs')
    ensures WeightedSum(infos, qs) == WeightedSum(infos, qs')
    ensures Average(infos, qs) == Average(infos, qs')
    decreases |qs|
  {
    if |qs| > 0 {
      var n := |qs| - 1;
      NonNumericIgnored(infos[..n], qs[..n], qs'[..n]);
    }
  }

  /** A sheet with the given quantity at one index and zero elsewhere. */
  function OneHot(n: nat, k: nat, q: int): (qs: seq<int>)
    requires k < n
    ensures |qs| == n && qs[k] == q && forall i :: 0 <= i < n && i != k ==> qs[i] == 0
  {
    seq(n, i => if i == k then q else 0)
  }

  /** If every student holds the same numeric grade, the average is its weight. */
  lemma {:induction false} SingleGradeCount(infos: seq<GradeInfo>, k: nat, q: int)
    requires k < |infos|
    ensures infos[k].IsNumeric() ==> NumericCount(infos, OneHot(|infos|, k, q)) == q
    ensures infos[k].IsNumeric() ==> WeightedSum(infos, OneHot(|infos|, k, q)) == q * infos[k].weight.value
    decreases |infos|
  {
    var qs := OneHot(|infos|, k, q);
    var n := |infos| - 1;
    if k < n {
      assert qs[..n] == OneHot(n, k, q);
      SingleGradeCount(infos[..n], k, q);
      assert infos[..n][k] == infos[k];
    } else {
      assert qs[..n] == seq(n, i => 0);
      ZeroSheet(infos[..n]);
    }
  }

  lemma {:induction false} ZeroSheet(infos: seq<GradeInfo>)
    ensures NumericCount(infos, seq(|infos|, i => 0)) == 0
    ensures WeightedSum(infos, seq(|infos|, i => 0)) == 0
    decreases |infos|
  {
    if |infos| > 0 {
      var n := |infos| - 1;
      assert seq(|infos|, i => 0)[..n] == seq(n, i => 0);
      ZeroSheet(infos[..n]);
    }
  }

  lemma SingleGradeAverage(infos: seq<GradeInfo>, k: nat, q: int)
    requires k < |infos| && infos[k].IsNumeric() && q != 0
    ensures Average(infos, OneHot(|infos|, k, q)) == Some(infos[k].weight.value as real)
  {
    SingleGradeCount(infos, k, q);
    var w := infos[k].weight.value;
    assert (q * w) as real / q as real == w as real by {
      assert (q * w) as real == w as real * q as real;
    }
  }

  /** The grades the constructor creates as written: the five passing numeric grades
      are all built as '12' with weight 12. */
  function AsWrittenSheetInfos(): seq<GradeInfo> {
    [ PassedInfo("12", Some(12)), PassedInfo("12", Some(12)), PassedInfo("12", Some(12)),
      PassedInfo("12", Some(12)), PassedInfo("12", Some(12)),
      FailedInfo("00", Some(0)), FailedInfo("minus_3", Some(-3)),
      PassedInfo("pass", None), FailedInfo("fail", None),
      AbsentInfo("absent"), AbsentInfo("ill"), AbsentInfo("not_approved") ]
  }

  /** As written, the sheet's grades "10", "7", "4" and "02" are copies of "12": one
      student holding the second grade of the sheet averages 12 instead of 10. */
  lemma AsWrittenSheetMislabels()
    ensures |AsWrittenSheetInfos()| == |DtuCatalogue()| == 12
    ensures forall i :: 1 <= i < 5 ==> AsWrittenSheetInfos()[i] != DtuCatalogue()[i]
    ensures forall i :: 5 <= i < 12 ==> AsWrittenSheetInfos()[i] == DtuCatalogue()[i]
    ensures Average(AsWrittenSheetInfos(), OneHot(12, 1, 1)) == Some(12.0)
    ensures Average(DtuCatalogue(), OneHot(12, 1, 1)) == Some(10.0)
  {
    SingleGradeAverage(AsWrittenSheetInfos(), 1, 1);
    SingleGradeAverage(DtuCatalogue(), 1, 1);
  }

  const WebsiteLabels: seq<string> := ["12", "10", "7", "4", "02", "00", "-3", "Bestået",
    "Ikke bestået", "Ej mødt", "Syg", "Godkendt", "Ikke Godkendt"]
  const SheetNames: seq<string> := ["GRADE_12", "GRADE_10", "GRADE_7", "GRADE_4", "GRADE_02",
    "GRADE_00", "GRADE_MINUS_3", "GRADE_PASSED", "GRADE_FAILED", "GRADE_ABSENT", "ILL",
    "APPROVED", "REJECTED"]

  /** The Danish grade labels of DTU's website mapped to the sheet's names. */
  function WebsiteGradeNames(): Dict<string, string> {
    LabelsDistinct();
    FromLists(WebsiteLabels, SheetNames)
  }

  /** A few characters of a string, enough to tell the labels and names apart. */
  function Signature(s: string): (int, char, char, char, char) {
    ( |s|,
      if |s| > 0 then s[0] else ' ',
      if |s| > 1 then s[|s| - 2] else ' ',
      if |s| > 0 then s[|s| - 1] else ' ',
      if |s| > 6 then s[6] else ' ' )
  }

  lemma LabelsDistinct()
    ensures forall i, j :: 0 <= i < j < |WebsiteLabels| ==> WebsiteLabels[i] != WebsiteLabels[j]
  {
    var sigs := seq(|WebsiteLabels|, i requires 0 <= i < |WebsiteLabels| => Signature(WebsiteLabels[i]));
    assert sigs == [(2, '1', '1', '2', ' '), (2, '1', '1', '0', ' '), (1, '7', ' ', '7', ' '),
      (1, '4', ' ', '4', ' '), (2, '0', '0', '2', ' '), (2, '0', '0', '0', ' '), (2, '-', '-', '3', ' '),
      (7, 'B', 'e', 't', 't'), (12, 'I', 'e', 't', 'e'), (7, 'E', 'd', 't', 't'), (3, 'S', 'y', 'g', ' '),
      (8, 'G', 'd', 't', 'd'), (13, 'I', 'd', 't', 'o')];
  }

  lemma NamesDistinct()
    ensures forall i, j :: 0 <= i < j < |SheetNames| ==> SheetNames[i] != SheetNames[j]
  {
    var sigs := seq(|SheetNames|, i requires 0 <= i < |SheetNames| => Signature(SheetNames[i]));
    assert sigs == [(8, 'G', '1', '2', '1'), (8, 'G', '1', '0', '1'), (7, 'G', '_', '7', '7'),
      (7, 'G', '_', '4', '4'), (8, 'G', '0', '2', '0'), (8, 'G', '0', '0', '0'), (13, 'G', '_', '3', 'M'),
      (12, 'G', 'E', 'D', 'P'), (12, 'G', 'E', 'D', 'F'), (12, 'G', 'N', 'T', 'A'), (3, 'I', 'L', 'L', ' '),
      (8, 'A', 'E', 'D', 'E'), (8, 'R', 'E', 'D', 'E')];
  }

  /** Thirteen labels in the written order, each mapped to its own name with no two labels
      sharing a name, and the seven-step labels mapped to GRADE_ and their digits. */
  lemma WebsiteGradeNamesSpec()
    ensures WellFormed(WebsiteGradeNames()) && WebsiteGradeNames().keys == WebsiteLabels
    ensures |WebsiteLabels| == 13
    ensures forall i :: 0 <= i < 13 ==> WebsiteGradeNames().values[WebsiteLabels[i]] == SheetNames[i]
    ensures forall i, j :: 0 <= i < j < 13 ==>
      WebsiteGradeNames().values[WebsiteLabels[i]] != WebsiteGradeNames().values[WebsiteLabels[j]]
  {
    NamesDistinct();
  }

  /** The labels of the first six seven-step grades are the catalogue's names. */
  lemma CatalogueNamesAreLabels()
    ensures forall i :: 0 <= i < 6 ==> DtuCatalogue()[i].name == WebsiteLabels[i]
    ensures forall i :: 0 <= i < 6 ==> SheetNames[i] == "GRADE_" + WebsiteLabels[i]
  {
  }

  /** The twelve grades the constructor as written creates. */
  method AsWrittenGrades() returns (grades: seq<Grade>)
    ensures |grades| == |AsWrittenSheetInfos()|
    ensures forall i :: 0 <= i < |grades| ==>
      fresh(grades[i]) && grades[i].Info() == AsWrittenSheetInfos()[i] && grades[i].Consistent() && grades[i].quantity == 0
  {
    var g12 := Grade.CreatePassed("12", Some(12));
    var g10 := Grade.CreatePassed("12", Some(12));
    var g7 := Grade.CreatePassed("12", Some(12));
    var g4 := Grade.CreatePassed("12", Some(12));
    var g02 := Grade.CreatePassed("12", Some(12));
    var g00 := Grade.CreateAttendedButFailed("00", Some(0));
    var gMinus3 := Grade.CreateAttendedButFailed("minus_3", Some(-3));
    var gPass := Grade.CreatePassed("pass", None);
    var gFail := Grade.CreateAttendedButFailed("fail", None);
    var gNotMet := Grade.CreateAbsent("absent");
    var gIll := Grade.CreateAbsent("ill");
    var gNotApproved := Grade.CreateAbsent("not_approved");
    grades := [g12, g10, g7, g4, g02, g00, gMinus3, gPass, gFail, gNotMet, gIll, gNotApproved];
  }

  /** `GradeSheet` of `grade_sheet.py`. */
  class GradeSheet {
    const course: string
    const term: string
    const grades: seq<Grade>
    var gradeTypes: Dict<string, string>
    var gradeCounts: Dict<string, int>

    /** Twelve grades whose numeric flag agrees with their weight. */
    predicate Valid() {
      |grades| == 12 && forall i :: 0 <= i < 12 ==> grades[i].Consistent()
    }

    /** The constructor with the seven-step grades built as intended. */
    constructor(course: string, term: string)
      ensures Valid() && Infos() == DtuCatalogue()
      ensures fresh(set g | g in grades) && Quantities() == seq(12, i => 0)
      ensures this.course == course && this.term == term
      ensures gradeTypes == Empty() && gradeCounts == Empty()
    {
      this.course := course;
      this.term := term;
      var gs := Grade.InstantiateDtuGrades();
      grades := gs;
      gradeTypes := Empty();
      gradeCounts := Empty();
    }

    /** The constructor as written, with four grades built as copies of "12". */
    constructor AsWritten(course: string, term: string)
      ensures Valid() && Infos() == AsWrittenSheetInfos()
      ensures fresh(set g | g in grades) && Quantities() == seq(12, i => 0)
      ensures this.course == course && this.term == term
      ensures gradeTypes == Empty() && gradeCounts == Empty()
    {
      this.course := course;
      this.term := term;
      var gs := AsWrittenGrades();
      grades := gs;
      gradeTypes := Empty();
      gradeCounts := Empty();
    }

    function Infos(): (r: seq<GradeInfo>)
      ensures |r| == |grades| && forall i :: 0 <= i < |grades| ==> r[i] == grades[i].Info()
    {
      seq(|grades|, i requires 0 <= i < |grades| => grades[i].Info())
    }

    function Quantities(): (r: seq<int>)
      reads grades
      ensures |r| == |grades| && forall i :: 0 <= i < |grades| ==> r[i] == grades[i].quantity
    {
      seq(|grades|, i reads grades requires 0 <= i < |grades| => grades[i].quantity)
    }

    /** `calculate_average` as intended: the mean of the numeric grades' weights over the
        students holding them, None when there are none. */
    method CalculateAverage() returns (r: Option<real>)
      requires Valid()
      ensures r == Average(Infos(), Quantities())
    {
      var count := 0;
      var weightedSum := 0;
      var i := 0;
      while i < |grades|
        invariant 0 <= i <= |grades|
        invariant count == NumericCount(Infos()[..i], Quantities()[..i])
        invariant weightedSum == WeightedSum(Infos()[..i], Quantities()[..i])
      {
        var grade := grades[i];
        assert Infos()[..i + 1][..i] == Infos()[..i];
        assert Quantities()[..i + 1][..i] == Quantities()[..i];
        if grade.IsNumeric() {
          count := count + grade.GetQuantity();
          weightedSum := weightedSum + grade.GetQuantity() * grade.GetWeight().value;
        }
        i := i + 1;
      }
      assert Infos()[..i] == Infos();
      assert Quantities()[..i] == Quantities();
      if count == 0 {
        r := None;
      } else {
        r := Some(weightedSum as real / count as real);
      }
    }

    /** `calculate_average` as written: the loop only adds up integers and cannot fail, so
        what the caller sees is the TypeError of `len` applied to the integer count right
        after it, whatever the quantities. The loop is therefore not repeated here. */
    method CalculateAverageAsWritten() returns (r: Result<Option<real>>)
      requires Valid()
      ensures r == Raise(TypeError)
    {
      r := Raise(TypeError);
    }

    /** `count_grades`: the number of grades awarded on the sheet. */
    method CountGrades() returns (count: int)
      ensures count == Total(Quantities())
    {
      count := 0;
      var i := 0;
      while i < |grades|
        invariant 0 <= i <= |grades|
        invariant count == Total(Quantities()[..i])
      {
        assert Quantities()[..i + 1][..i] == Quantities()[..i];
        count := count + grades[i].GetQuantity();
        i := i + 1;
      }
      assert Quantities()[..i] == Quantities();
    }

    method ConvertNamesFromDtuWebsiteFormat()
      modifies this
      ensures gradeTypes == WebsiteGradeNames()
      ensures gradeCounts == old(gradeCounts)
    {
      gradeTypes := WebsiteGradeNames();
    }
  }

  /** A new sheet counts no grades and has no average. */
  method NewSheetIsEmpty(course: string, term: string) returns (count: int, average: Option<real>)
    ensures count == 0 && average == None
  {
    var sheet := new GradeSheet(course, term);
    ZeroSheet(sheet.Infos());
    assert Total(seq(12, i => 0)) == 0 by { ZeroTotal(12); }
    count := sheet.CountGrades();
    average := sheet.CalculateAverage();
  }

  lemma {:induction false} ZeroTotal(n: nat)
    ensures Total(seq(n, i => 0)) == 0
  {
    if n > 0 {
      assert seq(n, i => 0)[..n - 1] == seq(n - 1, i => 0);
      ZeroTotal(n - 1);
    }
  }
}
