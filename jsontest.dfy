/** The consistency check over the scraped pages: for each of three kinds of page (grades,
    evaluations, course information) the json dicts of all terms are read, every page is put
    in the first class whose marker text it shows (or in "something else"), the classes are
    counted, and the total of the counts is compared with the number of pages. The files are
    read through a `disk` parameter and the printing is left out. */
module JsonChecks {

  import opened Dicts
  import Text

  /** The terms whose files are checked, oldest first. */
  const Terms: seq<string> := ["F17", "E17", "F18", "E18", "F19", "E19", "F20", "E20", "F21", "E21", "F22", "E22", "F23"]

  /** The path of one term's file of one kind ("grades", "evaluations", "information"). */
  function FileName(term: string, kind: string): string {
    "html_persistence/" + term + "_" + kind + ".json"
  }

  /** The class of a page: the first test it passes, or `|tests|` ("something else"). */
  function Classify(tests: seq<string -> bool>, page: string): (c: nat)
    ensures c <= |tests|
    ensures c < |tests| ==> tests[c](page)
    ensures forall j :: 0 <= j < c ==> !tests[j](page)
  {
    if tests == [] then 0
    else if tests[0](page) then 0
    else 1 + Classify(tests[1..], page)
  }

  /** The grade check: the missing page, a page with an exam average, a page hiding the
      distribution because three or fewer sat the exam. */
  const GradeTests: seq<string -> bool> := [
    page => Text.Contains(page, "404 - File or directory not found."),
    page => Text.Contains(page, "Eksamensgennemsnit"),
    page => Text.Contains(page, "Fordelingen vises ikke da tre eller færre har været til denne eksamen.")
  ]

  /** The evaluation check: an empty page, then a page with the statistics of a filled-in
      evaluation form. */
  const EvaluationTests: seq<string -> bool> := [
    page => |page| == 0,
    page => Text.Contains(page, "Statistik") && Text.Contains(page, "kunne besvare dette evalueringsskema")
  ]

  /** The information check: an unknown course code, then a course information page. */
  const InfoTests: seq<string -> bool> := [
    page => Text.Contains(page, "Unknown coursecode"),
    page => Text.Contains(page, "Course information")
  ]

  /** The (key, page) items of all files, file by file. */
  function Records(files: seq<Dict<string, string>>): seq<(string, string)>
    requires forall i :: 0 <= i < |files| ==> WellFormed(files[i])
  {
    if files == [] then [] else Records(files[..|files| - 1]) + Items(files[|files| - 1])
  }

  /** `data_len`: the sizes of the files added up. */
  function TotalSize(files: seq<Dict<string, string>>): nat {
    if files == [] then 0 else TotalSize(files[..|files| - 1]) + |files[|files| - 1].keys|
  }

  /** Every page of every file is classified once. */
  lemma {:induction false} RecordsLength(files: seq<Dict<string, string>>)
    requires forall i :: 0 <= i < |files| ==> WellFormed(files[i])
    ensures |Records(files)| == TotalSize(files)
  {
    if files != [] {
      RecordsLength(files[..|files| - 1]);
    }
  }

  /** The counters after some records: one per class, the last for "something else". */
  function CountsOf(records: seq<(string, string)>, tests: seq<string -> bool>): (counts: seq<nat>)
    ensures |counts| == |tests| + 1
  {
    if records == [] then seq(|tests| + 1, _ => 0)
    else
      var counts := CountsOf(records[..|records| - 1], tests);
      var c := Classify(tests, records[|records| - 1].1);
      counts[c := counts[c] + 1]
  }

  /** The number of records in class c, counted one class at a time. */
  function CountClass(records: seq<(string, string)>, tests: seq<string -> bool>, c: nat): nat {
    if records == [] then 0
    else CountClass(records[..|records| - 1], tests, c) + (if Classify(tests, records[|records| - 1].1) == c then 1 else 0)
  }

  /** Each counter holds the number of its class's records. */
  lemma {:induction false} CountsOfClasses(records: seq<(string, string)>, tests: seq<string -> bool>)
    ensures forall c :: 0 <= c <= |tests| ==> CountsOf(records, tests)[c] == CountClass(records, tests, c)
  {
    if records != [] {
      CountsOfClasses(records[..|records| - 1], tests);
    }
  }

  function Sum(s: seq<nat>): nat {
    if s == [] then 0 else Sum(s[..|s| - 1]) + s[|s| - 1]
  }

  lemma {:induction false} SumBump(s: seq<nat>, c: nat)
    requires c < |s|
    ensures Sum(s[c := s[c] + 1]) == Sum(s) + 1
  {
    var t := s[c := s[c] + 1];
    assert t[..|t| - 1] == if c == |s| - 1 then s[..|s| - 1] else s[..|s| - 1][c := s[c] + 1];
    if c < |s| - 1 {
      SumBump(s[..|s| - 1], c);
    }
  }

  lemma {:induction false} SumZeros(n: nat)
    ensures Sum(seq(n, _ => 0)) == 0
  {
    if n > 0 {
      assert seq(n, _ => 0)[..n - 1] == seq(n - 1, _ => 0);
      SumZeros(n - 1);
    }
  }

  /** The counters add up to the number of records: `duplicate == data_len` always holds. */
  lemma {:induction false} CountsOfSum(records: seq<(string, string)>, tests: seq<string -> bool>)
    ensures Sum(CountsOf(records, tests)) == |records|
  {
    if records == [] {
      SumZeros(|tests| + 1);
    } else {
      var init := records[..|records| - 1];
      CountsOfSum(init, tests);
      SumBump(CountsOf(init, tests), Classify(tests, records[|records| - 1].1));
    }
  }

  /** `unknown_key`: the key of the last record classed "something else", or "". */
  function LastElseKey(records: seq<(string, string)>, tests: seq<string -> bool>): string {
    if records == [] then ""
    else if Classify(tests, records[|records| - 1].1) == |tests| then records[|records| - 1].0
    else LastElseKey(records[..|records| - 1], tests)
  }

  /** "" when no record is "something else"; otherwise the key of the last one that is. */
  lemma {:induction false} LastElseKeySpec(records: seq<(string, string)>, tests: seq<string -> bool>, k: int)
    requires 0 <= k < |records| && Classify(tests, records[k].1) == |tests|
    requires forall j :: k < j < |records| ==> Classify(tests, records[j].1) != |tests|
    ensures LastElseKey(records, tests) == records[k].0
  {
    if k < |records| - 1 {
      var init := records[..|records| - 1];
      assert forall j :: 0 <= j < |init| ==> init[j] == records[j];
      LastElseKeySpec(init, tests, k);
    }
  }

  lemma {:induction false} LastElseKeyNone(records: seq<(string, string)>, tests: seq<string -> bool>)
    requires forall j :: 0 <= j < |records| ==> Classify(tests, records[j].1) != |tests|
    ensures LastElseKey(records, tests) == ""
  {
    if records != [] {
      var init := records[..|records| - 1];
      assert forall j :: 0 <= j < |init| ==> init[j] == records[j];
      LastElseKeyNone(init, tests);
    }
  }

  /** The inner loop over the items of one file, continuing the counts of the records before. */
  method TallyItems(ghost before: seq<(string, string)>, items: seq<(string, string)>, tests: seq<string -> bool>,
                    counts0: seq<nat>, unknownKey0: string) returns (counts: seq<nat>, unknownKey: string)
    requires counts0 == CountsOf(before, tests) && unknownKey0 == LastElseKey(before, tests)
    ensures counts == CountsOf(before + items, tests)
    ensures unknownKey == LastElseKey(before + items, tests)
  {
    counts, unknownKey := counts0, unknownKey0;
    ghost var seen := before;
    var j := 0;
    while j < |items|
      invariant 0 <= j <= |items| && seen == before + items[..j]
      invariant counts == CountsOf(seen, tests)
      invariant unknownKey == LastElseKey(seen, tests)
    {
      TallyStep(seen, items[j], tests);
      SnocSlice(before, items, j);
      var c := Classify(tests, items[j].1);
      counts := counts[c := counts[c] + 1];
      if c == |tests| {
        unknownKey := items[j].0;
      }
      seen := seen + [items[j]];
      j := j + 1;
    }
    assert items[..j] == items;
  }

  /** One more record: its class is counted, and it becomes the unknown key when it is in no class. */
  lemma TallyStep(seen: seq<(string, string)>, item: (string, string), tests: seq<string -> bool>)
    ensures var c := Classify(tests, item.1);
      var counts := CountsOf(seen, tests);
      CountsOf(seen + [item], tests) == counts[c := counts[c] + 1] &&
      LastElseKey(seen + [item], tests) == if c == |tests| then item.0 else LastElseKey(seen, tests)
  {
    assert (seen + [item])[..|seen|] == seen;
  }

  lemma SnocSlice<T>(before: seq<T>, items: seq<T>, j: nat)
    requires j < |items|
    ensures before + items[..j + 1] == before + items[..j] + [items[j]]
  {
    assert items[..j + 1] == items[..j] + [items[j]];
  }

  /** One check: the counters, `data_len` and `unknown_key` after all files. */
  method Tally(files: seq<Dict<string, string>>, tests: seq<string -> bool>)
    returns (counts: seq<nat>, dataLen: nat, unknownKey: string)
    requires forall i :: 0 <= i < |files| ==> WellFormed(files[i])
    ensures counts == CountsOf(Records(files), tests)
    ensures dataLen == TotalSize(files)
    ensures unknownKey == LastElseKey(Records(files), tests)
    ensures forall c :: 0 <= c <= |tests| ==> counts[c] == CountClass(Records(files), tests, c)
    ensures Sum(counts) == dataLen
  {
    counts := CountsOf([], tests);
    dataLen := 0;
    unknownKey := "";
    var i := 0;
    while i < |files|
      invariant 0 <= i <= |files|
      invariant counts == CountsOf(Records(files[..i]), tests)
      invariant unknownKey == LastElseKey(Records(files[..i]), tests)
      invariant dataLen == TotalSize(files[..i])
    {
      var data := files[i];
      assert files[..i + 1][..i] == files[..i];
      dataLen := dataLen + |data.keys|;
      counts, unknownKey := TallyItems(Records(files[..i]), Items(data), tests, counts, unknownKey);
      i := i + 1;
    }
    assert files[..i] == files;
    CountsOfClasses(Records(files), tests);
    CountsOfSum(Records(files), tests);
    RecordsLength(files);
  }

  lemma SumShort(s: seq<nat>)
    ensures |s| == 3 ==> Sum(s) == s[0] + s[1] + s[2]
    ensures |s| == 4 ==> Sum(s) == s[0] + s[1] + s[2] + s[3]
  {
    if |s| >= 3 {
      assert s[..1][..0] == [] && s[..2][..1] == s[..1] && s[..3][..2] == s[..2];
      assert Sum(s[..1]) == s[0];
      assert Sum(s[..2]) == s[0] + s[1];
      assert Sum(s[..3]) == s[0] + s[1] + s[2];
      if |s| == 3 {
        assert s[..3] == s;
      } else if |s| == 4 {
        assert s[..3] == s[..|s| - 1];
      }
    }
  }

  /** The files of one kind, one per term. */
  function FilesOf(disk: string -> Dict<string, string>, kind: string): (files: seq<Dict<string, string>>)
    ensures |files| == |Terms|
    ensures forall i :: 0 <= i < |Terms| ==> files[i] == disk(FileName(Terms[i], kind))
  {
    seq(|Terms|, i requires 0 <= i < |Terms| => disk(FileName(Terms[i], kind)))
  }

  /** The grade check. The four counters add up to `data_len`. */
  method GradeCheck(disk: string -> Dict<string, string>)
    returns (e404: nat, grade: nat, fewgrade: nat, somethingElse: nat, dataLen: nat, unknownKey: string)
    requires forall name :: WellFormed(disk(name))
    ensures var records := Records(FilesOf(disk, "grades"));
      e404 == CountClass(records, GradeTests, 0) && grade == CountClass(records, GradeTests, 1) &&
      fewgrade == CountClass(records, GradeTests, 2) && somethingElse == CountClass(records, GradeTests, 3) &&
      unknownKey == LastElseKey(records, GradeTests)
    ensures dataLen == TotalSize(FilesOf(disk, "grades"))
    ensures e404 + grade + fewgrade + somethingElse == dataLen
  {
    var files := FilesOf(disk, "grades");
    var counts;
    counts, dataLen, unknownKey := Tally(files, GradeTests);
    e404, grade, fewgrade, somethingElse := counts[0], counts[1], counts[2], counts[3];
    SumShort(counts);
  }

  /** The evaluation check. The three counters add up to `data_len`. */
  method EvaluationCheck(disk: string -> Dict<string, string>)
    returns (e404: nat, evaluation: nat, somethingElse: nat, dataLen: nat, unknownKey: string)
    requires forall name :: WellFormed(disk(name))
    ensures var records := Records(FilesOf(disk, "evaluations"));
      e404 == CountClass(records, EvaluationTests, 0) && evaluation == CountClass(records, EvaluationTests, 1) &&
      somethingElse == CountClass(records, EvaluationTests, 2) && unknownKey == LastElseKey(records, EvaluationTests)
    ensures dataLen == TotalSize(FilesOf(disk, "evaluations"))
    ensures e404 + evaluation + somethingElse == dataLen
  {
    var files := FilesOf(disk, "evaluations");
    var counts;
    counts, dataLen, unknownKey := Tally(files, EvaluationTests);
    e404, evaluation, somethingElse := counts[0], counts[1], counts[2];
    SumShort(counts);
  }

  /** The information check. The three counters add up to `data_len`. */
  method InfoCheck(disk: string -> Dict<string, string>)
    returns (e404: nat, info: nat, somethingElse: nat, dataLen: nat, unknownKey: string)
    requires forall name :: WellFormed(disk(name))
    ensures var records := Records(FilesOf(disk, "information"));
      e404 == CountClass(records, InfoTests, 0) && info == CountClass(records, InfoTests, 1) &&
      somethingElse == CountClass(records, InfoTests, 2) && unknownKey == LastElseKey(records, InfoTests)
    ensures dataLen == TotalSize(FilesOf(disk, "information"))
    ensures e404 + info + somethingElse == dataLen
  {
    var files := FilesOf(disk, "information");
    var counts;
    counts, dataLen, unknownKey := Tally(files, InfoTests);
    e404, info, somethingElse := counts[0], counts[1], counts[2];
    SumShort(counts);
  }
}
