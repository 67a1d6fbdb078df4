/** The course filtering of the website: url arguments `entry=category` select course lists
    from the filter file, the lists of one category are pooled and the categories
    intersected; the selection is then arranged in the order of a sorting file, the query
    string of the active filters is rebuilt, and averages are taken over the selection.
    The json files arrive as parameters. */
module ContextDicts {

  import opened Wrappers
  import opened Dicts
  import opened Seqs
  import Text

  /** The filter file: category -> entry -> course numbers. */
  type FilterDct = map<string, map<string, seq<string>>>

  /** A url argument (entry, category) counts when the category is in the filter file and
      the entry is one of its entries. */
  predicate Contributes(filterDct: FilterDct, arg: (string, string)) {
    arg.1 in filterDct && arg.0 in filterDct[arg.1]
  }

  // ---------------------------------------------------------------------------
  // create_filtered_list_from_url_args

  /** `temp_dct` after the first loop over the url arguments: category -> the course lists of
      its counting arguments, concatenated in argument order. */
  function Gathered(filterDct: FilterDct, args: seq<(string, string)>): (r: Dict<string, seq<string>>)
    ensures WellFormed(r)
  {
    if args == [] then Empty()
    else
      var acc := Gathered(filterDct, args[..|args| - 1]);
      var arg := args[|args| - 1];
      if !Contributes(filterDct, arg) then acc
      else
        var list := (if arg.1 in acc.values then acc.values[arg.1] else []) + filterDct[arg.1][arg.0];
        PutSpec(acc, arg.1, list);
        Put(acc, arg.1, list)
  }

  /** The courses a category pools: the lists of its counting arguments, in order. */
  function CategoryList(filterDct: FilterDct, args: seq<(string, string)>, category: string): seq<string> {
    if args == [] then []
    else
      var arg := args[|args| - 1];
      CategoryList(filterDct, args[..|args| - 1], category) +
        (if Contributes(filterDct, arg) && arg.1 == category then filterDct[arg.1][arg.0] else [])
  }

  /** Some argument counts for the category. */
  predicate HasCategory(filterDct: FilterDct, args: seq<(string, string)>, category: string) {
    exists i :: 0 <= i < |args| && Contributes(filterDct, args[i]) && args[i].1 == category
  }

  /** `temp_dct` has a category exactly when some argument counts for it, and holds the
      pooled list of that category. */
  lemma {:induction false} GatheredSpec(filterDct: FilterDct, args: seq<(string, string)>)
    ensures forall c :: c in Gathered(filterDct, args).values <==> HasCategory(filterDct, args, c)
    ensures forall c :: c in Gathered(filterDct, args).values ==>
      Gathered(filterDct, args).values[c] == CategoryList(filterDct, args, c)
  {
    if args != [] {
      var init := args[..|args| - 1];
      GatheredSpec(filterDct, init);
      assert forall i :: 0 <= i < |init| ==> init[i] == args[i];
      forall c
        ensures HasCategory(filterDct, args, c) <==> HasCategory(filterDct, init, c) || (Contributes(filterDct, args[|args| - 1]) && args[|args| - 1].1 == c)
      {
        HasCategoryStep(filterDct, args, c);
      }
      forall c | HasCategory(filterDct, init, c) == false
        ensures CategoryList(filterDct, init, c) == []
      {
        CategoryListEmpty(filterDct, init, c);
      }
    }
  }

  lemma HasCategoryStep(filterDct: FilterDct, args: seq<(string, string)>, c: string)
    requires args != []
    ensures var init := args[..|args| - 1]; var arg := args[|args| - 1];
      HasCategory(filterDct, args, c) <==> HasCategory(filterDct, init, c) || (Contributes(filterDct, arg) && arg.1 == c)
  {
    var init := args[..|args| - 1];
    assert forall i :: 0 <= i < |init| ==> init[i] == args[i];
    if HasCategory(filterDct, args, c) {
      var i :| 0 <= i < |args| && Contributes(filterDct, args[i]) && args[i].1 == c;
      if i < |init| {
        assert Contributes(filterDct, init[i]) && init[i].1 == c;
      }
    }
  }

  lemma {:induction false} CategoryListEmpty(filterDct: FilterDct, args: seq<(string, string)>, category: string)
    requires !HasCategory(filterDct, args, category)
    ensures CategoryList(filterDct, args, category) == []
  {
    if args != [] {
      var init := args[..|args| - 1];
      assert forall i :: 0 <= i < |init| ==> init[i] == args[i];
      assert !HasCategory(filterDct, init, category);
      CategoryListEmpty(filterDct, init, category);
    }
  }

  /** A course is in a category's pool exactly when one of its counting arguments lists it. */
  lemma {:induction false} CategoryListMembers(filterDct: FilterDct, args: seq<(string, string)>, category: string)
    ensures forall x :: x in CategoryList(filterDct, args, category) <==>
      exists i :: 0 <= i < |args| && Contributes(filterDct, args[i]) && args[i].1 == category && x in filterDct[category][args[i].0]
  {
    if args != [] {
      var init := args[..|args| - 1];
      CategoryListMembers(filterDct, init, category);
      assert forall i :: 0 <= i < |init| ==> init[i] == args[i];
    }
  }

  /** The second loop: the first list as a set, intersected with each later one; no list at
      all gives the empty set. */
  function IntersectAll(lists: seq<seq<string>>): set<string> {
    if |lists| == 0 then {}
    else if |lists| == 1 then Elements(lists[0])
    else IntersectAll(lists[..|lists| - 1]) * Elements(lists[|lists| - 1])
  }

  /** `set(lst)`. */
  function Elements(lst: seq<string>): (r: set<string>)
    ensures forall x :: x in r <==> x in lst
  {
    set x | x in lst
  }

  /** A course survives exactly when there is at least one list and every list has it. */
  lemma {:induction false} IntersectAllSpec(lists: seq<seq<string>>)
    ensures forall x :: x in IntersectAll(lists) <==> |lists| > 0 && forall i :: 0 <= i < |lists| ==> x in lists[i]
  {
    if |lists| > 1 {
      var init := lists[..|lists| - 1];
      IntersectAllSpec(init);
      assert forall i :: 0 <= i < |init| ==> init[i] == lists[i];
    }
  }

  /** `list(d.values())`: the values of a dict in key order. */
  function Values<V>(d: Dict<string, V>): (r: seq<V>)
    requires WellFormed(d)
    ensures |r| == |d.keys|
    ensures forall i :: 0 <= i < |r| ==> r[i] == d.values[d.keys[i]]
  {
    seq(|d.keys|, i requires 0 <= i < |d.keys| => d.values[d.keys[i]])
  }

  /** What `create_filtered_list_from_url_args` returns for the url arguments in order. */
  function FilteredCourses(filterDct: FilterDct, args: seq<(string, string)>): set<string> {
    IntersectAll(Values(Gathered(filterDct, args)))
  }

  /** A course is shown exactly when some argument counts and, for every category that an
      argument counts for, one of that category's counting arguments lists the course. */
  lemma FilteredCoursesSpec(filterDct: FilterDct, args: seq<(string, string)>, x: string)
    ensures x in FilteredCourses(filterDct, args) <==>
      (exists i :: 0 <= i < |args| && Contributes(filterDct, args[i])) &&
      forall c :: HasCategory(filterDct, args, c) ==> x in CategoryList(filterDct, args, c)
  {
    var g := Gathered(filterDct, args);
    var lists := Values(g);
    GatheredSpec(filterDct, args);
    IntersectAllSpec(lists);
    if exists i :: 0 <= i < |args| && Contributes(filterDct, args[i]) {
      var i :| 0 <= i < |args| && Contributes(filterDct, args[i]);
      assert HasCategory(filterDct, args, args[i].1);
      assert args[i].1 in g.keys;
      assert |lists| > 0;
    } else {
      GatheredNone(filterDct, args);
    }
    if x in FilteredCourses(filterDct, args) {
      forall c | HasCategory(filterDct, args, c)
        ensures x in CategoryList(filterDct, args, c)
      {
        var k :| 0 <= k < |g.keys| && g.keys[k] == c;
        assert x in lists[k];
      }
    }
  }

  /** With no counting argument `temp_dct` stays empty. */
  lemma {:induction false} GatheredNone(filterDct: FilterDct, args: seq<(string, string)>)
    requires forall i :: 0 <= i < |args| ==> !Contributes(filterDct, args[i])
    ensures Gathered(filterDct, args) == Empty()
  {
    if args != [] {
      var init := args[..|args| - 1];
      assert forall i :: 0 <= i < |init| ==> init[i] == args[i];
      GatheredNone(filterDct, init);
    }
  }

  /** With no counting argument nothing is shown. */
  lemma NoFiltersShowNothing(filterDct: FilterDct, args: seq<(string, string)>)
    requires forall i :: 0 <= i < |args| ==> !Contributes(filterDct, args[i])
    ensures FilteredCourses(filterDct, args) == {}
  {
    forall x
      ensures x !in FilteredCourses(filterDct, args)
    {
      FilteredCoursesSpec(filterDct, args, x);
    }
  }

  /** The url arguments in order, read the way the loops read them. */
  function ArgsOf(urlArgs: Dict<string, string>): (r: seq<(string, string)>)
    requires WellFormed(urlArgs)
    ensures |r| == |urlArgs.keys|
    ensures forall i :: 0 <= i < |r| ==> r[i] == (urlArgs.keys[i], urlArgs.values[urlArgs.keys[i]])
  {
    ItemsOfAt(urlArgs.keys, urlArgs.values);
    Items(urlArgs)
  }

  /** `create_filtered_list_from_url_args`. */
  method CreateFilteredList(urlArgs: Dict<string, string>, filterDct: FilterDct) returns (coursesToDisplay: set<string>)
    requires WellFormed(urlArgs)
    ensures coursesToDisplay == FilteredCourses(filterDct, ArgsOf(urlArgs))
  {
    var tempDct := GatherArgs(ArgsOf(urlArgs), filterDct);
    coursesToDisplay := IntersectLists(tempDct);
  }

  /** Gathering one more argument. */
  lemma GatheredStep(filterDct: FilterDct, args: seq<(string, string)>, i: nat)
    requires i < |args|
    ensures var acc := Gathered(filterDct, args[..i]);
      Gathered(filterDct, args[..i + 1]) ==
        if !Contributes(filterDct, args[i]) then acc
        else Put(acc, args[i].1, (if args[i].1 in acc.values then acc.values[args[i].1] else []) + filterDct[args[i].1][args[i].0])
  {
    var next := args[..i + 1];
    assert next[..i] == args[..i];
    assert next[i] == args[i];
  }

  /** The first loop of `create_filtered_list_from_url_args`, building `temp_dct`. */
  method GatherArgs(args: seq<(string, string)>, filterDct: FilterDct) returns (tempDct: Dict<string, seq<string>>)
    ensures tempDct == Gathered(filterDct, args)
  {
    tempDct := Empty();
    var i := 0;
    while i < |args|
      invariant 0 <= i <= |args|
      invariant tempDct == Gathered(filterDct, args[..i])
    {
      var (value, catagory) := args[i];
      GatheredStep(filterDct, args, i);
      if catagory in filterDct && value in filterDct[catagory] {
        if catagory in tempDct.values {
          tempDct := Put(tempDct, catagory, tempDct.values[catagory] + filterDct[catagory][value]);
        } else {
          tempDct := Put(tempDct, catagory, [] + filterDct[catagory][value]);
        }
      }
      i := i + 1;
    }
    assert args[..i] == args;
  }

  /** Intersecting with one more list. */
  lemma IntersectStep(lists: seq<seq<string>>, k: nat)
    requires k < |lists|
    ensures IntersectAll(lists[..k + 1]) == if k == 0 then Elements(lists[0]) else IntersectAll(lists[..k]) * Elements(lists[k])
  {
    var next := lists[..k + 1];
    assert next[..k] == lists[..k];
    assert next[k] == lists[k];
  }

  /** The second loop of `create_filtered_list_from_url_args`, over the lists of `temp_dct`. */
  method IntersectLists(tempDct: Dict<string, seq<string>>) returns (coursesToDisplay: set<string>)
    requires WellFormed(tempDct)
    ensures coursesToDisplay == IntersectAll(Values(tempDct))
  {
    coursesToDisplay := {};
    var isFirstIteration := true;
    ghost var lists := Values(tempDct);
    var k := 0;
    while k < |tempDct.keys|
      invariant 0 <= k <= |tempDct.keys|
      invariant isFirstIteration <==> k == 0
      invariant coursesToDisplay == IntersectAll(lists[..k])
    {
      var key := tempDct.keys[k];
      IntersectStep(lists, k);
      assert lists[k] == tempDct.values[key];
      if isFirstIteration {
        isFirstIteration := false;
        coursesToDisplay := Elements(tempDct.values[key]);
      } else {
        coursesToDisplay := coursesToDisplay * Elements(tempDct.values[key]);
      }
      k := k + 1;
    }
    assert lists[..k] == lists;
  }

  // ---------------------------------------------------------------------------
  // turn_set_into_lst_and_sort

  /** `get_arranged_lst`: the elements of the order that are in the set, in that order. */
  function Arranged(order: seq<string>, s: set<string>): seq<string> {
    if order == [] then [] else (if order[0] in s then [order[0]] else []) + Arranged(order[1..], s)
  }

  /** Arranging keeps exactly the members of the set, each as often as the order lists it,
      and leaves them in the order's order. */
  lemma {:induction false} ArrangedSpec(order: seq<string>, s: set<string>)
    ensures forall x :: x in Arranged(order, s) <==> x in order && x in s
    ensures forall x :: multiset(Arranged(order, s))[x] == if x in s then multiset(order)[x] else 0
    ensures Subsequence(Arranged(order, s), order)
  {
    if order != [] {
      ArrangedSpec(order[1..], s);
      assert order == [order[0]] + order[1..];
      assert multiset(order) == multiset{order[0]} + multiset(order[1..]);
      SubsequenceCons(order[0], Arranged(order[1..], s), order[1..], order[0] in s);
    }
  }

  lemma SubsequenceCons(x: string, a: seq<string>, b: seq<string>, keep: bool)
    requires Subsequence(a, b)
    ensures Subsequence((if keep then [x] else []) + a, [x] + b)
  {
    var b' := [x] + b;
    assert b'[1..] == b;
    if keep {
      var a' := [x] + a;
      assert a'[1..] == a;
    } else {
      assert [] + a == a;
      if a != [] {
        assert Subsequence(a, b'[1..]);
      }
    }
  }

  /** The loop of `get_arranged_lst`. */
  method GetArrangedList(arrangeOrder: seq<string>, s: set<string>) returns (lst: seq<string>)
    ensures lst == Arranged(arrangeOrder, s)
  {
    lst := [];
    var i := 0;
    while i < |arrangeOrder|
      invariant 0 <= i <= |arrangeOrder|
      invariant lst + Arranged(arrangeOrder[i..], s) == Arranged(arrangeOrder, s)
    {
      assert arrangeOrder[i..][1..] == arrangeOrder[i + 1..];
      if arrangeOrder[i] in s {
        lst := lst + [arrangeOrder[i]];
      }
      i := i + 1;
    }
    assert arrangeOrder[i..] == [];
  }

  /** `turn_set_into_lst_and_sort`: without a known `sort_by` argument the courses are listed in
      the order of the course file's values; otherwise in the key order of the file named by
      the argument, reversed when the sorting table says so. `load` reads a json file by name
      (an empty dict when it is missing). */
  method TurnSetIntoSortedList(courses: set<string>, urlArgs: Dict<string, string>, sortBy: string,
                               sortingKeys: Dict<string, bool>, courseFile: Dict<string, string>,
                               load: string -> Dict<string, string>) returns (lst: seq<string>)
    requires WellFormed(urlArgs) && WellFormed(sortingKeys) && WellFormed(courseFile)
    ensures var valid := sortBy in urlArgs.values && urlArgs.values[sortBy] in sortingKeys.keys;
      !valid ==> lst == Arranged(Values(courseFile), courses)
    ensures var valid := sortBy in urlArgs.values && urlArgs.values[sortBy] in sortingKeys.keys;
      valid ==>
        var category := urlArgs.values[sortBy];
        var order := load(category).keys;
        lst == Arranged(if sortingKeys.values[category] then Reverse(order) else order, courses)
  {
    if sortBy !in urlArgs.values || urlArgs.values[sortBy] !in sortingKeys.keys {
      lst := GetArrangedList(Values(courseFile), courses);
      return;
    }
    var sortingCatagory := urlArgs.values[sortBy];
    var arrangeOrder := load(sortingCatagory).keys;
    if sortingKeys.values[sortingCatagory] {
      arrangeOrder := Reverse(arrangeOrder);
    }
    lst := GetArrangedList(arrangeOrder, courses);
  }

  // ---------------------------------------------------------------------------
  // current_args

  /** The counting arguments, in order. */
  function Selected(filterDct: FilterDct, args: seq<(string, string)>): seq<(string, string)> {
    if args == [] then []
    else Selected(filterDct, args[..|args| - 1]) + (if Contributes(filterDct, args[|args| - 1]) then [args[|args| - 1]] else [])
  }

  /** "?k1=c1&k2=c2...", or "" for no arguments. */
  function Query(args: seq<(string, string)>): (q: string)
    ensures q == "" <==> args == []
  {
    if args == [] then ""
    else "?" + Text.Join(seq(|args|, i requires 0 <= i < |args| => args[i].0 + "=" + args[i].1), '&')
  }

  /** One more argument: the first after "?", every later one after "&". */
  lemma QueryAppend(args: seq<(string, string)>, arg: (string, string))
    ensures Query(args + [arg]) == if args == [] then "?" + arg.0 + "=" + arg.1 else Query(args) + "&" + arg.0 + "=" + arg.1
  {
    var all := args + [arg];
    var parts := seq(|all|, i requires 0 <= i < |all| => all[i].0 + "=" + all[i].1);
    if args == [] {
      assert parts == [arg.0 + "=" + arg.1];
    } else {
      var init := seq(|args|, i requires 0 <= i < |args| => args[i].0 + "=" + args[i].1);
      assert parts == init + [arg.0 + "=" + arg.1];
      Text.JoinAppend(init, arg.0 + "=" + arg.1, '&');
    }
  }

  /** The value of the last argument named `sort_by` that is not a counting argument, or "". */
  function SortValue(filterDct: FilterDct, args: seq<(string, string)>, sortBy: string): string {
    if args == [] then ""
    else
      var arg := args[|args| - 1];
      if !Contributes(filterDct, arg) && arg.0 == sortBy then arg.1 else SortValue(filterDct, args[..|args| - 1], sortBy)
  }

  lemma {:induction false} SortValueAbsent(filterDct: FilterDct, args: seq<(string, string)>, sortBy: string)
    requires forall i :: 0 <= i < |args| ==> args[i].0 != sortBy
    ensures SortValue(filterDct, args, sortBy) == ""
  {
    if args != [] {
      var init := args[..|args| - 1];
      assert forall i :: 0 <= i < |init| ==> init[i] == args[i];
      SortValueAbsent(filterDct, init, sortBy);
    }
  }

  /** With distinct names, the argument named `sort_by` decides alone. */
  lemma {:induction false} SortValueAt(filterDct: FilterDct, args: seq<(string, string)>, sortBy: string, k: int)
    requires forall i, j :: 0 <= i < j < |args| ==> args[i].0 != args[j].0
    requires 0 <= k < |args| && args[k].0 == sortBy
    ensures SortValue(filterDct, args, sortBy) == if Contributes(filterDct, args[k]) then "" else args[k].1
  {
    var init := args[..|args| - 1];
    assert forall i :: 0 <= i < |init| ==> init[i] == args[i];
    if k == |args| - 1 {
      if Contributes(filterDct, args[k]) {
        SortValueAbsent(filterDct, init, sortBy);
      }
    } else {
      SortValueAt(filterDct, init, sortBy, k);
    }
  }

  /** The `sort_by` value `current_args` picks from a dict of url arguments: the argument's
      value when there is one and it is not a counting argument, "" otherwise. */
  lemma SortValueOfDict(urlArgs: Dict<string, string>, filterDct: FilterDct, sortBy: string)
    requires WellFormed(urlArgs)
    ensures SortValue(filterDct, ArgsOf(urlArgs), sortBy) ==
      if sortBy in urlArgs.values && !Contributes(filterDct, (sortBy, urlArgs.values[sortBy])) then urlArgs.values[sortBy] else ""
  {
    var args := ArgsOf(urlArgs);
    forall i, j | 0 <= i < j < |args|
      ensures args[i].0 != args[j].0
    {
      NoDuplicatesDistinct(urlArgs.keys, i, j);
    }
    if sortBy in urlArgs.values {
      var k :| 0 <= k < |urlArgs.keys| && urlArgs.keys[k] == sortBy;
      SortValueAt(filterDct, args, sortBy, k);
    } else {
      SortValueAbsent(filterDct, args, sortBy);
    }
  }

  /** `current_args`: the query string of the counting arguments, and the value of the
      `sort_by` argument when it is not itself a counting argument. */
  method CurrentArgs(urlArgs: Dict<string, string>, filterDct: FilterDct, sortBy: string)
    returns (argsWithoutSortBy: string, currentSortBy: string)
    requires WellFormed(urlArgs)
    ensures argsWithoutSortBy == Query(Selected(filterDct, ArgsOf(urlArgs)))
    ensures currentSortBy == SortValue(filterDct, ArgsOf(urlArgs), sortBy)
  {
    argsWithoutSortBy, currentSortBy := ScanArgs(ArgsOf(urlArgs), filterDct, sortBy);
  }

  /** One iteration of the loop of `current_args`: a counting argument joins the selected
      ones, any other argument named `sort_by` gives the new sort value. */
  lemma ScanStep(seen: seq<(string, string)>, arg: (string, string), filterDct: FilterDct, sortBy: string)
    ensures Selected(filterDct, seen + [arg]) ==
      if Contributes(filterDct, arg) then Selected(filterDct, seen) + [arg] else Selected(filterDct, seen)
    ensures SortValue(filterDct, seen + [arg], sortBy) ==
      if !Contributes(filterDct, arg) && arg.0 == sortBy then arg.1 else SortValue(filterDct, seen, sortBy)
  {
    assert (seen + [arg])[..|seen|] == seen;
    assert Selected(filterDct, seen) + [] == Selected(filterDct, seen);
  }

  /** The loop body of `current_args` keeps both strings equal to their specifications. */
  lemma ScanAdvance(seen: seq<(string, string)>, arg: (string, string), filterDct: FilterDct, sortBy: string,
                    query: string, sortValue: string, query': string, sortValue': string)
    requires query == Query(Selected(filterDct, seen)) && sortValue == SortValue(filterDct, seen, sortBy)
    requires Contributes(filterDct, arg) ==>
      sortValue' == sortValue &&
      query' == (if query == "" then query + "?" + arg.0 + "=" + arg.1 else query + "&" + arg.0 + "=" + arg.1)
    requires !Contributes(filterDct, arg) ==>
      query' == query && sortValue' == (if arg.0 == sortBy then arg.1 else sortValue)
    ensures query' == Query(Selected(filterDct, seen + [arg]))
    ensures sortValue' == SortValue(filterDct, seen + [arg], sortBy)
  {
    ScanStep(seen, arg, filterDct, sortBy);
    if Contributes(filterDct, arg) {
      QueryAppend(Selected(filterDct, seen), arg);
    }
  }

  /** The loop of `current_args` over the url arguments in order. */
  method ScanArgs(args: seq<(string, string)>, filterDct: FilterDct, sortBy: string)
    returns (argsWithoutSortBy: string, currentSortBy: string)
    ensures argsWithoutSortBy == Query(Selected(filterDct, args))
    ensures currentSortBy == SortValue(filterDct, args, sortBy)
  {
    argsWithoutSortBy := "";
    currentSortBy := "";
    ghost var seen: seq<(string, string)> := [];
    var i := 0;
    while i < |args|
      invariant 0 <= i <= |args| && seen == args[..i]
      invariant argsWithoutSortBy == Query(Selected(filterDct, seen))
      invariant currentSortBy == SortValue(filterDct, seen, sortBy)
    {
      var (value, catagory) := args[i];
      ghost var query0, sortBy0 := argsWithoutSortBy, currentSortBy;
      if catagory in filterDct && value in filterDct[catagory] {
        if argsWithoutSortBy == "" {
          argsWithoutSortBy := argsWithoutSortBy + "?" + value + "=" + catagory;
        } else {
          argsWithoutSortBy := argsWithoutSortBy + "&" + value + "=" + catagory;
        }
      } else if value == sortBy {
        currentSortBy := catagory;
      }
      ScanAdvance(seen, args[i], filterDct, sortBy, query0, sortBy0, argsWithoutSortBy, currentSortBy);
      assert args[..i + 1] == args[..i] + [args[i]];
      seen := seen + [args[i]];
      i := i + 1;
    }
    assert args[..i] == args;
  }

  // ---------------------------------------------------------------------------
  // summary_stats.calculate_average

  /** A value of a json statistics file. */
  datatype JsonValue = JsonInt(i: int) | JsonFloat(r: real) | JsonOther

  /** Only nonzero ints and floats are averaged. */
  predicate Counted(v: JsonValue) {
    (v.JsonInt? && v.i != 0) || (v.JsonFloat? && v.r != 0.0)
  }

  function Amount(v: JsonValue): real {
    match v
    case JsonInt(i) => i as real
    case JsonFloat(r) => r
    case JsonOther => 0.0
  }

  function CountOf(vals: seq<JsonValue>): nat {
    if vals == [] then 0 else CountOf(vals[..|vals| - 1]) + (if Counted(vals[|vals| - 1]) then 1 else 0)
  }

  function TotalOf(vals: seq<JsonValue>): real {
    if vals == [] then 0.0 else TotalOf(vals[..|vals| - 1]) + (if Counted(vals[|vals| - 1]) then Amount(vals[|vals| - 1]) else 0.0)
  }

  /** The mean of the counted values, 0 when there are none. */
  function Average(vals: seq<JsonValue>): real {
    if CountOf(vals) == 0 then 0.0 else TotalOf(vals) / (CountOf(vals) as real)
  }

  /** n copies of x added up. */
  function Times(n: nat, x: real): real {
    if n == 0 then 0.0 else Times(n - 1, x) + x
  }

  lemma {:induction false} TimesIsProduct(n: nat, x: real)
    ensures Times(n, x) == (n as real) * x
  {
    if n > 0 {
      TimesIsProduct(n - 1, x);
      assert (n as real) * x == ((n - 1) as real) * x + x;
    }
  }

  /** The sum of the counted values lies between count * lo and count * hi. */
  lemma {:induction false} TotalBounds(vals: seq<JsonValue>, lo: real, hi: real)
    requires forall i :: 0 <= i < |vals| && Counted(vals[i]) ==> lo <= Amount(vals[i]) <= hi
    ensures Times(CountOf(vals), lo) <= TotalOf(vals) <= Times(CountOf(vals), hi)
  {
    if vals != [] {
      var init := vals[..|vals| - 1];
      assert forall i :: 0 <= i < |init| ==> init[i] == vals[i];
      TotalBounds(init, lo, hi);
    }
  }

  /** For positive n, n * a <= t <= n * b puts t / n between a and b. */
  lemma DivideBounds(t: real, n: real, a: real, b: real)
    requires n > 0.0 && n * a <= t <= n * b
    ensures a <= t / n <= b
  {
    var q := t / n;
    assert q * n == t;
    assert n * (q - a) >= 0.0 && n * (b - q) >= 0.0;
  }

  /** The average lies between the least and the greatest counted value. */
  lemma AverageBounds(vals: seq<JsonValue>, lo: real, hi: real)
    requires forall i :: 0 <= i < |vals| && Counted(vals[i]) ==> lo <= Amount(vals[i]) <= hi
    requires CountOf(vals) > 0
    ensures lo <= Average(vals) <= hi
  {
    TotalBounds(vals, lo, hi);
    MeanBounds(TotalOf(vals), CountOf(vals), lo, hi);
  }

  /** A total between c copies of lo and c copies of hi has its mean between lo and hi. */
  lemma MeanBounds(t: real, c: nat, lo: real, hi: real)
    requires c > 0 && Times(c, lo) <= t <= Times(c, hi)
    ensures lo <= t / (c as real) <= hi
  {
    TimesIsProduct(c, lo);
    TimesIsProduct(c, hi);
    DivideBounds(t, c as real, lo, hi);
  }

  /** Values that are not counted change nothing. */
  lemma {:induction false} UncountedIgnored(vals: seq<JsonValue>, v: JsonValue)
    requires !Counted(v)
    ensures Average(vals + [v]) == Average(vals)
  {
    assert (vals + [v])[..|vals|] == vals;
  }

  /** `calculate_average` without the rounding: KeyError unless every listed course is in the
      file, otherwise the mean of the counted values of the listed courses. */
  method CalculateAverage(jsonDct: map<string, JsonValue>, courseLst: seq<string>) returns (r: Result<real>)
    ensures r.Ok? <==> forall i :: 0 <= i < |courseLst| ==> courseLst[i] in jsonDct
    ensures r.Raise? ==> r.error == KeyError
    ensures r.Ok? ==> r.value == Average(seq(|courseLst|, i requires 0 <= i < |courseLst| && courseLst[i] in jsonDct => jsonDct[courseLst[i]]))
  {
    var valueCount := 0;
    var totalValue := 0.0;
    ghost var vals: seq<JsonValue> := [];
    var i := 0;
    while i < |courseLst|
      invariant 0 <= i <= |courseLst|
      invariant forall j :: 0 <= j < i ==> courseLst[j] in jsonDct
      invariant |vals| == i && forall j :: 0 <= j < i ==> vals[j] == jsonDct[courseLst[j]]
      invariant valueCount == CountOf(vals) && totalValue == TotalOf(vals)
    {
      if courseLst[i] !in jsonDct {
        return Raise(KeyError);
      }
      var v := jsonDct[courseLst[i]];
      assert (vals + [v])[..i] == vals;
      vals := vals + [v];
      if Counted(v) {
        valueCount := valueCount + 1;
        totalValue := totalValue + Amount(v);
      }
      i := i + 1;
    }
    assert vals == seq(|courseLst|, i requires 0 <= i < |courseLst| && courseLst[i] in jsonDct => jsonDct[courseLst[i]]);
    if valueCount == 0 {
      return Ok(0.0);
    }
    return Ok(totalValue / (valueCount as real));
  }
}
