# DTU course data back end — a verified model

DTU_Courses collects data about DTU's courses from the university's public websites. Those
sites are the course archive, the grade histograms, the course evaluations and the course
information pages. The collected data is fed to a small Flask site that filters and ranks
courses. This project models the logic of the scraping back end and the website's filtering
helpers in Dafny, and proves what that logic promises.

The back end exists as several half-finished rewrites that sit side by side. The model
covers:

- **Terms** (`term.dfy`). A semester and year (`E`/`F`, 2000–2059) has three derived
  strings: its short name (`E18`), its exam period (`Winter-2018`) and its academic year
  (`2018-2019`).
- **URL resolution** (`urls.dfy`, `url_locator.dfy`). There are 29 archive URLs, one per
  letter A–Z, Æ, Ø, Å. There are also the grade-histogram, information-page and
  evaluation URLs.
- **Markup records** (`markup.dfy`, `html_parser.dfy`, `scrapes.dfy`, `course_lists.dfy`).
  - The HTML library is replaced by what the parsers read: an optional table of rows of
    cells, or a list of `Term` divs with their parent links.
  - The model covers the header skip, the first-cell → second-cell map and the last-wins
    merge.
  - It also covers the sorted output, the skipped "Semester" label and the
    evaluation-key reformatting.
  - It covers the grade parser's choice between an empty result and a loud error.
- **Grades** (`grade.dfy`, `grade_sheet.dfy`, `grades.dfy`). This covers the factories and
  their flags, the fixed 12-grade catalogue, the sheets, the quantity counts and the
  average on the seven-step scale in exact `real` arithmetic.
- **Retrieval** (`transport.dfy`, `data_extractor.dfy`, `html_scraper.dfy`, `tiers.dfy`,
  `containers.dfy`, `dao.dfy`).
  - The browser is a `Fetcher` object. It holds a page function and a load predicate, and
    it logs every URL it is asked for, so the model can count fetches.
  - Around it sit the memoised evaluation-URL caches, the tiered persistence keys and the
    `retrieve_data` control flow.
  - Also covered are the school containers, the DAOs and the data manager.
- **Website helpers** (`context_dicts.dfy`) and the **dump check** (`jsontest.dfy`).
  - The website helpers are the url-argument filter, the ordering, the query string and
    the averages.
  - The dump check is a marker classifier whose counters add up to the number of pages.

Shared building blocks live in separate files:

- Python's insertion-ordered `dict` is `Dicts.Dict`.
- String order and sorting are in `StringOrder`.
- String helpers such as `split`, `strip`, `capitalize` and decimal printing are in `Text`.
- Python exceptions are the `Raise` case of `Wrappers.Result`.

Several source files are copies of each other, and each such group is modelled once:

- The archive URL loop appears in `urls.py`, `url_locator.py`, both `scrape_course_*.py`
  files and `sigh_dps_players.py`. It is `Urls.ArchiveUrls`.
- The row loop appears in `html_parser.py`, `scrapes.py`, both `scrape_course_*.py` files
  and `sandbox_2/http_parser.py`. It is `Markup.NamesOf` or `Markup.CodesOf`.
- The `Term`-div loop appears in `html_parser.py` and `scrapes.py`. It is `Markup.HrefsOf`.
- The `Grade` class appears in `grade.py` and `grades.py`. It is `Grading.Grade`. The
  `grades.py` factories `create_failed` and `create_not_attended` are
  `CreateAttendedButFailed` and `CreateAbsent`.
- The four `instantiate_dtu_grades` copies are `Grading.Grade.InstantiateDtuGrades`.
- The DAO classes appear in `choose_love.py` and `legacy_stuff.py`. They are `Daos.Dao`,
  with a kind for each of `Registry`, `FileAccess` and `DiskAccess`.

## Model

| member | source | states |
|---|---|---|
| Terms.New | sandbox/term.py:59-79 | A term is built exactly when the year is within 2000–2059 and the semester is "E" or "F"; every other pair raises ValueError |
| Terms.NewOfValid | sandbox/term.py:6-10 | Every valid term is what the constructor builds from its own year and semester code |
| Terms.InAutumn | sandbox/term.py:12-15 | `in_autumn(y)` is the E-term of year y, and raises exactly when y is out of bounds |
| Terms.InSpring | sandbox/term.py:17-20 | `in_spring(y)` is the F-term of year y, and raises exactly when y is out of bounds |
| Terms.TermName | sandbox/term.py:22-29 | `get_term_name`: the semester letter followed by year − 2000, or ValueError for years up to 2000. Its round trip and injectivity are `TermNameRoundTrip` and `TermNameInjective` |
| Terms.ParseTermName | sandbox/term.py:22-29 | The independent reading of a short name (a letter, then decimal digits) that the round trip is stated against |
| Terms.TermNameRoundTrip | sandbox/term.py:22-29 | For a year after 2000 the short name exists and reads back to the same term (semester letter, then the unpadded year − 2000) |
| Terms.TermNameInjective | sandbox/term.py:25-27 | Two terms after 2000 with the same short name are the same term |
| Terms.TermNameExamples | sandbox/term.py:22-27 | 2018/E is "E18", 2005/E is "E5" and 2023/F is "F23" |
| Terms.YearTwoThousandHasNoName | sandbox/term.py:25-29 | The constructor accepts 2000/E, yet its short name raises ValueError because the year guard is a strict `>` |
| Terms.ExamPeriod | sandbox/term.py:31-39 | `get_exam_period`: "Winter-{y}" for E and "Summer-{y}" for F. `ExamPeriodInjective` states that it determines the term |
| Terms.ExamPeriodInjective | sandbox/term.py:31-39 | "Winter-{y}"/"Summer-{y}" determines the term |
| Terms.AcademicYear | sandbox/term.py:41-49 | `get_academic_year`. Its shape and sharing are `AcademicYearSpan`, `AcademicYearIdentifiesStart` and `AutumnAndNextSpringShareYear` |
| Terms.AutumnAndNextSpringShareYear | sandbox/term.py:41-49 | Autumn y and spring y+1 have the same academic year |
| Terms.AcademicYearIdentifiesStart | sandbox/term.py:41-49 | Two valid terms share an academic year exactly when they share its starting calendar year |
| Terms.AcademicYearSpan | sandbox/term.py:41-49 | The academic year is "{s}-{s+1}", where s is y for E and y−1 for F |
| Terms.ConvertTermNamesToAcademicYears | sandbox/term.py:51-57 | The result is exactly the set of the inputs' academic years, and is never larger than the input set |
| Urls.AlphabetDistinct | sandbox/urls.py:21-23 | The alphabet has 29 pairwise distinct letters |
| Urls.ArchiveUrls | sandbox/urls.py:24-28 | The archive URL list of an academic year. `ArchiveUrlsSpec` states its length, shape and distinctness |
| Urls.ArchiveUrlsSpec | sandbox/urls.py:24-28 | There are 29 URLs; URL i is "https://kurser.dtu.dk/archive/{year}/letter/" followed by letter i; they are pairwise distinct |
| Urls.LocateNames | sandbox/urls.py:19-29 | The append loop returns exactly the archive URL list in alphabet order |
| Urls.ConvertTermToExamPeriod | sandbox/urls.py:32-47 | `_convert_term_to_exam_period` as written. `ConvertTermToExamPeriodSpec` states its success and error cases |
| Urls.ConvertTermToExamPeriodSpec | sandbox/urls.py:32-47 | The conversion succeeds exactly when the first char is E or F. Otherwise it raises ValueError when a second char exists (both remaining branches raise), and IndexError when it does not |
| Urls.NinetiesAreNotRejected | sandbox/urls.py:37-44 | "E98" gives "Winter-2098"; the 8/9 check is reached only when the first char is neither E nor F |
| Urls.ConvertTermNameGivesExamPeriod | sandbox/urls.py:37-41 | For years 2010–2059, converting a term's short name gives that term's exam period |
| Urls.ConvertSingleDigitTermName | sandbox/urls.py:37-41 | As written, the name "E5" of 2005/E converts to "Winter-20E5", not "Winter-2005" |
| Urls.ConvertTermNameByYearGivesExamPeriod | sandbox/urls.py:32-41 | Reading all digits after the letter instead, every term after 2000 converts to its exam period |
| Urls.ConvertTermToExamPeriodByYear | sandbox/urls.py:32-41 | The conversion as the docstring means it ("E20" → "Winter-2020"): all digits after the letter are the year − 2000. `ConvertTermNameByYearGivesExamPeriod` states that it inverts the short name into the exam period |
| Urls.HistogramUrl | sandbox/urls.py:54-57 | The grade-histogram URL of a course in an exam period. `HistogramUrlInjective` states that it determines the course |
| Urls.HistogramUrlInjective | sandbox/urls.py:54-57 | Within one exam period, the histogram URL determines the course |
| Urls.LocateGrades | sandbox/urls.py:50-58 | There is one histogram URL per course, in list order, all with the term's exam period; a term that does not convert raises the conversion's error |
| UrlLocator.LocateCourseArchive | sandbox/url_locator.py:10-27 | The loop returns the 29 archive URLs of the term's academic year |
| UrlLocator.EvaluationUrl | sandbox/url_locator.py:35-38 | "https://evaluering.dtu.dk/kursus/{course}/{digits}", the URL `LocateEvaluations` is stated against |
| UrlLocator.ArchiveSharedAcrossAcademicYear | sandbox/url_locator.py:22-26 | Autumn y and spring y+1 get identical archive lists |
| UrlLocator.ArchiveIdentifiesAcademicYear | sandbox/url_locator.py:22-26 | Two valid terms get the same archive list exactly when they share the academic year's starting year |
| UrlLocator.ArchiveUrlsDetermine | sandbox/url_locator.py:24-26 | The archive list determines the academic year string |
| UrlLocator.LocateEvaluations | sandbox/url_locator.py:30-39 | The semester keys are the same as in the digits map, in the same order, and each maps to "https://evaluering.dtu.dk/kursus/{course}/{digits}" |
| UrlLocator.LocateGrades | sandbox/url_locator.py:42-47 | "https://karakterer.dtu.dk/Histogram/1/{course}/{exam period}". `LocateGradesInjective` states that for one course it determines the term |
| UrlLocator.LocateGradesInjective | sandbox/url_locator.py:42-47 | For one course, the grade URL determines the term |
| UrlLocator.LocateInformation | sandbox/url_locator.py:49-55 | "https://kurser.dtu.dk/course/{academic year}/{course}". `LocateInformationByAcademicYear` and `InformationSharedAcrossAcademicYear` state which terms share it |
| UrlLocator.LocateInformationByAcademicYear | sandbox/url_locator.py:50-55 | Two valid terms get the same information URL exactly when they share the academic year |
| UrlLocator.InformationSharedAcrossAcademicYear | sandbox/url_locator.py:50-55 | Autumn y and spring y+1 get the same information URL |
| Grading.PassedInfo | sandbox/grade.py:24-28 | `create_passed` gives a grade that is attended and passed, with the given name and weight |
| Grading.FailedInfo | sandbox/grade.py:40-44 | `create_attended_but_failed` gives a grade that is attended and not passed |
| Grading.AbsentInfo | sandbox/grade.py:32-37 | `create_absent` gives no weight, not attended, not passed, and therefore not numeric |
| Grading.FactoriesAreConsistent | sandbox/grade.py:23-44 | Every factory grade satisfies "passed implies attended" |
| Grading.DtuCatalogueSpec | sandbox/grade.py:47-64 | The catalogue has 12 grades. The first seven carry the weights 12, 10, 7, 4, 2, 0, −3 and the last five are not numeric. All are factory-built (so passing implies attending) and all names are distinct |
| Grading.DtuCatalogue | sandbox/grade.py:47-64 | The attributes of the twelve grades `instantiate_dtu_grades` builds, in order. `DtuCatalogueSpec` states their weights, flags and names |
| Grading.Grade.constructor | sandbox/grade.py:10-20 | The new grade has the given attributes and quantity 0, and it is numeric exactly when a weight is given |
| Grading.Grade.CreatePassed | sandbox/grade.py:24-28 | A fresh grade with the passed attributes, consistent flags and quantity 0 |
| Grading.Grade.CreateAttendedButFailed | sandbox/grade.py:40-44 | A fresh grade with the attended-but-failed attributes and quantity 0 |
| Grading.Grade.CreateAbsent | sandbox/grade.py:32-37 | A fresh grade with the absent attributes and quantity 0 |
| Grading.Grade.SetQuantity | sandbox/grade.py:66-68 | Only the quantity changes, and it becomes the given number |
| Grading.Grade.GetQuantity | sandbox/grade.py:70-72 | The number of students holding the grade. `SetThenGet` states that it reads back what `set_quantity` wrote |
| Grading.Grade.PassesExam | sandbox/grade.py:74-77 | The grade's passed flag. For factory grades `FactoriesAreConsistent` states that it implies `AttendedExam` |
| Grading.Grade.AttendedExam | sandbox/grade.py:79-82 | The grade's attended flag. `PassedInfo`, `FailedInfo` and `AbsentInfo` state its value for each factory |
| Grading.Grade.IsNumeric | sandbox/grade.py:84-87 | The grade's numeric flag. The constructor's contract states that it holds exactly when a weight is given |
| Grading.Grade.GetName | sandbox/grade.py:89-91 | The grade's name. `DtuCatalogueSpec` states that the catalogue's names are distinct |
| Grading.Grade.GetWeight | sandbox/grade.py:93-99 | The weight of a numeric grade, None otherwise; a result is present exactly when the grade has a weight |
| Grading.Grade.SetThenGet | sandbox/grade.py:66-72 | After `set_quantity(q)`, `get_quantity()` reads q |
| Grading.Grade.InstantiateDtuGrades | sandbox/grade.py:47-64 | Twelve fresh, pairwise distinct grades, with the catalogue's attributes in catalogue order and quantity 0 |
| GradeSheets.Average | sandbox/grade_sheet.py:61-74 | The average is None exactly when no numeric grade was given. Otherwise it is the weighted sum divided by the numeric count |
| GradeSheets.CatalogueOnScale | sandbox/grade_sheet.py:46-52 | Every numeric catalogue weight lies on the seven-step scale −3..12 |
| GradeSheets.WeightedSumBounds | sandbox/grade_sheet.py:64-69 | With weights on the scale and nonnegative quantities, the weighted sum lies between −3·count and 12·count, and the numeric count is at most the total |
| GradeSheets.AverageOnScale | sandbox/grade_sheet.py:61-74 | Any average is between −3 and 12 |
| GradeSheets.NonNumericIgnored | sandbox/grade_sheet.py:66-69 | Changing only the quantities of non-numeric grades changes neither count, sum nor average |
| GradeSheets.SingleGradeCount | sandbox/grade_sheet.py:64-69 | If only one numeric grade has students, the count is its quantity and the sum is its quantity times its weight |
| GradeSheets.ZeroSheet | sandbox/grade_sheet.py:64-69 | All-zero quantities give count 0 and sum 0 |
| GradeSheets.SingleGradeAverage | sandbox/grade_sheet.py:61-74 | If only one numeric grade has students, the average is exactly that grade's weight |
| GradeSheets.AsWrittenSheetMislabels | sandbox/grade_sheet.py:14-20 | As written, fields 10, 7, 4 and 02 differ from the catalogue while the rest agree; one student with a 10 averages 12.0 instead of 10.0 |
| GradeSheets.LabelsDistinct | sandbox/grade_sheet.py:92-105 | The 13 website labels are pairwise distinct |
| GradeSheets.NamesDistinct | sandbox/grade_sheet.py:92-105 | The 13 sheet names are pairwise distinct |
| GradeSheets.WebsiteGradeNamesSpec | sandbox/grade_sheet.py:91-106 | The mapping has exactly the 13 website labels as keys, in order, and maps each to its sheet name; no two labels share a value |
| GradeSheets.WebsiteGradeNames | sandbox/grade_sheet.py:91-106 | The dict `convert_names_from_dtu_website_format` assigns. `WebsiteGradeNamesSpec` states its keys, order and values |
| GradeSheets.CatalogueNamesAreLabels | sandbox/grade_sheet.py:93-98 | The first six catalogue names are the website labels, and their sheet names are "GRADE_" plus the label |
| GradeSheets.AsWrittenGrades | sandbox/grade_sheet.py:14-26 | The twelve fields as written: fresh grades with the as-written attributes and quantity 0 |
| GradeSheets.GradeSheet.constructor | sandbox/grade_sheet.py:6-39 | A fresh sheet holds 12 fresh grades with the catalogue's attributes and quantities 0, with empty name and count dicts |
| GradeSheets.GradeSheet.AsWritten | sandbox/grade_sheet.py:6-39 | The same sheet, but with the fields the source writes |
| GradeSheets.GradeSheet.Infos | sandbox/grade_sheet.py:28-39 | The attributes of the sheet's grades, position by position |
| GradeSheets.GradeSheet.Quantities | sandbox/grade_sheet.py:28-39 | The quantities of the sheet's grades, position by position |
| GradeSheets.GradeSheet.CalculateAverage | sandbox/grade_sheet.py:61-74 | The loop computes `Average` of the sheet: None without numeric grades, otherwise the weighted sum divided by the count |
| GradeSheets.GradeSheet.CalculateAverageAsWritten | sandbox/grade_sheet.py:70 | As written, `len(count)` on an int always raises TypeError |
| GradeSheets.GradeSheet.CountGrades | sandbox/grade_sheet.py:76-81 | The number of grades is the sum of all twelve quantities |
| GradeSheets.GradeSheet.ConvertNamesFromDtuWebsiteFormat | sandbox/grade_sheet.py:91-106 | Sets `grade_types` to the fixed 13-entry mapping and leaves `_grade_dct` as it was |
| GradeSheets.NewSheetIsEmpty | sandbox/grade_sheet.py:61-81 | A fresh sheet counts 0 grades and has no average |
| GradeCounts.OutcomesPartition | sandbox/grades.py:101-121 | The students who passed, failed and were absent add up to all students |
| GradeCounts.KindsPartition | sandbox/grades.py:123-138 | The numeric, pass/fail and not-attended counts add up to all students |
| GradeCounts.AbsentIsNotAttended | sandbox/grades.py:116-121 | The absent outcome and the not-attended kind count the same students |
| GradeCounts.GradeSheet.constructor | sandbox/grades.py:4-24 | A new sheet has the catalogue's twelve grades in its list. Its fields carry the catalogue's attributes except that the last is named 'unqualified'. Quantities are 0 and the name map is empty |
| GradeCounts.GradeSheet.ConvertNamesFromDtuWebsiteFormat | sandbox/grades.py:160-175 | Sets `grade_types` to the same fixed 13-entry mapping |
| GradeCounts.GradeSheet.CountPassed | sandbox/grades.py:101-108 | `count_passed`. `CountsFollowOutcomes` states that it sums exactly the passing fields |
| GradeCounts.GradeSheet.CountFailed | sandbox/grades.py:110-114 | `count_failed`. `CountsFollowOutcomes` states that it sums exactly the attended-but-failed fields |
| GradeCounts.GradeSheet.CountAbsent | sandbox/grades.py:116-121 | `count_absent`. `CountsFollowOutcomes` states that it sums exactly the absent fields |
| GradeCounts.GradeSheet.CountNumeric | sandbox/grades.py:123-132 | `count_numeric`. `CountsFollowKinds` states that it sums exactly the weighted fields |
| GradeCounts.GradeSheet.CountBinary | sandbox/grades.py:134-138 | `count_binary`. `CountsFollowKinds` states that it sums exactly pass and fail |
| GradeCounts.CountsFollowOutcomes | sandbox/grades.py:101-121 | `count_passed`, `count_failed` and `count_absent` each add up exactly the fields whose factory gives that outcome |
| GradeCounts.CountsFollowKinds | sandbox/grades.py:123-138 | `count_numeric` covers exactly the seven weighted grades and `count_binary` exactly pass and fail |
| GradeCounts.CountsPartitionSheet | sandbox/grades.py:101-138 | On a sheet, passed+failed+absent and numeric+binary+absent each equal the total |
| Markup.DataRows | sandbox/html_parser.py:17 | `find_all('tr')[1:]` is every row but the header, in order |
| Markup.RowPair | sandbox/html_parser.py:19-20 | A row reads as (first cell, second cell) exactly when it has two cells. With no cell it raises AttributeError; with one cell it raises IndexError |
| Markup.NamesOf | sandbox/html_parser.py:18-21 | The id → name row loop. The `NamesOf*` lemmas state its error cases, keys and last-wins values |
| Markup.NamesOfOk | sandbox/html_parser.py:18-21 | The row loop succeeds exactly when every row is readable |
| Markup.NamesOfFails | sandbox/html_parser.py:18-21 | The loop raises the error of the first unreadable row |
| Markup.NamesOfRaisePersists | sandbox/html_parser.py:18-21 | Once a row raises, later rows change nothing |
| Markup.NamesOfValid | sandbox/html_parser.py:18-21 | With readable rows the result is a well-formed dict |
| Markup.NamesOfKeys | sandbox/html_parser.py:18-21 | Its keys are exactly the rows' first cells |
| Markup.NamesOfLastWins | sandbox/html_parser.py:18-21 | A repeated id keeps the name of its last row |
| Markup.ExtractCourseNames | sandbox/scrapes.py:62-73 | The loop computes the name dict of the table: {} with no table, otherwise the row map |
| Markup.CourseNames | sandbox/scrapes.py:62-73 | The name dict of an optional table, which `ExtractCourseNames` computes: {} without a table, otherwise the row map of the data rows |
| Markup.CodesOf | sandbox/scrape_course_list.py:40-44 | The code-appending row loop. `CodesOfSpec`, `CodesAreNameKeys` and `CodesOfRaisePersists` state it |
| Markup.CodesOfSpec | sandbox/scrape_course_list.py:39-44 | The code list fails exactly when the dict loop fails, and with the same error. Otherwise it has one entry per data row, being that row's first cell in row order, duplicates kept |
| Markup.CodesAreNameKeys | sandbox/scrape_course_list.py:40-44 | The codes are exactly the keys of the side dict `course_dict`, which therefore does not affect the result |
| Markup.CodesOfRaisePersists | sandbox/scrape_course_list.py:40-44 | Once a row raises, later rows change nothing |
| Markup.ExtractCourseCodes | sandbox_2/http_parser.py:6-18 | The loop computes the code list of the table: [] with no table |
| Markup.CourseCodes | sandbox_2/http_parser.py:6-18 | The code list of an optional table, which `ExtractCourseCodes` computes: [] without a table, otherwise the codes of the data rows |
| Markup.ParentHref | sandbox/scrapes.py:57 | `find_parent('a')['href']` succeeds exactly when the div has a link parent with an href |
| Markup.HrefsOf | sandbox/scrapes.py:54-58 | The label → href loop over the `Term` divs. The `HrefsOf*` lemmas state its error cases, keys and values |
| Markup.HrefsOfRaisePersists | sandbox/scrapes.py:54-58 | Once a div raises, later divs change nothing |
| Markup.HrefsOfOk | sandbox/scrapes.py:54-58 | The div loop succeeds exactly when every non-"Semester" div has a linked parent |
| Markup.HrefsOfValid | sandbox/scrapes.py:54-58 | With linked parents the result is well formed and has no "Semester" key |
| Markup.AddDivKeys | sandbox/scrapes.py:55-58 | One div adds its trimmed label as a key unless the label is "Semester" |
| Markup.HrefsOfKeys | sandbox/scrapes.py:54-58 | The keys are exactly the trimmed labels other than "Semester" |
| Markup.HrefsOfLastWins | sandbox/scrapes.py:54-58 | A repeated label keeps the href of its last div |
| Markup.ExtractTermHrefs | sandbox/scrapes.py:50-59 | The loop computes the label → href dict of the divs |
| HtmlParsing.CourseArchive | sandbox/html_parser.py:11-23 | `parse_course_archive`'s result. `CourseArchiveSpec` states its error case, contents and key order |
| HtmlParsing.ParseCourseArchive | sandbox/html_parser.py:11-23 | The loop and sort compute the archive dict of the table |
| HtmlParsing.CourseArchiveSpec | sandbox/html_parser.py:14-22 | No table gives {}. Otherwise the parse succeeds exactly when all data rows are readable. The result is well formed and has the row map's contents with the keys in ascending order |
| HtmlParsing.ParseEvaluations | sandbox/html_parser.py:27-31 | The page followed by one "ø" |
| HtmlParsing.GradeCounts | sandbox/html_parser.py:43-49 | The grade dict of the third table. `GradeCountsKeys`, `GradeCountsValues` and `GradeCountsLastWins` state its keys and counts |
| HtmlParsing.ParseGrades | sandbox/html_parser.py:34-56 | `parse_grades`. `ParseGradesSpec` states when it is empty, when it raises, and that its dict is the third table's grade counts |
| HtmlParsing.CapitalizedItems | sandbox/html_parser.py:48-49 | Each grade key is stringified and capitalized, keeping its count and position |
| HtmlParsing.CapitalizeKeys | sandbox/html_parser.py:49 | `{k.capitalize(): v for k, v in d.items()}`. `GradeCountsKeys`, `GradeCountsValues` and `GradeCountsLastWins` state its keys and values |
| HtmlParsing.GradeCountsKeys | sandbox/html_parser.py:45-49 | The grade dict's keys are exactly the capitalized grade labels |
| HtmlParsing.GradeCountsValues | sandbox/html_parser.py:43-49 | Every count stored under a key is the count of some row of the table whose label capitalizes to that key |
| HtmlParsing.GradeCountsLastWins | sandbox/html_parser.py:43-49 | When capitalizing merges no two different labels, the key of a label holds the count of the last row carrying that label |
| HtmlParsing.ParseGradesSpec | sandbox/html_parser.py:34-56 | The result is {} without error exactly on an HTTP failure or fewer than three tables. With a third table, an empty dict (or no `Karakter` column) raises. Otherwise the result is that table's grade dict, in which every key is capitalized and, by `GradeCountsValues`/`GradeCountsLastWins`, holds a label's count |
| HtmlParsing.FormatKey | sandbox/html_parser.py:81 | The formatted key has no '-' and at most 3 chars |
| HtmlParsing.FormatItems | sandbox/html_parser.py:80-83 | Each pair is reformatted in place, key and value apart |
| HtmlParsing.FormatKeyExample | sandbox/html_parser.py:77-81 | 'E-18-13' formats to 'E18' |
| HtmlParsing.FormatHrefExample | sandbox/html_parser.py:77-82 | '/kursus/01005/168580' formats to '168580' |
| HtmlParsing.FormatHrefOfLink | sandbox/html_parser.py:82 | For every '/kursus/{c}/{id}' link whose parts have no '/', the value is id |
| HtmlParsing.FormatHref | sandbox/html_parser.py:82 | `value.split('/')[-1]`. `FormatHrefSpec` and `FormatHrefOfLink` state what it returns |
| HtmlParsing.FormatHrefSpec | sandbox/html_parser.py:82 | The value is the suffix after the last '/', and has no '/' |
| HtmlParsing.FormattedUrls | sandbox/html_parser.py:79-86 | The dict `_format_evaluation_urls` builds. `FormattedUrlsKeys` and `FormattedUrlsValues` state its keys and values |
| HtmlParsing.FormattedUrlsKeys | sandbox/html_parser.py:79-86 | The keys are exactly the formatted old keys (colliding keys collapse, last wins) |
| HtmlParsing.FormattedUrlsValues | sandbox/html_parser.py:79-86 | Every value is the last segment of some old value |
| HtmlParsing.FormatEvaluationUrls | sandbox/html_parser.py:74-86 | The loop computes the formatted dict |
| HtmlParsing.ParseEvaluationUrlSearchpage | sandbox/html_parser.py:60-71 | The div loop followed by formatting computes the search-page dict |
| HtmlParsing.EvaluationSearch | sandbox/html_parser.py:60-71 | `parse_evaluation_url_searchpage`'s result. `EvaluationSearchSpec` states its error case and keys |
| HtmlParsing.EvaluationSearchSpec | sandbox/html_parser.py:63-70 | The parse succeeds exactly when every non-"Semester" div is linked; its keys are exactly the formatted non-"Semester" labels |
| Scraping.Merge | sandbox/scrapes.py:15-17 | The `update` merge over pages. The `Merge*` lemmas state its error case, keys, values and key order |
| Scraping.MergeOk | sandbox/scrapes.py:15-17 | The `update` merge succeeds exactly when every page's scrape succeeds |
| Scraping.MergeKeys | sandbox/scrapes.py:15-17 | The merged keys are exactly the keys of some page |
| Scraping.MergeLastWins | sandbox/scrapes.py:16-17 | A key takes the value of the last page that has it |
| Scraping.MergeKeepsOrder | sandbox/scrapes.py:16-17 | The keys of an earlier prefix of pages come first, in their order |
| Scraping.MergeRaisePersists | sandbox/scrapes.py:16-17 | A failing page stops the merge with its error |
| Scraping.NamesScraper | sandbox/scrapes.py:62-73 | `_scrape_names` per page, always giving well-formed dicts |
| Scraping.SortedNames | sandbox/scrapes.py:13-19 | `get_names` after fetching. `SortedNamesSpec` states it |
| Scraping.SortedNamesSpec | sandbox/scrapes.py:13-19 | `get_names` succeeds exactly when all pages parse, and is sorted by key. Its keys come from some page and each value is the value from the last page holding that key |
| Scraping.MergeNames | sandbox/scrapes.py:15-17 | The loop computes the merge |
| Scraping.GetNames | sandbox/scrapes.py:9-19 | If all 29 archive URLs load, the result is the sorted merge of their pages and exactly those URLs are fetched. Otherwise TimeoutError, after fetching up to and including the first URL that times out |
| Scraping.HrefsScraper | sandbox/scrapes.py:50-59 | `_scrape_hrefs_needed_for_evals` per page, always giving well-formed dicts |
| Scraping.EvaluationKey | sandbox/scrapes.py:31 | The key formatting succeeds exactly when the href has a '/'; otherwise `split('/')[-2]` raises |
| Scraping.EvaluationItemsSpec | sandbox/scrapes.py:31 | The comprehension succeeds exactly when every href has a '/', and then maps each pair in order |
| Scraping.EvaluationItems | sandbox/scrapes.py:31 | The pairs of the `get_hrefs` comprehension, raising at the first href without '/'. `EvaluationItemsSpec` states when it succeeds and what it maps |
| Scraping.EvaluationItemsOk | sandbox/scrapes.py:31 | The same condition, stated over the merged dict |
| Scraping.EvaluationItemsKeys | sandbox/scrapes.py:31 | Every label of the merged dict yields a key of the result |
| Scraping.EvaluationHrefs | sandbox/scrapes.py:27-31 | `get_hrefs` after fetching. `EvaluationHrefsSpec` and `EvaluationLinkFormat` state it |
| Scraping.EvaluationHrefsSpec | sandbox/scrapes.py:27-31 | `get_hrefs` succeeds exactly when the merge succeeds and every href has a '/'; the result is well formed |
| Scraping.MergeHrefs | sandbox/scrapes.py:27-29 | The loop computes the merge |
| Scraping.GetHrefs | sandbox/scrapes.py:22-32 | The search pages of the courses, in order, are merged and formatted; one search per course |
| Scraping.EvaluationLinkFormat | sandbox/scrapes.py:30-31 | 'E-18-13' with '/kursus/01005/168580' gives the key 'E18_01005' and the value '168580', and the same holds for every such link |
| CourseLists.CodesPerPage | sandbox/scrape_course_list.py:12-16 | The per-page code lists. `CodesPerPageSpec` states their order and the error case |
| CourseLists.CodesPerPageSpec | sandbox/scrape_course_list.py:12-16 | There is one code list per page, in page order, not flattened; the first failing page's error is raised |
| CourseLists.CodesPerPageRaisePersists | sandbox/scrape_course_list.py:12-16 | A failing page stops the loop |
| CourseLists.ExtractPerPage | sandbox/scrape_course_list.py:12-16 | The loop computes the per-page lists |
| CourseLists.PageCodes | sandbox/scrape_course_list.py:32-45 | A page that timed out (None) raises TypeError; otherwise the codes of its table |
| CourseLists.PageCodesAreCourseIds | sandbox/scrape_course_list.py:39-44 | A page's codes are exactly the ids of its archive dict |
| CourseLists.PageWithoutTableIsEmpty | sandbox/scrape_course_list.py:35-45 | A page without a table gives [] |
| CourseLists.GetCourseList | sandbox/scrape_course_list.py:9-16 | `get`: the code lists of the 29 archive pages, a timeout being None, after fetching exactly those URLs |
| CourseLists.TimeoutRaises | sandbox/scrape_course_list.py:11-15 | One timed-out page makes `get` raise |
| CourseLists.GetCourseCodes | sandbox/scrape_course_codes.py:8-15 | When every page loads and parses, the result is None, because `list.sort()` returns None. A failing parse raises its error and a timeout raises TimeoutError. All 29 archive URLs are fetched when they load; otherwise exactly those up to and including the first that times out. Nothing is searched |
| Transport.Fetcher.constructor | sandbox/web_scraping_tool.py:15-18 | A new tool has fetched and searched nothing |
| Transport.Fetcher.PageAt | sandbox/web_scraping_tool.py:34-43 | A page is its content when it loads, and "" on a timeout |
| Transport.Fetcher.GetPageSource | sandbox/web_scraping_tool.py:34-43 | Returns that page and logs exactly that one URL |
| Transport.Fetcher.PaginateToEvaluationHrefs | sandbox/web_scraping_tool.py:47-57 | Returns the course's search page and logs exactly that one search |
| Transport.Fetcher.RunWebdriver | sandbox/webdriver.py:14-25 | All pages, in order, exactly when every URL loads, with exactly those URLs fetched. Otherwise TimeoutError, with the URLs fetched up to and including the first that times out |
| Transport.Fetcher.RunScrapeDriver | sandbox/scrape.py:13-20 | One entry per URL, in order: the page, or None on a timeout |
| Transport.Fetcher.SearchForEvaluationHrefs | sandbox/webdriver.py:57-72 | One search page per course, in order |
| DataExtraction.LocatesUnique | sandbox/data_extractor.py:57-60 | The located URL dict is determined by the course and the digits |
| DataExtraction.Concat | sandbox/data_extractor.py:18-21 | The pages joined in order, as `page_source +=` builds them. `ConcatLayout` and `ConcatLength` state where each page sits and the total length |
| DataExtraction.ConcatLayout | sandbox/data_extractor.py:18-21 | Page i sits in the concatenation right after pages 0..i−1 |
| DataExtraction.ConcatLength | sandbox/data_extractor.py:18-21 | The length of the concatenation is the sum of the page lengths |
| DataExtraction.PagesOf | sandbox/data_extractor.py:20-21 | The pages of the URLs, in order |
| DataExtraction.FetchConcat | sandbox/data_extractor.py:18-21 | `page_source +=` over the URLs is the in-order concatenation of their pages, and fetches exactly those URLs |
| DataExtraction.DataExtractor.constructor | sandbox/data_extractor.py:8-12 | The extractor starts with an empty evaluation-URL cache |
| DataExtraction.DataExtractor.AccessCourseArchive | sandbox/data_extractor.py:14-22 | The concatenated archive pages of the term's academic year, fetched in order |
| DataExtraction.DataExtractor.AccessEvaluations | sandbox/data_extractor.py:24-32 | The cache gains at most this course, with one search on a miss. If the term's name raises, so does the method. If the name is missing from the map, the result is "" with no fetch. Otherwise exactly `urls[name]` is fetched |
| DataExtraction.DataExtractor.AccessGrades | sandbox/data_extractor.py:34-38 | Fetches exactly the located grade URL |
| DataExtraction.DataExtractor.AccessInformation | sandbox/data_extractor.py:40-44 | Fetches exactly the located information URL |
| DataExtraction.DataExtractor.AccessHrefDigits | sandbox/data_extractor.py:46-50 | One search for the course |
| DataExtraction.DataExtractor.GetEvaluationUrl | sandbox/data_extractor.py:52-61 | A hit returns the stored map with no scrape. A miss does one search and stores the located map under the course |
| DataExtraction.LookupTwice | sandbox/data_extractor.py:52-61 | Two lookups give the same map and at most one search, and none on a hit |
| HtmlScraping.ArchiveScraper | sandbox/html_scraper.py:21 | `parse_course_archive` per page, giving well-formed dicts |
| HtmlScraping.CourseList | sandbox/html_scraper.py:17-23 | `obtain_course_list` after fetching. `CourseListSpec` and `CourseListKeepsOrder` state it |
| HtmlScraping.CourseListSpec | sandbox/html_scraper.py:17-23 | The course list succeeds exactly when every page parses; it has no duplicates and holds exactly the ids of some page |
| HtmlScraping.CourseListKeepsOrder | sandbox/html_scraper.py:19-22 | The ids of earlier pages come first, in first-insertion order |
| HtmlScraping.MergeCourseArchives | sandbox/html_scraper.py:19-22 | The update loop computes the course list |
| HtmlScraping.HtmlScraper.constructor | sandbox/html_scraper.py:13-15 | The scraper starts with an empty evaluation-URL cache |
| HtmlScraping.HtmlScraper.ObtainCourseList | sandbox/html_scraper.py:17-23 | The course list of the located archive pages, fetched in order |
| HtmlScraping.HtmlScraper.ScrapeCourseArchive | sandbox/html_scraper.py:25-30 | One page per located URL, in URL order |
| HtmlScraping.HtmlScraper.ScrapeEvaluations | sandbox/html_scraper.py:32-40 | The cache is filled with at most one search. The result is "" with no fetch when the term is missing from the map; otherwise the page of `urls[term]` |
| HtmlScraping.HtmlScraper.ScrapeGrades | sandbox/html_scraper.py:42-45 | Fetches exactly the located grade URL |
| HtmlScraping.HtmlScraper.ScrapeInformation | sandbox/html_scraper.py:47-50 | Fetches exactly the located information URL |
| HtmlScraping.HtmlScraper.GetEvaluationUrl | sandbox/html_scraper.py:52-60 | The located map of the course is stored, with a search only on a miss |
| HtmlScraping.HtmlScraper.AccessHrefDigits | sandbox/html_scraper.py:62-64 | One search for the course |
| Tiers.TierKeyLast | sandbox_2/sigh_dps_players.py:97-107 | A tier key ends with its identifier's last char |
| Tiers.TierKeysDistinct | sandbox_2/sigh_dps_players.py:97-107 | The "_raw", "_map" and "_obj" keys never collide, whatever the bases |
| Tiers.TierKeyInjective | sandbox_2/sigh_dps_players.py:97-107 | Within one tier, the key determines the data key |
| Tiers.TierKey | sandbox_2/sigh_dps_players.py:97-107 | `f"{data_key}_{identifier}"`. `TierKeyLast`, `TierKeysDistinct` and `TierKeyInjective` state that the three tiers' keys never collide |
| Tiers.ScrapeKey | sandbox_2/sigh_dps_players.py:97-99 | The tier key with "raw" |
| Tiers.ParseKey | sandbox_2/sigh_dps_players.py:101-103 | The tier key with "map" |
| Tiers.DeserializeKey | sandbox_2/sigh_dps_players.py:105-107 | The tier key with "obj" |
| Tiers.DataStrategy.constructor | sandbox_2/sigh_dps_players.py:49-55 | The strategy starts with empty data and the three keys derived from the data key |
| Tiers.DataStrategy.ScrapedDataExists | sandbox_2/sigh_dps_players.py:76-77 | The scrape key is in the cache; `LoadScrapedData` succeeds exactly then |
| Tiers.DataStrategy.ParsedDataExists | sandbox_2/sigh_dps_players.py:78-79 | The parse key is in the database; `LoadParsedData` succeeds exactly then |
| Tiers.DataStrategy.DeserializedDataExists | sandbox_2/sigh_dps_players.py:80-81 | The deserialize key is in memory; `LoadDeserializedData` succeeds exactly then |
| Tiers.DataStrategy.LoadScrapedData | sandbox_2/sigh_dps_players.py:83-84 | Reads the cache under the scrape key only; a missing key raises KeyError and changes nothing |
| Tiers.DataStrategy.LoadParsedData | sandbox_2/sigh_dps_players.py:85-86 | Reads the database under the parse key only; a missing key raises KeyError and changes nothing |
| Tiers.DataStrategy.LoadDeserializedData | sandbox_2/sigh_dps_players.py:87-88 | Reads memory under the deserialize key only; a missing key raises KeyError and changes nothing |
| Tiers.DataStrategy.StoreScrapedData | sandbox_2/sigh_dps_players.py:90-91 | Writes the cache under the scrape key only; other tiers are unchanged |
| Tiers.DataStrategy.StoreParsedData | sandbox_2/sigh_dps_players.py:92-93 | Writes the database under the parse key only |
| Tiers.DataStrategy.StoreDeserializedData | sandbox_2/sigh_dps_players.py:94-95 | Writes memory under the deserialize key only, storing the object in hand or None |
| Tiers.DataStrategy.ScrapeData | sandbox_2/sigh_dps_players.py:57-59 | The scraped data becomes the source, and the scrape counter goes up by one |
| Tiers.DataStrategy.ParseData | sandbox_2/sigh_dps_players.py:61-63 | The parsed data becomes the parse of the scraped data |
| Tiers.DataContainer.constructor | sandbox_2/sigh_dps_players.py:302-304 | The container keeps its strategy |
| Tiers.DataContainer.RetrieveData | sandbox_2/sigh_dps_players.py:332-340 | Stored parsed data is returned unchanged, with the cache, the database and the scraped page left as they were. Otherwise the cached page, or a fresh scrape that is then cached, is parsed and stored. It scrapes exactly when both tiers miss. The memory tier and the deserialized data never change |
| Tiers.RetrieveTwice | sandbox_2/sigh_dps_players.py:332-340 | Two retrievals agree and scrape at most once together |
| Tiers.ScrapeCourseArchive | sandbox_2/sigh_dps_players.py:134-153 | `DtuCourses.scrape_data` is the concatenation of the 29 letter pages, fetched in alphabet order |
| Tiers.ArchivePages | sandbox_2/sigh_dps_players.py:134-153 | The 29 letter pages of an academic year, concatenated in alphabet order; `ScrapeCourseArchive` returns it |
| Tiers.LetterUrls | sandbox_2/sigh_dps_players.py:150-151 | One archive URL per letter |
| Tiers.ScrapeLetters | sandbox_2/sigh_dps_players.py:149-152 | The letter loop concatenates the pages in order |
| Tiers.AllDataRowsMembers | sandbox_2/sigh_dps_players.py:160-162 | The rows read are exactly the non-header rows of the tables |
| Tiers.AllDataRowsPrefix | sandbox_2/sigh_dps_players.py:160-162 | The rows of an earlier table come first |
| Tiers.CourseTables | sandbox_2/sigh_dps_players.py:156-169 | `DtuCourses.parse_data`'s result. `CourseTablesSpec` and `CourseTablesLastWins` state it |
| Tiers.CourseTablesSpec | sandbox_2/sigh_dps_players.py:156-169 | The parse succeeds exactly when every non-header row is readable. It then holds one entry per course id, keys ascending |
| Tiers.RowsRaisePersist | sandbox_2/sigh_dps_players.py:162-167 | Once a row raises, later rows change nothing |
| Tiers.CourseTablesLastWins | sandbox_2/sigh_dps_players.py:165-167 | A repeated id is overwritten, and the last row wins |
| Tiers.ReadRows | sandbox_2/sigh_dps_players.py:162-167 | The row loop of one table continues the dict of the rows before it |
| Tiers.ParseCourseTables | sandbox_2/sigh_dps_players.py:156-169 | The table loops compute the sorted parse |
| Tiers.YearName | sandbox_2/sigh_dps_players.py:479 | One generated year name. `YearNameInjective` and `YearNameExample` state its shape |
| Tiers.YearNameInjective | sandbox_2/sigh_dps_players.py:479 | "{y}'-'{y+1}" determines y |
| Tiers.Dtu.constructor | sandbox_2/sigh_dps_players.py:466-468 | The builder keeps its year bounds |
| Tiers.Dtu.PredefinedYearInterval | sandbox_2/sigh_dps_players.py:470-474 | The predefined interval is 2017 to 2023 |
| Tiers.Dtu.GenerateYearNames | sandbox_2/sigh_dps_players.py:476-480 | newest−oldest names (none if the interval is empty). Name i is "{oldest+i}'-'{oldest+i+1}", and the names are distinct |
| Tiers.YearNamesDistinct | sandbox_2/sigh_dps_players.py:478-479 | Names for consecutive years are pairwise distinct |
| Tiers.PredefinedYearNames | sandbox_2/sigh_dps_players.py:470-480 | The predefined interval gives 6 names, from "2017'-'2018" to "2022'-'2023" |
| Tiers.FirstPredefined | sandbox_2/sigh_dps_players.py:479 | The name of 2017 is "2017'-'2018" |
| Tiers.LastPredefined | sandbox_2/sigh_dps_players.py:479 | The name of 2022 is "2022'-'2023" |
| Tiers.YearNameExample | sandbox_2/sigh_dps_players.py:479 | For 2010–2098 the name is "20xx'-'20yy" with the decimal digits |
| Containers.Lookup | sandbox_2/sigh_dps_players.py:359-360 | `d[name]` is the stored value when present, and raises KeyError otherwise |
| Containers.School.GetYear | sandbox_2/sigh_dps_players.py:359-360 | `years[name]`, through `Lookup`: the stored year or KeyError |
| Containers.School.GetAllCourses | sandbox_2/sigh_dps_players.py:364-365 | As written, the years dict. `CourseShadowsYear` states the consequence |
| Containers.School.GetCourse | sandbox_2/sigh_dps_players.py:366-367 | As written, `years[name]`: the same lookup as `get_year`, which `CourseShadowsYear` states |
| Containers.LookupAfterStore | sandbox_2/sigh_dps_players.py:361-362 | After a store, that name looks up the new value and other names are unchanged |
| Containers.School.constructor | sandbox_2/sigh_dps_players.py:343-345 | Empty teachers and years, and name ""; the as-written TypeError is under "## Left out" |
| Containers.School.SetName | sandbox_2/sigh_dps_players.py:349-350 | Only the name changes |
| Containers.School.SetTeacher | sandbox_2/sigh_dps_players.py:354-355 | Only that teacher entry changes |
| Containers.School.SetYear | sandbox_2/sigh_dps_players.py:361-362 | Only that year entry changes |
| Containers.School.SetCourse | sandbox_2/sigh_dps_players.py:368-369 | As written, a course is stored in the years dict |
| Containers.CourseShadowsYear | sandbox_2/sigh_dps_players.py:364-369 | A course stored under a year's name replaces that year, and `get_year` and `get_course` agree |
| Containers.Year.constructor | sandbox_2/sigh_dps_players.py:485-488 | Empty name, study lines and courses; the as-written TypeError is under "## Left out" |
| Containers.Year.GetSchool | sandbox_2/sigh_dps_players.py:490-491 | As written, the year's name, not a school |
| Containers.Year.GetStudyLine | sandbox_2/sigh_dps_players.py:500-501 | `studylines[name]` through `Lookup`: the stored study line or KeyError |
| Containers.Year.GetCourse | sandbox_2/sigh_dps_players.py:507-508 | `courses[name]` through `Lookup`. `SetThenGetCourse` states that it reads back what `set_course` stored |
| Containers.Year.SetName | sandbox_2/sigh_dps_players.py:495-496 | Only the name changes |
| Containers.Year.SetStudyLine | sandbox_2/sigh_dps_players.py:502-503 | Only that study line entry changes |
| Containers.Year.SetCourse | sandbox_2/sigh_dps_players.py:509-510 | Only that course entry changes |
| Containers.SetThenGetCourse | sandbox_2/sigh_dps_players.py:505-510 | `get_course` returns the course just set, and other courses are unchanged |
| Containers.Course.constructor | sandbox_2/sigh_dps_players.py:514-517 | Empty name, no information page, no terms; the as-written TypeError is under "## Left out" |
| Containers.Course.GetTerm | sandbox_2/sigh_dps_players.py:526-527 | `course_terms[name]` through `Lookup`. `SetThenGetTerm` states that it reads back what `set_term` stored |
| Containers.Course.SetName | sandbox_2/sigh_dps_players.py:521-522 | Only the name changes |
| Containers.Course.SetTerm | sandbox_2/sigh_dps_players.py:528-529 | Only that term entry changes |
| Containers.Course.SetInfoPage | sandbox_2/sigh_dps_players.py:533-534 | Only the information page changes |
| Containers.SetThenGetTerm | sandbox_2/sigh_dps_players.py:524-529 | `get_term` returns the term just set, and other terms are unchanged |
| Containers.CourseTerm.constructor | sandbox_2/sigh_dps_players.py:538-541 | Empty name, no evaluation, no grade sheet; the as-written TypeError is under "## Left out" |
| Containers.CourseTerm.SetName | sandbox_2/sigh_dps_players.py:545-546 | Only the name changes |
| Containers.CourseTerm.SetGradeSheet | sandbox_2/sigh_dps_players.py:550-551 | Only the grade sheet changes |
| Containers.CourseTerm.SetEvaluation | sandbox_2/sigh_dps_players.py:555-556 | Only the evaluation changes |
| Daos.Stored | sandbox_3/choose_love.py:97-98 | A write assigns exactly its key (the file store writes nothing), and other keys are unchanged |
| Daos.Dao.Registry | sandbox_3/choose_love.py:88-89 | A registry starts empty |
| Daos.Dao.FileAccess | sandbox_3/choose_love.py:101-113 | A file store keeps no dict |
| Daos.Dao.Exists | sandbox_3/choose_love.py:48-49 | `exists`: key membership in the dict for the registry and the disk store (lines 91-92), and `key == "str"` for the file store (lines 103-105). `Get`, `SetUniqueKey` and their checked forms are stated over it |
| Daos.Dao.DiskAccess | sandbox_3/legacy_stuff.py:65-85 | The disk store loads the file's dict, and the dict is empty when there is no file |
| Daos.Dao.Read | sandbox_3/choose_love.py:94-110 | `_read` gives the stored value, or KeyError. The file store asserts the key is "hey" and answers a new object |
| Daos.Dao.Write | sandbox_3/legacy_stuff.py:76-78 | `_write` assigns the key in the dict; the file write that follows on the disk store is left out as I/O |
| Daos.Dao.Get | sandbox_3/choose_love.py:51-72 | As written, `get` raises KeyError whenever the key exists, so the registry and the disk store never read. The file store answers only "hey", raising KeyError on "str" and AssertionError on every other key |
| Daos.Dao.SetUniqueKey | sandbox_3/choose_love.py:55-68 | As written, `set_unique_key` writes exactly when the key already exists, and raises KeyError otherwise |
| Daos.Dao.GetChecked | sandbox_3/choose_love.py:51-53 | With the guard its name describes, `get` raises KeyError for a missing key and otherwise reads the value |
| Daos.Dao.SetUniqueKeyChecked | sandbox_3/choose_love.py:55-57 | With the guard its name describes, `set_unique_key` writes exactly when the key is absent |
| Daos.Dao.SetIfKeyMissing | sandbox_3/choose_love.py:59-61 | Writes only an absent key, so no value is ever replaced; afterwards the registry and the disk store hold the key |
| Daos.StoredKeyUnreadable | sandbox_3/legacy_stuff.py:12-33 | As written, a key just stored in a registry cannot be read back |
| Daos.StoredKeyReadable | sandbox_3/choose_love.py:51-57 | With the intended guards, a unique key written to a registry reads back |
| Daos.Lacking | sandbox_3/choose_love.py:121-126 | The DAOs the first loop collects. `LackingReversed`, `LackingMembers` and `LackingDistinct` state them |
| Daos.LackingReversed | sandbox_3/choose_love.py:121-126 | `insert(0)` collects the DAOs lacking the key in reverse list order |
| Daos.LackingMembers | sandbox_3/choose_love.py:121-126 | The collected DAOs are exactly those lacking the key |
| Daos.LackingDistinct | sandbox_3/choose_love.py:121-126 | No DAO is collected twice |
| Daos.Scan | sandbox_3/choose_love.py:122-124 | The first loop of `DataManager.get`. `ScanLastHolder`, `ScanNone` and `ScanRaisePersists` state it |
| Daos.ScanLastHolder | sandbox_3/choose_love.py:122-124 | The value found is that of the last DAO holding the key, because the loop does not break |
| Daos.ScanNone | sandbox_3/choose_love.py:122-129 | With no holder, nothing is found |
| Daos.ScanRaisePersists | sandbox_3/choose_love.py:122-124 | A failing read stops the loop |
| Daos.DataManager.constructor | sandbox_3/choose_love.py:116-117 | The manager keeps its DAO list |
| Daos.DataManager.InitializeDaoList | sandbox_3/choose_love.py:131-135 | Appends a registry and a file store, then always raises ValueError, because a bound method is never `True` |
| Daos.DataManager.CollectMissing | sandbox_3/choose_love.py:121-126 | The first loop computes the scan, and collects the lacking DAOs in reverse order |
| Daos.DataManager.Get | sandbox_3/choose_love.py:120-129 | Returns the last holder's value and writes it into exactly the DAOs lacking the key. A failing read raises with nothing written. With no holder it raises UnboundLocalError |
| Daos.CopyInto | sandbox_3/choose_love.py:127-128 | Each lacking DAO receives the value |
| ContextDicts.Gathered | website/context_dicts.py:23-30 | `temp_dct` is a well-formed dict |
| ContextDicts.CategoryList | website/context_dicts.py:26-30 | The list `temp_dct` pools for one category: the lists of its contributing args, concatenated in order. `CategoryListMembers` states its members |
| ContextDicts.GatheredSpec | website/context_dicts.py:23-30 | `temp_dct` holds exactly the categories of contributing args, each with its combined list |
| ContextDicts.CategoryListMembers | website/context_dicts.py:26-30 | A category's list holds exactly the courses of the contributing args (entry k in category c) |
| ContextDicts.IntersectAllSpec | website/context_dicts.py:31-38 | The result is the courses in every list; it is empty when there are no lists |
| ContextDicts.FilteredCourses | website/context_dicts.py:21-39 | `create_filtered_list_from_url_args`'s result. `FilteredCoursesSpec` states which courses it holds |
| ContextDicts.FilteredCoursesSpec | website/context_dicts.py:21-39 | A course is displayed exactly when some arg contributes and the course is in every contributing category's list |
| ContextDicts.GatheredNone | website/context_dicts.py:24-30 | Without contributing args, `temp_dct` is empty |
| ContextDicts.NoFiltersShowNothing | website/context_dicts.py:31-39 | Without contributing args, the result is the empty set |
| ContextDicts.ArgsOf | website/context_dicts.py:24-25 | The url args as (entry, category) pairs in dict order |
| ContextDicts.Contributes | website/context_dicts.py:26 | An arg counts when its category is in the filter file and its entry is one of that category's entries; `GatheredSpec` and `FilteredCoursesSpec` are stated over it |
| ContextDicts.CreateFilteredList | website/context_dicts.py:21-39 | The two loops compute the filtered set |
| ContextDicts.GatherArgs | website/context_dicts.py:23-30 | The first loop computes `temp_dct` |
| ContextDicts.IntersectLists | website/context_dicts.py:31-38 | The second loop computes the intersection |
| ContextDicts.IntersectAll | website/context_dicts.py:31-38 | The first list as a set, intersected with each later one, and empty for no lists. `IntersectAllSpec` states its members |
| ContextDicts.Arranged | website/context_dicts.py:43-48 | `get_arranged_lst`'s result. `ArrangedSpec` states it |
| ContextDicts.ArrangedSpec | website/context_dicts.py:43-48 | `get_arranged_lst` keeps exactly the order's elements that are in the set, with their multiplicity, as a subsequence of the order |
| ContextDicts.GetArrangedList | website/context_dicts.py:43-48 | The loop computes it |
| ContextDicts.Values | website/context_dicts.py:55 | `list(d.values())`: one value per key, value i being the one stored under key i |
| ContextDicts.TurnSetIntoSortedList | website/context_dicts.py:41-69 | A missing or unknown sort_by arranges by `courses()` values. Otherwise it uses the loaded file's keys, reversed when the flag is set |
| ContextDicts.Query | website/context_dicts.py:131-139 | The query string is empty exactly when no filter is selected |
| ContextDicts.QueryAppend | website/context_dicts.py:136-139 | The first filter is prefixed with '?' and later ones with '&', as "k=c" |
| ContextDicts.Selected | website/context_dicts.py:133-139 | The contributing args in url order, whose query string `CurrentArgs` returns |
| ContextDicts.SortValue | website/context_dicts.py:140-141 | The value of the last sort_by arg that is not a filter, or "". `SortValueAbsent` and `SortValueAt` state it |
| ContextDicts.SortValueAbsent | website/context_dicts.py:140-141 | Without a sort_by arg, the recorded sort_by is "" |
| ContextDicts.SortValueAt | website/context_dicts.py:133-141 | A sort_by arg that is not a filter is recorded as its value; one that is a filter is not recorded |
| ContextDicts.SortValueOfDict | website/context_dicts.py:133-141 | The same, stated over the url-args dict |
| ContextDicts.CurrentArgs | website/context_dicts.py:129-143 | The loop computes the query string of the contributing args and the recorded sort_by |
| ContextDicts.ScanArgs | website/context_dicts.py:133-141 | The loop body computes both strings |
| ContextDicts.TotalBounds | website/context_dicts.py:151-154 | With counted values in [lo, hi], the total lies between count·lo and count·hi |
| ContextDicts.AverageBounds | website/context_dicts.py:147-160 | The average of counted values in [lo, hi] lies in [lo, hi] |
| ContextDicts.UncountedIgnored | website/context_dicts.py:152 | Zeros and non-numbers do not change the average |
| ContextDicts.Average | website/context_dicts.py:150-158 | The mean of the counted values, 0 when none count. `AverageBounds` and `UncountedIgnored` state its range and what it ignores |
| ContextDicts.CalculateAverage | website/context_dicts.py:147-160 | The average of the nonzero numeric entries of the listed courses (0 when there are none); a course missing from the dict raises KeyError |
| JsonChecks.Classify | jsontest.py:21-30 | A page goes to the first test it passes, or to "else" |
| JsonChecks.RecordsLength | jsontest.py:15-21 | The records of all files number `data_len` |
| JsonChecks.CountsOf | jsontest.py:21-30 | The counters after some records. `CountsOfClasses` and `CountsOfSum` state what each counts and their total |
| JsonChecks.CountsOfClasses | jsontest.py:21-30 | Counter c is the number of records whose page goes to test c (c = the number of tests meaning "else") |
| JsonChecks.CountsOfSum | jsontest.py:21-32 | The counters add up to the number of records |
| JsonChecks.LastElseKeySpec | jsontest.py:28-30 | `unknown_key` is the key of the last unclassified record |
| JsonChecks.LastElseKeyNone | jsontest.py:13-30 | Without unclassified records, `unknown_key` is "" |
| JsonChecks.TallyItems | jsontest.py:21-30 | The record loop of one file extends the counts and `unknown_key` |
| JsonChecks.Tally | jsontest.py:15-30 | The file loop computes the counts, `data_len` and `unknown_key` over the records of all files |
| JsonChecks.FilesOf | jsontest.py:15-18 | One file per listed term, in term order |
| JsonChecks.FileName | jsontest.py:16 | "html_persistence/{term}_{kind}.json", the file each check opens |
| JsonChecks.GradeCheck | jsontest.py:8-37 | Each counter counts its class, in the order 404, then average, then few grades, then else; e404+grade+fewgrade+else == data_len |
| JsonChecks.EvaluationCheck | jsontest.py:44-69 | An empty page counts as e404, an evaluation needs both markers, and the counters add up to data_len |
| JsonChecks.InfoCheck | jsontest.py:76-101 | "Unknown coursecode" is matched before "Course information", and the counters add up to data_len |

## Findings

| source | as written | input that shows it | evidently intended | confidence | as-written member | corrected member |
|---|---|---|---|---|---|---|
| sandbox/grade_sheet.py:70 | `len(count)` is applied to the int `count` at lines 70 and 73 | any sheet | `count == 0` and `weighted_sum / count`, as the docstring says | not executed | GradeSheets.GradeSheet.CalculateAverageAsWritten | GradeSheets.GradeSheet.CalculateAverage |
| sandbox/grade_sheet.py:14-18 | `_grade_10`, `_grade_7`, `_grade_4` and `_grade_02` are all built as `('12', 12)` | one student with a 10: the sheet averages 12.0 | the catalogue's ('10', 10), ('7', 7), ('4', 4), ('02', 2), as in `instantiate_dtu_grades` | not executed | GradeSheets.AsWrittenSheetMislabels | GradeSheets.GradeSheet.constructor |
| sandbox/urls.py:37-41 | `term[-2:]` keeps the last two chars of the term name | "E5", the name `Term(2005, 'E')` produces, gives "Winter-20E5" | all the digits after the semester letter, giving "Winter-2005" | not executed | Urls.ConvertSingleDigitTermName | Urls.ConvertTermNameByYearGivesExamPeriod |
| sandbox_3/choose_love.py:66-72 | the two guards raise on the opposite condition to their names | a key stored with `set_if_key_missing`, then `get` of it, raises KeyError | `get` raises for a missing key and `set_unique_key` raises for an existing key | not executed | Daos.StoredKeyUnreadable | Daos.StoredKeyReadable |

## Left out

- Browser automation and the network (Selenium, timeouts) are outside the model.
  - `Transport.Fetcher` stands in for them. It holds a page function `web`, a predicate
    `loads` saying which URLs load before the timeout, and a search-page function, and it
    logs every URL and course it is asked for.
  - `get_page_source` gives "" on a timeout. `Webdriver.run_webdriver` raises
    TimeoutError. `Scrape.run_webdriver` gives None.
- BeautifulSoup and pandas are outside the model. A parser receives what it would have found:
  - `Option<seq<Row>>` for `soup.find('table')`;
  - the list of tables for `find_all('table')`;
  - `TermDiv`s for the `Term` divs;
  - `HtmlTables` for `pd.read_html`. This is an HTTP failure, a page with no tables at all
    (pandas raises ValueError, which `HtmlTables.NoTables` models), or a list of tables
    with their header names and the `Karakter` rows.
  - These arrive through a `soup` parameter.
- ParseGradesSpec: the order in which two different labels that capitalize alike (say
  "bestået" and "Bestået") override each other is not stated. `GradeCountsValues` says
  the stored count belongs to one of them, and `GradeCountsLastWins` gives the exact count
  only when capitalizing merges no labels.
- All file I/O is outside the model: `persistence.py`, the json files of `DiskAccess`,
  `load_dct_from_json_file` and jsontest's `open`/`json.load`. The loaded dicts are
  parameters, and `DiskAccess`'s file is a field.
- Printing is left out: jsontest's printed lines and `parse_data`'s duplicate-id message.
- Float rounding is left out. `summary_stats` (website/context_dicts.py:156-158) rounds and
  truncates the mean; the model keeps the exact `real` mean. Averages in
  `grade_sheet.py` are exact rationals too.
- ContextDicts.CalculateAverage: does not model Python's `bool` values, which are ints with
  `type(...) == bool`, or any other json type; every non-number is `JsonOther`.
- `HtmlParser.parse_search_for_evaluation_urls`, which `url_locator.py:34` calls, does not
  exist. `locate_evaluations` therefore takes the semester → digits dict directly, and
  `DataExtractor`/`HtmlScraper` take the parser as a function parameter (`hrefDigits`,
  `locateEvaluations`).
- `HtmlLocator` and `Term.validate_string` (html_scraper.py) do not exist.
  - The four locating functions are constructor parameters of `HtmlScraper`.
  - `validate_string` is taken as the identity on the term string.
- `Scrapes.get_grades` calls `locate_names` with two arguments, and `_scrape_grades` is
  `pass`. `Urls.access_hrefs_needed_for_evals` is `pass` and `Urls.__init__` only sets a
  name. None of them is modelled.
- `DataContainer.retrieve_data` calls strategy methods that do not exist. Those are
  `data_exists`, `read_data`, `cached_data_exists`, `set_unparsed_data`,
  `scrape_and_store_raw_data`, `parse_and_store_data_map` and `get_parsed_data`.
  - The model maps them onto the strategy's tier methods, with the store those assume
    (see the next lines): `parsed_data_exists`/`load_parsed_data`,
    `scraped_data_exists`/`load_scraped_data`, `scrape_data` + `store_scraped_data` and
    `parse_data` + `store_parsed_data`.
- LoadScrapedData: `Persistence.read_from_cache` does not exist. `Persistence`
  (sigh_dps_players.py:12-27) has only `pass` stubs named `data_exists`,
  `cached_data_exists`, `read_data`, `write_data`, `read_cache` and `write_cache`. As
  written the call raises AttributeError. The model reads the intended cache, a map from
  key to page, and a missing key raises KeyError as a dict does.
- LoadParsedData: `Persistence.read_from_database` does not exist, so as written it raises
  AttributeError. The model reads the intended database, a map from key to dict, with
  KeyError for a missing key.
- LoadDeserializedData: `Persistence.read_from_memory` does not exist, so as written it
  raises AttributeError. The model reads the intended memory, a map from key to object or
  None, with KeyError for a missing key.
- StoreScrapedData: `Persistence.write_to_cache` does not exist, so as written it raises
  AttributeError. The model writes the intended cache map under the scrape key.
- StoreParsedData: `Persistence.write_to_database` does not exist, so as written it raises
  AttributeError. The model writes the intended database map under the parse key.
- StoreDeserializedData: `Persistence.write_to_memory` does not exist, so as written it
  raises AttributeError. The model writes the intended memory map under the deserialize
  key, None included.
- The `exists_in_cache`/`exists_in_database`/`exists_in_memory` checks that
  `scraped_data_exists` and its siblings call do not exist either. The model takes them as
  key membership in the same three maps.
  - `DataStrategy.retrieve_data` and `deserialize_data`, the subclasses' abstract
    `scrape_*`/`parse_*` stubs, and the other `DataStrategy` subclasses are not modelled.
- The isinstance-on-strings dispatch (sigh_dps_players.py:224-238), the `SchoolBuilder`
  calls with the wrong number of arguments, and the trivial get/set accessors of
  `DataContainer` (data strategy, domain, parent) are not modelled.
- In `Containers`, entities are plain objects. `Course.info_page` starts as None rather
  than as an empty dict.
- Containers.School.constructor: as written `School()` raises TypeError, because
  `School` does not override the abstract `DataContainer.initialize_data_strategy`
  (sigh_dps_players.py:309-311). Its `__init__` also skips `super().__init__()` and never
  sets `name`, so `get_name` raises AttributeError until `set_name` is called. The model
  builds the empty school the class evidently means, with name "".
- Containers.Year.constructor: as written `Year()` raises TypeError, because `Year` does not
  override the abstract `initialize_data_strategy`. The model builds the empty year.
- Containers.Course.constructor: as written `Course()` raises TypeError for the same
  reason. The model builds the empty course.
- Containers.CourseTerm.constructor: as written `CourseTerm()` raises TypeError for the same
  reason. The model builds the empty course term.
- `grades.py` `calculate_average` adds tuples to an int, so it cannot run. It is not
  modelled. `format_scraped_dict`, `find_grade_average`, `exam_percentage_passed`,
  `create_statistics_dict` and `number_of_semesters` have empty bodies.
- GradeCounts.GradeSheet.CountPassed: in `grades.py` the `get_*` methods return Grade
  objects, so as written `count_passed` adds a Grade to an int (TypeError), and it has no
  `return`. The model sums the quantities of the passing grades, as the method evidently
  means, and states the partitions over that.
- GradeCounts.GradeSheet.CountFailed: as written it adds Grade objects to an int
  (TypeError) and has no `return`. The model sums the failing grades' quantities.
- GradeCounts.GradeSheet.CountAbsent: as written it adds a Grade object to an int
  (TypeError). The model sums the absent grades' quantities.
- GradeCounts.GradeSheet.CountNumeric: as written it adds Grade objects to an int
  (TypeError). The model sums the numeric grades' quantities.
- GradeCounts.GradeSheet.CountBinary: as written it adds Grade objects to an int
  (TypeError). The model sums the pass and fail grades' quantities.
- Daos.Dao.Write: for the disk store, `_save_data` opens the file for writing, which
  empties it, and then `json.dump` raises TypeError on the `DataObject` values. The model
  keeps the dict update and leaves the file write out as I/O, saving the dict as the
  source intends.
- Daos.DataManager.Get: modelled over the DAO guards that match their names
  (`GetChecked`/`SetUniqueKeyChecked`). With the guards as written, every `get` on a
  registry raises, as `Daos.StoredKeyUnreadable` shows.
- The DataManager constructor, which always raises through `_initialize_dao_list`, is
  modelled as a constructor over a given DAO list. `InitializeDaoList` is a separate
  method.
- `DataObject.generate_key`, `Container.add`, `TimePeriod` and the other value classes of
  `choose_love.py` have no behaviour the DAOs use, and are not modelled.
- Python's string order is code-point order (`StringOrder`) applied to whole strings, and
  `sorted` is modelled by an insertion sort with its permutation and sortedness proved.
  `str.strip` uses Python's full set of whitespace characters. `str.capitalize` maps
  case for ASCII and Latin-1 letters only, so ÿ, ß and letters beyond Latin-1 keep their
  case, where Python maps them.
